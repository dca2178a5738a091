/**
 Decoding of application/x-www-form-urlencoded bodies (section 5.1 of the WHATWG URL Standard, without
 percent decoding): the scan that the source's loop performs, and the encoding it undoes.
 */
module HttpForm {

  /**
   One scan: `cur` holds the decoded characters since the last separator, `key` the last key seen.
   The last pair is stored at the end of the text, even when the text ends with `&`.
   */
  function Scan(rest: string, cur: string, key: string, post: map<string, string>): map<string, string>
    decreases |rest|
  {
    if rest == "" then post[key := cur]
    else match rest[0]
      case '+' => Scan(rest[1..], cur + " ", key, post)
      case '=' => Scan(rest[1..], "", cur, post)
      case '&' => Scan(rest[1..], "", key, post[key := cur])
      case c => Scan(rest[1..], cur + [c], key, post)
  }

  lemma ScanStep(rest: string, cur: string, key: string, post: map<string, string>)
    requires rest != ""
    ensures rest[0] == '+' ==> Scan(rest, cur, key, post) == Scan(rest[1..], cur + " ", key, post)
    ensures rest[0] == '=' ==> Scan(rest, cur, key, post) == Scan(rest[1..], "", cur, post)
    ensures rest[0] == '&' ==> Scan(rest, cur, key, post) == Scan(rest[1..], "", key, post[key := cur])
    ensures rest[0] !in "+=&" ==> Scan(rest, cur, key, post) == Scan(rest[1..], cur + [rest[0]], key, post)
  {
  }

  function PlusToSpace(s: string): (t: string)
    ensures |t| == |s|
    ensures forall i :: 0 <= i < |s| ==> t[i] == if s[i] == '+' then ' ' else s[i]
  {
    if s == "" then "" else [if s[0] == '+' then ' ' else s[0]] + PlusToSpace(s[1..])
  }

  // ---------- Encoding ----------

  datatype Pair = Pair(key: string, value: string)

  /** What a field must avoid: percent decoding is missing, so these characters cannot be sent. */
  predicate Plain(s: string) {
    '=' !in s && '&' !in s && '+' !in s
  }

  predicate PlainPairs(ps: seq<Pair>) {
    forall i :: 0 <= i < |ps| ==> Plain(ps[i].key) && Plain(ps[i].value)
  }

  function EncodeField(s: string): string {
    if s == "" then "" else [if s[0] == ' ' then '+' else s[0]] + EncodeField(s[1..])
  }

  function EncodePair(p: Pair): string {
    EncodeField(p.key) + "=" + EncodeField(p.value)
  }

  function EncodeForm(ps: seq<Pair>): string
    requires ps != []
  {
    if |ps| == 1 then EncodePair(ps[0]) else EncodePair(ps[0]) + "&" + EncodeForm(ps[1..])
  }

  /** Stores the pairs in order, later ones over earlier ones. */
  function StoreAll(m: map<string, string>, ps: seq<Pair>): map<string, string>
    decreases |ps|
  {
    if ps == [] then m else StoreAll(m[ps[0].key := ps[0].value], ps[1..])
  }

  /** Keys that no pair has keep their value, or stay absent. */
  lemma {:induction false} OtherKeysKept(m: map<string, string>, ps: seq<Pair>, k: string)
    requires forall i :: 0 <= i < |ps| ==> ps[i].key != k
    ensures k in StoreAll(m, ps) <==> k in m
    ensures k in m ==> StoreAll(m, ps)[k] == m[k]
    decreases |ps|
  {
    if ps != [] {
      OtherKeysKept(m[ps[0].key := ps[0].value], ps[1..], k);
    }
  }

  /** Of several pairs with one key, the last one decides. */
  lemma {:induction false} LastPairWins(m: map<string, string>, ps: seq<Pair>, i: nat)
    requires i < |ps| && forall j :: i < j < |ps| ==> ps[j].key != ps[i].key
    ensures ps[i].key in StoreAll(m, ps) && StoreAll(m, ps)[ps[i].key] == ps[i].value
    decreases |ps|
  {
    var m1 := m[ps[0].key := ps[0].value];
    if i == 0 {
      OtherKeysKept(m1, ps[1..], ps[0].key);
    } else {
      LastPairWins(m1, ps[1..], i - 1);
    }
  }

  /** Scanning an encoded field appends the field. */
  lemma {:induction false} ScanField(f: string, rest: string, cur: string, key: string, post: map<string, string>)
    requires Plain(f)
    ensures Scan(EncodeField(f) + rest, cur, key, post) == Scan(rest, cur + f, key, post)
    decreases |f|
  {
    var text := EncodeField(f) + rest;
    if f == "" {
      assert text == rest && cur + f == cur;
    } else {
      assert text[1..] == EncodeField(f[1..]) + rest;
      ScanField(f[1..], rest, cur + [f[0]], key, post);
      assert cur + [f[0]] + f[1..] == cur + f;
    }
  }

  lemma ScanPair(p: Pair, tail: string, key: string, post: map<string, string>)
    requires Plain(p.key) && Plain(p.value)
    ensures Scan(EncodePair(p) + tail, "", key, post) == Scan(tail, p.value, p.key, post)
  {
    var afterKey := "=" + (EncodeField(p.value) + tail);
    assert EncodePair(p) + tail == EncodeField(p.key) + afterKey;
    ScanField(p.key, afterKey, "", key, post);
    assert "" + p.key == p.key && "" + p.value == p.value;
    assert afterKey[1..] == EncodeField(p.value) + tail;
    ScanField(p.value, tail, "", p.key, post);
  }

  /** The scan undoes the encoding: every non-empty list of plain pairs comes back as its last-wins map. */
  lemma {:induction false} ScanUndoesEncode(ps: seq<Pair>, key: string, post: map<string, string>)
    requires ps != [] && PlainPairs(ps)
    ensures Scan(EncodeForm(ps), "", key, post) == StoreAll(post, ps)
    decreases |ps|
  {
    hide Scan, EncodePair, EncodeField;
    var p := ps[0];
    if |ps| == 1 {
      assert EncodePair(p) + "" == EncodeForm(ps);
      ScanPair(p, "", key, post);
      ScanEnd(p.value, p.key, post);
      assert StoreAll(post, ps) == StoreAll(post[p.key := p.value], ps[1..]);
    } else {
      var rest := EncodeForm(ps[1..]);
      assert EncodePair(p) + ("&" + rest) == EncodeForm(ps);
      ScanPair(p, "&" + rest, key, post);
      ScanSeparator(rest, p.value, p.key, post);
      ScanUndoesEncode(ps[1..], p.key, post[p.key := p.value]);
    }
  }

  lemma ScanEnd(cur: string, key: string, post: map<string, string>)
    ensures Scan("", cur, key, post) == post[key := cur]
  {
  }

  lemma ScanSeparator(rest: string, cur: string, key: string, post: map<string, string>)
    ensures Scan("&" + rest, cur, key, post) == Scan(rest, "", key, post[key := cur])
  {
    assert ("&" + rest)[1..] == rest;
  }

  // ---------- A trailing `&` ----------

  /** The key in force at the end of a scan. */
  function LastKey(rest: string, cur: string, key: string): string
    decreases |rest|
  {
    if rest == "" then key
    else match rest[0]
      case '+' => LastKey(rest[1..], cur + " ", key)
      case '=' => LastKey(rest[1..], "", cur)
      case '&' => LastKey(rest[1..], "", key)
      case c => LastKey(rest[1..], cur + [c], key)
  }

  lemma {:induction false} TrailingAmpersandStoresEmpty(s: string, cur: string, key: string, post: map<string, string>)
    ensures Scan(s + "&", cur, key, post) == Scan(s, cur, key, post)[LastKey(s, cur, key) := ""]
    ensures LastKey(s, cur, key) in Scan(s, cur, key, post)
    decreases |s|
  {
    if s == "" {
      assert s + "&" == "&" && "&"[1..] == "";
    } else {
      assert (s + "&")[1..] == s[1..] + "&";
      match s[0]
      case '+' => TrailingAmpersandStoresEmpty(s[1..], cur + " ", key, post);
      case '=' => TrailingAmpersandStoresEmpty(s[1..], "", cur, post);
      case '&' => TrailingAmpersandStoresEmpty(s[1..], "", key, post[key := cur]);
      case c => TrailingAmpersandStoresEmpty(s[1..], cur + [c], key, post);
    }
  }

  /** What is being read when the text ends was empty just before, or starts after a separator. */
  predicate EndsEmpty(s: string) {
    s == "" || s[|s| - 1] == '=' || s[|s| - 1] == '&'
  }

  lemma {:induction false} LastValueIsEmptyIff(s: string, cur: string, key: string, post: map<string, string>)
    ensures LastKey(s, cur, key) in Scan(s, cur, key, post)
    ensures Scan(s, cur, key, post)[LastKey(s, cur, key)] == "" <==> if s == "" then cur == "" else EndsEmpty(s)
    decreases |s|
  {
    if s != "" {
      match s[0]
      case '+' => LastValueIsEmptyIff(s[1..], cur + " ", key, post);
      case '=' => LastValueIsEmptyIff(s[1..], "", cur, post);
      case '&' => LastValueIsEmptyIff(s[1..], "", key, post[key := cur]);
      case c => LastValueIsEmptyIff(s[1..], cur + [c], key, post);
    }
  }

  /**
   A trailing `&` is meant to be ignored.  The test for it never holds, so the last key's value is replaced
   by the empty string: the result is the intended one exactly when the body before it is empty or ends in `=` or `&`.
   */
  lemma TrailingAmpersandHarmlessIff(s: string)
    ensures Scan(s + "&", "", "", map[]) == Scan(s, "", "", map[]) <==>
              s == "" || s[|s| - 1] == '=' || s[|s| - 1] == '&'
  {
    TrailingAmpersandStoresEmpty(s, "", "", map[]);
    LastValueIsEmptyIff(s, "", "", map[]);
    var m := Scan(s, "", "", map[]);
    var k := LastKey(s, "", "");
    if m[k] == "" {
      assert m[k := ""] == m;
    }
  }

  lemma {:induction false} EncodedFormEndsEmptyIff(ps: seq<Pair>)
    requires ps != [] && PlainPairs(ps)
    ensures EncodeForm(ps) != "" && (EndsEmpty(EncodeForm(ps)) <==> ps[|ps| - 1].value == "")
    decreases |ps|
  {
    hide EncodeField, EndsEmpty;
    var p := ps[0];
    if |ps| == 1 {
      EncodedFieldEnd(p.value);
      SuffixEndsIt(EncodeField(p.key) + "=", EncodeField(p.value));
      SuffixEndsIt(EncodeField(p.key), "=");
      assert EncodeField(p.key) + "=" + "" == EncodeField(p.key) + "=";
    } else {
      EncodedFormEndsEmptyIff(ps[1..]);
      SuffixEndsIt(EncodePair(p) + "&", EncodeForm(ps[1..]));
    }
  }

  lemma SuffixEndsIt(a: string, b: string)
    ensures b != "" ==> (EndsEmpty(a + b) <==> EndsEmpty(b))
    ensures EndsEmpty("=")
  {
  }

  lemma {:induction false} EncodedFieldEnd(f: string)
    requires Plain(f)
    ensures |EncodeField(f)| == |f| && (f != "" ==> !EndsEmpty(EncodeField(f)))
  {
    if f != "" {
      EncodedFieldEnd(f[1..]);
    }
  }

  /** For an encoded form: exactly when its last value is empty. */
  lemma TrailingAmpersandOnFormHarmlessIff(ps: seq<Pair>)
    requires ps != [] && PlainPairs(ps)
    ensures Scan(EncodeForm(ps) + "&", "", "", map[]) == StoreAll(map[], ps) <==> ps[|ps| - 1].value == ""
  {
    ScanUndoesEncode(ps, "", map[]);
    EncodedFormEndsEmptyIff(ps);
    TrailingAmpersandHarmlessIff(EncodeForm(ps));
  }
}
