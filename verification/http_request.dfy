/**
 The line-driven request parser: the message forms it accepts (sections 3 and 5 of RFC 9112, as far as the
 source implements them), the parser as a function on text, and the parser object proved against it.
 */
module HttpParser {
  import opened ByteBuffer
  import opened HttpForm

  datatype Option<+T> = None | Some(value: T)

  const CRLF: string := "\r\n"

  predicate CrlfAt(s: string, i: int) {
    0 <= i && i + 1 < |s| && s[i] == '\r' && s[i + 1] == '\n'
  }

  /** Where std::search finds the first CRLF; the end of the text if there is none. */
  function LineEnd(s: string): (n: nat)
    ensures n <= |s| && (n < |s| ==> CrlfAt(s, n))
    ensures forall i :: 0 <= i < n ==> !CrlfAt(s, i)
  {
    if s == "" || CrlfAt(s, 0) then 0
    else
      assert forall i :: 0 < i ==> (CrlfAt(s, i) <==> CrlfAt(s[1..], i - 1));
      1 + LineEnd(s[1..])
  }

  /** What one line takes from the text: the line and its CRLF, or just the line if it is the last and has none. */
  function Consumed(s: string): (n: nat)
    ensures n <= |s| && (s != "" ==> n > 0)
  {
    if LineEnd(s) < |s| then LineEnd(s) + 2 else |s|
  }

  function IndexOf(s: string, c: char): (n: nat)
    ensures n <= |s|
  {
    if s == "" || s[0] == c then 0 else 1 + IndexOf(s[1..], c)
  }

  lemma {:induction false} IndexOfIsFirst(s: string, c: char)
    ensures var n := IndexOf(s, c);
            c !in s[..n] && (n < |s| ==> s[n] == c)
  {
    if s != "" && s[0] != c {
      IndexOfIsFirst(s[1..], c);
      assert s[..IndexOf(s, c)] == [s[0]] + s[1..][..IndexOf(s[1..], c)];
    }
  }

  lemma {:induction false} IndexOfIs(a: string, c: char, b: string)
    requires c !in a
    ensures IndexOf(a + [c] + b, c) == |a|
  {
    if a != "" {
      assert (a + [c] + b)[1..] == a[1..] + [c] + b;
      IndexOfIs(a[1..], c, b);
    }
  }

  /** The text before and after the first c, if there is one. */
  function Cut(s: string, c: char): Option<(string, string)> {
    var i := IndexOf(s, c);
    if i == |s| then None else Some((s[..i], s[i + 1..]))
  }

  lemma CutIsFirst(s: string, c: char)
    requires Cut(s, c).Some?
    ensures var (a, b) := Cut(s, c).value;
            s == a + [c] + b && c !in a
  {
    IndexOfIsFirst(s, c);
  }

  lemma CutIs(a: string, c: char, b: string)
    requires c !in a
    ensures Cut(a + [c] + b, c) == Some((a, b))
  {
    IndexOfIs(a, c, b);
    var s := a + [c] + b;
    assert s[..|a|] == a && s[|a| + 1..] == b;
  }

  // ---------- The two patterns ----------

  datatype RequestLine = RequestLine(verb: string, path: string, version: string)

  const HTTP: string := "HTTP/"

  /** `^([^ ]*) ([^ ]*) HTTP/([^ ]*)$`, spelled out. */
  function MatchRequestLine(line: string): Option<RequestLine> {
    match Cut(line, ' ')
    case None => None
    case Some((verb, tail)) =>
      match Cut(tail, ' ')
      case None => None
      case Some((path, last)) =>
        if HTTP <= last && ' ' !in last then Some(RequestLine(verb, path, last[|HTTP|..])) else None
  }

  predicate Spaceless(r: RequestLine) {
    ' ' !in r.verb && ' ' !in r.path && ' ' !in r.version
  }

  function PrintRequestLine(r: RequestLine): string {
    r.verb + [' '] + (r.path + [' '] + (HTTP + r.version))
  }

  lemma MatchesPrinted(r: RequestLine)
    requires Spaceless(r)
    ensures MatchRequestLine(PrintRequestLine(r)) == Some(r)
  {
    var last := HTTP + r.version;
    var tail := r.path + [' '] + last;
    assert PrintRequestLine(r) == r.verb + [' '] + tail;
    CutIs(r.verb, ' ', tail);
    CutIs(r.path, ' ', last);
    assert last[|HTTP|..] == r.version;
  }

  lemma MatchedIsPrinted(line: string, r: RequestLine)
    requires MatchRequestLine(line) == Some(r)
    ensures line == PrintRequestLine(r) && Spaceless(r)
  {
    CutIsFirst(line, ' ');
    var tail := Cut(line, ' ').value.1;
    CutIsFirst(tail, ' ');
    var last := Cut(tail, ' ').value.1;
    assert last == HTTP + r.version;
  }

  /** The hand-written matcher means the pattern: it accepts exactly the printed forms of space-free fields. */
  lemma RequestLineMatchIff(line: string, r: RequestLine)
    ensures MatchRequestLine(line) == Some(r) <==> line == PrintRequestLine(r) && Spaceless(r)
  {
    if MatchRequestLine(line) == Some(r) {
      MatchedIsPrinted(line, r);
    } else if Spaceless(r) {
      MatchesPrinted(r);
    }
  }

  /** `^([^:]*): ?(.*)$`, spelled out; `.` matches neither CR nor LF. */
  function MatchHeader(line: string): Option<Pair> {
    match Cut(line, ':')
    case None => None
    case Some((key, tail)) =>
      var value := if tail != "" && tail[0] == ' ' then tail[1..] else tail;
      if '\r' in value || '\n' in value then None else Some(Pair(key, value))
  }

  predicate ColonFree(p: Pair) {
    ':' !in p.key
  }

  predicate OneLine(s: string) {
    '\r' !in s && '\n' !in s
  }

  /** The text after the colon stands for value: one leading space is dropped. */
  predicate IsHeaderTail(tail: string, value: string) {
    tail == " " + value || (tail == value && (value == "" || value[0] != ' '))
  }

  lemma HeaderTailIff(tail: string, value: string)
    ensures IsHeaderTail(tail, value) <==> value == if tail != "" && tail[0] == ' ' then tail[1..] else tail
  {
  }

  /** A header line gives a name and a value, with or without one space after the colon. */
  lemma HeaderMatchIff(line: string, p: Pair)
    ensures MatchHeader(line) == Some(p) <==>
              ColonFree(p) && OneLine(p.value) &&
              exists tail :: IsHeaderTail(tail, p.value) && line == p.key + [':'] + tail
  {
    if MatchHeader(line) == Some(p) {
      CutIsFirst(line, ':');
      var tail := Cut(line, ':').value.1;
      HeaderTailIff(tail, p.value);
      assert line == p.key + [':'] + tail;
    }
    if ColonFree(p) && OneLine(p.value) {
      forall tail | IsHeaderTail(tail, p.value) && line == p.key + [':'] + tail
        ensures MatchHeader(line) == Some(p)
      {
        HeaderTailIff(tail, p.value);
        CutIs(p.key, ':', tail);
      }
    }
  }

  lemma MatchesPrintedHeader(p: Pair)
    requires ColonFree(p) && OneLine(p.value)
    ensures MatchHeader(p.key + ": " + p.value) == Some(p)
  {
    var tail := " " + p.value;
    assert p.key + ": " + p.value == p.key + [':'] + tail;
    assert IsHeaderTail(tail, p.value);
    HeaderMatchIff(p.key + ": " + p.value, p);
  }

  // ---------- The parser as a function ----------

  datatype ParseState = REQUEST_LINE | HEADERS | BODY | FINISH

  function Rank(s: ParseState): nat {
    match s
    case REQUEST_LINE => 0
    case HEADERS => 1
    case BODY => 2
    case FINISH => 3
  }

  datatype Request = Request(
    state: ParseState,
    verb: string,
    path: string,
    version: string,
    body: string,
    headers: map<string, string>,
    post: map<string, string>
  )

  /** A connection is kept for version 1.1 with exactly this header value. */
  predicate KeepsAlive(r: Request) {
    "Connection" in r.headers && r.headers["Connection"] == "keep-alive" && r.version == "1.1"
  }

  const Blank := Request(REQUEST_LINE, "", "", "", "", map[], map[])

  /** The answers of the user database. */
  datatype Database = Database(verify: (string, string) -> bool, register: (string, string) -> bool)

  const DEFAULT_HTML: set<string> := {"/", "/index", "/register", "/login", "/welcome", "/picture", "/video"}

  function NormalizePath(path: string): string {
    if path !in DEFAULT_HTML then path
    else if path == "/" then "/index.html"
    else path + ".html"
  }

  /** Normalising a normalised path changes nothing. */
  lemma NormalizePathOnce(path: string)
    ensures NormalizePath(NormalizePath(path)) == NormalizePath(path)
  {
  }

  /** `_post[key]` on a map that may lack the key: the default is inserted. */
  function WithDefault(m: map<string, string>, key: string): map<string, string> {
    if key in m then m else m[key := ""]
  }

  const CONTENT_TYPE: string := "Content-Type"
  const FORM: string := "application/x-www-form-urlencoded"

  const LOGIN_PAGE: string := "/login.html"
  const REGISTER_PAGE: string := "/register.html"
  const WELCOME_PAGE: string := "/welcome.html"
  const ERROR_PAGE: string := "/error.html"
  const USERNAME: string := "username"
  const PASSWORD: string := "password"

  predicate IsForm(r: Request) {
    CONTENT_TYPE in r.headers && r.headers[CONTENT_TYPE] == FORM
  }

  function PostBody(r: Request, db: Database): (bool, Request) {
    if !IsForm(r) then (false, r)
    else
      var decoded := r.(body := PlusToSpace(r.body), post := Scan(r.body, "", "", r.post));
      if r.path != LOGIN_PAGE && r.path != REGISTER_PAGE then (true, decoded)
      else
        var post := WithDefault(WithDefault(decoded.post, USERNAME), PASSWORD);
        var name, password := post[USERNAME], post[PASSWORD];
        if r.path == REGISTER_PAGE then (db.register(name, password), decoded.(post := post))
        else
          var known := name != "" && db.verify(name, password);
          (true, decoded.(post := post, path := if known then WELCOME_PAGE else ERROR_PAGE))
  }

  function BodyLine(r: Request, line: string, db: Database): (bool, Request) {
    if r.verb != "POST" || line == "" then (true, r)
    else
      var (ok, r') := PostBody(r.(body := line), db);
      if ok then (true, r'.(state := FINISH)) else (false, r')
  }

  function HeaderLine(r: Request, line: string): (bool, Request) {
    if line == "" then (true, r.(state := BODY))
    else match MatchHeader(line)
      case Some(p) => (true, r.(headers := r.headers[p.key := p.value]))
      case None => (false, r)
  }

  function FirstLine(r: Request, line: string): (bool, Request) {
    match MatchRequestLine(line)
    case Some(l) =>
      (true, r.(verb := l.verb, path := NormalizePath(l.path), version := l.version, state := HEADERS))
    case None => (false, r)
  }

  function ParseLine(r: Request, line: string, db: Database): (bool, Request) {
    match r.state
    case REQUEST_LINE => FirstLine(r, line)
    case HEADERS => HeaderLine(r, line)
    case BODY => BodyLine(r, line, db)
    case FINISH => (true, r)
  }

  datatype Result = Result(ok: bool, request: Request, rest: string)

  /** Line after line until the text is used up, the request is finished, or a line fails. */
  function ParseLines(r: Request, text: string, db: Database): Result
    decreases |text|
  {
    if text == "" || r.state == FINISH then Result(true, r, text)
    else
      var (ok, r') := ParseLine(r, text[..LineEnd(text)], db);
      if !ok then Result(false, r', text) else ParseLines(r', text[Consumed(text)..], db)
  }

  lemma OneLineAtATime(r: Request, text: string, db: Database)
    requires text != "" && r.state != FINISH
    ensures var (ok, r') := ParseLine(r, text[..LineEnd(text)], db);
            ParseLines(r, text, db) ==
              if ok then ParseLines(r', text[Consumed(text)..], db) else Result(false, r', text)
  {
  }

  /** The parser only moves forward through its states. */
  lemma {:induction false} ParserNeverMovesBack(r: Request, text: string, db: Database)
    ensures Rank(r.state) <= Rank(ParseLines(r, text, db).request.state)
    ensures 0 == Rank(REQUEST_LINE) < Rank(HEADERS) < Rank(BODY) < Rank(FINISH)
    decreases |text|
  {
    if text != "" && r.state != FINISH {
      var (ok, r') := ParseLine(r, text[..LineEnd(text)], db);
      if ok {
        ParserNeverMovesBack(r', text[Consumed(text)..], db);
      }
    }
  }

  /** A successful parse stops at the end of the text or, with bytes left over, only in FINISH. */
  lemma {:induction false} SuccessUsesTheText(r: Request, text: string, db: Database)
    ensures var p := ParseLines(r, text, db);
            p.ok ==> p.rest == "" || p.request.state == FINISH
    decreases |text|
  {
    if text != "" && r.state != FINISH {
      var (ok, r') := ParseLine(r, text[..LineEnd(text)], db);
      if ok {
        SuccessUsesTheText(r', text[Consumed(text)..], db);
      }
    }
  }

  /** A text that is not accepted is not used up: the line that failed is still there. */
  lemma {:induction false} FailureLeavesText(r: Request, text: string, db: Database)
    ensures !ParseLines(r, text, db).ok ==> ParseLines(r, text, db).rest != ""
    decreases |text|
  {
    if text != "" && r.state != FINISH {
      OneLineAtATime(r, text, db);
      var (ok, r') := ParseLine(r, text[..LineEnd(text)], db);
      if ok {
        FailureLeavesText(r', text[Consumed(text)..], db);
      }
    }
  }

  // ---------- Printing, and parsing what was printed ----------

  datatype Message = Message(line: RequestLine, headers: seq<Pair>, body: string)

  function PrintHeader(p: Pair): string {
    p.key + ": " + p.value
  }

  function PrintHeaders(ps: seq<Pair>): string {
    if ps == [] then "" else PrintHeader(ps[0]) + CRLF + PrintHeaders(ps[1..])
  }

  function Print(m: Message): string {
    PrintRequestLine(m.line) + CRLF + (PrintHeaders(m.headers) + (CRLF + m.body))
  }

  predicate PrintableHeader(p: Pair) {
    ColonFree(p) && OneLine(p.key) && OneLine(p.value)
  }

  predicate PrintableHead(m: Message) {
    PrintableLine(m.line) && forall i :: 0 <= i < |m.headers| ==> PrintableHeader(m.headers[i])
  }

  predicate Printable(m: Message) {
    PrintableHead(m) && OneLine(m.body)
  }

  /** What the head of a message leaves in the parser. */
  function Head(m: Message): Request {
    Request(BODY, m.line.verb, NormalizePath(m.line.path), m.line.version, "", StoreAll(map[], m.headers), map[])
  }

  lemma {:induction false} LineEndOfLine(line: string, rest: string)
    requires OneLine(line)
    ensures LineEnd(line + CRLF + rest) == |line|
    ensures LineEnd(line) == |line|
  {
    var s := line + CRLF + rest;
    if line == "" {
      assert CrlfAt(s, 0);
    } else {
      assert s[1..] == line[1..] + CRLF + rest;
      LineEndOfLine(line[1..], rest);
    }
  }

  /** One printed line is parsed as that line, and exactly it and its CRLF are consumed. */
  lemma ParseOneLine(r: Request, line: string, rest: string, db: Database)
    requires OneLine(line) && r.state != FINISH && ParseLine(r, line, db).0
    ensures ParseLines(r, line + CRLF + rest, db) == ParseLines(ParseLine(r, line, db).1, rest, db)
  {
    var s := line + CRLF + rest;
    LineEndOfLine(line, rest);
    assert s[..|line|] == line;
    assert s[|line| + 2..] == rest;
  }

  lemma {:induction false} ParsePrintedHeaders(r: Request, ps: seq<Pair>, rest: string, db: Database)
    requires r.state == HEADERS && forall i :: 0 <= i < |ps| ==> PrintableHeader(ps[i])
    ensures ParseLines(r, PrintHeaders(ps) + rest, db) ==
            ParseLines(r.(headers := StoreAll(r.headers, ps)), rest, db)
    decreases |ps|
  {
    if ps == [] {
      assert PrintHeaders(ps) + rest == rest;
    } else {
      var line := PrintHeader(ps[0]);
      var tail := PrintHeaders(ps[1..]) + rest;
      assert PrintHeaders(ps) + rest == line + CRLF + tail;
      MatchesPrintedHeader(ps[0]);
      ParseOneLine(r, line, tail, db);
      ParsePrintedHeaders(ParseLine(r, line, db).1, ps[1..], rest, db);
    }
  }

  lemma ParseEmptyLine(r: Request, rest: string, db: Database)
    requires r.state == HEADERS
    ensures ParseLines(r, CRLF + rest, db) == ParseLines(r.(state := BODY), rest, db)
  {
    ParseOneLine(r, "", rest, db);
    assert "" + CRLF + rest == CRLF + rest;
  }

  /** What the request line leaves in the parser. */
  function HeadLine(l: RequestLine): Request {
    Request(HEADERS, l.verb, NormalizePath(l.path), l.version, "", map[], map[])
  }

  predicate PrintableLine(l: RequestLine) {
    Spaceless(l) && OneLine(l.verb) && OneLine(l.path) && OneLine(l.version)
  }

  lemma PrintedRequestLineIsOneLine(l: RequestLine)
    requires PrintableLine(l)
    ensures OneLine(PrintRequestLine(l))
  {
  }

  lemma ParsesRequestLine(l: RequestLine, db: Database)
    requires PrintableLine(l)
    ensures ParseLine(Blank, PrintRequestLine(l), db) == (true, HeadLine(l))
  {
    RequestLineMatchIff(PrintRequestLine(l), l);
  }

  lemma ParsePrintedFirstLine(l: RequestLine, rest: string, db: Database)
    requires PrintableLine(l)
    ensures ParseLines(Blank, PrintRequestLine(l) + CRLF + rest, db) == ParseLines(HeadLine(l), rest, db)
  {
    PrintedRequestLineIsOneLine(l);
    ParsesRequestLine(l, db);
    ParseOneLine(Blank, PrintRequestLine(l), rest, db);
  }

  /** The request line and some of the headers, as a first read may bring them. */
  function Beginning(m: Message, k: nat): string
    requires k <= |m.headers|
  {
    PrintRequestLine(m.line) + CRLF + PrintHeaders(m.headers[..k])
  }

  function PartHead(m: Message, k: nat): Request
    requires k <= |m.headers|
  {
    HeadLine(m.line).(headers := StoreAll(map[], m.headers[..k]))
  }

  /** What they leave in the parser: an accepted request without the other headers. */
  lemma ParseBeginning(m: Message, k: nat, rest: string, db: Database)
    requires PrintableHead(m) && k <= |m.headers|
    ensures ParseLines(Blank, Beginning(m, k) + rest, db) == ParseLines(PartHead(m, k), rest, db)
  {
    hide NormalizePath, StoreAll;
    var hs := m.headers[..k];
    assert PrintRequestLine(m.line) + CRLF + (PrintHeaders(hs) + rest) == Beginning(m, k) + rest;
    ParsePrintedFirstLine(m.line, PrintHeaders(hs) + rest, db);
    ParsePrintedHeaders(HeadLine(m.line), hs, rest, db);
  }

  lemma {:induction false} PrintHeadersJoin(xs: seq<Pair>, ys: seq<Pair>)
    ensures PrintHeaders(xs + ys) == PrintHeaders(xs) + PrintHeaders(ys)
  {
    if xs == [] {
      assert xs + ys == ys;
    } else {
      assert (xs + ys)[1..] == xs[1..] + ys;
      PrintHeadersJoin(xs[1..], ys);
      assert PrintHeader(xs[0]) + CRLF + (PrintHeaders(xs[1..]) + PrintHeaders(ys)) ==
             PrintHeader(xs[0]) + CRLF + PrintHeaders(xs[1..]) + PrintHeaders(ys);
    }
  }

  /** The rest of the message, as a second read brings it. */
  function Remainder(m: Message, k: nat): string
    requires k <= |m.headers|
  {
    PrintHeaders(m.headers[k..]) + (CRLF + m.body)
  }

  lemma TwoReadsMakeTheText(m: Message, k: nat)
    requires k <= |m.headers|
    ensures Beginning(m, k) + Remainder(m, k) == Print(m) && Remainder(m, k) != ""
  {
    assert m.headers[..k] + m.headers[k..] == m.headers;
    PrintHeadersJoin(m.headers[..k], m.headers[k..]);
    var a, b, c := PrintRequestLine(m.line) + CRLF, PrintHeaders(m.headers[..k]), PrintHeaders(m.headers[k..]);
    assert a + b + (c + (CRLF + m.body)) == a + ((b + c) + (CRLF + m.body));
  }

  /** A line without a colon among the headers: the text is rejected, and the line stays in the buffer. */
  lemma MalformedIsRejected(m: Message, k: nat, junk: string, db: Database)
    requires PrintableHead(m) && k <= |m.headers| && OneLine(junk) && junk != "" && ':' !in junk
    ensures ParseLines(Blank, Beginning(m, k) + junk, db) == Result(false, PartHead(m, k), junk)
  {
    hide NormalizePath, StoreAll, Beginning;
    ParseBeginning(m, k, junk, db);
    NoColonNoHeader(junk);
    LineEndOfLine(junk, "");
    assert junk[..|junk|] == junk;
    OneLineAtATime(PartHead(m, k), junk, db);
  }

  lemma NoColonNoHeader(line: string)
    requires ':' !in line
    ensures MatchHeader(line) == None
  {
    if Cut(line, ':').Some? {
      CutIsFirst(line, ':');
    }
  }

  /** Parsing a printed message takes its head apart and goes on with the body alone. */
  lemma ParsePrintedHead(m: Message, db: Database)
    requires PrintableHead(m)
    ensures ParseLines(Blank, Print(m), db) == ParseLines(Head(m), m.body, db)
  {
    var r := HeadLine(m.line);
    ParsePrintedFirstLine(m.line, PrintHeaders(m.headers) + (CRLF + m.body), db);
    ParsePrintedHeaders(r, m.headers, CRLF + m.body, db);
    ParseEmptyLine(r.(headers := StoreAll(map[], m.headers)), m.body, db);
  }

  /**
   Parsing undoes printing: the parser returns the method, the path normalised once, the version and the
   last-wins header map, and what it makes of the body; on success the text is consumed exactly.
   */
  lemma ParseUndoesPrint(m: Message, db: Database)
    requires Printable(m)
    ensures var p := ParseLines(Blank, Print(m), db);
            && p.ok == BodyLine(Head(m), m.body, db).0
            && p.request == BodyLine(Head(m), m.body, db).1
            && (p.ok ==> p.rest == "")
  {
    ParsePrintedHead(m, db);
    var r := Head(m);
    LineEndOfLine(m.body, "");
    assert m.body[..|m.body|] == m.body && m.body[|m.body|..] == "";
  }

  lemma {:induction false} BodyIsSkipped(r: Request, text: string, db: Database)
    requires r.state == BODY && r.verb != "POST"
    ensures ParseLines(r, text, db) == Result(true, r, "")
    decreases |text|
  {
    if text != "" {
      OneLineAtATime(r, text, db);
      BodyIsSkipped(r, text[Consumed(text)..], db);
    }
  }

  /**
   The parser knows no message length: whatever follows the head of a request other than a POST, of any number
   of lines, is used up with it.  So a second request that arrives in the same read is never answered.
   */
  lemma TextAfterHeadIsSwallowed(m: Message, db: Database)
    requires PrintableHead(m) && m.line.verb != "POST"
    ensures ParseLines(Blank, Print(m), db) == Result(true, Head(m), "")
  {
    ParsePrintedHead(m, db);
    BodyIsSkipped(Head(m), m.body, db);
  }

  /** Any request but a POST, and a POST without a body, is accepted as it stands; a body is skipped. */
  lemma ParseUndoesPrintWithoutForm(m: Message, db: Database)
    requires Printable(m) && (m.line.verb != "POST" || m.body == "")
    ensures ParseLines(Blank, Print(m), db) == Result(true, Head(m), "")
  {
    ParseUndoesPrint(m, db);
  }

  /** The value stored for a key, or the empty string. */
  function Field(post: map<string, string>, key: string): string {
    if key in post then post[key] else ""
  }

  /** The body of a POST that is no form, or a registration that the database refuses. */
  predicate Rejected(m: Message, db: Database) {
    && m.line.verb == "POST" && m.body != ""
    && (!IsForm(Head(m)) ||
        (Head(m).path == REGISTER_PAGE &&
         var post := Scan(m.body, "", "", map[]);
         !db.register(Field(post, USERNAME), Field(post, PASSWORD))))
  }

  /**
   A printed request is rejected exactly if it posts a body that is no form, or a registration that fails; and only then
   it leaves bytes behind, namely its body.
   */
  lemma PrintedIsRejectedIff(m: Message, db: Database)
    requires Parsable(m)
    ensures var p := ParseLines(Blank, Print(m), db);
            && (!p.ok <==> Rejected(m, db))
            && p.rest == (if Rejected(m, db) then m.body else "")
            && p.request.headers == Head(m).headers && p.request.version == m.line.version
  {
    hide ParseLines, Print, Scan, NormalizePath, PlusToSpace;
    if m.line.verb != "POST" {
      TextAfterHeadIsSwallowed(m, db);
    } else {
      ParseUndoesPrint(m, db);
      PageAddresses();
      if Rejected(m, db) {
        ParsePrintedHead(m, db);
        RejectedBodyStays(m, db);
      }
    }
  }

  lemma RejectedBodyStays(m: Message, db: Database)
    requires Printable(m) && !BodyLine(Head(m), m.body, db).0
    ensures ParseLines(Head(m), m.body, db).rest == m.body
  {
    hide NormalizePath, PostBody, StoreAll;
    LineEndOfLine(m.body, "");
    assert m.body[..|m.body|] == m.body;
    OneLineAtATime(Head(m), m.body, db);
  }

  lemma PageAddresses()
    ensures NormalizePath("/login") == LOGIN_PAGE && NormalizePath("/register") == REGISTER_PAGE
    ensures LOGIN_PAGE != REGISTER_PAGE && USERNAME != PASSWORD
    ensures Plain(USERNAME) && Plain(PASSWORD)
  {
    assert USERNAME[0] != PASSWORD[0];
  }

  // ---------- What headers and paths mean, on the message ----------

  /** A header of a printed message is what its last line of that name says. */
  lemma LastHeaderDecides(m: Message, i: nat)
    requires i < |m.headers| && forall j :: i < j < |m.headers| ==> m.headers[j].key != m.headers[i].key
    ensures m.headers[i].key in Head(m).headers && Head(m).headers[m.headers[i].key] == m.headers[i].value
  {
    LastPairWins(map[], m.headers, i);
  }

  lemma MissingHeaderIsMissing(m: Message, key: string)
    requires forall i :: 0 <= i < |m.headers| ==> m.headers[i].key != key
    ensures key !in Head(m).headers
  {
    OtherKeysKept(map[], m.headers, key);
  }

  /** A connection is kept exactly for version 1.1 with a last Connection header of the value keep-alive. */
  lemma KeepsAliveIff(m: Message, i: nat)
    requires i < |m.headers| && m.headers[i].key == "Connection"
    requires forall j :: i < j < |m.headers| ==> m.headers[j].key != "Connection"
    ensures KeepsAlive(Head(m)) <==> m.headers[i].value == "keep-alive" && m.line.version == "1.1"
  {
    hide StoreAll, NormalizePath;
    LastHeaderDecides(m, i);
  }

  lemma NotKeptWithoutHeader(m: Message)
    requires forall i :: 0 <= i < |m.headers| ==> m.headers[i].key != "Connection"
    ensures !KeepsAlive(Head(m))
  {
    hide StoreAll, NormalizePath;
    MissingHeaderIsMissing(m, "Connection");
  }

  /** A body is a form exactly if the last Content-Type header says so. */
  lemma IsFormIff(m: Message, i: nat)
    requires i < |m.headers| && m.headers[i].key == "Content-Type"
    requires forall j :: i < j < |m.headers| ==> m.headers[j].key != "Content-Type"
    ensures IsForm(Head(m)) <==> m.headers[i].value == "application/x-www-form-urlencoded"
  {
    hide StoreAll, NormalizePath;
    LastHeaderDecides(m, i);
  }

  lemma NoFormWithoutHeader(m: Message)
    requires forall i :: 0 <= i < |m.headers| ==> m.headers[i].key != "Content-Type"
    ensures !IsForm(Head(m))
  {
    hide StoreAll, NormalizePath;
    MissingHeaderIsMissing(m, "Content-Type");
  }

  /** The page of a printed request that posts nothing: the default pages by their names, any other path as it came. */
  lemma PageOfPath(m: Message, db: Database)
    requires PrintableHead(m) && m.line.verb != "POST"
    ensures var page := ParseLines(Blank, Print(m), db).request.path;
            && (m.line.path == "/" || m.line.path == "/index" ==> page == "/index.html")
            && (m.line.path == "/register" ==> page == "/register.html")
            && (m.line.path == "/login" ==> page == "/login.html")
            && (m.line.path == "/welcome" ==> page == "/welcome.html")
            && (m.line.path == "/picture" ==> page == "/picture.html")
            && (m.line.path == "/video" ==> page == "/video.html")
            && (m.line.path !in {"/", "/index", "/register", "/login", "/welcome", "/picture", "/video"} ==>
                  page == m.line.path)
  {
    hide ParseLines, Print, StoreAll;
    TextAfterHeadIsSwallowed(m, db);
    DefaultPages(m.line.path);
  }

  lemma DefaultPages(path: string)
    ensures path == "/" || path == "/index" ==> NormalizePath(path) == "/index.html"
    ensures path == "/register" ==> NormalizePath(path) == "/register.html"
    ensures path == "/login" ==> NormalizePath(path) == "/login.html"
    ensures path == "/welcome" ==> NormalizePath(path) == "/welcome.html"
    ensures path == "/picture" ==> NormalizePath(path) == "/picture.html"
    ensures path == "/video" ==> NormalizePath(path) == "/video.html"
    ensures path !in {"/", "/index", "/register", "/login", "/welcome", "/picture", "/video"} ==>
              NormalizePath(path) == path
  {
  }

  /** A first line that is no request line is rejected and stays in the buffer, whatever follows. */
  lemma BadRequestLineIsRejected(text: string, db: Database)
    requires text != "" && forall l :: text[..LineEnd(text)] == PrintRequestLine(l) ==> !Spaceless(l)
    ensures ParseLines(Blank, text, db) == Result(false, Blank, text)
  {
    var line := text[..LineEnd(text)];
    OneLineAtATime(Blank, text, db);
    if MatchRequestLine(line).Some? {
      RequestLineMatchIff(line, MatchRequestLine(line).value);
    }
  }

  /** Only one line of a posted body is used; what follows it stays. */
  lemma PostUsesOneLine(m: Message, more: string, db: Database)
    requires Printable(m) && m.line.verb == "POST" && m.body != "" && !Rejected(m, db)
    ensures ParseLines(Blank, Print(m) + CRLF + more, db) == Result(true, ParseLines(Blank, Print(m), db).request, more)
  {
    hide NormalizePath, StoreAll, PostBody, Rejected, Print;
    PrintedIsRejectedIff(m, db);
    ParseUndoesPrint(m, db);
    var m' := m.(body := m.body + CRLF + more);
    LongerBody(m, more);
    ParsePrintedHead(m', db);
    ParseOneLine(Head(m), m.body, more, db);
  }

  lemma LongerBody(m: Message, more: string)
    ensures Print(m.(body := m.body + CRLF + more)) == Print(m) + CRLF + more
  {
    var a, b := PrintRequestLine(m.line) + CRLF, PrintHeaders(m.headers);
    assert a + (b + (CRLF + (m.body + CRLF + more))) == a + (b + (CRLF + m.body)) + CRLF + more;
  }

  /** A message, letter by letter. */
  lemma PrintedMessage()
    ensures Print(Message(RequestLine("GET", "/a", "1.0"), [Pair("Host", "b")], "c")) ==
            "GET /a HTTP/1.0\r\nHost: b\r\n\r\nc"
  {
    var l := RequestLine("GET", "/a", "1.0");
    var hs := [Pair("Host", "b")];
    assert PrintRequestLine(l) == "GET /a HTTP/1.0";
    assert hs[1..] == [] && PrintHeaders(hs) == "Host: b\r\n" + PrintHeaders(hs[1..]);
    assert PrintHeaders(hs) == "Host: b\r\n";
  }

  /** A form post: any non-empty list of plain pairs, with the form content type. */
  predicate IsFormPost(m: Message, ps: seq<Pair>) {
    Printable(m) && m.line.verb == "POST" && ps != [] && PlainPairs(ps) && m.body == EncodeForm(ps) && IsForm(Head(m))
  }

  /** What a form leaves behind on the page it was posted to: on the two user pages both fields exist afterwards. */
  function StoredForm(post: map<string, string>, page: string): map<string, string> {
    if page == LOGIN_PAGE || page == REGISTER_PAGE then WithDefault(WithDefault(post, USERNAME), PASSWORD) else post
  }

  /** Where a posted form leads: from the login page to the welcome or the error page, otherwise nowhere else. */
  function PageAfter(post: map<string, string>, page: string, db: Database): string {
    if page != LOGIN_PAGE then page
    else if Field(post, USERNAME) != "" && db.verify(Field(post, USERNAME), Field(post, PASSWORD)) then WELCOME_PAGE
    else ERROR_PAGE
  }

  lemma FormIsStored(r: Request, db: Database)
    requires IsForm(r)
    ensures var post := Scan(r.body, "", "", r.post);
            && (PostBody(r, db).0 <==>
                  r.path == REGISTER_PAGE ==> db.register(Field(post, USERNAME), Field(post, PASSWORD)))
            && (PostBody(r, db).0 ==>
                  PostBody(r, db).1 == r.(body := PlusToSpace(r.body), post := StoredForm(post, r.path),
                                          path := PageAfter(post, r.path, db)))
  {
    hide Scan, PlusToSpace;
    PageAddresses();
  }

  /**
   A posted form, on every page and with any fields in any order: it is accepted exactly with the form content
   type and, on the registration page, if the database registers the last name and password given; then the text
   is used up, and the request holds the decoded body, the last-wins map of the pairs, and the page it leads to.
   */
  lemma ParseUndoesPrintOfForm(m: Message, ps: seq<Pair>, db: Database)
    requires Printable(m) && m.line.verb == "POST"
    requires ps != [] && PlainPairs(ps) && m.body == EncodeForm(ps)
    ensures var p := ParseLines(Blank, Print(m), db);
            var post := StoreAll(map[], ps);
            var page := NormalizePath(m.line.path);
            && (p.ok <==>
                  && IsForm(Head(m))
                  && (page == REGISTER_PAGE ==> db.register(Field(post, USERNAME), Field(post, PASSWORD))))
            && (p.ok ==>
                  p == Result(true, Head(m).(state := FINISH, body := PlusToSpace(m.body),
                                             post := StoredForm(post, page), path := PageAfter(post, page, db)), ""))
  {
    hide ParseLines, Print, Scan, EncodeForm, NormalizePath, StoredForm, PageAfter;
    FormBodyParses(m, ps, db);
    if IsForm(Head(m)) {
      FormIsStored(Head(m).(body := m.body), db);
    }
  }

  /**
   A login sends the user to the welcome page exactly if its last name is not empty and the database knows the pair.
   */
  lemma ParseUndoesPrintOfLogin(m: Message, ps: seq<Pair>, db: Database)
    requires IsFormPost(m, ps) && NormalizePath(m.line.path) == LOGIN_PAGE
    ensures var p := ParseLines(Blank, Print(m), db);
            var post := StoreAll(map[], ps);
            var known := Field(post, USERNAME) != "" && db.verify(Field(post, USERNAME), Field(post, PASSWORD));
            && p.ok && p.rest == "" && p.request.state == FINISH
            && p.request.path == if known then WELCOME_PAGE else ERROR_PAGE
  {
    hide ParseLines, Print, NormalizePath;
    PageAddresses();
    ParseUndoesPrintOfForm(m, ps, db);
  }

  /** A registration is accepted exactly if the database registers its last name and password. */
  lemma ParseUndoesPrintOfRegistration(m: Message, ps: seq<Pair>, db: Database)
    requires IsFormPost(m, ps) && NormalizePath(m.line.path) == REGISTER_PAGE
    ensures var post := StoreAll(map[], ps);
            ParseLines(Blank, Print(m), db).ok <==> db.register(Field(post, USERNAME), Field(post, PASSWORD))
  {
    hide ParseLines, Print, NormalizePath;
    ParseUndoesPrintOfForm(m, ps, db);
  }

  /** The login form as a browser posts it. */
  function CredentialsPost(path: string, name: string, password: string): Message {
    Message(RequestLine("POST", path, "1.1"), [Pair("Content-Type", "application/x-www-form-urlencoded")],
            EncodeForm([Pair("username", name), Pair("password", password)]))
  }

  lemma CredentialsAreStored(name: string, password: string)
    ensures var post := StoreAll(map[], [Pair("username", name), Pair("password", password)]);
            Field(post, "username") == name && Field(post, "password") == password
  {
    var ps := [Pair("username", name), Pair("password", password)];
    assert "username"[0] != "password"[0];
    LastPairWins(map[], ps, 0);
    LastPairWins(map[], ps, 1);
  }

  lemma CredentialsPostIsFormPost(path: string, name: string, password: string)
    requires OneLine(path) && ' ' !in path && Plain(name) && Plain(password) && OneLine(name) && OneLine(password)
    ensures IsFormPost(CredentialsPost(path, name, password), [Pair("username", name), Pair("password", password)])
  {
    hide NormalizePath, IsForm, EncodeForm, StoreAll, OneLine, Plain, PrintableHeader, PrintableLine;
    var m, ps := CredentialsPost(path, name, password), [Pair("username", name), Pair("password", password)];
    PrintedFieldsFit(path);
    IsFormIff(m, 0);
    CredentialsAreOneLine(name, password);
  }

  lemma PrintedFieldsFit(path: string)
    requires OneLine(path) && ' ' !in path
    ensures PrintableLine(RequestLine("POST", path, "1.1"))
    ensures PrintableHeader(Pair("Content-Type", "application/x-www-form-urlencoded"))
    ensures Plain("username") && Plain("password") && OneLine("username") && OneLine("password")
  {
    hide OneLine;
    PostFits();
    HeaderNameFits();
    HeaderValueFits();
    FieldNamesFit();
  }

  lemma PostFits()
    ensures ' ' !in "POST" && OneLine("POST") && ' ' !in "1.1" && OneLine("1.1")
  {
  }

  lemma HeaderNameFits()
    ensures ':' !in "Content-Type" && OneLine("Content-Type")
  {
  }

  lemma HeaderValueFits()
    ensures OneLine("application/x-www-form-urlencoded")
  {
  }

  lemma FieldNamesFit()
    ensures Plain("username") && Plain("password") && OneLine("username") && OneLine("password")
  {
  }

  lemma {:induction false} EncodedFieldIsOneLine(f: string)
    requires OneLine(f)
    ensures OneLine(EncodeField(f)) && ' ' !in EncodeField(f)
  {
    if f != "" {
      EncodedFieldIsOneLine(f[1..]);
    }
  }

  lemma CredentialsAreOneLine(name: string, password: string)
    requires OneLine(name) && OneLine(password) && OneLine("username") && OneLine("password")
    ensures OneLine(EncodeForm([Pair("username", name), Pair("password", password)]))
  {
    hide EncodeField;
    EncodedFieldIsOneLine(name);
    EncodedFieldIsOneLine(password);
    EncodedFieldIsOneLine("username");
    EncodedFieldIsOneLine("password");
    var ps := [Pair("username", name), Pair("password", password)];
    assert ps[1..] == [Pair("password", password)];
    assert EncodeForm(ps) == EncodePair(ps[0]) + "&" + EncodePair(ps[1]);
  }

  /** A browser's login, from name and password to the page. */
  lemma LoginLeadsTo(name: string, password: string, db: Database)
    requires Plain(name) && Plain(password) && OneLine(name) && OneLine(password)
    ensures var p := ParseLines(Blank, Print(CredentialsPost("/login", name, password)), db);
            p.ok && p.request.path == if name != "" && db.verify(name, password) then "/welcome.html" else "/error.html"
  {
    hide ParseLines, Print, NormalizePath, CredentialsPost, StoreAll, IsFormPost;
    var m, ps := CredentialsPost("/login", name, password), [Pair("username", name), Pair("password", password)];
    assert OneLine("/login") && ' ' !in "/login";
    CredentialsPostIsFormPost("/login", name, password);
    CredentialsAreStored(name, password);
    DefaultPages("/login");
    CredentialsPath("/login", name, password);
    ParseUndoesPrintOfLogin(m, ps, db);
  }

  /** A browser's registration: accepted exactly if the database registers the pair, and it stays on its page. */
  lemma RegistrationLeadsTo(name: string, password: string, db: Database)
    requires Plain(name) && Plain(password) && OneLine(name) && OneLine(password)
    ensures var p := ParseLines(Blank, Print(CredentialsPost("/register", name, password)), db);
            (p.ok <==> db.register(name, password)) && (p.ok ==> p.request.path == "/register.html")
  {
    hide ParseLines, Print, NormalizePath, CredentialsPost, StoreAll, IsFormPost;
    var m, ps := CredentialsPost("/register", name, password), [Pair("username", name), Pair("password", password)];
    assert OneLine("/register") && ' ' !in "/register";
    CredentialsPostIsFormPost("/register", name, password);
    CredentialsAreStored(name, password);
    DefaultPages("/register");
    CredentialsPath("/register", name, password);
    ParseUndoesPrintOfRegistration(m, ps, db);
    FormPostParts(m, ps);
    ParseUndoesPrintOfForm(m, ps, db);
  }

  lemma FormPostParts(m: Message, ps: seq<Pair>)
    requires IsFormPost(m, ps)
    ensures Printable(m) && m.line.verb == "POST" && ps != [] && PlainPairs(ps) && m.body == EncodeForm(ps)
  {
  }

  lemma CredentialsPath(path: string, name: string, password: string)
    ensures CredentialsPost(path, name, password).line.path == path
  {
  }

  /** What the parser takes for one message: the body of a POST is a single line. */
  predicate Parsable(m: Message) {
    PrintableHead(m) && (m.line.verb == "POST" ==> OneLine(m.body))
  }

  /** The page a message leads to. */
  function AnsweredPath(m: Message, db: Database): string {
    if m.line.verb == "POST" && m.body != "" && IsForm(Head(m))
    then PageAfter(Scan(m.body, "", "", map[]), Head(m).path, db)
    else Head(m).path
  }

  lemma ParsedPath(m: Message, db: Database)
    requires Parsable(m)
    ensures var p := ParseLines(Blank, Print(m), db);
            && p.request.path == AnsweredPath(m, db)
            && p.request.headers == Head(m).headers && p.request.version == m.line.version
  {
    hide ParseLines, Print, Scan, NormalizePath, PlusToSpace;
    if m.line.verb != "POST" {
      TextAfterHeadIsSwallowed(m, db);
    } else {
      ParseUndoesPrint(m, db);
      PageAddresses();
    }
  }

  lemma FormBodyParses(m: Message, ps: seq<Pair>, db: Database)
    requires Printable(m) && m.line.verb == "POST" && ps != [] && PlainPairs(ps) && m.body == EncodeForm(ps)
    ensures Scan(m.body, "", "", map[]) == StoreAll(map[], ps)
    ensures var p := ParseLines(Blank, Print(m), db);
            var b := PostBody(Head(m).(body := m.body), db);
            && p.ok == b.0 && p.request == (if b.0 then b.1.(state := FINISH) else b.1)
            && (p.ok ==> p.rest == "")
  {
    ParseUndoesPrint(m, db);
    ScanUndoesEncode(ps, "", map[]);
    EncodedFormIsNotEmpty(ps);
  }

  lemma EncodedFormIsNotEmpty(ps: seq<Pair>)
    requires ps != []
    ensures EncodeForm(ps) != ""
  {
  }

  // ---------- Consumption as written ----------

  datatype Outcome = Stopped(result: Result) | Crashed

  /**
   The loop as written: a line whose CRLF ends the buffer is left in it, and a last line without CRLF is
   consumed two bytes past the end, which the buffer's assertion stops.
   */
  function ParseLinesAsWritten(r: Request, text: string, db: Database): Outcome
    decreases |text|
  {
    if text == "" || r.state == FINISH then Stopped(Result(true, r, text))
    else
      var n := LineEnd(text);
      var (ok, r') := ParseLine(r, text[..n], db);
      if !ok then Stopped(Result(false, r', text))
      else if n + 2 == |text| then Stopped(Result(true, r', text))
      else if n + 2 > |text| then Crashed
      else ParseLinesAsWritten(r', text[n + 2..], db)
  }

  lemma AsWrittenMissesTheEnd(r: Request, text: string, db: Database)
    requires text != "" && r.state != FINISH && LineEnd(text) + 2 >= |text|
    requires ParseLine(r, text[..LineEnd(text)], db).0
    ensures var p := ParseLines(r, text, db);
            p.ok && p.rest == "" && ParseLinesAsWritten(r, text, db) != Stopped(p)
  {
  }

  lemma BothStepAlike(r: Request, text: string, db: Database)
    requires text != "" && r.state != FINISH && LineEnd(text) + 2 < |text|
    ensures var n := LineEnd(text);
            var (ok, r') := ParseLine(r, text[..n], db);
            if ok then
              && ParseLines(r, text, db) == ParseLines(r', text[n + 2..], db)
              && ParseLinesAsWritten(r, text, db) == ParseLinesAsWritten(r', text[n + 2..], db)
            else
              && ParseLines(r, text, db) == Result(false, r', text)
              && ParseLinesAsWritten(r, text, db) == Stopped(Result(false, r', text))
  {
  }

  /** As written, a non-empty request is never both accepted and consumed. */
  lemma {:induction false} AsWrittenNeverConsumesAll(r: Request, text: string, db: Database)
    requires text != "" && r.state != FINISH
    requires ParseLinesAsWritten(r, text, db) != Crashed
    ensures var p := ParseLinesAsWritten(r, text, db).result;
            !p.ok || p.rest != ""
    decreases |text|
  {
    hide ParseLine, ParseLines;
    if LineEnd(text) + 2 < |text| {
      BothStepAlike(r, text, db);
      var (ok, r') := ParseLine(r, text[..LineEnd(text)], db);
      if ok && r'.state != FINISH {
        AsWrittenNeverConsumesAll(r', text[LineEnd(text) + 2..], db);
      }
    }
  }

  /** The result as written is the intended one exactly when the intended parse fails or leaves bytes behind. */
  lemma {:induction false} AsWrittenAgreesIff(r: Request, text: string, db: Database)
    requires text != "" && r.state != FINISH
    ensures ParseLinesAsWritten(r, text, db) == Stopped(ParseLines(r, text, db)) <==>
              !ParseLines(r, text, db).ok || ParseLines(r, text, db).rest != ""
    decreases |text|
  {
    var n := LineEnd(text);
    if n + 2 < |text| {
      BothStepAlike(r, text, db);
      var (ok, r') := ParseLine(r, text[..n], db);
      if ok && r'.state != FINISH {
        AsWrittenAgreesIff(r', text[n + 2..], db);
      }
    } else if ParseLine(r, text[..n], db).0 {
      AsWrittenMissesTheEnd(r, text, db);
    }
  }

  /** So for a printed request they agree exactly if it is rejected. */
  lemma AsWrittenAgreesOnPrintedIff(m: Message, db: Database)
    requires Parsable(m)
    ensures ParseLinesAsWritten(Blank, Print(m), db) == Stopped(ParseLines(Blank, Print(m), db)) <==> Rejected(m, db)
  {
    hide ParseLines, ParseLinesAsWritten, Rejected;
    assert Print(m) != "";
    AsWrittenAgreesIff(Blank, Print(m), db);
    PrintedIsRejectedIff(m, db);
  }

  /**
   Keep-alive as written: every accepted request without a body leaves its last CRLF behind, and the
   next request on the connection, whatever it is, is then rejected.
   */
  lemma AsWrittenRejectsTheNextRequest(m: Message, next: string, db: Database)
    requires Printable(m) && m.body == ""
    ensures ParseLinesAsWritten(Blank, Print(m), db) == Stopped(Result(true, Head(m), CRLF))
    ensures ParseLinesAsWritten(Blank, CRLF + next, db) == Stopped(Result(false, Blank, CRLF + next))
  {
    AsWrittenAccepts(m, db);
    assert CrlfAt(CRLF + next, 0) && (CRLF + next)[..0] == "";
  }

  lemma AsWrittenAccepts(m: Message, db: Database)
    requires Printable(m) && m.body == ""
    ensures ParseLinesAsWritten(Blank, Print(m), db) == Stopped(Result(true, Head(m), CRLF))
  {
    var tail := PrintHeaders(m.headers) + (CRLF + m.body);
    assert CRLF + m.body == CRLF;
    PrintedRequestLineIsOneLine(m.line);
    ParsesRequestLine(m.line, db);
    AsWrittenOneLine(Blank, PrintRequestLine(m.line), tail, db);
    AsWrittenHeaders(HeadLine(m.line), m.headers, db);
  }

  lemma AsWrittenOneLine(r: Request, line: string, rest: string, db: Database)
    requires OneLine(line) && r.state != FINISH && ParseLine(r, line, db).0 && rest != ""
    ensures ParseLinesAsWritten(r, line + CRLF + rest, db) ==
            ParseLinesAsWritten(ParseLine(r, line, db).1, rest, db)
  {
    var s := line + CRLF + rest;
    LineEndOfLine(line, rest);
    assert s[..|line|] == line;
    assert s[|line| + 2..] == rest;
  }

  lemma {:induction false} AsWrittenHeaders(r: Request, ps: seq<Pair>, db: Database)
    requires r.state == HEADERS && forall i :: 0 <= i < |ps| ==> PrintableHeader(ps[i])
    ensures ParseLinesAsWritten(r, PrintHeaders(ps) + CRLF, db) ==
            Stopped(Result(true, r.(headers := StoreAll(r.headers, ps), state := BODY), CRLF))
    decreases |ps|
  {
    if ps == [] {
      assert PrintHeaders(ps) + CRLF == CRLF;
      assert CrlfAt(CRLF, 0) && CRLF[..0] == "";
    } else {
      var line := PrintHeader(ps[0]);
      var tail := PrintHeaders(ps[1..]) + CRLF;
      assert PrintHeaders(ps) + CRLF == line + CRLF + tail;
      MatchesPrintedHeader(ps[0]);
      AsWrittenOneLine(r, line, tail, db);
      AsWrittenHeaders(ParseLine(r, line, db).1, ps[1..], db);
    }
  }

  // ---------- The parser object ----------

  lemma {:induction false} LineEndUnique(s: string, n: nat)
    requires n <= |s| && (n < |s| ==> CrlfAt(s, n)) && forall i :: 0 <= i < n ==> !CrlfAt(s, i)
    ensures LineEnd(s) == n
  {
  }

  /**
   The decoding loop after `end` characters: they are decoded in place, and the scan goes on with the field begun at
   `start`.
   */
  ghost predicate Decoding(all: string, body: string, start: nat, end: nat, key: string,
                           post: map<string, string>, post0: map<string, string>) {
    && start <= end <= |body| == |all|
    && (forall i :: 0 <= i < |all| ==> body[i] == if i < end && all[i] == '+' then ' ' else all[i])
    && Scan(all[end..], body[start..end], key, post) == Scan(all, "", "", post0)
  }

  lemma DecodingStarts(all: string, post: map<string, string>)
    ensures Decoding(all, all, 0, 0, "", post, post)
  {
    assert all[0..] == all && all[0..0] == "";
  }

  lemma DecodingStep(all: string, body: string, start: nat, end: nat, key: string,
                     post: map<string, string>, post0: map<string, string>)
    requires Decoding(all, body, start, end, key, post, post0) && end < |body|
    ensures var field := body[start..end];
            match body[end]
            case '+' => Decoding(all, body[end := ' '], start, end + 1, key, post, post0)
            case '=' => Decoding(all, body, end + 1, end + 1, field, post, post0)
            case '&' => Decoding(all, body, end + 1, end + 1, key, post[key := field], post0)
            case _ => Decoding(all, body, start, end + 1, key, post, post0)
  {
    hide Scan;
    ScanStep(all[end..], body[start..end], key, post);
    assert all[end..][1..] == all[end + 1..] && all[end..][0] == body[end];
    var body' := if body[end] == '+' then body[end := ' '] else body;
    assert body'[start..end + 1] == body[start..end] + [body'[end]];
    assert body[end + 1..end + 1] == "";
  }

  lemma DecodingEnds(all: string, body: string, start: nat, key: string,
                     post: map<string, string>, post0: map<string, string>)
    requires Decoding(all, body, start, |body|, key, post, post0)
    ensures start <= |body|
    ensures body == PlusToSpace(all) && post[key := body[start..|body|]] == Scan(all, "", "", post0)
  {
  }

  class HttpRequest {
    var state: ParseState
    var verb: string
    var path: string
    var version: string
    var body: string
    var headers: map<string, string>
    var post: map<string, string>

    function View(): Request
      reads this
    {
      Request(state, verb, path, version, body, headers, post)
    }

    constructor ()
      ensures View() == Blank
    {
      state, verb, path, version, body := REQUEST_LINE, "", "", "", "";
      headers, post := map[], map[];
    }

    method Init()
      modifies this
      ensures View() == Blank
    {
      verb, path, version, body := "", "", "", "";
      state := REQUEST_LINE;
      headers, post := map[], map[];
    }

    /** Parses what is readable in the buffer; an empty buffer is refused. */
    method Parse(buf: Buffer, db: Database) returns (ok: bool)
      requires buf.Valid()
      modifies this, buf`readPos, buf`removed
      ensures buf.Valid()
      ensures var p := ParseLines(old(View()), old(buf.Readable()), db);
              && (ok <==> old(buf.Readable()) != "" && p.ok)
              && View() == p.request && buf.Readable() == p.rest
    {
      if buf.ReadableBytes() <= 0 {
        return false;
      }
      while buf.ReadableBytes() > 0 && state != FINISH
        invariant buf.Valid() && buf.buf == old(buf.buf)
        invariant ParseLines(View(), buf.Readable(), db) == ParseLines(old(View()), old(buf.Readable()), db)
        decreases buf.ReadableBytes()
      {
        OneLineAtATime(View(), buf.Readable(), db);
        ok := ParseNext(buf, db);
        if !ok {
          return false;
        }
      }
      return true;
    }

    /** One iteration: finds a line, parses it, and consumes it unless it fails. */
    method ParseNext(buf: Buffer, db: Database) returns (ok: bool)
      requires buf.Valid() && buf.ReadableBytes() > 0
      modifies this, buf`readPos, buf`removed
      ensures buf.Valid()
      ensures var text := old(buf.Readable());
              && (ok, View()) == ParseLine(old(View()), text[..LineEnd(text)], db)
              && buf.Readable() == if ok then text[Consumed(text)..] else text
    {
      ghost var text := buf.Readable();
      var lineEnd := SearchCrlf(buf);
      var line := buf.buf[buf.readPos..lineEnd];
      ghost var n := lineEnd - buf.readPos;
      assert n == LineEnd(text) && |line| == n;
      assert line == text[..n] by {
        assert forall i :: 0 <= i < n ==> line[i] == buf.buf[buf.readPos + i] == text[i];
      }
      ok := DispatchLine(line, db);
      assert buf.Readable() == text;
      if ok {
        var next := if lineEnd < buf.writePos then lineEnd + 2 else lineEnd;
        assert next - buf.readPos == Consumed(text);
        buf.RetrieveUntil(next);
      }
    }

    /** The switch on the state inside the loop. */
    method DispatchLine(line: string, db: Database) returns (ok: bool)
      modifies this
      ensures (ok, View()) == ParseLine(old(View()), line, db)
    {
      ok := true;
      match state {
        case REQUEST_LINE =>
          ok := ParseRequestLine(line);
          if ok {
            ParsePath();
          }
        case HEADERS =>
          ok := ParseHeaders(line);
        case BODY =>
          ok := ParseBody(line, db);
        case _ =>
      }
    }

    /** std::search for CRLF in the readable part: an absolute position. */
    method SearchCrlf(buf: Buffer) returns (pos: nat)
      requires buf.Valid()
      ensures buf.readPos <= pos <= buf.writePos && pos - buf.readPos == LineEnd(buf.Readable())
    {
      pos := buf.readPos;
      while pos < buf.writePos
        invariant buf.readPos <= pos <= buf.writePos
        invariant forall i :: 0 <= i < pos - buf.readPos ==> !CrlfAt(buf.Readable(), i)
      {
        if pos + 1 < buf.writePos && buf.buf[pos] == '\r' && buf.buf[pos + 1] == '\n' {
          break;
        }
        pos := pos + 1;
      }
      LineEndUnique(buf.Readable(), pos - buf.readPos);
    }

    /** The path is stored as it came; `ParsePath` normalises it. */
    method ParseRequestLine(line: string) returns (ok: bool)
      modifies this
      ensures ok <==> MatchRequestLine(line).Some?
      ensures View() == match MatchRequestLine(line)
                        case Some(l) => old(View()).(verb := l.verb, path := l.path, version := l.version,
                                                     state := HEADERS)
                        case None => old(View())
    {
      match MatchRequestLine(line) {
        case Some(l) =>
          verb, path, version := l.verb, l.path, l.version;
          state := HEADERS;
          return true;
        case None =>
          return false;
      }
    }

    method ParsePath()
      modifies this`path
      ensures path == NormalizePath(old(path))
    {
      if path !in DEFAULT_HTML {
        return;
      }
      if path == "/" {
        path := "/index.html";
      } else {
        path := path + ".html";
      }
    }

    method ParseHeaders(line: string) returns (ok: bool)
      modifies this
      ensures (ok, View()) == HeaderLine(old(View()), line)
    {
      if line == "" {
        state := BODY;
        return true;
      }
      match MatchHeader(line) {
        case Some(p) =>
          headers := headers[p.key := p.value];
          return true;
        case None =>
          return false;
      }
    }

    method ParseBody(line: string, db: Database) returns (ok: bool)
      modifies this
      ensures (ok, View()) == BodyLine(old(View()), line, db)
    {
      if verb != "POST" {
        return true;
      }
      if line == "" {
        return true;
      }
      body := line;
      ok := ParsePost(db);
      if !ok {
        return false;
      }
      state := FINISH;
      return true;
    }

    method ParsePost(db: Database) returns (ok: bool)
      modifies this
      ensures (ok, View()) == PostBody(old(View()), db)
    {
      if CONTENT_TYPE !in headers {
        return false;
      }
      if headers[CONTENT_TYPE] != FORM {
        return false;
      }
      ParseEncodedUrl();
      if path != LOGIN_PAGE && path != REGISTER_PAGE {
        return true;
      }
      post := WithDefault(post, USERNAME);
      post := WithDefault(post, PASSWORD);
      if path == REGISTER_PAGE {
        return db.register(post[USERNAME], post[PASSWORD]);
      }
      if post[USERNAME] != "" && db.verify(post[USERNAME], post[PASSWORD]) {
        path := WELCOME_PAGE;
      } else {
        path := ERROR_PAGE;
      }
      return true;
    }

    /** Decodes the body in place and stores its pairs. */
    method ParseEncodedUrl()
      modifies this`body, this`post
      ensures body == PlusToSpace(old(body))
      ensures post == Scan(old(body), "", "", old(post))
    {
      ghost var all, post0 := body, post;
      var key, value := "", "";
      var end, start := 0, 0;
      DecodingStarts(all, post);
      hide Decoding, Scan, PlusToSpace;
      while end < |body|
        invariant start <= end <= |body| && Decoding(all, body, start, end, key, post, post0)
      {
        DecodingStep(all, body, start, end, key, post, post0);
        match body[end] {
          case '+' =>
            body := body[end := ' '];
          case '=' =>
            key := body[start..end];
            start := end + 1;
          case '&' =>
            value := body[start..end];
            start := end + 1;
            post := post[key := value];
          case _ =>
        }
        end := end + 1;
      }
      DecodingEnds(all, body, start, key, post, post0);
      if start > end {
        return;
      }
      post := post[key := body[start..end]];
    }

    predicate IsKeepAlive()
      reads this
    {
      KeepsAlive(View())
    }
  }
}
