/**
 One use of a socket over several requests: what is sent is the stream of answers, what is answered are consecutive
 stretches of what was read; and when the answers are those a client expects.
 */
module HttpSession {
  import opened HttpForm
  import opened HttpParser
  import opened HttpResponder
  import opened HttpConnection

  function Replies(xs: seq<Exchange>, c: Setup): seq<Reply> {
    seq(|xs|, i requires 0 <= i < |xs| => ReplyOf(xs[i], c))
  }

  /** What the parser takes from a text. */
  function Used(x: Exchange): string {
    var rest := ParseLines(Blank, x.text, x.db).rest;
    if |rest| <= |x.text| then x.text[..|x.text| - |rest|] else x.text
  }

  function UsedBy(xs: seq<Exchange>): string {
    if xs == [] then "" else UsedBy(xs[..|xs| - 1]) + Used(xs[|xs| - 1])
  }

  /**
   What has been sent and what is left to send are the answers so far, one after another; epoll is asked to wait for
   room exactly while something is left.
   */
  predicate Streamed(s: Session, c: Setup) {
    && s.sent + s.unsent == Stream(Replies(s.exchanges, c))
    && (s.waits == WaitReadable ==> s.unsent == "") && (s.waits == WaitWritable ==> s.unsent != "")
  }

  /** Each answered text is a stretch of the bytes read that begins where the use of the one before ended. */
  predicate Contiguous(s: Session) {
    && s.received == UsedBy(s.exchanges) + s.readable
    && forall i :: 0 <= i < |s.exchanges| ==> UsedBy(s.exchanges[..i]) + s.exchanges[i].text <= s.received
  }

  lemma {:induction false} RestIsSuffix(r: Request, text: string, db: Database)
    ensures var rest := ParseLines(r, text, db).rest;
            |rest| <= |text| && rest == text[|text| - |rest|..]
    decreases |text|
  {
    if text != "" && r.state != FINISH {
      OneLineAtATime(r, text, db);
      var (ok, r') := ParseLine(r, text[..LineEnd(text)], db);
      if ok {
        var tail := text[Consumed(text)..];
        RestIsSuffix(r', tail, db);
        var rest := ParseLines(r', tail, db).rest;
        assert tail[|tail| - |rest|..] == text[|text| - |rest|..];
      }
    }
  }

  lemma OneMoreAnswer(sent: string, unsent: string, xs: seq<Exchange>, x: Exchange, c: Setup)
    requires sent + unsent == Stream(Replies(xs, c))
    ensures sent + (unsent + ReplyBytes(ReplyOf(x, c))) == Stream(Replies(xs + [x], c))
  {
    hide Stream, ReplyBytes, ReplyOf;
    assert Replies(xs + [x], c) == Replies(xs, c) + [ReplyOf(x, c)];
    StreamAppend(Replies(xs, c), ReplyOf(x, c));
    assert sent + (unsent + ReplyBytes(ReplyOf(x, c))) == sent + unsent + ReplyBytes(ReplyOf(x, c));
  }

  lemma OneMoreUse(s: Session, x: Exchange, rest: string)
    requires Contiguous(s) && x.text == s.readable == Used(x) + rest
    ensures Contiguous(s.(readable := rest, exchanges := s.exchanges + [x]))
  {
    var xs := s.exchanges;
    UsedByAppend(xs, x);
    hide Used, UsedBy;
    assert UsedBy(xs) + (Used(x) + rest) == UsedBy(xs) + Used(x) + rest;
    forall i | 0 <= i <= |xs| ensures UsedBy((xs + [x])[..i]) + (xs + [x])[i].text <= s.received {
      assert (xs + [x])[..i] == xs[..i];
      assert xs[..|xs|] == xs;
    }
  }

  lemma UsedByAppend(xs: seq<Exchange>, x: Exchange)
    ensures UsedBy(xs + [x]) == UsedBy(xs) + Used(x)
  {
    assert (xs + [x])[..|xs|] == xs;
  }

  lemma AnswersAreNotEmpty(x: Exchange, c: Setup)
    ensures ReplyBytes(ReplyOf(x, c)) != ""
  {
    hide ReplyOf, JoinLines;
  }

  lemma ProcessedKeeps(s: Session, db: Database, fs: FileSystem, c: Setup)
    requires Contiguous(s) && s.sent + s.unsent == Stream(Replies(s.exchanges, c))
    requires s.readable == "" ==> s.unsent == ""
    ensures Streamed(Processed(s, db, fs, c), c) && Contiguous(Processed(s, db, fs, c))
  {
    hide ParseLines, ReplyOf, ReplyBytes, Stream, Replies, UsedBy;
    if s.readable != "" {
      var x := Exchange(s.readable, db, fs);
      var rest := ParseLines(Blank, s.readable, db).rest;
      RestIsSuffix(Blank, s.readable, db);
      assert s.readable == Used(x) + rest;
      OneMoreUse(s, x, rest);
      AnswersAreNotEmpty(x, c);
      OneMoreAnswer(s.sent, s.unsent, s.exchanges, x, c);
    }
  }

  lemma ReadKeeps(s: Session, got: string, ended: bool, db: Database, fs: FileSystem, c: Setup)
    requires Streamed(s, c) && Contiguous(s) && s.waits == WaitReadable
    ensures Streamed(ReadHandled(s, got, ended, db, fs, c), c) && Contiguous(ReadHandled(s, got, ended, db, fs, c))
  {
    hide Processed, Stream, Replies, UsedBy;
    var s1 := s.(readable := s.readable + got, received := s.received + got);
    assert s1.received == UsedBy(s.exchanges) + s1.readable;
    ProcessedKeeps(s1, db, fs, c);
  }

  lemma WriteKeeps(s: Session, wishes: nat -> int, again: bool, db: Database, fs: FileSystem, c: Setup)
    requires Streamed(s, c) && Contiguous(s)
    ensures Streamed(WriteHandled(s, wishes, again, db, fs, c), c)
    ensures Contiguous(WriteHandled(s, wishes, again, db, fs, c))
  {
    hide Processed, Stream, Replies, UsedBy, WriteLoop;
    var (len, left) := WriteLoop(c.isET, wishes, 0, |s.unsent|);
    WriteDoneConserves(s, left);
    if Decision(len, left, s.keepAlive, again) == ProcessMore {
      ProcessMoreMeansAllSent(s, len, left, again);
      ProcessedKeeps(WriteDone(s, left), db, fs, c);
    }
  }

  /** When nothing is left to send, a client that reads the bytes sent finds each answer's lines and content. */
  lemma ClientReadsAllAnswers(s: Session, c: Setup)
    requires Streamed(s, c) && s.unsent == ""
    ensures var n := |s.exchanges|;
            var found := ReadReplies(s.sent, n);
            |found| == n && forall i :: 0 <= i < n ==>
              var r := ReplyOf(s.exchanges[i], c);
              found[i] == (r.lines, r.page + r.file)
  {
    hide ReplyTo, ReadReplies, Stream;
    var rs := Replies(s.exchanges, c);
    assert s.sent == Stream(rs);
    forall i | 0 <= i < |rs| ensures WellHeaded(rs[i]) {
      var x := s.exchanges[i];
      var p := ParseLines(Blank, x.text, x.db);
      ReplyIsWellHeaded(x.fs, c.types, c.srcDir, p.request.path, p.ok && KeepsAlive(p.request));
    }
    StreamIsRead(rs);
  }

  // ---------- How often a byte is answered ----------

  function Leftover(x: Exchange): string {
    ParseLines(Blank, x.text, x.db).rest
  }

  function Texts(xs: seq<Exchange>): string {
    if xs == [] then "" else Texts(xs[..|xs| - 1]) + xs[|xs| - 1].text
  }

  lemma {:induction false} UsedUpIff(xs: seq<Exchange>)
    ensures |UsedBy(xs)| <= |Texts(xs)|
    ensures (forall i :: 0 <= i < |xs| ==> Leftover(xs[i]) == "") <==> UsedBy(xs) == Texts(xs)
    ensures UsedBy(xs) != Texts(xs) ==> |UsedBy(xs)| < |Texts(xs)|
    decreases |xs|
  {
    hide ParseLines;
    if xs != [] {
      var init, x := xs[..|xs| - 1], xs[|xs| - 1];
      UsedUpIff(init);
      RestIsSuffix(Blank, x.text, x.db);
      assert Leftover(x) == "" ==> Used(x) == x.text;
      assert Leftover(x) != "" ==> |Used(x)| < |x.text|;
      if forall i :: 0 <= i < |init| ==> Leftover(init[i]) == "" {
        assert forall i :: 0 <= i < |init| ==> xs[i] == init[i];
      } else {
        var i :| 0 <= i < |init| && Leftover(init[i]) != "";
        assert Leftover(xs[i]) != "";
      }
    }
  }

  /**
   Every byte read is answered once, in one text, or still waits, exactly if no answered text left bytes in the buffer;
   otherwise some bytes are answered again.
   */
  lemma AnsweredOnceIff(s: Session)
    requires Contiguous(s)
    ensures s.received == Texts(s.exchanges) + s.readable <==>
              forall i :: 0 <= i < |s.exchanges| ==> Leftover(s.exchanges[i]) == ""
    ensures |s.received| <= |Texts(s.exchanges)| + |s.readable|
  {
    hide Leftover, UsedBy, Texts;
    UsedUpIff(s.exchanges);
  }

  // ---------- One request, one answer ----------

  /**
   A text that has been answered, and the answer sent, is answered again exactly if it leaves bytes behind and asks
   to be kept alive; the second answer is to those bytes.
   */
  lemma AnsweredAgainIff(s: Session, wishes: nat -> int, again: bool, db: Database, fs: FileSystem,
                         db2: Database, fs2: FileSystem, c: Setup)
    requires s.readable != ""
    requires WriteLoop(c.isET, wishes, 0, |Processed(s, db, fs, c).unsent|).1 == 0
    ensures var p := ParseLines(Blank, s.readable, db);
            var first := s.exchanges + [Exchange(s.readable, db, fs)];
            WriteHandled(Processed(s, db, fs, c), wishes, again, db2, fs2, c).exchanges ==
              if p.rest == "" || !KeepsAlive(p.request) then first else first + [Exchange(p.rest, db2, fs2)]
  {
    hide ParseLines, WriteLoop, KeepsAlive, ReplyBytes, ReplyOf;
  }

  /** A printed request gets one answer exactly if it is not rejected, or does not ask to be kept alive. */
  lemma PrintedIsAnsweredOnceIff(s: Session, m: Message, wishes: nat -> int, again: bool, db: Database, fs: FileSystem,
                                 db2: Database, fs2: FileSystem, c: Setup)
    requires Parsable(m) && s.readable == Print(m) != ""
    requires WriteLoop(c.isET, wishes, 0, |Processed(s, db, fs, c).unsent|).1 == 0
    ensures var s' := WriteHandled(Processed(s, db, fs, c), wishes, again, db2, fs2, c);
            && (|s'.exchanges| == |s.exchanges| + 1 <==> !Rejected(m, db) || !KeepsAlive(Head(m)))
            && (Rejected(m, db) && KeepsAlive(Head(m)) ==>
                  s'.exchanges == s.exchanges + [Exchange(Print(m), db, fs)] + [Exchange(m.body, db2, fs2)])
  {
    hide ParseLines, Print, WriteLoop, Processed, WriteHandled, Rejected, NormalizePath;
    PrintedIsRejectedIff(m, db);
    RejectedHasBody(m, db);
    AnsweredAgainIff(s, wishes, again, db, fs, db2, fs2, c);
  }

  lemma RejectedHasBody(m: Message, db: Database)
    ensures Rejected(m, db) ==> m.body != ""
  {
  }

  /**
   An input: a POST without content type that asks to be kept alive, whose body looks like a request line.  Its body is
   answered as a request of its own, with the welcome page.
   */
  lemma RejectedBodyIsServed(db: Database, fs: FileSystem, c: Setup)
    ensures var m := Message(RequestLine("POST", "/", "1.1"), [Pair("Connection", "keep-alive")],
                             "GET /welcome HTTP/1.1");
            && Parsable(m) && Rejected(m, db) && KeepsAlive(Head(m))
            && ReplyOf(Exchange(m.body, db, fs), c) == ReplyTo(fs, c.types, c.srcDir, "/welcome.html", false)
  {
    var m := Message(RequestLine("POST", "/", "1.1"), [Pair("Connection", "keep-alive")], "GET /welcome HTTP/1.1");
    var l := RequestLine("GET", "/welcome", "1.1");
    WelcomeLine(l);
    PrintedRequestLineIsOneLine(l);
    LoneRequestLine(l, db);
    PostLine(m.line);
    hide ParseLines, ReplyTo, NormalizePath, PrintRequestLine, PrintableLine, PrintableHead, OneLine;
    KeepAliveHeader(m);
  }

  lemma PostLine(l: RequestLine)
    requires l == RequestLine("POST", "/", "1.1")
    ensures PrintableLine(l)
  {
  }

  lemma WelcomeLine(l: RequestLine)
    requires l == RequestLine("GET", "/welcome", "1.1")
    ensures PrintableLine(l) && PrintRequestLine(l) == "GET /welcome HTTP/1.1"
    ensures NormalizePath(l.path) == "/welcome.html"
  {
  }

  /** A request line alone, without CRLF, is an accepted request. */
  lemma LoneRequestLine(l: RequestLine, db: Database)
    requires PrintableLine(l)
    ensures ParseLines(Blank, PrintRequestLine(l), db) == Result(true, HeadLine(l), "")
    ensures !KeepsAlive(HeadLine(l))
  {
    hide NormalizePath, PrintableLine;
    var text := PrintRequestLine(l);
    PrintedRequestLineIsOneLine(l);
    ParsesRequestLine(l, db);
    LineEndOfLine(text, "");
    assert text[..|text|] == text && text[|text|..] == "" && text != "";
    OneLineAtATime(Blank, text, db);
  }

  /** A request read at once and answered. */
  function InOneRead(s: Session, m: Message, wishes: nat -> int, db: Database, fs: FileSystem, c: Setup): Session {
    WriteHandled(ReadHandled(s, Print(m), false, db, fs, c), wishes, false, db, fs, c)
  }

  /** A new connection whose request is accepted and answered. */
  lemma PrintedIsServed(b: bool, m: Message, wishes: nat -> int, db: Database, fs: FileSystem, c: Setup)
    requires Parsable(m) && !Rejected(m, db)
    requires WriteLoop(c.isET, wishes, 0, |ReadHandled(NewSession(b), Print(m), false, db, fs, c).unsent|).1 == 0
    ensures var s := InOneRead(NewSession(b), m, wishes, db, fs, c);
            var r := AnswerTo(Print(m), db, fs, c.types, c.srcDir);
            && s.sent == ReplyBytes(r) && s.exchanges == [Exchange(Print(m), db, fs)] && s.received == Print(m)
            && s.waits == (if KeepsAlive(Head(m)) then WaitReadable else CloseConn)
            && |r.lines| > 1
            && r.lines[1] == (if KeepsAlive(Head(m)) then "Connection: keep-alive" else "Connection: close")
  {
    PrintedIsRejectedIff(m, db);
    var p := ParseLines(Blank, Print(m), db);
    assert KeepsAlive(p.request) == KeepsAlive(Head(m));
    assert Print(m) != "";
    ReplySays(fs, c.types, c.srcDir, p.request.path, KeepsAlive(p.request));
    hide Print, ParseLines, ReadHandled, WriteHandled, WriteLoop, KeepsAlive;
    hide ReplyBytes, ReplyTo, Head, Rejected, NewSession;
    ServedOnce(b, Print(m), p.request, wishes, db, fs, c);
  }

  /**
   A client that prints a request with Connection header i last: the answer says keep-alive, and the connection is
   read from again once it is sent, exactly for the value keep-alive in version 1.1; else it is closed.
   */
  lemma PrintedIsKeptIff(b: bool, m: Message, i: nat, wishes: nat -> int, db: Database, fs: FileSystem, c: Setup)
    requires Parsable(m) && !Rejected(m, db) && i < |m.headers| && m.headers[i].key == "Connection"
    requires forall j :: i < j < |m.headers| ==> m.headers[j].key != "Connection"
    requires WriteLoop(c.isET, wishes, 0, |ReadHandled(NewSession(b), Print(m), false, db, fs, c).unsent|).1 == 0
    ensures var s := InOneRead(NewSession(b), m, wishes, db, fs, c);
            var r := AnswerTo(Print(m), db, fs, c.types, c.srcDir);
            var kept := m.headers[i].value == "keep-alive" && m.line.version == "1.1";
            && s.waits == (if kept then WaitReadable else CloseConn)
            && |r.lines| > 1 && r.lines[1] == (if kept then "Connection: keep-alive" else "Connection: close")
  {
    KeepsAliveIff(m, i);
    PrintedIsServed(b, m, wishes, db, fs, c);
    hide *;
  }

  /** Without a Connection header the answer says close, and the connection is closed. */
  lemma PrintedIsClosedWithoutHeader(b: bool, m: Message, wishes: nat -> int, db: Database, fs: FileSystem, c: Setup)
    requires Parsable(m) && !Rejected(m, db)
    requires forall i :: 0 <= i < |m.headers| ==> m.headers[i].key != "Connection"
    requires WriteLoop(c.isET, wishes, 0, |ReadHandled(NewSession(b), Print(m), false, db, fs, c).unsent|).1 == 0
    ensures var s := InOneRead(NewSession(b), m, wishes, db, fs, c);
            var r := AnswerTo(Print(m), db, fs, c.types, c.srcDir);
            s.waits == CloseConn && |r.lines| > 1 && r.lines[1] == "Connection: close"
  {
    NotKeptWithoutHeader(m);
    PrintedIsServed(b, m, wishes, db, fs, c);
    hide *;
  }

  // ---------- One request, two reads ----------

  /** A request that arrives in two parts; in between the first is answered. */
  function InTwoReads(s: Session, m: Message, k: nat, wishes: nat -> int,
                      db: Database, fs: FileSystem, c: Setup): Session
    requires k <= |m.headers|
  {
    var s1 := WriteHandled(ReadHandled(s, Beginning(m, k), false, db, fs, c), wishes, false, db, fs, c);
    if s1.waits == WaitReadable then ReadHandled(s1, Remainder(m, k), false, db, fs, c) else s1
  }

  /** A new connection whose whole text is accepted and answered. */
  lemma ServedOnce(b: bool, text: string, r: Request, wishes: nat -> int, db: Database, fs: FileSystem, c: Setup)
    requires text != "" && ParseLines(Blank, text, db) == Result(true, r, "")
    requires WriteLoop(c.isET, wishes, 0, |ReadHandled(NewSession(b), text, false, db, fs, c).unsent|).1 == 0
    ensures var s := WriteHandled(ReadHandled(NewSession(b), text, false, db, fs, c), wishes, false, db, fs, c);
            && s.waits == (if KeepsAlive(r) then WaitReadable else CloseConn)
            && s.readable == "" && s.received == text && s.exchanges == [Exchange(text, db, fs)]
            && s.sent == ReplyBytes(ReplyTo(fs, c.types, c.srcDir, r.path, KeepsAlive(r)))
  {
    hide ParseLines, WriteLoop, KeepsAlive, ReplyBytes, ReplyTo;
    assert "" + text == text;
  }

  lemma AnnouncementsShow(fs: FileSystem, types: MimeTable, srcDir: string, path: string)
    ensures ReplyBytes(ReplyTo(fs, types, srcDir, path, true)) != ReplyBytes(ReplyTo(fs, types, srcDir, path, false))
  {
    hide ReplyTo, ReplyBytes, ReadReply, WellHeaded, Connection;
    var r1, r2 := ReplyTo(fs, types, srcDir, path, true), ReplyTo(fs, types, srcDir, path, false);
    ReplyIsWellHeaded(fs, types, srcDir, path, true);
    ReplyIsWellHeaded(fs, types, srcDir, path, false);
    ReplyIsRead(r1, "");
    ReplyIsRead(r2, "");
    FileIsDelivered(fs, types, srcDir, path, true);
    FileIsDelivered(fs, types, srcDir, path, false);
    AnnouncementsDiffer();
  }

  /**
   Every read is parsed from the beginning.  For a request other than POST that arrives in two reads, cut between two
   lines of its head, the client nevertheless gets what one read would have given it, exactly if neither the headers
   before the cut nor all of them ask to be kept alive.
   */
  lemma SplitIsHarmlessIff(b: bool, m: Message, k: nat, w1: nat -> int, w2: nat -> int,
                           db: Database, fs: FileSystem, c: Setup)
    requires PrintableHead(m) && m.line.verb != "POST" && k <= |m.headers|
    requires WriteLoop(c.isET, w1, 0, |ReadHandled(NewSession(b), Print(m), false, db, fs, c).unsent|).1 == 0
    requires WriteLoop(c.isET, w2, 0, |ReadHandled(NewSession(b), Beginning(m, k), false, db, fs, c).unsent|).1 == 0
    ensures var one := InOneRead(NewSession(b), m, w1, db, fs, c);
            var two := InTwoReads(NewSession(b), m, k, w2, db, fs, c);
            (two.sent == one.sent && |two.exchanges| == |one.exchanges|)
              <==> !KeepsAlive(PartHead(m, k)) && !KeepsAlive(Head(m))
  {
    TextAfterHeadIsSwallowed(m, db);
    ParseBeginning(m, k, "", db);
    TwoReadsMakeTheText(m, k);
    SamePath(m, k);
    AnnouncementsShow(fs, c.types, c.srcDir, Head(m).path);
    hide Print, Beginning, Remainder, Head, PartHead, KeepsAlive, ReadHandled, WriteHandled, WriteLoop;
    hide ReplyBytes, ReplyTo, NewSession, Processed, PrintableHead, ParseLines;
    ServedOnce(b, Print(m), Head(m), w1, db, fs, c);
    ServedOnce(b, Beginning(m, k), PartHead(m, k), w2, db, fs, c);
    var s1 := WriteHandled(ReadHandled(NewSession(b), Beginning(m, k), false, db, fs, c), w2, false, db, fs, c);
    MoreIsAnswered(s1, Remainder(m, k), db, fs, c);
  }

  lemma MoreIsAnswered(s: Session, got: string, db: Database, fs: FileSystem, c: Setup)
    requires got != ""
    ensures |ReadHandled(s, got, false, db, fs, c).exchanges| == |s.exchanges| + 1
  {
    hide ParseLines, ReplyOf, ReplyBytes;
  }

  lemma SamePath(m: Message, k: nat)
    requires k <= |m.headers|
    ensures Head(m).path == PartHead(m, k).path
    ensures Beginning(m, k) != "" && Print(m) != "" && Beginning(m, k) + "" == Beginning(m, k)
    ensures forall db :: ParseLines(PartHead(m, k), "", db) == Result(true, PartHead(m, k), "")
  {
    hide NormalizePath;
  }
}
