/**
 Building a response: status line, headers, and either a mapped file or a generated error page.  The file
 system is a parameter and does not change while one response is built.
 */
module HttpResponder {
  import opened ByteBuffer
  import opened HttpParser

  datatype Node = Absent | Folder | File(worldReadable: bool, content: string)

  /** What the system calls answer: the node at a path, and whether open and mmap succeed on it. */
  datatype FileSystem = FileSystem(node: string -> Node, opens: string -> bool, maps: string -> bool)

  /** The file types by extension, one line each. */
  type MimeTable = m: map<string, string> | forall ext :: ext in m ==> OneLine(m[ext])
    witness map[]

  const STATUS_CODE: map<int, string> := map[200 := "OK", 400 := "Bad Request", 403 := "Forbidden", 404 := "Not Found"]

  const ERROR_CODE: map<int, string> := map[400 := "/400.html", 403 := "/403.html", 404 := "/404.html"]

  function Digit(d: nat): char
    requires d < 10
  {
    ['0', '1', '2', '3', '4', '5', '6', '7', '8', '9'][d]
  }

  function DigitValue(c: char): int {
    c as int - '0' as int
  }

  /** std::to_string of a non-negative number. */
  function Decimal(n: nat): string {
    if n < 10 then [Digit(n)] else Decimal(n / 10) + [Digit(n % 10)]
  }

  function ReadDecimal(s: string): int {
    if s == "" then 0 else 10 * ReadDecimal(s[..|s| - 1]) + DigitValue(s[|s| - 1])
  }

  lemma {:induction false} DecimalReadsBack(n: nat)
    ensures ReadDecimal(Decimal(n)) == n && OneLine(Decimal(n))
    ensures n < 10 ==> Decimal(n) == ["0123456789"[n]]
  {
    if n >= 10 {
      DecimalReadsBack(n / 10);
      assert Decimal(n)[..|Decimal(n)| - 1] == Decimal(n / 10);
    }
  }

  /** The status decided by stat; whatever code was set before is overwritten. */
  function CodeFor(node: Node): int {
    match node
    case Absent => 404
    case Folder => 404
    case File(readable, _) => if readable then 200 else 403
  }

  function ServedPath(path: string, code: int): string {
    if code in ERROR_CODE then ERROR_CODE[code] else path
  }

  /** find_last_of: the last c, or the length if there is none. */
  function LastIndexOf(s: string, c: char): (n: nat)
    ensures n <= |s|
  {
    if s == "" then 0
    else if s[|s| - 1] == c then |s| - 1
    else
      var n := LastIndexOf(s[..|s| - 1], c);
      if n == |s| - 1 then |s| else n
  }

  function FileType(path: string, types: MimeTable): (t: string)
    ensures OneLine(t)
  {
    var pos := LastIndexOf(path, '.');
    if pos == |path| || path[pos..] !in types then "text/plain" else types[path[pos..]]
  }

  function ErrorPage(code: nat, message: string): string {
    var status := if code in ERROR_CODE then ERROR_CODE[code] else "Bad Request";
    "<html><title>Error</title>" + "<body bgcolor=\"ffffff\">" + Decimal(code) + " : " + status + "\n" +
    "<p>" + message + "</p>" + "<hr><em>FutrueWebServer</em></body></html>"
  }

  // ---------- Reading a response ----------

  /** A receiver's view: the lines before the first empty line, and what follows it. */
  function SplitHead(text: string): (seq<string>, string)
    decreases |text|
  {
    var n := LineEnd(text);
    if n == |text| then ([text], "")
    else if n == 0 then ([], text[2..])
    else
      var (lines, body) := SplitHead(text[n + 2..]);
      ([text[..n]] + lines, body)
  }

  function JoinLines(lines: seq<string>): string {
    if lines == [] then "" else lines[0] + CRLF + JoinLines(lines[1..])
  }

  predicate HeadLines(lines: seq<string>) {
    forall i :: 0 <= i < |lines| ==> lines[i] != "" && OneLine(lines[i])
  }

  lemma {:induction false} SplitUndoesJoin(lines: seq<string>, body: string)
    requires HeadLines(lines)
    ensures SplitHead(JoinLines(lines) + (CRLF + body)) == (lines, body)
    decreases |lines|
  {
    hide LineEnd, OneLine;
    var text := JoinLines(lines) + (CRLF + body);
    if lines == [] {
      assert text == "" + CRLF + body;
      LineEndOfLine("", body);
      assert text[2..] == body;
    } else {
      var tail := JoinLines(lines[1..]) + (CRLF + body);
      assert text == lines[0] + CRLF + tail;
      LineEndOfLine(lines[0], tail);
      SplitUndoesJoin(lines[1..], body);
      assert text[..|lines[0]|] == lines[0] && text[|lines[0]| + 2..] == tail;
      assert lines == [lines[0]] + lines[1..];
    }
  }

  lemma {:induction false} JoinConcat(xs: seq<string>, ys: seq<string>)
    ensures JoinLines(xs + ys) == JoinLines(xs) + JoinLines(ys)
  {
    if xs == [] {
      assert xs + ys == ys;
    } else {
      assert (xs + ys)[1..] == xs[1..] + ys;
      JoinConcat(xs[1..], ys);
      assert xs[0] + CRLF + (JoinLines(xs[1..]) + JoinLines(ys)) == (xs[0] + CRLF + JoinLines(xs[1..])) + JoinLines(ys);
    }
  }

  // ---------- The response as a value ----------

  /** Head lines, content that goes through the buffer, and content that is sent from a mapped file. */
  datatype Reply = Reply(code: int, lines: seq<string>, page: string, file: string)

  function StateLine(code: int): string
    requires code in STATUS_CODE && code >= 0
  {
    "HTTP/1.1 " + Decimal(code) + " " + STATUS_CODE[code]
  }

  function ConnectionLines(keepAlive: bool): seq<string> {
    if keepAlive then ["Connection: keep-alive", "keep-alive: max=10, timeout=120"] else ["Connection: close"]
  }

  function TypeLine(fileType: string): string {
    "Content-type: " + fileType
  }

  function LengthLine(length: nat): string {
    CONTENT_LENGTH + Decimal(length)
  }

  const CONTENT_LENGTH: string := "Content-length: "

  /** A file is mapped if it can be opened, is a file with bytes in it, and mmap succeeds. */
  predicate Mapped(fs: FileSystem, full: string) {
    fs.opens(full) && fs.node(full).File? && fs.node(full).content != "" && fs.maps(full)
  }

  function HeadOf(code: int, keepAlive: bool, fileType: string): seq<string>
    requires code in STATUS_CODE && code >= 0
  {
    [StateLine(code)] + (ConnectionLines(keepAlive) + [TypeLine(fileType)])
  }

  function ReplyTo(fs: FileSystem, types: MimeTable, srcDir: string, path: string, keepAlive: bool): Reply {
    var code := CodeFor(fs.node(srcDir + path));
    var served := ServedPath(path, code);
    var mapped := Mapped(fs, srcDir + served);
    var page := if mapped then "" else ErrorPage(code, "File NotFound!");
    var file := if mapped then fs.node(srcDir + served).content else "";
    var length := if mapped then |file| else |page|;
    Reply(code, HeadOf(code, keepAlive, FileType(served, types)) + [LengthLine(length)], page, file)
  }

  /** The bytes that go through the write buffer. */
  function HeadBytes(r: Reply): string {
    JoinLines(r.lines) + (CRLF + r.page)
  }

  lemma StateLineIsLine(code: int)
    requires code == 200 || code == 403 || code == 404
    ensures StateLine(code) != "" && OneLine(StateLine(code))
  {
    DecimalReadsBack(code);
    hide Decimal;
    var status := STATUS_CODE[code];
    assert OneLine(status);
    assert OneLine("HTTP/1.1 ") && OneLine(" ");
    assert StateLine(code) == "HTTP/1.1 " + Decimal(code) + " " + status;
  }

  lemma ConnectionLinesAreLines(keepAlive: bool)
    ensures HeadLines(ConnectionLines(keepAlive))
  {
  }

  lemma TypeAndLengthAreLines(fileType: string, length: nat)
    requires OneLine(fileType)
    ensures TypeLine(fileType) != "" && OneLine(TypeLine(fileType))
    ensures LengthLine(length) != "" && OneLine(LengthLine(length))
  {
    DecimalReadsBack(length);
    assert OneLine("Content-type: ") && OneLine(CONTENT_LENGTH);
  }

  lemma HeadIsLines(code: int, keepAlive: bool, fileType: string, length: nat)
    requires (code == 200 || code == 403 || code == 404) && OneLine(fileType)
    ensures HeadLines(HeadOf(code, keepAlive, fileType) + [LengthLine(length)])
  {
    StateLineIsLine(code);
    ConnectionLinesAreLines(keepAlive);
    TypeAndLengthAreLines(fileType, length);
    HeadLinesConcat(ConnectionLines(keepAlive), [TypeLine(fileType)]);
    HeadLinesConcat([StateLine(code)], ConnectionLines(keepAlive) + [TypeLine(fileType)]);
    HeadLinesConcat(HeadOf(code, keepAlive, fileType), [LengthLine(length)]);
  }

  lemma HeadLinesConcat(xs: seq<string>, ys: seq<string>)
    requires HeadLines(xs) && HeadLines(ys)
    ensures HeadLines(xs + ys)
  {
  }

  /** Any head that ends in the right length line frames its content. */
  lemma LengthLineFrames(head: seq<string>, page: string, file: string)
    requires HeadLines(head + [LengthLine(|page + file|)])
    ensures var lines := head + [LengthLine(|page + file|)];
            SplitHead(JoinLines(lines) + (CRLF + page) + file) == (lines, page + file)
    ensures ReadDecimal(LengthLine(|page + file|)[|CONTENT_LENGTH|..]) == |page + file|
  {
    var lines := head + [LengthLine(|page + file|)];
    SplitUndoesJoin(lines, page + file);
    assert JoinLines(lines) + (CRLF + page) + file == JoinLines(lines) + (CRLF + (page + file));
    var digits := Decimal(|page + file|);
    DecimalReadsBack(|page + file|);
    assert (CONTENT_LENGTH + digits)[|CONTENT_LENGTH|..] == digits;
  }

  /** What makes up a reply: the code decides the page, and what can be mapped decides where the content comes from. */
  lemma ReplyShape(fs: FileSystem, types: MimeTable, srcDir: string, path: string, keepAlive: bool)
    ensures var r := ReplyTo(fs, types, srcDir, path, keepAlive);
            var served := ServedPath(path, r.code);
            var mapped := Mapped(fs, srcDir + served);
            && (r.code == 200 || r.code == 403 || r.code == 404) && r.code == CodeFor(fs.node(srcDir + path))
            && r.page == (if mapped then "" else ErrorPage(r.code, "File NotFound!"))
            && r.file == (if mapped then fs.node(srcDir + served).content else "")
            && |r.page + r.file| == (if mapped then |r.file| else |r.page|)
            && r.lines == HeadOf(r.code, keepAlive, FileType(served, types)) + [LengthLine(|r.page + r.file|)]
  {
  }

  /** The bytes of a reply, read by a receiver, give its lines and content of the announced length. */
  ghost predicate Framed(r: Reply) {
    var (lines, content) := SplitHead(HeadBytes(r) + r.file);
    && lines == r.lines && content == r.page + r.file
    && lines != [] && lines[|lines| - 1] == LengthLine(|content|)
    && ReadDecimal(lines[|lines| - 1][|CONTENT_LENGTH|..]) == |content|
  }

  lemma LengthLineMakesFramed(r: Reply, head: seq<string>)
    requires r.lines == head + [LengthLine(|r.page + r.file|)] && HeadLines(r.lines)
    ensures Framed(r)
  {
    LengthLineFrames(head, r.page, r.file);
  }

  /** Non-empty single lines, the last of which gives the length of the content. */
  predicate WellHeaded(r: Reply) {
    HeadLines(r.lines) && r.lines != [] && r.lines[|r.lines| - 1] == LengthLine(|r.page + r.file|)
  }

  lemma ReplyIsWellHeaded(fs: FileSystem, types: MimeTable, srcDir: string, path: string, keepAlive: bool)
    ensures WellHeaded(ReplyTo(fs, types, srcDir, path, keepAlive))
  {
    var r := ReplyTo(fs, types, srcDir, path, keepAlive);
    ReplyShape(fs, types, srcDir, path, keepAlive);
    hide ReplyTo, LengthLine, HeadOf;
    HeadIsLines(r.code, keepAlive, FileType(ServedPath(path, r.code), types), |r.page + r.file|);
  }

  /**
   Framing (section 8.6 of RFC 9110): whatever the file system answers, a receiver that splits the bytes sent
   at the first empty line finds content of exactly the length announced in the last header line.
   */
  lemma ReplyIsFramed(fs: FileSystem, types: MimeTable, srcDir: string, path: string, keepAlive: bool)
    ensures Framed(ReplyTo(fs, types, srcDir, path, keepAlive))
  {
    var r := ReplyTo(fs, types, srcDir, path, keepAlive);
    ReplyIsWellHeaded(fs, types, srcDir, path, keepAlive);
    hide ReplyTo;
    var last := |r.lines| - 1;
    assert r.lines == r.lines[..last] + [r.lines[last]];
    LengthLineMakesFramed(r, r.lines[..last]);
  }

  // ---------- Reading several responses ----------

  function ReplyBytes(r: Reply): string {
    HeadBytes(r) + r.file
  }

  /** A receiver takes the head up to the empty line, and as much content as the last line announces. */
  function ReadReply(text: string): (seq<string>, string, string) {
    var (lines, after) := SplitHead(text);
    var n := if lines != [] && CONTENT_LENGTH <= lines[|lines| - 1]
             then ReadDecimal(lines[|lines| - 1][|CONTENT_LENGTH|..]) else 0;
    if 0 <= n <= |after| then (lines, after[..n], after[n..]) else (lines, after, "")
  }

  lemma LengthLineReadsBack(n: nat)
    ensures CONTENT_LENGTH <= LengthLine(n) && ReadDecimal(LengthLine(n)[|CONTENT_LENGTH|..]) == n
  {
    DecimalReadsBack(n);
    assert LengthLine(n)[|CONTENT_LENGTH|..] == Decimal(n);
  }

  /** Whatever follows a reply, the receiver finds its lines, its content, and what follows. */
  lemma ReplyIsRead(r: Reply, rest: string)
    requires WellHeaded(r)
    ensures ReadReply(ReplyBytes(r) + rest) == (r.lines, r.page + r.file, rest)
  {
    hide SplitHead, LengthLine, ReadDecimal, JoinLines, HeadLines;
    var content := r.page + r.file;
    assert ReplyBytes(r) + rest == JoinLines(r.lines) + (CRLF + (content + rest));
    SplitUndoesJoin(r.lines, content + rest);
    LengthLineReadsBack(|content|);
    assert (content + rest)[..|content|] == content && (content + rest)[|content|..] == rest;
  }

  function Stream(rs: seq<Reply>): string {
    if rs == [] then "" else ReplyBytes(rs[0]) + Stream(rs[1..])
  }

  lemma {:induction false} StreamAppend(rs: seq<Reply>, r: Reply)
    ensures Stream(rs + [r]) == Stream(rs) + ReplyBytes(r)
  {
    if rs == [] {
      assert Stream([r][1..]) == "";
    } else {
      assert (rs + [r])[1..] == rs[1..] + [r];
      StreamAppend(rs[1..], r);
    }
  }

  function ReadReplies(text: string, n: nat): seq<(seq<string>, string)>
    decreases n
  {
    if n == 0 then []
    else
      var (lines, content, rest) := ReadReply(text);
      [(lines, content)] + ReadReplies(rest, n - 1)
  }

  /** So responses sent one after another are told apart: a receiver finds the lines and the content of each. */
  lemma {:induction false} StreamIsRead(rs: seq<Reply>)
    requires forall i :: 0 <= i < |rs| ==> WellHeaded(rs[i])
    ensures |ReadReplies(Stream(rs), |rs|)| == |rs|
    ensures forall i :: 0 <= i < |rs| ==> ReadReplies(Stream(rs), |rs|)[i] == (rs[i].lines, rs[i].page + rs[i].file)
  {
    hide ReadReply, ReplyBytes, WellHeaded;
    if rs != [] {
      ReplyIsRead(rs[0], Stream(rs[1..]));
      StreamIsRead(rs[1..]);
    }
  }

  /** The code passed in for a bad request is never used: what is served depends on the path alone. */
  lemma BadRequestIsNeverReported(fs: FileSystem, types: MimeTable, srcDir: string, path: string, keepAlive: bool)
    ensures ReplyTo(fs, types, srcDir, path, keepAlive).code != 400
    ensures ReplyTo(fs, types, srcDir, path, keepAlive).code == 200 <==>
              fs.node(srcDir + path).File? && fs.node(srcDir + path).worldReadable
  {
  }

  // ---------- What a reply says, letter by letter ----------

  /** The path whose file or error page makes up the content. */
  function ContentPath(node: Node, path: string): string {
    match node
    case File(readable, _) => if readable then path else "/403.html"
    case _ => "/404.html"
  }

  lemma CodeSays(node: Node, path: string)
    ensures var code := CodeFor(node);
            && (code == 200 <==> node.File? && node.worldReadable)
            && (code == 403 <==> node.File? && !node.worldReadable)
            && (code == 404 <==> node.Absent? || node.Folder?)
            && ServedPath(path, code) == ContentPath(node, path)
  {
  }

  lemma Digits200()
    ensures Decimal(200) == "200" && Decimal(403) == "403" && Decimal(404) == "404"
  {
    assert Decimal(2) == "2" && Decimal(4) == "4" && Decimal(20) == Decimal(2) + [Digit(0)];
    assert Decimal(40) == Decimal(4) + [Digit(0)];
  }

  lemma StateLineSays()
    ensures StateLine(200) == "HTTP/1.1 200 OK"
    ensures StateLine(403) == "HTTP/1.1 403 Forbidden"
    ensures StateLine(404) == "HTTP/1.1 404 Not Found"
  {
    hide Decimal;
    Digits200();
  }

  /** The head of a reply: status by what stat said, connection lines by what the request asked, type and length. */
  lemma ReplySays(fs: FileSystem, types: MimeTable, srcDir: string, path: string, keepAlive: bool)
    ensures var r, node := ReplyTo(fs, types, srcDir, path, keepAlive), fs.node(srcDir + path);
            && |r.lines| == (if keepAlive then 5 else 4)
            && (node.File? && node.worldReadable ==> r.code == 200 && r.lines[0] == "HTTP/1.1 200 OK")
            && (node.File? && !node.worldReadable ==> r.code == 403 && r.lines[0] == "HTTP/1.1 403 Forbidden")
            && (node.Absent? || node.Folder? ==> r.code == 404 && r.lines[0] == "HTTP/1.1 404 Not Found")
            && (keepAlive ==> r.lines[1..3] == ["Connection: keep-alive", "keep-alive: max=10, timeout=120"])
            && (!keepAlive ==> r.lines[1] == "Connection: close")
            && r.lines[|r.lines| - 2] == "Content-type: " + FileType(ContentPath(node, path), types)
            && r.lines[|r.lines| - 1] == "Content-length: " + Decimal(|r.page + r.file|)
  {
    ReplyShape(fs, types, srcDir, path, keepAlive);
    CodeSays(fs.node(srcDir + path), path);
    StateLineSays();
    hide ReplyTo, StateLine, FileType, Decimal, Mapped, ErrorPage, CodeFor, ServedPath, ContentPath;
  }

  /** The generated page names code and error page; for an unmapped file with code 200 it says Bad Request. */
  lemma ErrorPageSays(message: string)
    ensures var head := "<html><title>Error</title>" + "<body bgcolor=\"ffffff\">";
            var tail := "<hr><em>FutrueWebServer</em></body></html>";
            && ErrorPage(200, message) == head + "200" + " : " + "Bad Request" + "\n" + "<p>" + message + "</p>" + tail
            && ErrorPage(403, message) == head + "403" + " : " + "/403.html" + "\n" + "<p>" + message + "</p>" + tail
            && ErrorPage(404, message) == head + "404" + " : " + "/404.html" + "\n" + "<p>" + message + "</p>" + tail
  {
    hide Decimal;
    Digits200();
  }

  /**
   The content of a reply: the file at the content path, whenever it can be opened and mapped and has bytes; in every
   other case no file goes out, but a page generated for the code.
   */
  lemma ReplyDelivers(fs: FileSystem, types: MimeTable, srcDir: string, path: string, keepAlive: bool)
    ensures var r := ReplyTo(fs, types, srcDir, path, keepAlive);
            var full := srcDir + ContentPath(fs.node(srcDir + path), path);
            if fs.opens(full) && fs.node(full).File? && fs.node(full).content != "" && fs.maps(full)
            then r.file == fs.node(full).content && r.page == ""
            else r.file == "" && r.page == ErrorPage(r.code, "File NotFound!") && r.code in {200, 403, 404}
  {
    ReplyShape(fs, types, srcDir, path, keepAlive);
    CodeSays(fs.node(srcDir + path), path);
    hide ReplyTo, ErrorPage, ContentPath, ServedPath, CodeFor, HeadOf;
  }

  lemma {:induction false} LastIndexIs(a: string, c: char, b: string)
    requires c !in b
    ensures LastIndexOf(a + [c] + b, c) == |a|
    decreases |b|
  {
    var s := a + [c] + b;
    if b == "" {
      assert s[|s| - 1] == c;
    } else {
      var b' := b[..|b| - 1];
      assert s[|s| - 1] == b[|b| - 1] && s[..|s| - 1] == a + [c] + b';
      LastIndexIs(a, c, b');
    }
  }

  lemma {:induction false} NoLastIndex(s: string, c: char)
    requires c !in s
    ensures LastIndexOf(s, c) == |s|
    decreases |s|
  {
    if s != "" {
      NoLastIndex(s[..|s| - 1], c);
    }
  }

  /** The type goes by what follows the last dot, and is plain text without a dot or for an unknown extension. */
  lemma FileTypeOfExtension(name: string, ext: string, types: MimeTable)
    requires '.' !in ext
    ensures FileType(name + "." + ext, types) == if "." + ext in types then types["." + ext] else "text/plain"
    ensures FileType(ext, types) == "text/plain"
  {
    LastIndexIs(name, '.', ext);
    NoLastIndex(ext, '.');
    assert (name + "." + ext)[|name|..] == "." + ext;
  }

  // ---------- The response object ----------

  lemma Assoc(a: string, b: string, c: string)
    ensures a + b + c == a + (b + c)
  {
  }

  lemma LengthPieces(s: string, line: string, page: string)
    ensures s + (line + CRLF + CRLF) + page == s + (line + CRLF + (CRLF + page))
    ensures line + CRLF + CRLF == line + CRLF + (CRLF + "")
  {
  }

  lemma ConnectionPieces(s: string, keepAlive: bool)
    ensures keepAlive ==> s + "Connection: " + "keep-alive\r\n" + "keep-alive: max=10, timeout=120\r\n"
                          == s + JoinLines(ConnectionLines(true))
    ensures !keepAlive ==> s + "Connection: " + "close\r\n" == s + JoinLines(ConnectionLines(false))
  {
  }

  lemma JoinOne(line: string)
    ensures JoinLines([line]) == line + CRLF
  {
  }

  /** The pieces appended one after another are the joined head, the empty line, and the page. */
  lemma PiecesMakeHead(s: string, code: int, keepAlive: bool, fileType: string, length: nat, page: string)
    requires code in STATUS_CODE && code >= 0
    ensures var lines := HeadOf(code, keepAlive, fileType) + [LengthLine(length)];
            s + (StateLine(code) + CRLF)
              + (JoinLines(ConnectionLines(keepAlive)) + (TypeLine(fileType) + CRLF))
              + (LengthLine(length) + CRLF + (CRLF + page))
            == s + (JoinLines(lines) + (CRLF + page))
  {
    var conn, typeLine := ConnectionLines(keepAlive), TypeLine(fileType);
    var state, len := StateLine(code), LengthLine(length);
    JoinOne(state);
    JoinOne(typeLine);
    JoinOne(len);
    JoinConcat(conn, [typeLine]);
    JoinConcat([state], conn + [typeLine]);
    JoinConcat(HeadOf(code, keepAlive, fileType), [len]);
    Regroup(s, state + CRLF, JoinLines(conn), typeLine + CRLF, len + CRLF, CRLF + page);
  }

  lemma Regroup(s: string, a: string, b: string, c: string, d: string, e: string)
    ensures s + a + (b + c) + (d + e) == s + ((a + (b + c)) + d + e)
  {
  }

  class HttpResponse {
    var code: int
    var keepAlive: bool
    var path: string
    var srcDir: string
    var file: Option<string>
    var fileSize: nat
    const types: MimeTable

    constructor (types: MimeTable)
      ensures file == None && this.types == types
    {
      code, keepAlive, path, srcDir, file, fileSize := -1, false, "", "", None, 0;
      this.types := types;
    }

    /** Starts a new response; a file still mapped is released. */
    method Init(srcDir: string, path: string, keepAlive: bool, code: int)
      modifies this
      ensures file == None && this.srcDir == srcDir && this.path == path
      ensures this.keepAlive == keepAlive && this.code == code
    {
      file := None;
      this.srcDir, this.path, this.keepAlive, this.code := srcDir, path, keepAlive, code;
    }

    /** stat: remembers the size of what is there. */
    method Stat(fs: FileSystem) returns (node: Node)
      modifies this`fileSize
      ensures node == fs.node(srcDir + path)
      ensures node.File? ==> fileSize == |node.content|
    {
      node := fs.node(srcDir + path);
      if node.File? {
        fileSize := |node.content|;
      }
    }

    method MakeResponse(buf: Buffer, fs: FileSystem)
      requires buf.Valid() && file == None
      modifies this, buf, buf.buf
      ensures buf.Valid() && (buf.buf == old(buf.buf) || fresh(buf.buf))
      ensures var r := ReplyTo(fs, types, old(srcDir), old(path), old(keepAlive));
              && buf.Readable() == old(buf.Readable()) + HeadBytes(r)
              && code == r.code
              && file == (if r.file != "" then Some(r.file) else None)
              && (file.Some? ==> fileSize == |r.file|)
      ensures buf.removed == old(buf.removed)
    {
      ReplyShape(fs, types, srcDir, path, keepAlive);
      hide ReplyTo, ErrorPage, StateLine, FileType, LengthLine, TypeLine, ConnectionLines, JoinLines, HeadOf;
      var node := Stat(fs);
      if node.Absent? || node.Folder? {
        code := 404;
      } else if !node.worldReadable {
        code := 403;
      } else {
        code := 200;
      }
      ErrorHtml(fs);
      AddPieces(buf, fs);
    }

    /** The three appending steps of makeResponse. */
    method AddPieces(buf: Buffer, fs: FileSystem)
      requires buf.Valid() && file == None && (code == 200 || code == 403 || code == 404)
      requires fs.node(srcDir + path).File? ==> fileSize == |fs.node(srcDir + path).content|
      modifies this`code, this`file, buf, buf.buf
      ensures buf.Valid() && (buf.buf == old(buf.buf) || fresh(buf.buf)) && buf.removed == old(buf.removed)
      ensures code == old(code)
      ensures file == if Mapped(fs, srcDir + path) then Some(fs.node(srcDir + path).content) else None
      ensures var page := if file.Some? then "" else ErrorPage(code, "File NotFound!");
              var length := if file.Some? then |file.value| else |page|;
              var lines := HeadOf(code, keepAlive, FileType(path, types)) + [LengthLine(length)];
              buf.Readable() == old(buf.Readable()) + (JoinLines(lines) + (CRLF + page))
    {
      hide ErrorPage, StateLine, FileType, LengthLine, TypeLine, ConnectionLines, JoinLines;
      ghost var before, fileType := buf.Readable(), FileType(path, types);
      AddStateLine(buf);
      AddHeader(buf);
      AddContent(buf, fs);
      ghost var page := if file.Some? then "" else ErrorPage(code, "File NotFound!");
      ghost var length := if file.Some? then |file.value| else |page|;
      PiecesMakeHead(before, code, keepAlive, fileType, length, page);
    }

    method ErrorHtml(fs: FileSystem)
      requires code !in ERROR_CODE ==> fs.node(srcDir + path).File? && fileSize == |fs.node(srcDir + path).content|
      modifies this`path, this`fileSize
      ensures path == ServedPath(old(path), code)
      ensures fs.node(srcDir + path).File? ==> fileSize == |fs.node(srcDir + path).content|
    {
      if code !in ERROR_CODE {
        return;
      }
      path := ERROR_CODE[code];
      var _ := Stat(fs);
    }

    method AddStateLine(buf: Buffer)
      requires buf.Valid()
      modifies this`code, buf, buf.buf
      ensures buf.Valid() && (buf.buf == old(buf.buf) || fresh(buf.buf)) && buf.removed == old(buf.removed)
      ensures code == if old(code) in STATUS_CODE then old(code) else 400
      ensures buf.Readable() == old(buf.Readable()) + (StateLine(code) + CRLF)
    {
      if code !in STATUS_CODE {
        code := 400;
      }
      buf.Append(StateLine(code) + CRLF);
    }

    method AddHeader(buf: Buffer)
      requires buf.Valid()
      modifies buf, buf.buf
      ensures buf.Valid() && (buf.buf == old(buf.buf) || fresh(buf.buf)) && buf.removed == old(buf.removed)
      ensures buf.Readable() == old(buf.Readable())
                + (JoinLines(ConnectionLines(keepAlive)) + (TypeLine(FileType(path, types)) + CRLF))
    {
      hide ConnectionLines, JoinLines, TypeLine, FileType;
      ghost var s0 := buf.Readable();
      ghost var last := TypeLine(FileType(path, types)) + CRLF;
      buf.Append("Connection: ");
      if keepAlive {
        buf.Append("keep-alive\r\n");
        buf.Append("keep-alive: max=10, timeout=120\r\n");
      } else {
        buf.Append("close\r\n");
      }
      ConnectionPieces(s0, keepAlive);
      buf.Append(TypeLine(FileType(path, types)) + CRLF);
      Assoc(s0, JoinLines(ConnectionLines(keepAlive)), last);
    }

    method AddContent(buf: Buffer, fs: FileSystem)
      requires buf.Valid() && file == None && code >= 0
      requires fs.node(srcDir + path).File? ==> fileSize == |fs.node(srcDir + path).content|
      modifies this`file, buf, buf.buf
      ensures buf.Valid() && (buf.buf == old(buf.buf) || fresh(buf.buf)) && buf.removed == old(buf.removed)
      ensures file == if Mapped(fs, srcDir + path) then Some(fs.node(srcDir + path).content) else None
      ensures var page := if file.Some? then "" else ErrorPage(code, "File NotFound!");
              var length := if file.Some? then |file.value| else |page|;
              buf.Readable() == old(buf.Readable()) + (LengthLine(length) + CRLF + (CRLF + page))
    {
      var full := srcDir + path;
      if !fs.opens(full) {
        ErrorContent(buf, "File NotFound!");
        return;
      }
      // mmap fails on anything but a file, and on length zero.
      if !fs.node(full).File? || fileSize == 0 || !fs.maps(full) {
        ErrorContent(buf, "File NotFound!");
        return;
      }
      file := Some(fs.node(full).content);
      buf.Append(LengthLine(fileSize) + CRLF + CRLF);
      LengthPieces("", LengthLine(fileSize), "");
    }

    method ErrorContent(buf: Buffer, message: string)
      requires buf.Valid() && code >= 0
      modifies buf, buf.buf
      ensures buf.Valid() && (buf.buf == old(buf.buf) || fresh(buf.buf)) && buf.removed == old(buf.removed)
      ensures var page := ErrorPage(code, message);
              buf.Readable() == old(buf.Readable()) + (LengthLine(|page|) + CRLF + (CRLF + page))
    {
      var page := ErrorPage(code, message);
      ghost var s0 := buf.Readable();
      buf.Append(LengthLine(|page|) + CRLF + CRLF);
      buf.Append(page);
      LengthPieces(s0, LengthLine(|page|), page);
    }
  }
}
