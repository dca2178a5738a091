/**
 One connection's input and output: a scatter read into the read buffer, the request turned into a response,
 and a gather write of head and file under whatever the kernel accepts at a time.
 */
module HttpConnection {
  import opened ByteBuffer
  import opened HttpForm
  import opened HttpParser
  import opened HttpResponder

  /** Size of the overflow array of a scatter read. */
  const MAX_EXTRA_SPACE := 65536

  /** In level-triggered mode the write loop goes on only while more than this is left. */
  const LT_LEFTOVER := 10240

  /**
   What one readv returns, and the bytes still waiting: at most the room offered, at least one byte if there
   is any.  `wish` is the kernel's free choice; `atEnd` is what it returns with nothing waiting: 0 at the end
   of the stream, -1 with errno otherwise.
   */
  function Accepted(wish: int, most: nat): (n: nat)
    ensures n <= most && (n == 0 <==> most == 0)
  {
    if most == 0 then 0 else if wish < 1 then 1 else if wish > most then most else wish
  }

  /** writev: an error, or between one byte and all of them; 0 only for an empty request. */
  function WritevResult(wish: int, total: nat): (r: int)
    ensures -1 <= r <= total && (r == 0 ==> total == 0)
  {
    if wish < 0 then -1 else Accepted(wish, total)
  }

  /** Every result the kernel may give is some wish's: an error, or any number of bytes up to all of them. */
  lemma EveryResultIsPossible(n: nat, total: nat)
    requires 1 <= n <= total
    ensures WritevResult(n, total) == n && WritevResult(-1, total) == -1 && Accepted(n, total) == n
  {
  }

  /** The write loop on numbers: the last result and how many bytes are left. */
  function WriteLoop(isET: bool, wishes: nat -> int, k: nat, left: nat): (end: (int, nat))
    ensures end.1 <= left
    decreases left
  {
    var r := WritevResult(wishes(k), left);
    if r <= 0 then (r, left)
    else if !isET && left - r <= LT_LEFTOVER then (r, left - r)
    else WriteLoop(isET, wishes, k + 1, left - r)
  }

  lemma WriteLoopNext(isET: bool, wishes: nat -> int, k: nat, left: nat)
    ensures var r := WritevResult(wishes(k), left);
            WriteLoop(isET, wishes, k, left) ==
              if r <= 0 then (r, left)
              else if !isET && left - r <= LT_LEFTOVER then (r, left - r)
              else WriteLoop(isET, wishes, k + 1, left - r)
  {
  }

  /**
   The loop stops with bytes left and no error only in level-triggered mode, below its threshold; an error is
   the kernel's; and without one everything is sent, up to that threshold.
   */
  lemma {:induction false} WriteLoopStops(isET: bool, wishes: nat -> int, k: nat, left: nat)
    ensures var (len, left') := WriteLoop(isET, wishes, k, left);
            && left' <= left
            && (len >= 0 && left' > 0 ==> !isET && left' <= 10240)
            && (len < 0 ==> exists i: nat :: i >= k && wishes(i) < 0)
            && ((forall i: nat :: i >= k ==> wishes(i) >= 0) ==> left' <= if isET then 0 else 10240)
    decreases left
  {
    var r := WritevResult(wishes(k), left);
    if r > 0 && (isET || left - r > LT_LEFTOVER) {
      WriteLoopStops(isET, wishes, k + 1, left - r);
    }
  }

  /**
   Without an error from the kernel a response is always sent whole, however it is split, exactly edge-triggered or
   below two bytes.
   */
  lemma SendsAllIff(isET: bool, total: nat)
    ensures (forall wishes: nat -> int ::
               (forall i: nat :: wishes(i) >= 0) ==> WriteLoop(isET, wishes, 0, total).1 == 0)
              <==> isET || total <= 1
  {
    if isET || total <= 1 {
      forall wishes: nat -> int | forall i: nat :: wishes(i) >= 0
        ensures WriteLoop(isET, wishes, 0, total).1 == 0
      {
        WriteLoopStops(isET, wishes, 0, total);
      }
    } else {
      var wishes: nat -> int := _ => total - 1;
      assert WriteLoop(isET, wishes, 0, total) == (total - 1, 1);
    }
  }

  /** Byte by byte, a level-triggered response stops exactly when 10240 bytes are left, and not before. */
  lemma {:induction false} ByteByByteStopsAtThreshold(k: nat, total: nat)
    requires total > 10240
    ensures WriteLoop(false, _ => 1, k, total) == (1, 10240)
    decreases total
  {
    WriteLoopNext(false, _ => 1, k, total);
    if total > 10241 {
      ByteByByteStopsAtThreshold(k + 1, total - 1);
    }
  }

  /**
   A level-triggered response of 20000 bytes of which the kernel takes 15000 first: 5000 are left, and the loop
   stops.
   */
  lemma CutShort()
    ensures WriteLoop(false, _ => 15000, 0, 20000) == (15000, 5000)
  {
  }

  /** What a handler leaves behind: the socket armed for one direction, or the connection closed. */
  datatype Next = WaitReadable | WaitWritable | CloseConn

  /** What the server does after a write; processing goes on with what else was read. */
  datatype AfterWrite = ProcessMore | AwaitRoom | GiveUp

  /** One entry of the iovec array, as offsets into the memory it points to. */
  datatype IoVec = IoVec(base: nat, len: nat)

  /** The response to what was read: a rejected request is answered like any other, but with the connection closing. */
  function AnswerTo(text: string, db: Database, fs: FileSystem, types: MimeTable, srcDir: string): Reply {
    var p := ParseLines(Blank, text, db);
    ReplyTo(fs, types, srcDir, p.request.path, p.ok && KeepsAlive(p.request))
  }

  // ---------- A connection as a value ----------

  /** One answered text, and what database and file system said meanwhile. */
  datatype Exchange = Exchange(text: string, db: Database, fs: FileSystem)

  datatype Setup = Setup(isET: bool, types: MimeTable, srcDir: string)

  /** One use of a socket: what came in and is not parsed yet, what is to go out, and the history of both. */
  datatype Session = Session(
    readable: string,
    unsent: string,
    keepAlive: bool,          // what the last request parsed asks for
    waits: Next,              // what the last handler left behind
    received: string,         // history: every byte read
    sent: string,             // history: every byte handed to the kernel
    exchanges: seq<Exchange>  // history: the texts answered
  )

  function NewSession(keepAlive: bool): Session {
    Session("", "", keepAlive, WaitReadable, "", "", [])
  }

  function ReplyOf(x: Exchange, c: Setup): Reply {
    AnswerTo(x.text, x.db, x.fs, c.types, c.srcDir)
  }

  /** `_onProcess`. */
  function Processed(s: Session, db: Database, fs: FileSystem, c: Setup): Session {
    if s.readable == "" then s.(keepAlive := false, waits := WaitReadable)
    else
      var x := Exchange(s.readable, db, fs);
      var p := ParseLines(Blank, s.readable, db);
      s.(readable := p.rest, unsent := s.unsent + ReplyBytes(ReplyOf(x, c)), keepAlive := KeepsAlive(p.request),
         waits := WaitWritable, exchanges := s.exchanges + [x])
  }

  /** `_onRead`, with the bytes read and whether the read ended for good. */
  function ReadHandled(s: Session, got: string, ended: bool, db: Database, fs: FileSystem, c: Setup): Session {
    var s1 := s.(readable := s.readable + got, received := s.received + got);
    if ended then s1.(waits := CloseConn) else Processed(s1, db, fs, c)
  }

  lemma ProcessedParts(s: Session, mid: Session, db: Database, fs: FileSystem, c: Setup)
    requires s.unsent == ""
    requires mid.received == s.received && mid.sent == s.sent && mid.exchanges == s.exchanges
    requires s.readable == "" ==> mid.readable == "" && mid.unsent == "" && !mid.keepAlive
    requires s.readable != "" ==>
               var p := ParseLines(Blank, s.readable, db);
               var r := AnswerTo(s.readable, db, fs, c.types, c.srcDir);
               && mid.readable == p.rest && mid.keepAlive == KeepsAlive(p.request)
               && mid.unsent == "" + HeadBytes(r) + r.file
    ensures s.readable == "" ==> Processed(s, db, fs, c) == mid.(waits := WaitReadable, exchanges := s.exchanges + [])
    ensures s.readable != "" ==>
              Processed(s, db, fs, c) ==
                mid.(waits := WaitWritable, exchanges := s.exchanges + [Exchange(s.readable, db, fs)])
  {
    hide ParseLines, AnswerTo, HeadBytes, KeepsAlive;
  }

  function WriteDone(s: Session, left: nat): Session
    requires left <= |s.unsent|
  {
    s.(sent := s.sent + s.unsent[..|s.unsent| - left], unsent := s.unsent[|s.unsent| - left..])
  }

  lemma WriteDoneNothing(s: Session)
    ensures WriteDone(s, |s.unsent|) == s
  {
  }

  lemma WriteDoneTwice(s: Session, more: nat, less: nat)
    requires less <= more <= |s.unsent|
    ensures |WriteDone(s, more).unsent| == more && WriteDone(WriteDone(s, more), less) == WriteDone(s, less)
  {
    var n, k := |s.unsent| - more, more - less;
    assert s.unsent[..n] + s.unsent[n..][..k] == s.unsent[..n + k];
    assert s.sent + s.unsent[..n] + s.unsent[n..][..k] == s.sent + (s.unsent[..n] + s.unsent[n..][..k]);
  }

  lemma WriteDoneConserves(s: Session, left: nat)
    requires left <= |s.unsent|
    ensures WriteDone(s, left).sent + WriteDone(s, left).unsent == s.sent + s.unsent
  {
    var n := |s.unsent| - left;
    assert s.sent + s.unsent[..n] + s.unsent[n..] == s.sent + (s.unsent[..n] + s.unsent[n..]);
  }

  /** The branches after write: all sent, cut short for lack of room, or anything else. */
  function Decision(len: int, left: nat, keepAlive: bool, errnoIsEagain: bool): AfterWrite {
    if left == 0 && keepAlive then ProcessMore
    else if left > 0 && len < 0 && errnoIsEagain then AwaitRoom
    else GiveUp
  }

  /** `_onWrite`, with what the kernel makes of each writev. */
  function WriteHandled(s: Session, wishes: nat -> int, errnoIsEagain: bool,
                        db: Database, fs: FileSystem, c: Setup): Session {
    var (len, left) := WriteLoop(c.isET, wishes, 0, |s.unsent|);
    match Decision(len, left, s.keepAlive, errnoIsEagain)
    case ProcessMore => Processed(WriteDone(s, left), db, fs, c)
    case AwaitRoom => WriteDone(s, left).(waits := WaitWritable)
    case GiveUp => WriteDone(s, left).(waits := CloseConn)
  }

  lemma ProcessMoreMeansAllSent(s: Session, len: int, left: nat, errnoIsEagain: bool)
    requires left <= |s.unsent| && Decision(len, left, s.keepAlive, errnoIsEagain) == ProcessMore
    ensures left == 0 && WriteDone(s, left).unsent == ""
  {
  }

  class UserCount {
    var value: int
  }

  class HttpConn {
    const isET: bool
    const userCount: UserCount
    const request: HttpRequest
    const response: HttpResponse
    const readBuf: Buffer
    const writeBuf: Buffer
    const srcDir: string

    var fd: int
    var isClosed: bool
    var iovCount: int
    var iov0: IoVec          // into writeBuf's storage
    var iov1: IoVec          // into the mapped file
    var fileBytes: string    // the mapped file

    ghost var sent: string              // every byte handed to the kernel, since the socket was taken over
    ghost var received: string          // every byte read since then
    ghost var exchanges: seq<Exchange>  // the texts answered since then
    ghost var waits: Next               // what the last handler left behind

    ghost predicate Valid()
      reads this, readBuf, readBuf.buf, writeBuf, writeBuf.buf
    {
      && readBuf.Valid() && writeBuf.Valid() && readBuf != writeBuf && readBuf.buf != writeBuf.buf
      // The first entry is the readable part of the write buffer.
      && iov0.len == writeBuf.ReadableBytes() && (iov0.len > 0 ==> iov0.base == writeBuf.readPos)
      // The second is what is left of the file, and is empty when it is not passed on.
      && iov1.base + iov1.len == |fileBytes|
      && (iovCount == 2 || (iovCount <= 1 && iov1.len == 0))
      && (iovCount == 0 ==> iov0.len == 0) && iovCount >= 0
    }

    /** What is left to send: the readable part of the write buffer, and the rest of the file. */
    ghost function Unsent(): string
      requires Valid()
      reads this, readBuf, readBuf.buf, writeBuf, writeBuf.buf
    {
      writeBuf.Readable() + fileBytes[iov1.base..]
    }

    ghost function Setting(): Setup {
      Setup(isET, response.types, srcDir)
    }

    ghost function View(): Session
      requires Valid()
      reads this, request, readBuf, readBuf.buf, writeBuf, writeBuf.buf
    {
      Session(readBuf.Readable(), Unsent(), request.IsKeepAlive(), waits, received, sent, exchanges)
    }

    /** The memory the two entries point to holds exactly that. */
    lemma EntriesPointToUnsent()
      requires Valid()
      ensures iov0.len > 0 ==> iov0.base + iov0.len <= writeBuf.buf.Length
      ensures (if iov0.len > 0 then writeBuf.buf[iov0.base..iov0.base + iov0.len] else "")
              + fileBytes[iov1.base..iov1.base + iov1.len] == Unsent()
    {
    }

    function BytesToWrite(): nat
      reads this
    {
      iov0.len + iov1.len
    }

    constructor (isET: bool, userCount: UserCount, srcDir: string, types: MimeTable)
      ensures Valid() && isClosed && Unsent() == "" && sent == ""
      ensures fresh(readBuf) && fresh(writeBuf) && fresh(readBuf.buf) && fresh(writeBuf.buf)
      ensures fresh(request) && fresh(response)
      ensures this.isET == isET && this.userCount == userCount && this.srcDir == srcDir && response.types == types
    {
      this.isET, this.userCount, this.srcDir := isET, userCount, srcDir;
      request := new HttpRequest();
      response := new HttpResponse(types);
      readBuf := new Buffer(1024);
      writeBuf := new Buffer(1024);
      fd, isClosed, iovCount, iov0, iov1, fileBytes := -1, true, 0, IoVec(0, 0), IoVec(0, 0), "";
      sent, received, exchanges, waits := "", "", [], CloseConn;
    }

    // ---------- Opening and closing ----------

    /** Drops what the buffers hold, and with it what the entries point to. */
    method DropBuffers()
      requires Valid()
      modifies this`iov0, this`iov1, this`fileBytes, readBuf, readBuf.buf, writeBuf, writeBuf.buf
      ensures Valid() && readBuf.Readable() == "" && Unsent() == ""
    {
      hide Max;
      readBuf.RetrieveAll();
      writeBuf.RetrieveAll();
      iov0, iov1, fileBytes := IoVec(0, 0), IoVec(0, 0), "";
    }

    /** Takes over a new socket; whatever the slot's buffers held is dropped. */
    method InitConn(fd: int)
      requires Valid() && fd > 0
      modifies this, userCount, readBuf, readBuf.buf, writeBuf, writeBuf.buf
      ensures Valid() && !isClosed && this.fd == fd
      ensures userCount.value == old(userCount.value) + 1
      ensures readBuf.Readable() == "" && Unsent() == ""
      ensures sent == "" && received == "" && exchanges == [] && waits == WaitReadable
    {
      hide Max;
      userCount.value := userCount.value + 1;
      this.fd := fd;
      DropBuffers();
      isClosed := false;
      sent, received, exchanges, waits := "", "", [], WaitReadable;
    }

    /** Closing twice counts once. */
    method Close() returns (closedNow: bool)
      modifies this`isClosed, userCount
      ensures isClosed && closedNow == !old(isClosed)
      ensures userCount.value == old(userCount.value) - (if old(isClosed) then 0 else 1)
    {
      closedNow := !isClosed;
      if !isClosed {
        isClosed := true;
        userCount.value := userCount.value - 1;
      }
    }

    // ---------- Reading ----------

    /** One scatter read: the buffer's tail first, then the overflow array, which is appended. */
    method ReadToBuf(pending: string, wish: int, atEnd: int) returns (len: int, rest: string)
      requires Valid() && atEnd <= 0
      modifies readBuf, readBuf.buf
      ensures readBuf.Valid() && (readBuf.buf == old(readBuf.buf) || fresh(readBuf.buf))
      ensures pending == "" ==> len == atEnd && rest == "" && readBuf.Readable() == old(readBuf.Readable())
      ensures pending != "" ==> 0 < len <= |pending| && rest == pending[len..]
      // Any number of bytes up to the buffer's tail and the overflow array together may come at once.
      ensures var most := old(readBuf.WritableBytes()) + 65536;
              pending != "" ==> len == Accepted(wish, if |pending| < most then |pending| else most)
      ensures pending != "" ==> readBuf.Readable() == old(readBuf.Readable()) + pending[..len]
      ensures readBuf.removed == old(readBuf.removed)
    {
      if pending == "" {
        return atEnd, "";
      }
      var room := readBuf.WritableBytes() + MAX_EXTRA_SPACE;
      len := Accepted(wish, if |pending| < room then |pending| else room);
      rest := pending[len..];
      Scatter(pending[..len], readBuf.WritableBytes());
    }

    /**
     Where the bytes of one readv land, for a first window of any size that lies inside the storage.  The
     source offers as many bytes as are readable: that is a window exactly while no more is readable than writable.
     */
    method Scatter(got: string, window: nat)
      requires readBuf.Valid() && window <= readBuf.WritableBytes() && |got| <= window + MAX_EXTRA_SPACE
      modifies readBuf, readBuf.buf
      ensures readBuf.Valid() && (readBuf.buf == old(readBuf.buf) || fresh(readBuf.buf))
      ensures readBuf.Readable() == old(readBuf.Readable()) + got
      ensures readBuf.added == old(readBuf.added) + got && readBuf.removed == old(readBuf.removed)
    {
      hide Max;
      if |got| <= window {
        readBuf.FillTail(got);
        readBuf.HasWritten(|got|);
      } else {
        readBuf.FillTail(got[..window]);
        readBuf.HasWritten(window);
        assert readBuf.Readable() == old(readBuf.Readable()) + got[..window];
        readBuf.Append(got[window..]);
        SplitAgain(old(readBuf.Readable()), got, window);
        SplitAgain(old(readBuf.added), got, window);
      }
    }

    lemma SplitAgain(s: string, got: string, n: nat)
      requires n <= |got|
      ensures s + got[..n] + got[n..] == s + got
    {
    }

    /** Reads once in level-triggered mode, and until nothing is waiting in edge-triggered mode. */
    method Read(pending: string, wishes: nat -> int, atEnd: int) returns (len: int, rest: string)
      requires Valid() && atEnd <= 0
      modifies readBuf, readBuf.buf
      ensures Valid() && Unsent() == old(Unsent())
      ensures readBuf.buf == old(readBuf.buf) || fresh(readBuf.buf)
      ensures |rest| <= |pending| && rest == pending[|pending| - |rest|..]
      ensures readBuf.Readable() == old(readBuf.Readable()) + pending[..|pending| - |rest|]
      ensures isET || pending == "" ==> rest == "" && len == atEnd
      ensures !isET && pending != "" ==> len > 0 && |rest| == |pending| - len
    {
      hide Max;
      rest := pending;
      ghost var n := 0;
      var calls := 0;
      while true
        invariant 0 <= n <= |pending| && rest == pending[n..]
        invariant readBuf.Valid() && (readBuf.buf == old(readBuf.buf) || fresh(readBuf.buf))
        invariant readBuf.Readable() == old(readBuf.Readable()) + pending[..n]
        invariant !isET ==> n == 0
        decreases |rest|
      {
        ghost var before := rest;
        len, rest := ReadToBuf(rest, wishes(calls), atEnd);
        calls := calls + 1;
        if len <= 0 {
          break;
        }
        assert pending[..n + len] == pending[..n] + before[..len];
        n := n + len;
        if !isET {
          break;
        }
      }
    }

    // ---------- Processing ----------

    /** Parses what was read, and sets up the response; false if there was nothing to parse. */
    method Process(db: Database, fs: FileSystem) returns (made: bool)
      requires Valid()
      modifies this, request, response, readBuf, readBuf.buf, writeBuf, writeBuf.buf
      ensures Valid() && sent == old(sent)
      ensures made <==> old(readBuf.Readable()) != ""
      ensures received == old(received) && exchanges == old(exchanges)
      ensures !made ==> Unsent() == old(Unsent()) && request.View() == Blank && readBuf.Readable() == ""
      ensures made ==>
                var p := ParseLines(Blank, old(readBuf.Readable()), db);
                var r := AnswerTo(old(readBuf.Readable()), db, fs, response.types, srcDir);
                && request.View() == p.request && readBuf.Readable() == p.rest
                && Unsent() == old(writeBuf.Readable()) + HeadBytes(r) + r.file
    {
      hide ReplyTo, HeadBytes, ParseLines;
      request.Init();
      if readBuf.ReadableBytes() <= 0 {
        return false;
      }
      var isKeepAlive := false;
      var code := 400;
      var ok := request.Parse(readBuf, db);
      if ok {
        isKeepAlive := request.IsKeepAlive();
        code := 200;
      }
      response.Init(srcDir, request.path, isKeepAlive, code);
      response.MakeResponse(writeBuf, fs);

      PointEntries();
      return true;
    }

    /** `_onProcess`: a response is waited out on the writing side; with nothing to answer, more is read. */
    method OnProcess(db: Database, fs: FileSystem) returns (next: Next)
      requires Valid()
      modifies this, request, response, readBuf, readBuf.buf, writeBuf, writeBuf.buf
      ensures Valid() && sent == old(sent)
      ensures next == if old(readBuf.Readable()) == "" then WaitReadable else WaitWritable
      ensures next == WaitReadable ==> Unsent() == old(Unsent())
      ensures next == WaitWritable ==>
                var r := AnswerTo(old(readBuf.Readable()), db, fs, response.types, srcDir);
                && Unsent() == old(writeBuf.Readable()) + HeadBytes(r) + r.file
                && readBuf.Readable() == ParseLines(Blank, old(readBuf.Readable()), db).rest
      ensures waits == next
      ensures old(View()).unsent == "" ==> View() == Processed(old(View()), db, fs, Setting())
    {
      assert !KeepsAlive(Blank);
      hide AnswerTo, HeadBytes, ParseLines, KeepsAlive, Processed;
      ghost var s := View();
      assert s.unsent == "" ==> writeBuf.Readable() == "";
      var made := Process(db, fs);
      next := if made then WaitWritable else WaitReadable;
      ghost var mid := View();
      if s.unsent == "" {
        ProcessedParts(s, mid, db, fs, Setting());
      }
      Remember(next, if made then [Exchange(s.readable, db, fs)] else []);
    }

    /** Keeps the history of the session. */
    ghost method Remember(next: Next, answered: seq<Exchange>)
      requires Valid()
      modifies this`waits, this`exchanges
      ensures Valid() && waits == next && View() == old(View()).(waits := next, exchanges := old(exchanges) + answered)
      ensures Unsent() == old(Unsent())
    {
      waits := next;
      exchanges := exchanges + answered;
    }

    /**
     `_onRead`: reads, and answers what is there.  The last read of an edge-triggered batch decides: unless it
     says that nothing more is waiting for now, the connection is closed, and what was read is not answered.
     */
    method OnRead(pending: string, wishes: nat -> int, atEnd: int, endIsEagain: bool, db: Database, fs: FileSystem)
      returns (next: Next, rest: string)
      requires Valid() && atEnd <= 0 && (endIsEagain ==> atEnd < 0)
      modifies this, request, response, readBuf, readBuf.buf, writeBuf, writeBuf.buf
      ensures Valid() && sent == old(sent)
      ensures next == CloseConn <==> (isET || pending == "") && !endIsEagain
      ensures next == CloseConn ==> Unsent() == old(Unsent())
      ensures |rest| <= |pending| && rest == pending[|pending| - |rest|..] && (isET ==> rest == "")
      ensures next != CloseConn ==>
                var text := old(readBuf.Readable()) + pending[..|pending| - |rest|];
                && (next == WaitReadable <==> text == "")
                && (next == WaitWritable ==>
                      var r := AnswerTo(text, db, fs, response.types, srcDir);
                      && Unsent() == old(writeBuf.Readable()) + HeadBytes(r) + r.file
                      && readBuf.Readable() == ParseLines(Blank, text, db).rest)
      ensures waits == next
      ensures old(View()).unsent == "" ==>
                View() == ReadHandled(old(View()), pending[..|pending| - |rest|], next == CloseConn, db, fs, Setting())
    {
      hide AnswerTo, HeadBytes, ParseLines, Processed;
      var len;
      len, rest := Read(pending, wishes, atEnd);
      received := received + pending[..|pending| - |rest|];
      if len <= 0 && !endIsEagain {
        Leave(CloseConn);
        return CloseConn, rest;
      }
      next := OnProcess(db, fs);
    }

    /** Points the entries at the response: the whole write buffer, and the file if there is one. */
    method PointEntries()
      requires readBuf.Valid() && writeBuf.Valid() && readBuf != writeBuf && readBuf.buf != writeBuf.buf
      requires response.file.Some? ==> response.fileSize == |response.file.value|
      modifies this`iov0, this`iov1, this`iovCount, this`fileBytes
      ensures Valid()
      ensures Unsent() == writeBuf.Readable() + (if response.file.Some? then response.file.value else "")
    {
      iov0 := IoVec(writeBuf.readPos, writeBuf.ReadableBytes());
      iovCount := 1;
      iov1, fileBytes := IoVec(0, 0), "";
      if response.fileSize > 0 && response.file.Some? {
        fileBytes := response.file.value;
        iov1 := IoVec(0, |fileBytes|);
        iovCount := 2;
      }
    }

    // ---------- Writing ----------

    /** The iovecs after the kernel took `taken` bytes: the head first, then the file. */
    method MoveEntries(taken: nat)
      requires Valid() && 0 < taken <= BytesToWrite()
      modifies this`iov0, this`iov1, this`sent, writeBuf, writeBuf.buf
      ensures Valid() && BytesToWrite() == old(BytesToWrite()) - taken
      ensures sent == old(sent) + old(Unsent())[..taken]
      ensures Unsent() == old(Unsent())[taken..]
      ensures writeBuf.buf == old(writeBuf.buf)
    {
      ghost var all := Unsent();
      if taken > iov0.len {
        var fromFile := taken - iov0.len;
        iov1 := IoVec(iov1.base + fromFile, iov1.len - fromFile);
        writeBuf.RetrieveAll();
        iov0 := iov0.(len := 0);
      } else {
        iov0 := IoVec(iov0.base + taken, iov0.len - taken);
        writeBuf.Retrieve(taken);
      }
      sent := sent + all[..taken];
    }

    /** The connection after the kernel took `taken` bytes. */
    method Advance(taken: nat)
      requires Valid() && 0 < taken <= BytesToWrite()
      modifies this`iov0, this`iov1, this`sent, writeBuf, writeBuf.buf
      ensures Valid() && BytesToWrite() == old(BytesToWrite()) - taken
      ensures sent == old(sent) + old(Unsent())[..taken]
      ensures Unsent() == old(Unsent())[taken..]
      ensures View() == WriteDone(old(View()), BytesToWrite())
      ensures writeBuf.buf == old(writeBuf.buf)
    {
      hide Max;
      MoveEntries(taken);
    }

    /** Sends until the kernel refuses or, level-triggered, until little enough is left. */
    method Write(wishes: nat -> int) returns (len: int)
      requires Valid()
      modifies this`iov0, this`iov1, this`sent, writeBuf, writeBuf.buf
      ensures Valid() && writeBuf.buf == old(writeBuf.buf)
      ensures |Unsent()| <= |old(Unsent())| && View() == WriteDone(old(View()), |Unsent()|)
      ensures sent + Unsent() == old(sent) + old(Unsent())
      ensures BytesToWrite() == |Unsent()|
      ensures (len, BytesToWrite()) == WriteLoop(isET, wishes, 0, old(BytesToWrite()))
    {
      hide Accepted, WritevResult, WriteLoop, Max, WriteDone;
      hide Valid, Unsent, View;
      ghost var s, all := View(), BytesToWrite();
      var calls := 0;
      BytesAreUnsent();
      WriteDoneNothing(s);
      while true
        invariant Valid() && writeBuf.buf == old(writeBuf.buf)
        invariant BytesToWrite() == |Unsent()| <= |s.unsent| == all && View() == WriteDone(s, |Unsent()|)
        invariant WriteLoop(isET, wishes, calls, BytesToWrite()) == WriteLoop(isET, wishes, 0, all)
        decreases BytesToWrite()
      {
        WriteLoopNext(isET, wishes, calls, BytesToWrite());
        len := WritevResult(wishes(calls), BytesToWrite());
        calls := calls + 1;
        if len <= 0 {
          break;
        }
        if iov0.len == 0 && iov1.len == 0 {
          break;
        }
        ghost var before := BytesToWrite();
        Advance(len);
        BytesAreUnsent();
        WriteDoneTwice(s, before, BytesToWrite());
        if !isET && BytesToWrite() <= LT_LEFTOVER {
          break;
        }
      }
      WriteDoneConserves(s, |Unsent()|);
      BytesAreUnsent();
    }

    lemma BytesAreUnsent()
      requires Valid()
      ensures BytesToWrite() == |Unsent()| && Unsent() == View().unsent && sent == View().sent
    {
    }

    /** Writes, then decides: process what else was read, wait for room in the socket, or close. */
    method WriteAndDecide(wishes: nat -> int, errnoIsEagain: bool) returns (next: AfterWrite, len: int)
      requires Valid()
      modifies this`iov0, this`iov1, this`sent, writeBuf, writeBuf.buf
      ensures Valid() && writeBuf.buf == old(writeBuf.buf)
      ensures sent + Unsent() == old(sent) + old(Unsent()) && |Unsent()| <= |old(Unsent())|
      ensures (len, |Unsent()|) == WriteLoop(isET, wishes, 0, old(BytesToWrite()))
      ensures var (len', left) := WriteLoop(isET, wishes, 0, |old(View()).unsent|);
              && next == Decision(len', left, old(View()).keepAlive, errnoIsEagain)
              && View() == WriteDone(old(View()), left)
      // Processing goes on only after the whole response; waiting means something is left.
      ensures next == ProcessMore <==> Unsent() == "" && request.IsKeepAlive()
      ensures next == ProcessMore ==> sent == old(sent) + old(Unsent())
      ensures next == AwaitRoom <==> Unsent() != "" && len < 0 && errnoIsEagain
      // Closing without a write error, with bytes left, happens exactly in level-triggered mode.
      ensures next == GiveUp && isET ==> Unsent() == "" || (len < 0 && !errnoIsEagain)
      ensures next == GiveUp && len >= 0 && Unsent() != "" <==>
                !isET && len >= 0 && 0 < |Unsent()| <= 10240
    {
      hide WriteDone, WriteLoop, Max;
      WriteLoopStops(isET, wishes, 0, BytesToWrite());
      len := Write(wishes);
      next := GiveUp;
      if BytesToWrite() == 0 {
        if request.IsKeepAlive() {
          next := ProcessMore;
        }
      } else if len < 0 {
        if errnoIsEagain {
          next := AwaitRoom;
        }
      }
      assert sent + "" == sent;
    }

    /** A handler ends without processing. */
    ghost method Leave(next: Next)
      requires Valid()
      modifies this`waits
      ensures Valid() && waits == next && View() == old(View()).(waits := next)
      ensures Unsent() == old(Unsent())
    {
      waits := next;
    }

    /**
     `_onWrite`: once the response is out, a kept connection goes on with what else was read; a response cut
     short waits for room; all other connections are closed.
     */
    method OnWrite(wishes: nat -> int, errnoIsEagain: bool, db: Database, fs: FileSystem) returns (next: Next)
      requires Valid()
      modifies this, request, response, readBuf, readBuf.buf, writeBuf, writeBuf.buf
      ensures Valid() && waits == next
      ensures View() == WriteHandled(old(View()), wishes, errnoIsEagain, db, fs, Setting())
    {
      hide ParseLines, WriteLoop, Processed, WriteDone, Decision, Accepted, WritevResult, Max;
      hide Valid, Unsent, View;
      ghost var s := View();
      ghost var (l, left) := WriteLoop(isET, wishes, 0, |s.unsent|);
      var todo, len := WriteAndDecide(wishes, errnoIsEagain);
      match todo {
        case ProcessMore =>
          ProcessMoreMeansAllSent(s, l, left, errnoIsEagain);
          next := OnProcess(db, fs);
        case AwaitRoom => next := WaitWritable; Leave(next);
        case GiveUp => next := CloseConn; Leave(next);
      }
    }
  }

  /**
   What `_onWrite` comes to: when it re-arms the connection for reading or writing and when it closes it; what was
   sent is a prefix of the response, and the next answer is queued only after all of it.
   */
  lemma WriteHandledMeans(s: Session, wishes: nat -> int, errnoIsEagain: bool, db: Database, fs: FileSystem, c: Setup)
    ensures var (len, left) := WriteLoop(c.isET, wishes, 0, |s.unsent|);
            var s' := WriteHandled(s, wishes, errnoIsEagain, db, fs, c);
            && s'.sent == s.sent + s.unsent[..|s.unsent| - left]
            && (s'.waits == WaitReadable <==> left == 0 && s.keepAlive && s.readable == "")
            && (s'.waits == WaitWritable <==>
                  || (left == 0 && s.keepAlive && s.readable != "")
                  || (left > 0 && len < 0 && errnoIsEagain))
            && (s'.waits == WaitReadable ==> s'.unsent == "")
            && (s'.waits == WaitWritable && left > 0 ==> s'.unsent == s.unsent[|s.unsent| - left..])
            && (s'.waits == WaitWritable && left == 0 ==>
                  s'.unsent == ReplyBytes(AnswerTo(s.readable, db, fs, c.types, c.srcDir)))
            && (s'.waits == CloseConn && c.isET ==> left == 0 || (len < 0 && !errnoIsEagain))
  {
    hide ParseLines, WriteLoop, ReplyBytes, AnswerTo;
    WriteLoopStops(c.isET, wishes, 0, |s.unsent|);
  }

  // ---------- From request bytes to response bytes ----------

  function Connection(keepAlive: bool): string {
    if keepAlive then "Connection: keep-alive" else "Connection: close"
  }

  lemma AnnouncementsDiffer()
    ensures Connection(true) != Connection(false)
  {
    assert Connection(true)[|"Connection: "|] != Connection(false)[|"Connection: "|];
  }

  lemma AnswerToParsed(m: Message, db: Database, fs: FileSystem, types: MimeTable, srcDir: string)
    requires Parsable(m)
    ensures AnswerTo(Print(m), db, fs, types, srcDir) ==
            ReplyTo(fs, types, srcDir, AnsweredPath(m, db), ParseLines(Blank, Print(m), db).ok && KeepsAlive(Head(m)))
  {
    hide ParseLines, Print, ReplyTo, AnsweredPath;
    ParsedPath(m, db);
  }

  /** What a receiver finds in a reply that serves a file. */
  lemma FileIsDelivered(fs: FileSystem, types: MimeTable, srcDir: string, path: string, keepAlive: bool)
    ensures var r, full := ReplyTo(fs, types, srcDir, path, keepAlive), srcDir + path;
            && (r.code == 200 <==> fs.node(full).File? && fs.node(full).worldReadable)
            && (r.code == 200 ==>
                  if fs.node(full).content != "" && fs.opens(full) && fs.maps(full)
                  then SplitHead(HeadBytes(r) + r.file) == (r.lines, fs.node(full).content)
                  else r.file == "")
            && |r.lines| > 1 && r.lines[1] == Connection(keepAlive)
  {
    ReplyDelivers(fs, types, srcDir, path, keepAlive);
    ReplySays(fs, types, srcDir, path, keepAlive);
    ReplyIsFramed(fs, types, srcDir, path, keepAlive);
    ReplyShape(fs, types, srcDir, path, keepAlive);
    hide SplitHead, HeadBytes, Decimal, ErrorPage, FileType, StateLine, TypeLine, LengthLine, ReplyTo;
    var r := ReplyTo(fs, types, srcDir, path, keepAlive);
    assert r.code == 200 ==> ServedPath(path, r.code) == path;
    assert "" + r.file == r.file;
  }

  /**
   A client that prints a request of any method and reads the answer at its length line: if the file of the page
   the request leads to can be served, the answer is 200 and its content is that file; the answer announces whether
   the connection is kept.
   */
  lemma PrintedRequestIsAnswered(m: Message, db: Database, fs: FileSystem, types: MimeTable, srcDir: string)
    requires Parsable(m)
    ensures var r := AnswerTo(Print(m), db, fs, types, srcDir);
            var full := srcDir + AnsweredPath(m, db);
            && (r.code == 200 <==> fs.node(full).File? && fs.node(full).worldReadable)
            && (r.code == 200 && fs.node(full).content != "" && fs.opens(full) && fs.maps(full) ==>
                  SplitHead(HeadBytes(r) + r.file) == (r.lines, fs.node(full).content))
            && |r.lines| > 1
            && r.lines[1] == Connection(ParseLines(Blank, Print(m), db).ok && KeepsAlive(Head(m)))
  {
    hide *;
    var keepAlive := ParseLines(Blank, Print(m), db).ok && KeepsAlive(Head(m));
    FileIsDelivered(fs, types, srcDir, AnsweredPath(m, db), keepAlive);
    AnswerToParsed(m, db, fs, types, srcDir);
  }

  /**
   A login with a name and password that the database knows receives the content of the welcome page, any other the
   error page.
   */
  lemma LoginIsAnswered(m: Message, ps: seq<Pair>, db: Database, fs: FileSystem, types: MimeTable, srcDir: string)
    requires IsFormPost(m, ps) && NormalizePath(m.line.path) == LOGIN_PAGE
    ensures var post := StoreAll(map[], ps);
            var known := Field(post, USERNAME) != "" && db.verify(Field(post, USERNAME), Field(post, PASSWORD));
            var full := srcDir + if known then WELCOME_PAGE else ERROR_PAGE;
            var r := AnswerTo(Print(m), db, fs, types, srcDir);
            fs.node(full).File? && fs.node(full).worldReadable && fs.node(full).content != ""
            && fs.opens(full) && fs.maps(full) ==>
              r.code == 200 && SplitHead(HeadBytes(r) + r.file) == (r.lines, fs.node(full).content)
  {
    hide AnswerTo, Print, SplitHead, HeadBytes, ParseLines, NormalizePath, KeepsAlive, Connection;
    ParseUndoesPrintOfLogin(m, ps, db);
    ParsedPath(m, db);
    PrintedRequestIsAnswered(m, db, fs, types, srcDir);
  }

  /**
   The answer to a rejected request announces that the connection closes, but `_onWrite` asks the request again:
   for any text the two agree exactly if it is accepted or does not ask to be kept alive.
   */
  lemma KeptAgainstAnnouncementIff(text: string, db: Database, fs: FileSystem, types: MimeTable, srcDir: string)
    ensures var r := AnswerTo(text, db, fs, types, srcDir);
            var p := ParseLines(Blank, text, db);
            && |r.lines| > 1
            && (r.lines[1] == Connection(KeepsAlive(p.request)) <==> p.ok || !KeepsAlive(p.request))
  {
    hide ParseLines, ReplyTo, Connection, Framed, Mapped, KeepsAlive;
    var p := ParseLines(Blank, text, db);
    FileIsDelivered(fs, types, srcDir, p.request.path, p.ok && KeepsAlive(p.request));
    AnnouncementsDiffer();
  }

  /** For a printed request: exactly if it is not rejected, or does not ask to be kept alive. */
  lemma KeptAgainstAnnouncementOnPrintedIff(m: Message, db: Database, fs: FileSystem, types: MimeTable, srcDir: string)
    requires Parsable(m)
    ensures var r := AnswerTo(Print(m), db, fs, types, srcDir);
            var p := ParseLines(Blank, Print(m), db);
            && |r.lines| > 1
            && (r.lines[1] == Connection(KeepsAlive(p.request)) <==> !Rejected(m, db) || !KeepsAlive(Head(m)))
  {
    hide ParseLines, Print, AnswerTo, NormalizePath, Connection, Rejected;
    KeptAgainstAnnouncementIff(Print(m), db, fs, types, srcDir);
    PrintedIsRejectedIff(m, db);
  }

  /**
   An input: a bad line after a header that asks for keep-alive.  The answer says close, and the connection is kept.
   */
  lemma MalformedIsKeptAgainstAnnouncement(db: Database, fs: FileSystem, types: MimeTable, srcDir: string)
    ensures var m := Message(RequestLine("GET", "/", "1.1"), [Pair("Connection", "keep-alive")], "");
            var text := Beginning(m, 1) + "nonsense";
            var r := AnswerTo(text, db, fs, types, srcDir);
            |r.lines| > 1 && r.lines[1] != "Connection: keep-alive" && KeepsAlive(ParseLines(Blank, text, db).request)
  {
    var m := Message(RequestLine("GET", "/", "1.1"), [Pair("Connection", "keep-alive")], "");
    KeptExample(m);
    hide ParseLines, AnswerTo, KeepsAlive, Beginning, PartHead, PrintableHead, Connection;
    MalformedIsRejected(m, 1, "nonsense", db);
    KeptAgainstAnnouncementIff(Beginning(m, 1) + "nonsense", db, fs, types, srcDir);
  }

  lemma KeptExample(m: Message)
    requires m == Message(RequestLine("GET", "/", "1.1"), [Pair("Connection", "keep-alive")], "")
    ensures PrintableHead(m) && KeepsAlive(PartHead(m, 1)) && Connection(true) == "Connection: keep-alive"
    ensures OneLine("nonsense") && ':' !in "nonsense"
  {
    hide KeepsAlive, PartHead, PrintableHead, NormalizePath;
    KeepAliveHeader(m);
  }

  lemma KeepAliveHeader(m: Message)
    requires PrintableLine(m.line) && m.headers == [Pair("Connection", "keep-alive")]
    ensures PrintableHead(m) && (KeepsAlive(PartHead(m, 1)) <==> m.line.version == "1.1")
    ensures Head(m).headers == PartHead(m, 1).headers == map["Connection" := "keep-alive"]
  {
    hide PrintableLine, NormalizePath;
    assert m.headers[..1] == m.headers;
    assert StoreAll(map[], m.headers) == StoreAll(map["Connection" := "keep-alive"], m.headers[1..]);
  }

  // ---------- As written ----------

  /** The number of entries as written: one or two more with every response on the connection. */
  function IovCountAsWritten(hasFile: seq<bool>): nat {
    if hasFile == [] then 0 else (if hasFile[0] then 2 else 1) + IovCountAsWritten(hasFile[1..])
  }

  /** It stays within the two entries there are only for the first response, or two responses without a file. */
  lemma {:induction false} IovCountAsWrittenFitsIff(hasFile: seq<bool>)
    ensures |hasFile| <= IovCountAsWritten(hasFile)
    ensures IovCountAsWritten(hasFile) <= 2 <==> |hasFile| <= 1 || hasFile == [false, false]
  {
    if hasFile != [] {
      IovCountAsWrittenFitsIff(hasFile[1..]);
      if |hasFile| == 2 {
        assert hasFile[1..][1..] == [];
        assert hasFile == [hasFile[0], hasFile[1]];
      }
    }
  }
}
