/**
 The server with its connections' input and output: the life of connections of `ServerProtocol`, in which the
 handlers are those of `HttpConnection`.  What a handler leaves behind decides how its connection is re-armed.
 */
module WholeServer {
  import S = ServerProtocol
  import opened HttpParser
  import opened HttpResponder
  import opened HttpConnection
  import opened HttpSession

  datatype World = World(server: S.State, sessions: map<int, Session>)

  /** What the outside decides for one handler. */
  datatype Input =
    | ReadInput(got: string, ended: bool, db: Database, fs: FileSystem)
    | WriteInput(wishes: nat -> int, errnoIsEagain: bool, db: Database, fs: FileSystem)

  /** A step of the main loop, the timer or the pool; or a worker runs a handler up to its re-arming or closing. */
  datatype Step = Other(a: S.Action) | Handler(i: nat, input: Input)

  function At(sessions: map<int, Session>, fd: int): Session {
    if fd in sessions then sessions[fd] else NewSession(false)
  }

  function SessionOf(w: World, fd: int): Session {
    At(w.sessions, fd)
  }

  function OutcomeOf(n: Next): S.Outcome {
    match n
    case WaitReadable => S.Rearm(S.In)
    case WaitWritable => S.Rearm(S.Out)
    case CloseConn => S.CloseConn
  }

  function Handled(s: Session, input: Input, c: Setup): Session {
    match input
    case ReadInput(got, ended, db, fs) => ReadHandled(s, got, ended, db, fs, c)
    case WriteInput(wishes, again, db, fs) => WriteHandled(s, wishes, again, db, fs, c)
  }

  /** The task decides which handler runs. */
  ghost predicate Enabled(w: World, st: Step) {
    match st
    case Other(a) => !a.FinishTask? && S.Enabled(w.server, a)
    case Handler(i, input) =>
      i < |w.server.running| &&
      match w.server.running[i].kind
      case Readable => input.ReadInput?
      case Writable => input.WriteInput?
      case HangUp => false
  }

  function SessionAfter(w: World, i: nat, input: Input, c: Setup): Session
    requires i < |w.server.running|
  {
    Handled(SessionOf(w, w.server.running[i].fd), input, c)
  }

  /** What a step is for the life of connections alone. */
  function ActionOf(w: World, st: Step, c: Setup): S.Action
    requires st.Handler? ==> st.i < |w.server.running|
  {
    match st
    case Other(a) => a
    case Handler(i, input) => S.FinishTask(i, OutcomeOf(SessionAfter(w, i, input, c).waits))
  }

  ghost function Apply(w: World, st: Step, c: Setup): World
    requires Enabled(w, st)
  {
    var server := S.Apply(w.server, ActionOf(w, st, c));
    match st
    case Other(a) =>
      if a.Accept? && w.server.userCount < S.MAX_FD
      then World(server, w.sessions[a.fd := NewSession(SessionOf(w, a.fd).keepAlive)])
      else World(server, w.sessions)
    case Handler(i, input) =>
      World(server, w.sessions[w.server.running[i].fd := SessionAfter(w, i, input, c)])
  }

  ghost predicate ValidRun(w: World, run: seq<Step>, c: Setup)
    decreases |run|
  {
    run == [] || (Enabled(w, run[0]) && ValidRun(Apply(w, run[0], c), run[1..], c))
  }

  /** The assumption on timeouts, as in `ServerProtocol`. */
  ghost predicate CalmRun(w: World, run: seq<Step>, c: Setup)
    requires ValidRun(w, run, c)
    decreases |run|
  {
    run == [] || (S.Calm(w.server, ActionOf(w, run[0], c)) && CalmRun(Apply(w, run[0], c), run[1..], c))
  }

  ghost function After(w: World, run: seq<Step>, c: Setup): World
    requires ValidRun(w, run, c)
    decreases |run|
  {
    if run == [] then w else After(Apply(w, run[0], c), run[1..], c)
  }

  // ---------- The whole ----------

  predicate WaitsFor(n: Next, k: S.Kind) {
    match k
    case Readable => n == WaitReadable
    case Writable => n == WaitWritable
    case HangUp => false
  }

  predicate AllWaitFor(sessions: map<int, Session>, xs: seq<S.Item>) {
    forall i :: 0 <= i < |xs| ==> WaitsFor(At(sessions, xs[i].fd).waits, xs[i].kind)
  }

  predicate HeldWaitFor(sessions: map<int, Session>, xs: seq<S.Item>) {
    forall i :: 0 <= i < |xs| && xs[i].kind != S.HangUp ==> WaitsFor(At(sessions, xs[i].fd).waits, xs[i].kind)
  }

  predicate ArmedWaitFor(sessions: map<int, Session>, armed: map<int, S.Interest>) {
    forall fd :: fd in armed ==> At(sessions, fd).waits == if armed[fd] == S.In then WaitReadable else WaitWritable
  }

  /** Epoll, the batch, the queue and the workers agree with what each connection's last handler left behind. */
  predicate Expected(w: World) {
    && ArmedWaitFor(w.sessions, w.server.armed) && HeldWaitFor(w.sessions, w.server.held)
    && AllWaitFor(w.sessions, w.server.queue) && AllWaitFor(w.sessions, w.server.running)
  }

  predicate Accounted(sessions: map<int, Session>, c: Setup) {
    forall fd :: fd in sessions ==> Streamed(sessions[fd], c) && Contiguous(sessions[fd])
  }

  ghost predicate Inv(w: World, c: Setup) {
    S.Inv(w.server) && w.server.timeout > 0 && Expected(w) && Accounted(w.sessions, c)
  }

  lemma NewSessionIsAccounted(keepAlive: bool, c: Setup)
    ensures Streamed(NewSession(keepAlive), c) && Contiguous(NewSession(keepAlive))
  {
    assert Replies([], c) == [];
  }

  lemma HandledIsAccounted(s: Session, input: Input, c: Setup)
    requires Streamed(s, c) && Contiguous(s) && (input.ReadInput? ==> s.waits == WaitReadable)
    ensures Streamed(Handled(s, input, c), c) && Contiguous(Handled(s, input, c))
  {
    hide Streamed, Contiguous, ReadHandled, WriteHandled;
    match input {
      case ReadInput(got, ended, db, fs) => ReadKeeps(s, got, ended, db, fs, c);
      case WriteInput(wishes, again, db, fs) => WriteKeeps(s, wishes, again, db, fs, c);
    }
  }

  lemma StepKeepsAccounts(w: World, st: Step, c: Setup)
    requires Expected(w) && Accounted(w.sessions, c) && Enabled(w, st)
    ensures Accounted(Apply(w, st, c).sessions, c)
  {
    hide Streamed, Contiguous, Handled, Accounted, S.Apply, S.Enabled;
    match st {
      case Other(a) =>
        if a.Accept? {
          var s := NewSession(SessionOf(w, a.fd).keepAlive);
          NewSessionIsAccounted(SessionOf(w, a.fd).keepAlive, c);
          OneMoreAccount(w.sessions, a.fd, s, c);
        }
      case Handler(i, input) =>
        var fd := w.server.running[i].fd;
        assert WaitsFor(SessionOf(w, fd).waits, w.server.running[i].kind);
        AccountAt(w.sessions, fd, c);
        HandledIsAccounted(SessionOf(w, fd), input, c);
        OneMoreAccount(w.sessions, fd, Handled(SessionOf(w, fd), input, c), c);
    }
  }

  lemma OneMoreAccount(sessions: map<int, Session>, fd: int, s: Session, c: Setup)
    requires Accounted(sessions, c) && Streamed(s, c) && Contiguous(s)
    ensures Accounted(sessions[fd := s], c)
  {
    hide Streamed, Contiguous;
  }

  lemma AccountAt(sessions: map<int, Session>, fd: int, c: Setup)
    requires Accounted(sessions, c)
    ensures Streamed(At(sessions, fd), c) && Contiguous(At(sessions, fd))
  {
    hide Streamed, Contiguous, NewSession;
    NewSessionIsAccounted(false, c);
  }

  /** A connection that nobody has is in no list, and one that somebody has is in one place only. */
  lemma {:induction false} NotInList(xs: seq<S.Item>, fd: int)
    requires S.CountFd(xs, fd) == 0
    ensures forall i :: 0 <= i < |xs| ==> xs[i].fd != fd
  {
    if xs != [] {
      NotInList(xs[1..], fd);
      forall i | 0 <= i < |xs| ensures xs[i].fd != fd {
        assert i > 0 ==> xs[i] == xs[1..][i - 1];
      }
    }
  }

  /** A session may change if nobody else has its connection. */
  lemma OthersWaitOn(sessions: map<int, Session>, fd: int, s: Session, xs: seq<S.Item>)
    requires S.CountFd(xs, fd) == 0
    ensures AllWaitFor(sessions, xs) ==> AllWaitFor(sessions[fd := s], xs)
    ensures HeldWaitFor(sessions, xs) ==> HeldWaitFor(sessions[fd := s], xs)
  {
    NotInList(xs, fd);
  }

  lemma ArmedWaitOn(sessions: map<int, Session>, fd: int, s: Session, armed: map<int, S.Interest>)
    requires ArmedWaitFor(sessions, armed) && fd !in armed
    ensures ArmedWaitFor(sessions[fd := s], armed)
    ensures s.waits == WaitReadable ==> ArmedWaitFor(sessions[fd := s], armed[fd := S.In])
    ensures s.waits == WaitWritable ==> ArmedWaitFor(sessions[fd := s], armed[fd := S.Out])
  {
  }

  lemma ArmedShrinks(sessions: map<int, Session>, armed: map<int, S.Interest>, fds: set<int>)
    requires ArmedWaitFor(sessions, armed)
    ensures ArmedWaitFor(sessions, armed - fds)
  {
  }

  lemma ListMoves(sessions: map<int, Session>, xs: seq<S.Item>, i: nat, ys: seq<S.Item>)
    requires AllWaitFor(sessions, xs) && AllWaitFor(sessions, ys) && i < |xs|
    ensures AllWaitFor(sessions, S.RemoveAt(xs, i)) && AllWaitFor(sessions, ys + [xs[i]])
    ensures AllWaitFor(sessions, xs[1..])
  {
    var zs := S.RemoveAt(xs, i);
    forall j | 0 <= j < |zs| ensures WaitsFor(At(sessions, zs[j].fd).waits, zs[j].kind) {
      assert zs[j] == xs[if j < i then j else j + 1];
    }
  }

  lemma DeliveredIsExpected(sessions: map<int, Session>, s: S.State, events: seq<S.Item>)
    requires ArmedWaitFor(sessions, s.armed) && forall i :: 0 <= i < |events| ==> S.Deliverable(s, events[i])
    ensures HeldWaitFor(sessions, events)
  {
  }

  lemma FreeIsNowhere(s: S.State, fd: int)
    requires S.OneOwner(s) && fd !in s.open
    ensures fd !in s.armed
    ensures S.CountFd(s.held, fd) == 0 && S.CountFd(s.queue, fd) == 0 && S.CountFd(s.running, fd) == 0
  {
    assert S.Owners(s, fd) == 0;
  }

  lemma AcceptKeepsExpected(w: World, fd: int, c: Setup)
    requires S.OneOwner(w.server) && Expected(w) && Enabled(w, Other(S.Accept(fd)))
    ensures Expected(Apply(w, Other(S.Accept(fd)), c))
  {
    hide AllWaitFor, HeldWaitFor, ArmedWaitFor, S.Deadline, S.OneOwner;
    if w.server.userCount < S.MAX_FD {
      FreeIsNowhere(w.server, fd);
      var s := NewSession(SessionOf(w, fd).keepAlive);
      OthersWaitOn(w.sessions, fd, s, w.server.held);
      OthersWaitOn(w.sessions, fd, s, w.server.queue);
      OthersWaitOn(w.sessions, fd, s, w.server.running);
      ArmedWaitOn(w.sessions, fd, s, w.server.armed);
    }
  }

  lemma HandlerKeepsExpected(w: World, i: nat, input: Input, c: Setup)
    requires S.OneOwner(w.server) && Expected(w) && Enabled(w, Handler(i, input))
    ensures Expected(Apply(w, Handler(i, input), c))
  {
    hide AllWaitFor, HeldWaitFor, ArmedWaitFor, Handled;
    var fd := w.server.running[i].fd;
    var others := S.RemoveAt(w.server.running, i);
    OwnedByOne(w.server, i);
    var s := SessionAfter(w, i, input, c);
    OthersWaitOn(w.sessions, fd, s, w.server.held);
    OthersWaitOn(w.sessions, fd, s, w.server.queue);
    ListMoves(w.sessions, w.server.running, i, w.server.queue);
    OthersWaitOn(w.sessions, fd, s, others);
    ArmedWaitOn(w.sessions, fd, s, w.server.armed);
    ArmedShrinks(w.sessions[fd := s], w.server.armed, {fd});
  }

  lemma OwnedByOne(s: S.State, i: nat)
    requires S.OneOwner(s) && i < |s.running|
    ensures var fd := s.running[i].fd;
            && fd !in s.armed && S.CountFd(s.held, fd) == 0 && S.CountFd(s.queue, fd) == 0
            && S.CountFd(S.RemoveAt(s.running, i), fd) == 0
  {
    S.WorkersOwnAlone(s, i, i);
    assert S.Owners(s, s.running[i].fd) == if s.running[i].fd in s.open then 1 else 0;
    S.CountFdRemoveAt(s.running, i, s.running[i].fd);
  }

  lemma HeldShrinks(sessions: map<int, Session>, xs: seq<S.Item>)
    requires HeldWaitFor(sessions, xs) && xs != []
    ensures HeldWaitFor(sessions, xs[1..])
    ensures xs[0].kind != S.HangUp ==> AllWaitFor(sessions, [xs[0]])
  {
  }

  lemma HandleKeepsExpected(w: World, c: Setup)
    requires Expected(w) && Enabled(w, Other(S.Handle))
    ensures Expected(Apply(w, Other(S.Handle), c))
  {
    hide AllWaitFor, HeldWaitFor, ArmedWaitFor, S.HandleNext;
    var e := w.server.held[0];
    S.HandledShape(w.server);
    HeldShrinks(w.sessions, w.server.held);
    ArmedShrinks(w.sessions, w.server.armed, {e.fd});
    if e.kind != S.HangUp {
      ListMoves(w.sessions, [e], 0, w.server.queue);
    }
  }

  lemma OtherStepKeepsExpected(w: World, a: S.Action, c: Setup)
    requires Expected(w) && Enabled(w, Other(a)) && !a.Accept?
    ensures Expected(Apply(w, Other(a), c))
  {
    hide AllWaitFor, HeldWaitFor, ArmedWaitFor, S.HandleNext, S.Deliverable, S.DistinctFds;
    match a {
      case Handle => HandleKeepsExpected(w, c);
      case Wait(events) =>
        DeliveredIsExpected(w.sessions, w.server, events);
        ArmedShrinks(w.sessions, w.server.armed, set e | e in events :: e.fd);
      case StartTask => ListMoves(w.sessions, w.server.queue, 0, w.server.running);
      case Fire(fd) => ArmedShrinks(w.sessions, w.server.armed, {w.server.timer[fd].tcb});
      case _ =>
    }
  }

  lemma StepKeepsExpected(w: World, st: Step, c: Setup)
    requires S.OneOwner(w.server) && Expected(w) && Enabled(w, st)
    ensures Expected(Apply(w, st, c))
  {
    hide S.OneOwner, Expected, Apply;
    match st {
      case Other(a) =>
        if a.Accept? {
          AcceptKeepsExpected(w, a.fd, c);
        } else {
          OtherStepKeepsExpected(w, a, c);
        }
      case Handler(i, input) => HandlerKeepsExpected(w, i, input, c);
    }
  }

  lemma ServerSteps(w: World, st: Step, c: Setup)
    requires Enabled(w, st)
    ensures S.Enabled(w.server, ActionOf(w, st, c)) && Apply(w, st, c).server == S.Apply(w.server, ActionOf(w, st, c))
  {
    hide S.Apply, SessionAfter;
  }

  lemma StepKeepsInv(w: World, st: Step, c: Setup)
    requires Inv(w, c) && Enabled(w, st) && S.Calm(w.server, ActionOf(w, st, c))
    ensures Inv(Apply(w, st, c), c)
  {
    ServerSteps(w, st, c);
    S.StepKeepsInv(w.server, ActionOf(w, st, c));
    hide Expected, Accounted, Apply, ActionOf, Enabled, S.Apply, S.Enabled, S.OneOwner, S.Counted, S.TimersSet;
    StepKeepsAccounts(w, st, c);
    StepKeepsExpected(w, st, c);
  }

  lemma {:induction false} RunKeepsInv(w: World, run: seq<Step>, c: Setup)
    requires Inv(w, c) && ValidRun(w, run, c) && CalmRun(w, run, c)
    ensures Inv(After(w, run, c), c)
    decreases |run|
  {
    if run != [] {
      StepKeepsInv(w, run[0], c);
      RunKeepsInv(Apply(w, run[0], c), run[1..], c);
    }
  }

  function Start(timeout: int, workers: nat, now: int): World {
    World(S.Initial(timeout, workers, now), map[])
  }

  /**
   Every run of the whole server, in every interleaving of workers, events and timeouts: what a connection has sent
   is a prefix of the answers, one after another, to consecutive stretches of what it read.  Each byte is answered once
   exactly if no answered text left bytes behind, which a rejected request does.
   */
  lemma EveryConnectionIsAnswered(timeout: int, workers: nat, now: int, run: seq<Step>, c: Setup, fd: int)
    requires timeout > 0 && ValidRun(Start(timeout, workers, now), run, c)
    requires CalmRun(Start(timeout, workers, now), run, c)
    requires fd in After(Start(timeout, workers, now), run, c).sessions
    ensures var s := After(Start(timeout, workers, now), run, c).sessions[fd];
            && s.sent <= Stream(Replies(s.exchanges, c))
            && s.received == UsedBy(s.exchanges) + s.readable
            && (forall i :: 0 <= i < |s.exchanges| ==> UsedBy(s.exchanges[..i]) + s.exchanges[i].text <= s.received)
            && (s.received == Texts(s.exchanges) + s.readable <==>
                  forall i :: 0 <= i < |s.exchanges| ==> Leftover(s.exchanges[i]) == "")
  {
    var w := Start(timeout, workers, now);
    RunKeepsInv(w, run, c);
    hide ValidRun, After, S.Inv, Expected, Leftover, Texts;
    AccountAt(After(w, run, c).sessions, fd, c);
    AnsweredOnceIff(After(w, run, c).sessions[fd]);
  }

  /**
   What a handler leaves, in every run and either mode: its connection is in epoll exactly if it is still open, for
   writing exactly if bytes are left to send; and it is closed exactly if the read has ended, or the write has neither
   sent everything on a connection to be kept nor stopped for lack of room.
   */
  lemma HandlerLeaves(timeout: int, workers: nat, now: int, run: seq<Step>, c: Setup, i: nat, input: Input)
    requires timeout > 0 && ValidRun(Start(timeout, workers, now), run, c)
    requires CalmRun(Start(timeout, workers, now), run, c)
    requires Enabled(After(Start(timeout, workers, now), run, c), Handler(i, input))
    ensures var w := After(Start(timeout, workers, now), run, c);
            var w', fd := Apply(w, Handler(i, input), c), w.server.running[i].fd;
            var s, s' := SessionOf(w, fd), SessionOf(w', fd);
            && (fd in w'.server.armed <==> fd in w'.server.open)
            && (fd in w'.server.armed ==> (w'.server.armed[fd] == S.Out <==> s'.unsent != ""))
            && (fd !in w'.server.open <==>
                  match input
                  case ReadInput(_, ended, _, _) => ended
                  case WriteInput(wishes, again, _, _) =>
                    var (len, left) := WriteLoop(c.isET, wishes, 0, |s.unsent|);
                    if left == 0 then !s.keepAlive else !(len < 0 && again))
  {
    var w := After(Start(timeout, workers, now), run, c);
    RunKeepsInv(Start(timeout, workers, now), run, c);
    HandlerArms(w, i, input, c);
    HandlerDecides(SessionOf(w, w.server.running[i].fd), input, c);
    hide ValidRun, CalmRun, After, Inv, Handled, WriteLoop, SessionOf;
  }

  /** A task's last access to its connection re-arms it, or closes it. */
  lemma FinishArms(s: S.State, i: nat, n: Next)
    requires S.OneOwner(s) && i < |s.running|
    ensures var fd, s' := s.running[i].fd, S.Finish(s, i, OutcomeOf(n));
            && (fd in s'.open <==> n != CloseConn)
            && (fd in s'.armed <==> n != CloseConn)
            && (fd in s'.armed ==> (s'.armed[fd] == S.Out <==> n == WaitWritable))
  {
    S.WorkersOwnAlone(s, i, i);
  }

  lemma HandlerApplied(w: World, i: nat, input: Input, c: Setup)
    requires Enabled(w, Handler(i, input))
    ensures var fd, s' := w.server.running[i].fd, SessionAfter(w, i, input, c);
            Apply(w, Handler(i, input), c) == World(S.Finish(w.server, i, OutcomeOf(s'.waits)), w.sessions[fd := s'])
  {
    hide SessionAfter, OutcomeOf, S.Finish;
  }

  lemma HandlerStreams(w: World, i: nat, input: Input, c: Setup)
    requires Expected(w) && Accounted(w.sessions, c) && Enabled(w, Handler(i, input))
    ensures Streamed(SessionAfter(w, i, input, c), c)
  {
    hide Streamed, Contiguous, Handled, Accounted;
    var fd := w.server.running[i].fd;
    AccountAt(w.sessions, fd, c);
    assert WaitsFor(SessionOf(w, fd).waits, w.server.running[i].kind);
    HandledIsAccounted(SessionOf(w, fd), input, c);
  }

  lemma HandlerArms(w: World, i: nat, input: Input, c: Setup)
    requires Inv(w, c) && Enabled(w, Handler(i, input))
    ensures var fd, w' := w.server.running[i].fd, Apply(w, Handler(i, input), c);
            var s' := SessionAfter(w, i, input, c);
            && SessionOf(w', fd) == s'
            && (fd in w'.server.open <==> s'.waits != CloseConn)
            && (fd in w'.server.armed <==> fd in w'.server.open)
            && (fd in w'.server.armed ==> (w'.server.armed[fd] == S.Out <==> s'.unsent != ""))
  {
    hide Apply, SessionAfter, S.Finish, OutcomeOf, Expected, Accounted, S.OneOwner, Stream, Replies;
    HandlerApplied(w, i, input, c);
    HandlerStreams(w, i, input, c);
    FinishArms(w.server, i, SessionAfter(w, i, input, c).waits);
  }

  lemma HandlerDecides(s: Session, input: Input, c: Setup)
    ensures Handled(s, input, c).waits == CloseConn <==>
              match input
              case ReadInput(_, ended, _, _) => ended
              case WriteInput(wishes, again, _, _) =>
                var (len, left) := WriteLoop(c.isET, wishes, 0, |s.unsent|);
                if left == 0 then !s.keepAlive else !(len < 0 && again)
  {
    hide ParseLines, ReplyOf, ReplyBytes, WriteLoop;
  }

  /** In every run, epoll watches a connection for room to write exactly while an answer is left to send. */
  lemma ArmedForWritingIff(timeout: int, workers: nat, now: int, run: seq<Step>, c: Setup, fd: int)
    requires timeout > 0 && ValidRun(Start(timeout, workers, now), run, c)
    requires CalmRun(Start(timeout, workers, now), run, c)
    requires fd in After(Start(timeout, workers, now), run, c).server.armed
    ensures var w := After(Start(timeout, workers, now), run, c);
            w.server.armed[fd] == S.Out <==> SessionOf(w, fd).unsent != ""
  {
    RunKeepsInv(Start(timeout, workers, now), run, c);
    hide ValidRun, CalmRun, After, S.Inv, Stream, Replies, Contiguous;
    AccountAt(After(Start(timeout, workers, now), run, c).sessions, fd, c);
  }

  /**
   Edge-triggered, in every run: a read handler closes its connection exactly at the end of the stream or on an error,
   and a write handler exactly on an error, or with every answer sent and no wish to be kept alive.
   */
  lemma EdgeTriggeredClosesIff(timeout: int, workers: nat, now: int, run: seq<Step>, c: Setup, i: nat, input: Input)
    requires timeout > 0 && ValidRun(Start(timeout, workers, now), run, c)
    requires CalmRun(Start(timeout, workers, now), run, c) && c.isET
    requires Enabled(After(Start(timeout, workers, now), run, c), Handler(i, input))
    ensures var w := After(Start(timeout, workers, now), run, c);
            var w', fd := Apply(w, Handler(i, input), c), w.server.running[i].fd;
            var s, s' := SessionOf(w, fd), SessionOf(w', fd);
            match input
            case ReadInput(_, ended, _, _) => fd !in w'.server.open <==> ended
            case WriteInput(wishes, again, _, _) =>
              var (len, left) := WriteLoop(true, wishes, 0, |s.unsent|);
              && (fd !in w'.server.open <==> (left > 0 && !again) || (left == 0 && !s.keepAlive))
              && (left > 0 ==> len < 0)
              && (fd !in w'.server.open && left == 0 ==> s'.sent == Stream(Replies(s'.exchanges, c)))
  {
    RunKeepsInv(Start(timeout, workers, now), run, c);
    var w := After(Start(timeout, workers, now), run, c);
    HandlerArms(w, i, input, c);
    AccountAt(w.sessions, w.server.running[i].fd, c);
    EdgeTriggeredHandler(SessionOf(w, w.server.running[i].fd), input, c);
    hide ValidRun, CalmRun, After, Inv, Streamed, Contiguous, S.Apply, Handled, WriteLoop;
  }

  lemma EdgeTriggeredHandler(s: Session, input: Input, c: Setup)
    requires c.isET && Streamed(s, c)
    ensures var s' := Handled(s, input, c);
            match input
            case ReadInput(_, ended, _, _) => s'.waits == CloseConn <==> ended
            case WriteInput(wishes, again, _, _) =>
              var (len, left) := WriteLoop(true, wishes, 0, |s.unsent|);
              && (s'.waits == CloseConn <==> (left > 0 && !again) || (left == 0 && !s.keepAlive))
              && (left > 0 ==> len < 0)
              && (s'.waits == CloseConn && left == 0 ==> s'.sent == Stream(Replies(s'.exchanges, c)))
  {
    hide ParseLines, ReplyOf, ReplyBytes, WriteLoop, Stream, Replies;
    match input
    case ReadInput(_, _, _, _) =>
    case WriteInput(wishes, again, _, _) =>
      var (len, left) := WriteLoop(true, wishes, 0, |s.unsent|);
      WriteLoopStops(true, wishes, 0, |s.unsent|);
      WriteDoneConserves(s, left);
      assert left == 0 ==> WriteDone(s, left).unsent == "" && WriteDone(s, left).sent + "" == WriteDone(s, left).sent;
  }

  /** A connection whose read event is being handled has nothing left to send, as its handler needs. */
  lemma ReadersHaveSentAll(w: World, i: nat, c: Setup)
    requires Inv(w, c) && i < |w.server.running| && w.server.running[i].kind == S.Readable
    ensures SessionOf(w, w.server.running[i].fd).unsent == ""
  {
  }
}
