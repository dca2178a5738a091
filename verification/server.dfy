/**
 The life of connections: accepted and armed in epoll, their events taken by the main loop, turned into
 tasks, run by workers, and re-armed or closed; or closed by the timer.

 The main loop and the workers interleave freely.  A handler's effects on the shared parts are one action.
 The timer is the map of `TimerSpec`; an entry's callback closes the connection with the entry's id.
 */
module ServerProtocol {
  import opened TimerSpec
  import TimerHeap

  const MAX_FD := 65536

  /** What epoll waits for on a connection; every registration is one-shot. */
  datatype Interest = In | Out

  datatype Kind = HangUp | Readable | Writable

  /** An event in the main loop's hands, or a task made from one: a connection and what to do with it. */
  datatype Item = Item(fd: int, kind: Kind)

  datatype State = State(
    timeout: int,                 // milliseconds
    workers: nat,
    now: TimeStamp,
    open: set<int>,               // connections whose _is_closed is false
    userCount: int,
    armed: map<int, Interest>,    // enabled epoll registrations
    held: seq<Item>,              // events of the current batch not handled yet
    queue: seq<Item>,             // the pool's task queue
    running: seq<Item>,           // tasks whose handlers still have their connection
    leaving: seq<Item>,           // tasks whose handlers have re-armed or closed it, but not returned
    timer: map<int, Entry<int>>,
    last: map<int, TimeStamp>,    // last accept or event per connection (history)
    broken: bool                  // an assertion in the source has failed
  )

  datatype Outcome = Rearm(interest: Interest) | CloseConn

  datatype Action =
    | TimePasses(t: TimeStamp)
    | Accept(fd: int)
    | Wait(events: seq<Item>)            // epoll_wait returns a batch
    | Handle                             // the main loop deals with the next event of the batch
    | StartTask
    | FinishTask(i: nat, outcome: Outcome)  // a handler's last access to its connection
    | TaskReturns(i: nat)                   // the worker is back in the pool
    | Fire(fd: int)                      // one firing of _tick

  function Initial(timeout: int, workers: nat, now: TimeStamp): State {
    State(timeout, workers, now, {}, 0, map[], [], [], [], [], map[], map[], false)
  }

  predicate Deliverable(s: State, e: Item) {
    e.fd in s.armed &&
    match e.kind
    case HangUp => true
    case Readable => s.armed[e.fd] == In
    case Writable => s.armed[e.fd] == Out
  }

  predicate DistinctFds(xs: seq<Item>) {
    forall i, j :: 0 <= i < j < |xs| ==> xs[i].fd != xs[j].fd
  }

  ghost predicate Enabled(s: State, a: Action) {
    match a
    case TimePasses(t) => s.now <= t
    // The kernel hands out a descriptor that is not in use.
    case Accept(fd) => fd > 0 && fd !in s.open
    case Wait(events) =>
      s.held == [] && DistinctFds(events) && forall i :: 0 <= i < |events| ==> Deliverable(s, events[i])
    case Handle => s.held != []
    case StartTask => s.queue != [] && |s.running| + |s.leaving| < s.workers
    case FinishTask(i, _) => i < |s.running|
    case TaskReturns(i) => i < |s.leaving|
    case Fire(fd) => s.held == [] && IsEarliest(s.timer, fd) && Due(s.timer[fd].expire, s.now)
  }

  function Deadline(s: State): TimeStamp {
    s.now + s.timeout * MS
  }

  function Disarm(armed: map<int, Interest>, events: seq<Item>): map<int, Interest> {
    armed - set e | e in events :: e.fd
  }

  /** _closeConn: taken out of epoll, and closed unless it is closed already. */
  function Close(s: State, fd: int): State {
    s.(armed := s.armed - {fd},
       open := s.open - {fd},
       userCount := if fd in s.open then s.userCount - 1 else s.userCount)
  }

  /** _extendTime: adjustExpire asserts that the timer has the entry. */
  function ExtendTime(s: State, fd: int): State {
    if fd in s.timer then
      s.(timer := s.timer[fd := Entry(Deadline(s), s.timer[fd].tcb)], last := s.last[fd := s.now])
    else s.(broken := true)
  }

  function RemoveAt(xs: seq<Item>, i: nat): (ys: seq<Item>)
    requires i < |xs|
    ensures |ys| == |xs| - 1
  {
    xs[..i] + xs[i + 1..]
  }

  function AddClientState(s: State, fd: int): State {
    s.(open := s.open + {fd}, userCount := s.userCount + 1, last := s.last[fd := s.now],
       timer := if s.timeout > 0 then s.timer[fd := Entry(Deadline(s), fd)] else s.timer,
       armed := s.armed[fd := In])
  }

  function HandleNext(s: State): State
    requires s.held != []
  {
    var e := s.held[0];
    var s1 := s.(held := s.held[1..]);
    if e.kind == HangUp then Close(s1, e.fd)
    else
      var s2 := ExtendTime(s1, e.fd);
      s2.(queue := s2.queue + [e])
  }

  lemma HandledShape(s: State)
    requires s.held != []
    ensures var s', e := HandleNext(s), s.held[0];
            && s'.held == s.held[1..] && s'.running == s.running && s'.leaving == s.leaving && s'.workers == s.workers
            && s'.queue == (if e.kind == HangUp then s.queue else s.queue + [e])
            && s'.armed == (if e.kind == HangUp then s.armed - {e.fd} else s.armed)
  {
  }

  function HandlerDone(s: State, i: nat): State
    requires i < |s.running|
  {
    s.(running := RemoveAt(s.running, i), leaving := s.leaving + [s.running[i]])
  }

  function Finish(s: State, i: nat, outcome: Outcome): State
    requires i < |s.running|
  {
    var fd := s.running[i].fd;
    match outcome
    case Rearm(interest) => HandlerDone(s, i).(armed := s.armed[fd := interest])
    case CloseConn => Close(HandlerDone(s, i), fd)
  }

  function Apply(s: State, a: Action): State
    requires Enabled(s, a)
  {
    match a
    case TimePasses(t) => s.(now := t)
    case Accept(fd) => if s.userCount >= MAX_FD then s else AddClientState(s, fd)
    case Wait(events) => s.(held := events, armed := Disarm(s.armed, events))
    case Handle => HandleNext(s)
    case StartTask => s.(queue := s.queue[1..], running := s.running + [s.queue[0]])
    case FinishTask(i, outcome) => Finish(s, i, outcome)
    case TaskReturns(i) => s.(leaving := RemoveAt(s.leaving, i))
    case Fire(fd) => Close(s, s.timer[fd].tcb).(timer := s.timer - {fd})
  }

  /** The assumption on timeouts: none hits a connection that a worker has or will have. */
  ghost predicate Calm(s: State, a: Action) {
    a.Fire? ==> CountFd(s.queue, a.fd) == 0 && CountFd(s.running, a.fd) == 0
  }

  ghost predicate ValidRun(s: State, run: seq<Action>)
    decreases |run|
  {
    run == [] || (Enabled(s, run[0]) && ValidRun(Apply(s, run[0]), run[1..]))
  }

  ghost predicate CalmRun(s: State, run: seq<Action>)
    requires ValidRun(s, run)
    decreases |run|
  {
    run == [] || (Calm(s, run[0]) && CalmRun(Apply(s, run[0]), run[1..]))
  }

  ghost function After(s: State, run: seq<Action>): State
    requires ValidRun(s, run)
    decreases |run|
  {
    if run == [] then s else After(Apply(s, run[0]), run[1..])
  }

  // ---------- Who has a connection ----------

  ghost function CountFd(xs: seq<Item>, fd: int): nat {
    if xs == [] then 0 else (if xs[0].fd == fd then 1 else 0) + CountFd(xs[1..], fd)
  }

  /** The places that can act on a connection next: epoll, the main loop, the queue of tasks, a worker. */
  ghost function Owners(s: State, fd: int): nat {
    (if fd in s.armed then 1 else 0) + CountFd(s.held, fd) + CountFd(s.queue, fd) + CountFd(s.running, fd)
  }

  ghost predicate OneOwner(s: State) {
    forall fd :: Owners(s, fd) == if fd in s.open then 1 else 0
  }

  ghost predicate Counted(s: State) {
    s.userCount == |s.open| <= MAX_FD
  }

  /**
   Every open connection's timer is set to its last activity plus the timeout; no entry lies further ahead than that.
   */
  ghost predicate TimersSet(s: State) {
    && (forall fd :: fd in s.open ==>
          fd in s.timer && fd in s.last && s.timer[fd].expire == s.last[fd] + s.timeout * MS)
    && (forall fd :: fd in s.timer ==> s.timer[fd].tcb == fd && s.timer[fd].expire <= Deadline(s))
  }

  ghost predicate Inv(s: State) {
    OneOwner(s) && Counted(s) && TimersSet(s) && !s.broken
  }

  lemma {:induction false} CountFdConcat(xs: seq<Item>, ys: seq<Item>, fd: int)
    ensures CountFd(xs + ys, fd) == CountFd(xs, fd) + CountFd(ys, fd)
  {
    if xs == [] {
      assert xs + ys == ys;
    } else {
      assert (xs + ys)[1..] == xs[1..] + ys;
      CountFdConcat(xs[1..], ys, fd);
    }
  }

  lemma CountFdRemoveAt(xs: seq<Item>, i: nat, fd: int)
    requires i < |xs|
    ensures CountFd(RemoveAt(xs, i), fd) + (if xs[i].fd == fd then 1 else 0) == CountFd(xs, fd)
  {
    assert xs == xs[..i] + xs[i..] && xs[i..][1..] == xs[i + 1..];
    CountFdConcat(xs[..i], xs[i..], fd);
    CountFdConcat(xs[..i], xs[i + 1..], fd);
  }

  lemma {:induction false} CountFdOfDistinct(xs: seq<Item>, fd: int)
    requires DistinctFds(xs)
    ensures CountFd(xs, fd) == if fd in (set e | e in xs :: e.fd) then 1 else 0
  {
    if xs != [] {
      CountFdOfDistinct(xs[1..], fd);
      assert forall e :: e in xs[1..] ==> e in xs;
      assert forall e :: e in xs <==> e == xs[0] || e in xs[1..];
    }
  }

  lemma {:induction false} CountFdAt(xs: seq<Item>, i: nat)
    requires i < |xs|
    ensures CountFd(xs, xs[i].fd) >= 1
  {
    if i > 0 {
      CountFdAt(xs[1..], i - 1);
    }
  }

  // ---------- What every step keeps ----------

  lemma WaitKeepsOneOwner(s: State, events: seq<Item>)
    requires OneOwner(s) && Enabled(s, Wait(events))
    ensures OneOwner(Apply(s, Wait(events)))
  {
    var s' := Apply(s, Wait(events));
    forall fd ensures Owners(s', fd) == if fd in s'.open then 1 else 0 {
      assert Owners(s, fd) == if fd in s.open then 1 else 0;
      CountFdOfDistinct(events, fd);
    }
  }

  lemma HandleKeepsOneOwner(s: State)
    requires OneOwner(s) && s.held != [] && s.held[0].fd in s.timer
    ensures OneOwner(HandleNext(s))
  {
    var s' := HandleNext(s);
    forall fd ensures Owners(s', fd) == if fd in s'.open then 1 else 0 {
      assert Owners(s, fd) == if fd in s.open then 1 else 0;
      CountFdConcat(s.queue, [s.held[0]], fd);
    }
  }

  lemma FinishKeepsOneOwner(s: State, i: nat, outcome: Outcome)
    requires OneOwner(s) && i < |s.running|
    ensures OneOwner(Finish(s, i, outcome))
  {
    var s' := Finish(s, i, outcome);
    CountFdAt(s.running, i);
    assert Owners(s, s.running[i].fd) == if s.running[i].fd in s.open then 1 else 0;
    forall fd ensures Owners(s', fd) == if fd in s'.open then 1 else 0 {
      assert Owners(s, fd) == if fd in s.open then 1 else 0;
      CountFdRemoveAt(s.running, i, fd);
    }
  }

  lemma StepKeepsOneOwner(s: State, a: Action)
    requires OneOwner(s) && TimersSet(s) && Enabled(s, a) && Calm(s, a)
    ensures OneOwner(Apply(s, a))
  {
    var s' := Apply(s, a);
    match a {
      case Wait(events) => WaitKeepsOneOwner(s, events);
      case Handle =>
        assert Owners(s, s.held[0].fd) == if s.held[0].fd in s.open then 1 else 0;
        HandleKeepsOneOwner(s);
      case FinishTask(i, outcome) => FinishKeepsOneOwner(s, i, outcome);
      case StartTask =>
        forall fd ensures Owners(s', fd) == if fd in s'.open then 1 else 0 {
          assert Owners(s, fd) == if fd in s.open then 1 else 0;
          CountFdConcat(s.running, [s.queue[0]], fd);
        }
      case _ =>
        forall fd ensures Owners(s', fd) == if fd in s'.open then 1 else 0 {
          assert Owners(s, fd) == if fd in s.open then 1 else 0;
        }
    }
  }

  lemma CloseKeepsCount(s: State, fd: int)
    requires Counted(s)
    ensures Counted(Close(s, fd))
  {
  }

  lemma AddKeepsCount(s: State, fd: int)
    requires Counted(s) && s.userCount < MAX_FD && fd !in s.open
    ensures Counted(AddClientState(s, fd))
  {
  }

  lemma StepKeepsCount(s: State, a: Action)
    requires Counted(s) && Enabled(s, a)
    ensures Counted(Apply(s, a))
  {
    hide Disarm, Deadline, Deliverable, DistinctFds, Counted, AddClientState, ExtendTime;
    match a {
      case Accept(fd) =>
        if s.userCount < MAX_FD {
          AddKeepsCount(s, fd);
        }
      case Handle =>
        var s1 := s.(held := s.held[1..]);
        CountDependsOn(s, s1);
        CloseKeepsCount(s1, s.held[0].fd);
        ExtendTimeKeepsOpen(s1, s.held[0].fd);
        CountDependsOn(s1, ExtendTime(s1, s.held[0].fd).(queue := s1.queue + [s.held[0]]));
      case FinishTask(i, outcome) =>
        CountDependsOn(s, HandlerDone(s, i));
        CloseKeepsCount(HandlerDone(s, i), s.running[i].fd);
        if outcome.Rearm? {
          CountDependsOn(s, Apply(s, a));
        }
      case Fire(fd) =>
        CloseKeepsCount(s, s.timer[fd].tcb);
        CountDependsOn(Close(s, s.timer[fd].tcb), Apply(s, a));
      case _ => CountDependsOn(s, Apply(s, a));
    }
  }

  lemma CountDependsOn(s: State, s': State)
    requires Counted(s) && s'.open == s.open && s'.userCount == s.userCount
    ensures Counted(s')
  {
  }

  lemma ExtendTimeKeepsOpen(s: State, fd: int)
    ensures var s' := ExtendTime(s, fd);
            s'.open == s.open && s'.userCount == s.userCount && s'.queue == s.queue
  {
  }

  lemma EventsHaveTimers(s: State, a: Action)
    requires OneOwner(s) && TimersSet(s) && Enabled(s, a) && !s.broken
    ensures !Apply(s, a).broken && Apply(s, a).timeout == s.timeout
  {
    if a.Handle? {
      assert Owners(s, s.held[0].fd) == if s.held[0].fd in s.open then 1 else 0;
    }
  }

  lemma CloseKeepsTimers(s: State, fd: int)
    requires TimersSet(s)
    ensures TimersSet(Close(s, fd))
  {
  }

  lemma StepKeepsTimers(s: State, a: Action)
    requires TimersSet(s) && s.timeout > 0 && Enabled(s, a)
    ensures TimersSet(Apply(s, a))
  {
    hide Disarm, Deliverable, DistinctFds, TimersSet, AddClientState, ExtendTime;
    match a {
      case Accept(fd) => AddKeepsTimers(s, fd);
      case Handle =>
        var s1 := s.(held := s.held[1..]);
        TimersDependOn(s, s1);
        if s.held[0].kind == HangUp {
          CloseKeepsTimers(s1, s.held[0].fd);
        } else {
          var s2 := ExtendTime(s1, s.held[0].fd);
          ExtendKeepsTimers(s1, s.held[0].fd);
          TimersDependOn(s2, s2.(queue := s2.queue + [s.held[0]]));
        }
      case Fire(fd) => FireKeepsTimers(s, fd);
      case _ => TimersDependOn(s, Apply(s, a));
    }
  }

  lemma TimersDependOn(s: State, s': State)
    requires TimersSet(s) && s'.timer == s.timer && s'.last == s.last && s'.open <= s.open
    requires s'.timeout == s.timeout && s'.now >= s.now
    ensures TimersSet(s')
  {
  }

  lemma FireKeepsTimers(s: State, fd: int)
    requires TimersSet(s) && Enabled(s, Fire(fd))
    ensures TimersSet(Apply(s, Fire(fd)))
  {
    hide Due;
  }

  lemma AddKeepsTimers(s: State, fd: int)
    requires TimersSet(s) && s.timeout > 0
    ensures TimersSet(AddClientState(s, fd))
  {
  }

  lemma ExtendKeepsTimers(s: State, fd: int)
    requires TimersSet(s) && s.timeout > 0
    ensures TimersSet(ExtendTime(s, fd))
  {
  }

  lemma StepKeepsRest(s: State, a: Action)
    requires Inv(s) && s.timeout > 0 && Enabled(s, a)
    ensures var s' := Apply(s, a);
            Counted(s') && TimersSet(s') && !s'.broken && s'.timeout == s.timeout
  {
    StepKeepsCount(s, a);
    StepKeepsTimers(s, a);
    EventsHaveTimers(s, a);
  }

  lemma StepKeepsInv(s: State, a: Action)
    requires Inv(s) && s.timeout > 0 && Enabled(s, a) && Calm(s, a)
    ensures Inv(Apply(s, a)) && Apply(s, a).timeout == s.timeout
  {
    StepKeepsOneOwner(s, a);
    StepKeepsRest(s, a);
  }

  /** What a timeout may do to the invariant: it is kept exactly when the connection is not queued or running. */
  lemma FireKeepsInvIffNotBusy(s: State, fd: int)
    requires Inv(s) && s.timeout > 0 && Enabled(s, Fire(fd))
    ensures Inv(Apply(s, Fire(fd))) <==> CountFd(s.queue, fd) == 0 && CountFd(s.running, fd) == 0
  {
    StepKeepsRest(s, Fire(fd));
    if CountFd(s.queue, fd) == 0 && CountFd(s.running, fd) == 0 {
      StepKeepsOneOwner(s, Fire(fd));
    } else {
      assert Owners(Apply(s, Fire(fd)), fd) > 0;
    }
  }

  /** The count of users is right in every run, calm or not. */
  lemma {:induction false} RunKeepsCount(s: State, run: seq<Action>)
    requires Counted(s) && ValidRun(s, run)
    ensures Counted(After(s, run))
    decreases |run|
  {
    if run != [] {
      StepKeepsCount(s, run[0]);
      RunKeepsCount(Apply(s, run[0]), run[1..]);
    }
  }

  lemma {:induction false} RunKeepsInv(s: State, run: seq<Action>)
    requires Inv(s) && s.timeout > 0 && ValidRun(s, run) && CalmRun(s, run)
    ensures Inv(After(s, run)) && After(s, run).timeout == s.timeout
    decreases |run|
  {
    if run != [] {
      StepKeepsInv(s, run[0]);
      RunKeepsInv(Apply(s, run[0]), run[1..]);
    }
  }

  /**
   Every run with a positive timeout, in every interleaving: each open connection has exactly one owner and a
   closed one has none, the user count is right and bounded, every open connection has its timer entry, and
   no assertion fails.
   */
  lemma EveryRunIsSafe(timeout: int, workers: nat, now: TimeStamp, run: seq<Action>)
    requires timeout > 0
    requires ValidRun(Initial(timeout, workers, now), run) && CalmRun(Initial(timeout, workers, now), run)
    ensures Inv(After(Initial(timeout, workers, now), run))
  {
    RunKeepsInv(Initial(timeout, workers, now), run);
  }

  /** The server takes up to 65536 connections: the next one accepted becomes a connection exactly below that. */
  lemma AcceptedIffRoom(s: State, fd: int)
    requires Inv(s) && Enabled(s, Accept(fd))
    ensures |s.open| <= 65536 && (fd in Apply(s, Accept(fd)).open <==> |s.open| < 65536)
    ensures Apply(s, Accept(fd)).open == if |s.open| < 65536 then s.open + {fd} else s.open
    ensures Apply(s, Accept(fd)).userCount == |Apply(s, Accept(fd)).open|
  {
    StepKeepsCount(s, Accept(fd));
  }

  /** So two workers never have the same connection, and none has one that is armed, queued or closed. */
  lemma WorkersOwnAlone(s: State, i: nat, j: nat)
    requires OneOwner(s) && i < |s.running|
    ensures var fd := s.running[i].fd;
            fd in s.open && fd !in s.armed && CountFd(s.queue, fd) == 0 && CountFd(s.held, fd) == 0
    ensures j < |s.running| && j != i ==> s.running[j].fd != s.running[i].fd
  {
    var fd := s.running[i].fd;
    assert Owners(s, fd) == if fd in s.open then 1 else 0;
    CountFdRemoveAt(s.running, i, fd);
    if j < |s.running| && j != i && s.running[j].fd == fd {
      var k := if j < i then j else j - 1;
      assert RemoveAt(s.running, i)[k] == s.running[j];
      CountFdAt(RemoveAt(s.running, i), k);
    }
  }

  /**
   The main loop only handles events of open connections; the entry that `adjustExpire` asserts is there, and its
   deadline does not move to an earlier time, so that sifting down is enough.
   */
  lemma HandledIsOpenAndTimed(s: State)
    requires Inv(s) && s.held != []
    ensures s.held[0].fd in s.open && s.held[0].fd in s.timer
    ensures s.timer[s.held[0].fd].expire <= Deadline(s)
  {
    assert Owners(s, s.held[0].fd) == if s.held[0].fd in s.open then 1 else 0;
  }

  /**
   A timeout closes an open connection only after its idle time has reached the timeout, less the millisecond
   lost to truncation; an entry left over from an earlier user of the descriptor cannot do it.
   */
  lemma NoConnectionTimesOutEarly(s: State, fd: int)
    requires Inv(s) && Enabled(s, Fire(fd))
    requires Apply(s, Fire(fd)).open != s.open
    ensures fd in s.open && Apply(s, Fire(fd)).open == s.open - {fd}
    ensures s.now - s.last[fd] > s.timeout * MS - MS
  {
    DueWithinAMillisecond(s.timer[fd].expire, s.now);
  }

  // ---------- Deadlines over whole runs ----------

  /** A connection is active when it is accepted, and when the main loop takes up a read or write event of it. */
  ghost predicate Active(s: State, a: Action, fd: int)
    requires Enabled(s, a)
  {
    match a
    case Accept(f) => f == fd && s.userCount < 65536
    case Handle => s.held[0].fd == fd && s.held[0].kind != HangUp
    case _ => false
  }

  function ClockAfter(a: Action, t: TimeStamp): TimeStamp {
    if a.TimePasses? then a.t else t
  }

  /** When a connection was last active in a run, by the clock of the run; `before` if it was not. */
  ghost function LastActive(s: State, run: seq<Action>, clock: TimeStamp, fd: int, before: TimeStamp): TimeStamp
    requires ValidRun(s, run)
    decreases |run|
  {
    if run == [] then before
    else
      var before' := if Active(s, run[0], fd) then clock else before;
      LastActive(Apply(s, run[0]), run[1..], ClockAfter(run[0], clock), fd, before')
  }

  function ClockAtEnd(run: seq<Action>, clock: TimeStamp): TimeStamp {
    if run == [] then clock else ClockAtEnd(run[1..], ClockAfter(run[0], clock))
  }

  lemma StepKeepsLast(s: State, a: Action, fd: int, before: TimeStamp)
    requires Inv(s) && s.timeout > 0 && Enabled(s, a) && (fd in s.open ==> s.last[fd] == before)
    requires fd in Apply(s, a).open
    ensures fd in Apply(s, a).last && Apply(s, a).last[fd] == if Active(s, a, fd) then s.now else before
    ensures !Active(s, a, fd) ==> fd in s.open
    ensures Apply(s, a).now == ClockAfter(a, s.now)
  {
    hide Disarm, Deliverable, DistinctFds, IsEarliest, Due;
    if a.Handle? {
      HandledIsOpenAndTimed(s);
    }
  }

  lemma StepKeepsClock(s: State, a: Action)
    requires Enabled(s, a)
    ensures Apply(s, a).now == ClockAfter(a, s.now)
  {
    hide Disarm, Deliverable, DistinctFds, IsEarliest, Due;
  }

  lemma {:induction false} LastIsLastActive(s: State, run: seq<Action>, fd: int, before: TimeStamp)
    requires Inv(s) && s.timeout > 0 && ValidRun(s, run) && CalmRun(s, run)
    requires fd in s.open ==> s.last[fd] == before
    ensures After(s, run).now == ClockAtEnd(run, s.now)
    ensures fd in After(s, run).open ==>
              fd in After(s, run).last && After(s, run).last[fd] == LastActive(s, run, s.now, fd, before)
    decreases |run|
  {
    if run == [] {
      if fd in s.open {
        assert fd in s.last;
      }
    } else {
      hide Inv, Apply, Active;
      var s' := Apply(s, run[0]);
      StepKeepsInv(s, run[0]);
      StepKeepsClock(s, run[0]);
      if fd in s'.open {
        StepKeepsLast(s, run[0], fd, before);
      }
      LastIsLastActive(s', run[1..], fd, if Active(s, run[0], fd) then s.now else before);
    }
  }

  /**
   In every run with a positive timeout, every open connection's timer is set to the time of its last activity, by the
   clock of the run, plus the timeout in milliseconds.
   */
  lemma DeadlineIsLastActivityPlusTimeout(timeout: int, workers: nat, now: TimeStamp, run: seq<Action>, fd: int)
    requires timeout > 0
    requires ValidRun(Initial(timeout, workers, now), run) && CalmRun(Initial(timeout, workers, now), run)
    ensures var s := After(Initial(timeout, workers, now), run);
            fd in s.open ==>
              && fd in s.timer
              && s.timer[fd].expire ==
                   LastActive(Initial(timeout, workers, now), run, now, fd, now) + timeout * 1_000_000
  {
    var s := Initial(timeout, workers, now);
    RunKeepsInv(s, run);
    LastIsLastActive(s, run, fd, now);
    hide ValidRun, After, LastActive, CalmRun, OneOwner, Counted;
  }

  /**
   So a timeout closes a connection exactly when it is due: its idle time, by the clock of the run, exceeds the timeout
   less one millisecond.
   */
  lemma DueIffIdle(timeout: int, workers: nat, now: TimeStamp, run: seq<Action>, fd: int)
    requires timeout > 0
    requires ValidRun(Initial(timeout, workers, now), run) && CalmRun(Initial(timeout, workers, now), run)
    requires fd in After(Initial(timeout, workers, now), run).open
    ensures var s := After(Initial(timeout, workers, now), run);
            var idle := ClockAtEnd(run, now) - LastActive(Initial(timeout, workers, now), run, now, fd, now);
            fd in s.timer && (Due(s.timer[fd].expire, s.now) <==> idle > (timeout - 1) * 1_000_000)
  {
    var s := Initial(timeout, workers, now);
    LastIsLastActive(s, run, fd, now);
    DeadlineIsLastActivityPlusTimeout(timeout, workers, now, run, fd);
    hide ValidRun, After, LastActive, CalmRun, ClockAtEnd;
    DueWithinAMillisecond(After(s, run).timer[fd].expire, After(s, run).now);
  }

  /** Without a positive timeout no entry is ever made, and the first event to be handled fails the assertion. */
  lemma ExtendTimeFailsIffNoTimeout(timeout: int, workers: nat, now: TimeStamp, fd: int)
    requires fd > 0
    ensures var s := Initial(timeout, workers, now);
            var run := [Accept(fd), Wait([Item(fd, Readable)]), Handle];
            ValidRun(s, run) && (After(s, run).broken <==> timeout <= 0)
  {
    var s := Initial(timeout, workers, now);
    var e := Item(fd, Readable);
    var s1 := Apply(s, Accept(fd));
    assert s1 == AddClientState(s, fd);
    assert Enabled(s1, Wait([e]));
    var s2 := Apply(s1, Wait([e]));
    var s3 := Apply(s2, Handle);
    assert s3.broken <==> timeout <= 0;
    assert [Handle][1..] == [];
    assert ValidRun(s2, [Handle]) && After(s2, [Handle]) == s3;
    assert [Wait([e]), Handle][1..] == [Handle];
    assert ValidRun(s1, [Wait([e]), Handle]) && After(s1, [Wait([e]), Handle]) == s3;
    assert [Accept(fd), Wait([e]), Handle][1..] == [Wait([e]), Handle];
  }

  // ---------- A batch of events ----------

  function Tasks(events: seq<Item>): seq<Item> {
    if events == [] then [] else (if events[0].kind == HangUp then [] else [events[0]]) + Tasks(events[1..])
  }

  function HungUp(events: seq<Item>): set<int> {
    set e | e in events && e.kind == HangUp :: e.fd
  }

  lemma OneIsHandled(s: State)
    requires s.held != []
    ensures var s1, rest := HandleNext(s), s.held[1..];
            && s1.held == rest && s1.queue + Tasks(rest) == s.queue + Tasks(s.held)
            && s1.open - HungUp(rest) == s.open - HungUp(s.held)
  {
    var e, rest, s1 := s.held[0], s.held[1..], HandleNext(s);
    assert s1.open == s.open - if e.kind == HangUp then {e.fd} else {};
    assert s.held == [e] + rest;
    assert HungUp(s.held) == (if e.kind == HangUp then {e.fd} else {}) + HungUp(rest);
    hide HandleNext, HungUp;
    HandledShape(s);
    assert s.queue + [e] + Tasks(rest) == s.queue + ([e] + Tasks(rest));
    assert s.queue + Tasks(rest) == s.queue + ([] + Tasks(rest));
  }

  lemma {:induction false} HandlesDrainHeld(s: State)
    ensures var run := seq(|s.held|, _ => Handle);
            && ValidRun(s, run)
            && After(s, run).queue == s.queue + Tasks(s.held) && After(s, run).open == s.open - HungUp(s.held)
    decreases |s.held|
  {
    var run := seq(|s.held|, _ => Handle);
    if s.held == [] {
      assert s.queue + [] == s.queue && HungUp([]) == {};
    } else {
      var s1 := HandleNext(s);
      OneIsHandled(s);
      HandlesDrainHeld(s1);
      assert run[0] == Handle && run[1..] == seq(|s1.held|, _ => Handle);
      assert Enabled(s, Handle) && Apply(s, Handle) == s1;
      hide HandleNext, HungUp, Tasks, Enabled, Apply;
    }
  }

  /**
   No event of an armed connection is withheld: a batch of hang-ups and of the events asked for, one for each of its
   connections, becomes one task for each event asked for, in order, and closes the others and no more.
   */
  lemma BatchIsDealtWith(s: State, events: seq<Item>)
    requires s.held == [] && DistinctFds(events)
    requires forall i :: 0 <= i < |events| ==>
               && events[i].fd in s.armed
               && (events[i].kind == HangUp ||
                   events[i].kind == if s.armed[events[i].fd] == In then Readable else Writable)
    ensures var run := [Wait(events)] + seq(|events|, _ => Handle);
            && ValidRun(s, run)
            && After(s, run).queue == s.queue + Tasks(events) && After(s, run).open == s.open - HungUp(events)
  {
    var handles := seq(|events|, _ => Handle);
    assert Enabled(s, Wait(events));
    HandlesDrainHeld(Apply(s, Wait(events)));
    assert ([Wait(events)] + handles)[1..] == handles;
  }

  /** One connection, accepted at time 0 with a timeout of 1 ms, somewhere between epoll and a worker. */
  function OneUser(fd: int, held: seq<Item>, queue: seq<Item>, running: seq<Item>, now: TimeStamp): State {
    State(1, 1, now, {fd}, 1, map[], held, queue, running, [], map[fd := Entry(MS, fd)], map[fd := 0], false)
  }

  lemma OneUserArrives(fd: int)
    requires fd > 0
    ensures var s, e := Initial(1, 1, 0), Item(fd, Readable);
            && Enabled(s, Accept(fd)) && Enabled(Apply(s, Accept(fd)), Wait([e]))
            && Apply(Apply(s, Accept(fd)), Wait([e])) == OneUser(fd, [e], [], [], 0)
  {
    var s1 := AddClientState(Initial(1, 1, 0), fd);
    assert Apply(Initial(1, 1, 0), Accept(fd)) == s1 && s1.armed == map[fd := In];
    assert Disarm(s1.armed, [Item(fd, Readable)]) == map[];
  }

  lemma OneUserIsRead(fd: int)
    ensures var e := Item(fd, Readable);
            && Enabled(OneUser(fd, [e], [], [], 0), Handle)
            && Apply(OneUser(fd, [e], [], [], 0), Handle) == OneUser(fd, [], [e], [], 0)
            && Enabled(OneUser(fd, [], [e], [], 0), StartTask)
            && Apply(OneUser(fd, [], [e], [], 0), StartTask) == OneUser(fd, [], [], [e], 0)
  {
  }

  lemma OneUserTimesOut(fd: int)
    ensures var s, e := OneUser(fd, [], [], [Item(fd, Readable)], MS), Item(fd, Readable);
            && Enabled(s, Fire(fd)) && Apply(s, Fire(fd)).running == [e] && Apply(s, Fire(fd)).open == {}
            && !OneOwner(Apply(s, Fire(fd)))
  {
    var s := OneUser(fd, [], [], [Item(fd, Readable)], MS);
    assert IsEarliest(s.timer, fd) && Due(s.timer[fd].expire, s.now);
    CountFdAt(Apply(s, Fire(fd)).running, 0);
    assert Owners(Apply(s, Fire(fd)), fd) >= 1;
  }

  /** An input: the timeout hits a connection while a worker reads from it, and the worker has a closed connection. */
  lemma BusyTimeoutBreaksOwnership(fd: int)
    requires fd > 0
    ensures var e := Item(fd, Readable);
            var run := [Accept(fd), Wait([e]), Handle, StartTask, TimePasses(MS), Fire(fd)];
            && ValidRun(Initial(1, 1, 0), run)
            && (var s := After(Initial(1, 1, 0), run); s.running == [e] && s.open == {} && !OneOwner(s))
  {
    var e := Item(fd, Readable);
    var s0, s2, s3 := Initial(1, 1, 0), OneUser(fd, [e], [], [], 0), OneUser(fd, [], [e], [], 0);
    var s4, s5 := OneUser(fd, [], [], [e], 0), OneUser(fd, [], [], [e], MS);
    OneUserArrives(fd);
    OneUserIsRead(fd);
    OneUserTimesOut(fd);
    assert Enabled(s4, TimePasses(MS)) && Apply(s4, TimePasses(MS)) == s5;
    hide Apply, Enabled, OneUser, Initial, OneOwner;
    StepThenRun(s5, Fire(fd), []);
    StepThenRun(s4, TimePasses(MS), [Fire(fd)] + []);
    StepThenRun(s3, StartTask, [TimePasses(MS)] + ([Fire(fd)] + []));
    StepThenRun(s2, Handle, [StartTask] + ([TimePasses(MS)] + ([Fire(fd)] + [])));
    StepThenRun(Apply(s0, Accept(fd)), Wait([e]), [Handle] + ([StartTask] + ([TimePasses(MS)] + ([Fire(fd)] + []))));
    StepThenRun(s0, Accept(fd), [Wait([e])] + ([Handle] + ([StartTask] + ([TimePasses(MS)] + ([Fire(fd)] + [])))));
    assert [Accept(fd), Wait([e]), Handle, StartTask, TimePasses(MS), Fire(fd)] ==
           [Accept(fd)] + ([Wait([e])] + ([Handle] + ([StartTask] + ([TimePasses(MS)] + ([Fire(fd)] + [])))));
  }

  // ---------- The timer's pass as steps of the server ----------

  /** The steps of one `_tick`: for each firing, time reaches its sample and the entry fires. */
  function TickSteps(clock: Clock, fired: seq<int>, k: nat): seq<Action>
    requires k <= |fired|
    decreases |fired| - k
  {
    if k == |fired| then [] else [TimePasses(clock(k)), Fire(fired[k])] + TickSteps(clock, fired, k + 1)
  }

  /** None of these connections is queued or running. */
  ghost predicate NoneBusy(s: State, fds: seq<int>) {
    forall i :: 0 <= i < |fds| ==> CountFd(s.queue, fds[i]) == 0 && CountFd(s.running, fds[i]) == 0
  }

  /**
   What the heap's `Tick` may do is a run of this protocol: it leaves the timer map that `Tick` leaves, and
   closes the connections whose entries fired.
   */
  lemma {:induction false} TickIsARun(m: map<int, Entry<int>>, clock: Clock, fired: seq<int>, m': map<int, Entry<int>>,
                                      s: State, k: nat)
    requires NonDecreasing(clock) && TickRun(m, clock, fired, m') && k <= |fired|
    requires s.held == [] && s.timer == m - Ids(fired[..k]) && s.now <= clock(k)
    requires forall fd :: fd in m ==> m[fd].tcb == fd
    ensures ValidRun(s, TickSteps(clock, fired, k))
    ensures var s' := After(s, TickSteps(clock, fired, k));
            && s' == s.(timer := m', open := s.open - Ids(fired[k..]), armed := s.armed - Ids(fired[k..]),
                        userCount := s'.userCount, now := if k == |fired| then s.now else clock(|fired| - 1))
            && ((forall i :: k <= i < |fired| ==>
                   CountFd(s.queue, fired[i]) == 0 && CountFd(s.running, fired[i]) == 0) ==>
                  CalmRun(s, TickSteps(clock, fired, k)))
    decreases |fired| - k
  {
    if k == |fired| {
      assert fired[..k] == fired;
    } else {
      hide *;
      var s1, s2 := FireNext(m, clock, fired, m', s, k);
      TickIsARun(m, clock, fired, m', s2, k + 1);
      var pass, fire := TimePasses(clock(k)), Fire(fired[k]);
      var rest := TickSteps(clock, fired, k + 1);
      StepThenRun(s1, fire, rest);
      StepThenRun(s, pass, [fire] + rest);
      NextTickSteps(clock, fired, k);
      TwoFirings(s, s2, After(s2, rest), fired[k], Ids(fired[k + 1..]));
    }
  }

  /** One firing and then the others are all of them together. */
  lemma TwoFirings(s: State, s2: State, s': State, fd: int, rest: set<int>)
    requires s2 == s.(now := s2.now, timer := s2.timer, open := s.open - {fd}, armed := s.armed - {fd},
                      userCount := s2.userCount)
    requires s' == s2.(now := s'.now, timer := s'.timer, open := s2.open - rest, armed := s2.armed - rest,
                       userCount := s'.userCount)
    ensures s' == s.(now := s'.now, timer := s'.timer, open := s.open - ({fd} + rest),
                     armed := s.armed - ({fd} + rest), userCount := s'.userCount)
  {
  }

  lemma NextTickSteps(clock: Clock, fired: seq<int>, k: nat)
    requires k < |fired|
    ensures TickSteps(clock, fired, k) == [TimePasses(clock(k))] + ([Fire(fired[k])] + TickSteps(clock, fired, k + 1))
    ensures Ids(fired[k..]) == {fired[k]} + Ids(fired[k + 1..])
  {
    assert fired[k..] == [fired[k]] + fired[k + 1..];
  }

  lemma StepThenRun(s: State, a: Action, rest: seq<Action>)
    requires Enabled(s, a) && ValidRun(Apply(s, a), rest)
    ensures ValidRun(s, [a] + rest) && After(s, [a] + rest) == After(Apply(s, a), rest)
    ensures CalmRun(s, [a] + rest) <==> Calm(s, a) && CalmRun(Apply(s, a), rest)
  {
    assert ([a] + rest)[1..] == rest;
  }

  lemma FireNext(m: map<int, Entry<int>>, clock: Clock, fired: seq<int>, m': map<int, Entry<int>>, s: State, k: nat)
    returns (s1: State, s2: State)
    requires NonDecreasing(clock) && TickRun(m, clock, fired, m') && k < |fired|
    requires s.held == [] && s.timer == m - Ids(fired[..k]) && s.now <= clock(k)
    requires forall fd :: fd in m ==> m[fd].tcb == fd
    ensures Enabled(s, TimePasses(clock(k))) && s1 == Apply(s, TimePasses(clock(k)))
    ensures Enabled(s1, Fire(fired[k])) && s2 == Apply(s1, Fire(fired[k]))
    ensures s2 == s.(now := clock(k), timer := s2.timer, open := s.open - {fired[k]}, armed := s.armed - {fired[k]},
                     userCount := s2.userCount)
    ensures Calm(s, TimePasses(clock(k)))
    ensures CountFd(s.queue, fired[k]) == 0 && CountFd(s.running, fired[k]) == 0 ==> Calm(s1, Fire(fired[k]))
    ensures s2.held == [] && s2.timer == m - Ids(fired[..k + 1]) && s2.now <= clock(k + 1)
  {
    s1 := Apply(s, TimePasses(clock(k)));
    assert IsEarliest(s1.timer, fired[k]) && Due(s1.timer[fired[k]].expire, s1.now);
    s2 := Apply(s1, Fire(fired[k]));
    assert Ids(fired[..k + 1]) == Ids(fired[..k]) + {fired[k]} by {
      assert fired[..k + 1] == fired[..k] + [fired[k]];
    }
    assert clock(k) <= clock(k + 1);
  }

  // ---------- Accepting several connections ----------

  function Accepts(fds: seq<int>): seq<Action> {
    seq(|fds|, i requires 0 <= i < |fds| => Accept(fds[i]))
  }

  /** Descriptors the kernel may hand out one after another: all different, and none in use. */
  predicate AllFree(s: State, fds: seq<int>) {
    && (forall i :: 0 <= i < |fds| ==> fds[i] > 0 && fds[i] !in s.open)
    && (forall i, j :: 0 <= i < j < |fds| ==> fds[i] != fds[j])
  }

  lemma NextIsFree(s: State, fds: seq<int>, n: nat)
    requires AllFree(s, fds) && n < |fds|
    ensures fds[n] > 0 && fds[n] !in s.open + Ids(fds[..n])
    ensures Ids(fds[..n + 1]) == Ids(fds[..n]) + {fds[n]}
    ensures Accepts(fds[..n + 1]) == Accepts(fds[..n]) + [Accept(fds[n])]
  {
    assert fds[..n + 1] == fds[..n] + [fds[n]];
  }

  ghost predicate AcceptedSoFar(s: State, s': State, fds: seq<int>, n: nat) {
    && n <= |fds| && ValidRun(s, Accepts(fds[..n])) && s' == After(s, Accepts(fds[..n]))
    && Inv(s') && s'.timeout > 0 && s'.open == s.open + Ids(fds[..n]) && s'.userCount == s.userCount + n
  }

  lemma NoneAcceptedYet(s: State, fds: seq<int>)
    requires Inv(s) && s.timeout > 0
    ensures AcceptedSoFar(s, s, fds, 0) && s.userCount <= MAX_FD
  {
    assert Accepts(fds[..0]) == [];
  }

  lemma AcceptOneMore(s: State, s': State, fds: seq<int>, n: nat)
    requires AllFree(s, fds) && AcceptedSoFar(s, s', fds, n) && n < |fds| && s'.userCount < MAX_FD
    ensures AcceptedSoFar(s, AddClientState(s', fds[n]), fds, n + 1)
    ensures AddClientState(s', fds[n]).userCount == s'.userCount + 1
  {
    hide Inv, ValidRun, After;
    NextIsFree(s, fds, n);
    StepKeepsInv(s', Accept(fds[n]));
    RunThenStep(s, Accepts(fds[..n]), Accept(fds[n]));
  }

  lemma WhatWasAccepted(s: State, s': State, fds: seq<int>, n: nat)
    requires AcceptedSoFar(s, s', fds, n)
    ensures ValidRun(s, Accepts(fds[..n])) && s' == After(s, Accepts(fds[..n]))
    ensures Inv(s') && s'.open == s.open + Ids(fds[..n])
  {
  }

  lemma {:induction false} RunThenStep(s: State, run: seq<Action>, a: Action)
    requires ValidRun(s, run) && Enabled(After(s, run), a)
    ensures ValidRun(s, run + [a]) && After(s, run + [a]) == Apply(After(s, run), a)
    decreases |run|
  {
    if run == [] {
      assert [] + [a] == [a] && [a][1..] == [];
    } else {
      assert (run + [a])[1..] == run[1..] + [a];
      RunThenStep(Apply(s, run[0]), run[1..], a);
    }
  }

  // ---------- The server object ----------

  /** The server with the real timer heap.  Each handler is one action of the protocol. */
  class Server {
    const listenET: bool
    const connET: bool
    const timeoutMs: int
    const workers: nat
    const timer: TimerHeap.Timer<int>
    var now: TimeStamp
    var open: set<int>
    var userCount: int
    var armed: map<int, Interest>
    var held: seq<Item>
    var queue: seq<Item>
    var running: seq<Item>
    var leaving: seq<Item>
    ghost var last: map<int, TimeStamp>

    ghost function View(): State
      requires TimerHeap.Indexed(timer.heap, timer.ref)
      reads this, timer
    {
      State(timeoutMs, workers, now, open, userCount, armed, held, queue, running, leaving, timer.Contents(),
            last, false)
    }

    ghost predicate Valid()
      reads this, timer
    {
      timer.Valid() && timeoutMs > 0 && Inv(View())
    }

    /** The trigger modes are those of `_initEventMode`; any number but 0, 1 and 2 stands for 3. */
    constructor (triggerMode: int, timeoutMs: int, workers: nat, now: TimeStamp)
      requires timeoutMs > 0
      ensures Valid() && View() == Initial(timeoutMs, workers, now) && fresh(timer)
      ensures connET <==> triggerMode != 0 && triggerMode != 2
      ensures listenET <==> triggerMode != 0 && triggerMode != 1
    {
      match triggerMode {
        case 0 => connET, listenET := false, false;
        case 1 => connET, listenET := true, false;
        case 2 => connET, listenET := false, true;
        case _ => connET, listenET := true, true;
      }
      this.timeoutMs, this.workers, this.now := timeoutMs, workers, now;
      timer := new TimerHeap.Timer<int>();
      open, userCount, armed, held, queue, running, leaving, last := {}, 0, map[], [], [], [], [], map[];
    }

    /** Reads the clock. */
    method ReadClock(t: TimeStamp)
      requires Valid() && now <= t
      modifies this`now
      ensures Valid() && View() == Apply(old(View()), TimePasses(t))
    {
      StepKeepsInv(View(), TimePasses(t));
      now := t;
    }

    /**
     The listening socket is ready: `accepted` is what the kernel hands out, one descriptor per accept, until it has
     no more.  Level-triggered, one accept is made; edge-triggered, all are, up to the limit.
     */
    method DealListen(accepted: seq<int>) returns (n: nat, turnedAway: bool)
      requires Valid() && AllFree(View(), accepted)
      modifies this, timer
      ensures Valid() && n <= |accepted|
      // It stops for three reasons only: no more to accept, no more room, or one is enough.
      ensures userCount == old(userCount) + n <= MAX_FD && (!listenET ==> n <= 1)
      ensures n == |accepted| || userCount == MAX_FD || (!listenET && n == 1)
      // At the limit the next one, accepted[n], is told so and closed again, and none after it is looked at.
      ensures turnedAway <==> n < |accepted| && (listenET || n == 0)
      ensures ValidRun(old(View()), Accepts(accepted[..n])) && View() == After(old(View()), Accepts(accepted[..n]))
      ensures open == old(open) + Ids(accepted[..n])
    {
      hide Inv, AcceptedSoFar, AddClientState, AllFree, ValidRun, After, Accepts, Ids, Enabled, Apply;
      hide TimerHeap.HeapOrdered, TimerHeap.Indexed, TimerHeap.EntriesOf;
      n, turnedAway := 0, false;
      ghost var s := View();
      NoneAcceptedYet(s, accepted);
      while true
        invariant 0 <= n <= |accepted| && timer.Valid() && AcceptedSoFar(s, View(), accepted, n)
        invariant s.userCount + n == userCount <= MAX_FD
        invariant (n > 0 ==> listenET) && !turnedAway
        decreases |accepted| - n
      {
        if n == |accepted| {
          break;
        }
        if userCount >= MAX_FD {
          turnedAway := true;
          break;
        }
        AcceptNext(s, accepted, n);
        n := n + 1;
        if !listenET {
          break;
        }
      }
      WhatWasAccepted(s, View(), accepted, n);
    }

    /** The n-th accepted descriptor becomes a connection. */
    method AcceptNext(ghost s: State, accepted: seq<int>, n: nat)
      requires timer.Valid() && timeoutMs > 0 && n < |accepted| && userCount < MAX_FD
      requires AllFree(s, accepted) && AcceptedSoFar(s, View(), accepted, n)
      modifies this, timer
      ensures timer.Valid() && AcceptedSoFar(s, View(), accepted, n + 1) && userCount == old(userCount) + 1
    {
      hide AcceptedSoFar, AddClientState, AllFree, Inv;
      AcceptOneMore(s, View(), accepted, n);
      AddClient(accepted[n]);
    }

    method AddClient(fd: int)
      requires timer.Valid() && timeoutMs > 0
      modifies this, timer
      ensures timer.Valid() && View() == AddClientState(old(View()), fd)
    {
      hide TimerHeap.HeapOrdered, TimerHeap.Indexed, TimerHeap.EntriesOf;
      open := open + {fd};
      userCount := userCount + 1;
      last := last[fd := now];
      if timeoutMs > 0 {
        timer.Add(fd, timeoutMs, fd, now);
      }
      armed := armed[fd := In];
    }

    method CloseConnection(fd: int)
      modifies this`armed, this`open, this`userCount
      ensures armed == old(armed) - {fd} && open == old(open) - {fd}
      ensures userCount == if fd in old(open) then old(userCount) - 1 else old(userCount)
    {
      armed := armed - {fd};
      if fd in open {
        open := open - {fd};
        userCount := userCount - 1;
      }
    }

    /** Deals with the next event of the batch: `_closeConn`, `_dealRead` or `_dealWrite`. */
    method DealEvent()
      requires Valid() && held != []
      modifies this, timer
      ensures Valid() && View() == Apply(old(View()), Handle)
    {
      hide Inv, TimerHeap.HeapOrdered;
      StepKeepsInv(View(), Handle);
      HandledIsOpenAndTimed(View());
      var e := held[0];
      held := held[1..];
      if e.kind == HangUp {
        CloseConnection(e.fd);
      } else {
        timer.AdjustExpire(e.fd, timeoutMs, now);
        last := last[e.fd := now];
        queue := queue + [e];
      }
    }

    method StartTask()
      requires Valid() && Enabled(View(), Action.StartTask)
      modifies this`queue, this`running
      ensures Valid() && View() == Apply(old(View()), Action.StartTask)
    {
      StepKeepsInv(View(), Action.StartTask);
      running := running + [queue[0]];
      queue := queue[1..];
    }

    /** The last thing `_onRead`, `_onWrite` or `_onProcess` does with its connection: re-arm it or close it. */
    method FinishTask(i: nat, outcome: Outcome)
      requires Valid() && i < |running|
      modifies this`running, this`leaving, this`armed, this`open, this`userCount
      ensures Valid() && View() == Apply(old(View()), Action.FinishTask(i, outcome))
    {
      hide Inv;
      StepKeepsInv(View(), Action.FinishTask(i, outcome));
      var fd := running[i].fd;
      leaving := leaving + [running[i]];
      running := running[..i] + running[i + 1..];
      match outcome {
        case Rearm(interest) => armed := armed[fd := interest];
        case CloseConn => CloseConnection(fd);
      }
    }

    /** The handler returns; its worker is free for the next task. */
    method TaskReturns(i: nat)
      requires Valid() && i < |leaving|
      modifies this`leaving
      ensures Valid() && View() == Apply(old(View()), Action.TaskReturns(i))
    {
      StepKeepsInv(View(), Action.TaskReturns(i));
      leaving := leaving[..i] + leaving[i + 1..];
    }

    /** epoll_wait returns a batch; one-shot registrations are disabled by it. */
    method WaitEvents(events: seq<Item>)
      requires Valid() && Enabled(View(), Wait(events))
      modifies this`held, this`armed
      ensures Valid() && View() == Apply(old(View()), Wait(events))
    {
      StepKeepsInv(View(), Wait(events));
      held := events;
      armed := armed - set e | e in events :: e.fd;
    }

    /**
     One pass of the timer between two batches: the heap fires what is due, and each callback closes its
     connection.  The invariant survives if none of the connections hit is queued or running.
     */
    method OnTick(clock: Clock) returns (fired: seq<int>)
      requires Valid() && held == [] && NonDecreasing(clock) && now <= clock(0)
      modifies this, timer
      ensures TimerHeap.Indexed(timer.heap, timer.ref) && TimerHeap.HeapOrdered(timer.heap)
      ensures TickRun(old(timer.Contents()), clock, fired, timer.Contents())
      ensures ValidRun(old(View()), TickSteps(clock, fired, 0))
      ensures View() == After(old(View()), TickSteps(clock, fired, 0))
      ensures NoneBusy(old(View()), fired) ==> Valid()
    {
      hide Inv, ValidRun, After, TickSteps, TickRun, NonDecreasing, Ids, NoneBusy;
      hide TimerHeap.HeapOrdered, TimerHeap.Indexed, TimerHeap.EntriesOf;
      ghost var s := View();
      StateIsCounted(s);
      var ran: seq<int>;
      fired, ran := timer.Tick(clock);
      CallbacksAreIds(s.timer, fired, ran);
      CloseAll(ran);
      if |fired| > 0 {
        now := clock(|fired| - 1);
      }
      TickKeepsInv(s, clock, fired, timer.Contents());
      assert View() == After(s, TickSteps(clock, fired, 0));
    }

    method CloseAll(fds: seq<int>)
      requires userCount == |open|
      modifies this`armed, this`open, this`userCount
      ensures armed == old(armed) - Ids(fds) && open == old(open) - Ids(fds) && userCount == |open|
    {
      var i := 0;
      while i < |fds|
        invariant 0 <= i <= |fds| && userCount == |open|
        invariant armed == old(armed) - Ids(fds[..i]) && open == old(open) - Ids(fds[..i])
      {
        CloseConnection(fds[i]);
        OneMoreId(fds, i, old(armed), old(open));
        i := i + 1;
      }
      assert fds[..|fds|] == fds;
    }
  }

  lemma StateIsCounted(s: State)
    requires Inv(s)
    ensures s.userCount == |s.open|
    ensures forall fd :: fd in s.timer ==> s.timer[fd].tcb == fd
  {
  }

  lemma CallbacksAreIds(m: map<int, Entry<int>>, fired: seq<int>, ran: seq<int>)
    requires forall fd :: fd in m ==> m[fd].tcb == fd
    requires |ran| == |fired| && forall k :: 0 <= k < |fired| ==> fired[k] in m && ran[k] == m[fired[k]].tcb
    ensures ran == fired
  {
    forall k | 0 <= k < |fired| ensures ran[k] == fired[k] {
      assert fired[k] in m;
    }
  }

  lemma OneMoreId(fds: seq<int>, i: nat, m: map<int, Interest>, open: set<int>)
    requires i < |fds|
    ensures m - Ids(fds[..i + 1]) == m - Ids(fds[..i]) - {fds[i]}
    ensures open - Ids(fds[..i + 1]) == open - Ids(fds[..i]) - {fds[i]}
  {
    assert fds[..i + 1] == fds[..i] + [fds[i]];
    assert Ids(fds[..i + 1]) == Ids(fds[..i]) + {fds[i]};
  }

  /** What a pass does to any sound state; if it hits no queued or running connection, the state stays sound. */
  lemma TickKeepsInv(s: State, clock: Clock, fired: seq<int>, m': map<int, Entry<int>>)
    requires Inv(s) && s.timeout > 0 && s.held == [] && NonDecreasing(clock) && s.now <= clock(0)
    requires TickRun(s.timer, clock, fired, m')
    ensures ValidRun(s, TickSteps(clock, fired, 0))
    ensures var s' := After(s, TickSteps(clock, fired, 0));
            && s' == s.(timer := m', open := s.open - Ids(fired), armed := s.armed - Ids(fired),
                        userCount := |s.open - Ids(fired)|,
                        now := if fired == [] then s.now else clock(|fired| - 1))
            && (NoneBusy(s, fired) ==> Inv(s'))
  {
    assert fired[..0] == [] && fired[0..] == fired;
    assert s.timer == s.timer - Ids(fired[..0]);
    TickIsARun(s.timer, clock, fired, m', s, 0);
    RunKeepsCount(s, TickSteps(clock, fired, 0));
    if NoneBusy(s, fired) {
      RunKeepsInv(s, TickSteps(clock, fired, 0));
    }
  }
}
