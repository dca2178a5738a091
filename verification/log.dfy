/**
 The asynchronous log: writers format under the log's mutex, and queue the message if the queue is not full
 or write it to the file themselves; one drain thread pops messages and writes them under the same mutex.

 The queue is the one of `BlockQueueProtocol`, seen from outside: `LogRunIsQueueRun`.  Its own mutex guards single
 calls, so `full`, `push` and `pop` are separate actions here, and a writer could be stopped between them.
 */
module LogProtocol {
  import opened Counting
  import opened BlockQueueProtocol

  /** A writer's place; Locked and NotFull hold the log's mutex. */
  datatype Writer<M> = Outside | Wants(msg: M) | Locked(msg: M) | NotFull(msg: M)

  /**
   The drain thread's place: calling pop (fresh from its loop, or out of a wait), in the wait, holding a message, gone.
   */
  datatype Drain<M> = Calling(woken: bool) | Waiting | Got(msg: M) | Gone

  /** A line of the file, by the way it came. */
  datatype Line<M> = Queued(msg: M) | Direct(msg: M)

  /** The destructor waits for an empty queue, sets the flag, and notifies; then it joins. */
  datatype Stage = Running | Flagged | Notified

  datatype LogState<M> = LogState(
    mode: Mode,
    capacity: nat,
    queue: seq<M>,
    holder: int,           // the writer that holds the mutex, or -1
    writers: seq<Writer<M>>,
    drain: Drain<M>,
    stage: Stage,
    file: seq<Line<M>>,
    enqueued: seq<M>,      // history: messages pushed
    written: seq<M>        // history: messages writers wrote themselves
  )

  datatype LogAction<M> =
    | Arrive(w: nat, msg: M)
    | Lock(w: nat)
    | TestFull(w: nat)        // `full`, and the direct write if it holds
    | PushMessage(w: nat)
    | DrainTurn               // pop, from its mutex to return or wait
    | DrainWrite
    | WakeDrain               // flush, or a spurious wake-up
    | Flag                    // destructor: the queue is empty, `close` sets the flag
    | Notify                  // destructor: `close` notifies

  predicate LogEnabled<M(==)>(s: LogState<M>, a: LogAction<M>) {
    match a
    case Arrive(w, _) => w < |s.writers| && s.writers[w].Outside? && s.stage == Running
    case Lock(w) => w < |s.writers| && s.writers[w].Wants? && s.holder == -1
    case TestFull(w) => w < |s.writers| && s.writers[w].Locked?
    // A full queue would block the push, with the log's mutex held.
    case PushMessage(w) => w < |s.writers| && s.writers[w].NotFull? && |s.queue| < s.capacity
    case DrainTurn => s.drain.Calling?
    case DrainWrite => s.drain.Got? && s.holder == -1
    case WakeDrain => s.drain.Waiting?
    case Flag => s.stage == Running && s.queue == [] && forall w :: 0 <= w < |s.writers| ==> s.writers[w].Outside?
    case Notify => s.stage == Flagged
  }

  /** How pop ends, in the text as written and with the flag tested before the wait. */
  function DrainNext<M>(s: LogState<M>): Drain<M>
    requires s.drain.Calling?
  {
    if s.mode == AsWritten && s.drain.woken && s.stage != Running then Gone
    else if s.queue != [] then Got(s.queue[0])
    else if s.mode == TestedFirst && s.stage != Running then Gone
    else Waiting
  }

  function WokenDrain<M>(d: Drain<M>): Drain<M> {
    if d.Waiting? then Calling(true) else d
  }

  function LogApply<M(==)>(s: LogState<M>, a: LogAction<M>): LogState<M>
    requires LogEnabled(s, a)
  {
    match a
    case Arrive(w, m) => s.(writers := s.writers[w := Wants(m)])
    case Lock(w) => s.(writers := s.writers[w := Locked(s.writers[w].msg)], holder := w)
    case TestFull(w) =>
      var m := s.writers[w].msg;
      if |s.queue| < s.capacity then s.(writers := s.writers[w := NotFull(m)])
      else s.(writers := s.writers[w := Outside], holder := -1,
              file := s.file + [Direct(m)], written := s.written + [m])
    case PushMessage(w) =>
      var m := s.writers[w].msg;
      s.(writers := s.writers[w := Outside], holder := -1, queue := s.queue + [m], enqueued := s.enqueued + [m],
         drain := WokenDrain(s.drain))
    case DrainTurn =>
      var d := DrainNext(s);
      if d.Got? then s.(queue := s.queue[1..], drain := d) else s.(drain := d)
    case DrainWrite => s.(file := s.file + [Queued(s.drain.msg)], drain := Calling(false))
    case WakeDrain => s.(drain := Calling(true))
    case Flag => s.(stage := Flagged)
    case Notify => s.(stage := Notified, drain := WokenDrain(s.drain))
  }

  predicate LogInitial<M(==)>(s: LogState<M>) {
    && s.capacity > 0 && s.queue == [] && s.holder == -1 && s.drain == Calling(false) && s.stage == Running
    && s.file == [] && s.enqueued == [] && s.written == []
    && forall w :: 0 <= w < |s.writers| ==> s.writers[w].Outside?
  }

  predicate LogRun<M(==)>(s: LogState<M>, run: seq<LogAction<M>>)
    decreases |run|
  {
    run == [] || (LogEnabled(s, run[0]) && LogRun(LogApply(s, run[0]), run[1..]))
  }

  function LogAfter<M(==)>(s: LogState<M>, run: seq<LogAction<M>>): LogState<M>
    requires LogRun(s, run)
    decreases |run|
  {
    if run == [] then s else LogAfter(LogApply(s, run[0]), run[1..])
  }

  // ---------- What every step keeps ----------

  function QueuedIn<M>(file: seq<Line<M>>): seq<M> {
    if file == [] then []
    else
      var rest := QueuedIn(file[..|file| - 1]);
      if file[|file| - 1].Queued? then rest + [file[|file| - 1].msg] else rest
  }

  function DirectIn<M>(file: seq<Line<M>>): seq<M> {
    if file == [] then []
    else
      var rest := DirectIn(file[..|file| - 1]);
      if file[|file| - 1].Direct? then rest + [file[|file| - 1].msg] else rest
  }

  function InHand<M>(d: Drain<M>): seq<M> {
    if d.Got? then [d.msg] else []
  }

  /** The mutex has one holder, and that writer is inside. */
  predicate OneHolder<M>(s: LogState<M>) {
    && -1 <= s.holder < |s.writers|
    && forall w :: 0 <= w < |s.writers| ==> (s.holder == w <==> s.writers[w].Locked? || s.writers[w].NotFull?)
  }

  /** What `full` said stays true until the push, because only the holder pushes. */
  predicate RoomForPush<M>(s: LogState<M>) {
    && |s.queue| <= s.capacity
    && forall w :: 0 <= w < |s.writers| && s.writers[w].NotFull? ==> |s.queue| < s.capacity
  }

  /** Queued messages pass through queue and drain thread to the file in order; direct ones are there already. */
  predicate NothingLost<M(==)>(s: LogState<M>) {
    && s.enqueued == QueuedIn(s.file) + InHand(s.drain) + s.queue
    && s.written == DirectIn(s.file)
  }

  /**
   Once closed, no writer is inside, nothing is queued, and after the notification the drain thread is not left
   waiting.
   */
  predicate ClosedDown<M>(s: LogState<M>) {
    && (s.stage != Running ==> s.queue == [] && s.holder == -1)
    && (s.stage != Running ==> forall w :: 0 <= w < |s.writers| ==> s.writers[w].Outside?)
    && (s.stage == Notified && s.mode == TestedFirst ==> !s.drain.Waiting?)
    && (s.drain.Gone? ==> s.stage != Running)
  }

  /** Every push wakes a waiting drain thread. */
  predicate WaitsOnEmpty<M(==)>(s: LogState<M>) {
    s.drain.Waiting? ==> s.queue == []
  }

  predicate LogInv<M(==)>(s: LogState<M>) {
    OneHolder(s) && RoomForPush(s) && NothingLost(s) && ClosedDown(s) && WaitsOnEmpty(s)
  }

  lemma AppendedLine<M>(file: seq<Line<M>>, l: Line<M>)
    ensures QueuedIn(file + [l]) == QueuedIn(file) + (if l.Queued? then [l.msg] else [])
    ensures DirectIn(file + [l]) == DirectIn(file) + (if l.Direct? then [l.msg] else [])
  {
    assert (file + [l])[..|file|] == file;
  }

  lemma NothingLostDependsOn<M>(s: LogState<M>, s': LogState<M>)
    requires NothingLost(s) && s'.enqueued == s.enqueued && s'.written == s.written && s'.file == s.file
    requires InHand(s'.drain) == InHand(s.drain) && s'.queue == s.queue
    ensures NothingLost(s')
  {
  }

  lemma PushKeepsNothingLost<M>(s: LogState<M>, w: nat)
    requires NothingLost(s) && LogEnabled(s, PushMessage(w))
    ensures NothingLost(LogApply(s, PushMessage(w)))
  {
  }

  lemma TestFullKeepsNothingLost<M>(s: LogState<M>, w: nat)
    requires NothingLost(s) && LogEnabled(s, TestFull(w))
    ensures NothingLost(LogApply(s, TestFull(w)))
  {
    hide QueuedIn, DirectIn;
    AppendedLine(s.file, Direct(s.writers[w].msg));
    assert QueuedIn(s.file) + [] == QueuedIn(s.file);
  }

  lemma DrainTurnKeepsNothingLost<M>(s: LogState<M>)
    requires NothingLost(s) && LogEnabled(s, LogAction<M>.DrainTurn)
    ensures NothingLost(LogApply(s, LogAction<M>.DrainTurn))
  {
    hide QueuedIn, DirectIn;
    if s.queue != [] {
      assert s.queue == [s.queue[0]] + s.queue[1..];
      assert QueuedIn(s.file) + [] + s.queue == QueuedIn(s.file) + [s.queue[0]] + s.queue[1..];
    }
  }

  lemma DrainWriteKeepsNothingLost<M>(s: LogState<M>)
    requires NothingLost(s) && LogEnabled(s, LogAction<M>.DrainWrite)
    ensures NothingLost(LogApply(s, LogAction<M>.DrainWrite))
  {
    hide QueuedIn, DirectIn;
    AppendedLine(s.file, Queued(s.drain.msg));
    assert DirectIn(s.file) + [] == DirectIn(s.file);
    assert QueuedIn(s.file) + [s.drain.msg] + [] + s.queue == QueuedIn(s.file) + [s.drain.msg] + s.queue;
  }

  lemma StepKeepsNothingLost<M>(s: LogState<M>, a: LogAction<M>)
    requires NothingLost(s) && LogEnabled(s, a)
    ensures NothingLost(LogApply(s, a))
  {
    hide NothingLost;
    match a {
      case TestFull(w) => TestFullKeepsNothingLost(s, w);
      case PushMessage(w) => PushKeepsNothingLost(s, w);
      case DrainWrite => DrainWriteKeepsNothingLost(s);
      case DrainTurn => DrainTurnKeepsNothingLost(s);
      case _ => NothingLostDependsOn(s, LogApply(s, a));
    }
  }

  lemma StepKeepsLogInv<M>(s: LogState<M>, a: LogAction<M>)
    requires LogInv(s) && LogEnabled(s, a)
    ensures LogInv(LogApply(s, a))
  {
    StepKeepsNothingLost(s, a);
    assert s.holder >= 0 ==> s.writers[s.holder].Locked? || s.writers[s.holder].NotFull?;
  }

  lemma {:induction false} LogRunKeepsInv<M>(s: LogState<M>, run: seq<LogAction<M>>)
    requires LogInv(s) && LogRun(s, run)
    ensures LogInv(LogAfter(s, run))
    decreases |run|
  {
    if run != [] {
      StepKeepsLogInv(s, run[0]);
      LogRunKeepsInv(LogApply(s, run[0]), run[1..]);
    }
  }

  /** In every interleaving queued messages reach the file in the order they were pushed, and direct ones in theirs. */
  lemma EveryLogRunIsSafe<M>(s: LogState<M>, run: seq<LogAction<M>>)
    requires LogInitial(s) && LogRun(s, run)
    ensures var s' := LogAfter(s, run);
            && s'.enqueued == QueuedIn(s'.file) + InHand(s'.drain) + s'.queue
            && s'.written == DirectIn(s'.file)
  {
    LogRunKeepsInv(s, run);
  }

  /** The writer that holds the log's mutex is never stopped: its push finds room. */
  lemma HolderNeverBlocks<M>(s: LogState<M>, w: nat)
    requires LogInv(s) && s.holder == w
    ensures LogEnabled(s, TestFull(w)) || LogEnabled(s, PushMessage(w))
  {
  }

  /** So writers and drain thread cannot deadlock: whoever has work left, somebody can go on. */
  lemma NoDeadlock<M>(s: LogState<M>)
    requires LogInv(s)
    requires s.queue != [] || s.drain.Got? || exists w :: 0 <= w < |s.writers| && !s.writers[w].Outside?
    ensures exists a: LogAction<M> :: LogEnabled(s, a) && !a.Arrive? && !a.WakeDrain?
  {
    if s.holder >= 0 {
      HolderNeverBlocks(s, s.holder);
    } else if s.drain.Got? {
      assert LogEnabled(s, DrainWrite);
    } else if w :| 0 <= w < |s.writers| && !s.writers[w].Outside? {
      assert LogEnabled(s, Lock(w));
    } else {
      assert LogEnabled(s, DrainTurn);
    }
  }

  // ---------- What becomes of a message ----------

  /** The messages writers bring in a run. */
  function Arrivals<M(==)>(run: seq<LogAction<M>>): seq<M> {
    if run == [] then [] else (if run[0].Arrive? then [run[0].msg] else []) + Arrivals(run[1..])
  }

  /** How many writers are inside `write` with a given message. */
  ghost function HeldBy<M>(writers: seq<Writer<M>>, m: M): nat {
    if writers == [] then 0
    else (if !writers[0].Outside? && writers[0].msg == m then 1 else 0) + HeldBy(writers[1..], m)
  }

  lemma {:induction false} HeldByUpdate<M>(ws: seq<Writer<M>>, i: nat, w: Writer<M>, m: M)
    requires i < |ws|
    ensures HeldBy(ws[i := w], m) + (if !ws[i].Outside? && ws[i].msg == m then 1 else 0) ==
            HeldBy(ws, m) + (if !w.Outside? && w.msg == m then 1 else 0)
  {
    if i == 0 {
      assert ws[0 := w][1..] == ws[1..];
    } else {
      assert ws[i := w][1..] == ws[1..][i - 1 := w];
      HeldByUpdate(ws[1..], i - 1, w, m);
    }
  }

  lemma {:induction false} NobodyHolds<M>(ws: seq<Writer<M>>, m: M)
    requires forall w :: 0 <= w < |ws| ==> ws[w].Outside?
    ensures HeldBy(ws, m) == 0
  {
    if ws != [] {
      NobodyHolds(ws[1..], m);
    }
  }

  ghost function Accepted<M>(s: LogState<M>, m: M): nat {
    Count(s.enqueued, m) + Count(s.written, m) + HeldBy(s.writers, m)
  }

  lemma StepKeepsAccepted<M>(s: LogState<M>, a: LogAction<M>, m: M)
    requires LogEnabled(s, a)
    ensures Accepted(LogApply(s, a), m) == Accepted(s, m) + (if a.Arrive? && a.msg == m then 1 else 0)
  {
    var s' := LogApply(s, a);
    match a {
      case Arrive(w, _) => HeldByUpdate(s.writers, w, s'.writers[w], m);
      case Lock(w) => HeldByUpdate(s.writers, w, s'.writers[w], m);
      case TestFull(w) =>
        HeldByUpdate(s.writers, w, s'.writers[w], m);
        CountConcat(s.written, [s.writers[w].msg], m);
      case PushMessage(w) =>
        HeldByUpdate(s.writers, w, s'.writers[w], m);
        CountConcat(s.enqueued, [s.writers[w].msg], m);
      case _ =>
    }
  }

  lemma {:induction false} RunKeepsAccepted<M>(s: LogState<M>, run: seq<LogAction<M>>, m: M)
    requires LogRun(s, run)
    ensures Accepted(LogAfter(s, run), m) == Accepted(s, m) + Count(Arrivals(run), m)
    decreases |run|
  {
    hide Accepted;
    if run != [] {
      StepKeepsAccepted(s, run[0], m);
      RunKeepsAccepted(LogApply(s, run[0]), run[1..], m);
      CountConcat(if run[0].Arrive? then [run[0].msg] else [], Arrivals(run[1..]), m);
    }
  }

  /** Every message a writer brings is queued once, written once, or still in the writer's hands. */
  lemma EveryMessageIsAccepted<M>(s: LogState<M>, run: seq<LogAction<M>>, m: M)
    requires LogInitial(s) && LogRun(s, run)
    ensures var s' := LogAfter(s, run);
            Count(Arrivals(run), m) == Count(s'.enqueued, m) + Count(s'.written, m) + HeldBy(s'.writers, m)
  {
    RunKeepsAccepted(s, run, m);
    NobodyHolds(s.writers, m);
  }

  /**
   A message overtakes the queued ones exactly if the queue is full: with room the writer that has the mutex queues it
   behind them, and the file is not touched.
   */
  lemma QueuedExactlyIfRoom<M>(s: LogState<M>, w: nat)
    requires LogInv(s) && w < |s.writers| && s.writers[w].Locked?
    ensures var m, s1 := s.writers[w].msg, LogApply(s, TestFull(w));
            if |s.queue| < s.capacity then
              && LogEnabled(s1, PushMessage(w)) && LogApply(s1, PushMessage(w)).queue == s.queue + [m]
              && LogApply(s1, PushMessage(w)).file == s.file
            else s1.queue == s.queue && s1.file == s.file + [Direct(m)] && s1.writers[w].Outside?
  {
  }

  lemma LogStepThenRun<M>(s: LogState<M>, a: LogAction<M>, rest: seq<LogAction<M>>)
    requires LogEnabled(s, a) && LogRun(LogApply(s, a), rest)
    ensures LogRun(s, [a] + rest) && LogAfter(s, [a] + rest) == LogAfter(LogApply(s, a), rest)
  {
    assert ([a] + rest)[1..] == rest;
  }

  /** Any writer can bring any message while the log is open; alone, it leaves it behind the queue or in the file. */
  lemma WriteRuns<M>(s: LogState<M>, w: nat, m: M)
    requires LogInv(s) && s.stage == Running && s.holder == -1 && w < |s.writers| && s.writers[w].Outside?
    ensures var push := if |s.queue| < s.capacity then [PushMessage(w)] + [] else [];
            var run := [Arrive(w, m)] + ([Lock(w)] + ([TestFull(w)] + push));
            && LogRun(s, run)
            && var s' := LogAfter(s, run);
               && s'.writers == s.writers && s'.holder == -1
               && (if |s.queue| < s.capacity then s'.queue == s.queue + [m] && s'.file == s.file
                   else s'.queue == s.queue && s'.file == s.file + [Direct(m)])
               && (s'.drain.Waiting? ==> s'.queue == [])
  {
    var s1 := LogApply(s, Arrive(w, m));
    var s2 := LogApply(s1, Lock(w));
    var s3 := LogApply(s2, TestFull(w));
    StepKeepsLogInv(s, Arrive(w, m));
    StepKeepsLogInv(s1, LogAction<M>.Lock(w));
    StepKeepsLogInv(s2, LogAction<M>.TestFull(w));
    assert s.writers[w] == Outside;
    hide LogInv;
    if |s.queue| < s.capacity {
      var s4 := LogApply(s3, PushMessage(w));
      assert s4.writers == s.writers;
      LogStepThenRun(s3, PushMessage(w), []);
      LogStepThenRun(s2, TestFull(w), [PushMessage(w)] + []);
      LogStepThenRun(s1, Lock(w), [TestFull(w)] + ([PushMessage(w)] + []));
      LogStepThenRun(s, Arrive(w, m), [Lock(w)] + ([TestFull(w)] + ([PushMessage(w)] + [])));
    } else {
      assert s3.writers == s.writers;
      LogStepThenRun(s2, TestFull(w), []);
      LogStepThenRun(s1, Lock(w), [TestFull(w)] + []);
      LogStepThenRun(s, Arrive(w, m), [Lock(w)] + ([TestFull(w)] + []));
    }
  }

  // ---------- While the log is open ----------

  /** Steps of writers that are inside `write`, and of the drain thread short of a spurious wake-up. */
  predicate IsWork<M>(a: LogAction<M>) {
    a.Lock? || a.TestFull? || a.PushMessage? || a.DrainTurn? || a.DrainWrite?
  }

  predicate AllWork<M(==)>(run: seq<LogAction<M>>) {
    forall i :: 0 <= i < |run| ==> IsWork(run[i])
  }

  ghost function WriterEffort<M>(w: Writer<M>): nat {
    match w
    case Outside => 0
    case NotFull(_) => 4
    case Locked(_) => 5
    case Wants(_) => 6
  }

  ghost function WritersEffort<M>(writers: seq<Writer<M>>): nat {
    if writers == [] then 0 else WriterEffort(writers[0]) + WritersEffort(writers[1..])
  }

  lemma {:induction false} WritersEffortUpdate<M>(ws: seq<Writer<M>>, i: nat, w: Writer<M>)
    requires i < |ws|
    ensures WritersEffort(ws[i := w]) + WriterEffort(ws[i]) == WritersEffort(ws) + WriterEffort(w)
  {
    if i == 0 {
      assert ws[0 := w][1..] == ws[1..];
    } else {
      assert ws[i := w][1..] == ws[1..][i - 1 := w];
      WritersEffortUpdate(ws[1..], i - 1, w);
    }
  }

  ghost function Backlog<M>(s: LogState<M>): nat {
    WritersEffort(s.writers) + 2 * |s.queue| +
    match s.drain
    case Got(_) => 2
    case Calling(_) => 1
    case _ => 0
  }

  /** Each step of work brings an open log nearer to rest. */
  lemma WorkFalls<M>(s: LogState<M>, a: LogAction<M>)
    requires LogEnabled(s, a) && IsWork(a)
    ensures Backlog(LogApply(s, a)) < Backlog(s) && LogApply(s, a).stage == s.stage
  {
    if !a.DrainTurn? && !a.DrainWrite? {
      WritersEffortUpdate(s.writers, a.w, LogApply(s, a).writers[a.w]);
    }
  }

  lemma {:induction false} WorkIsBounded<M>(s: LogState<M>, run: seq<LogAction<M>>)
    requires LogInv(s) && LogRun(s, run) && AllWork(run)
    ensures |run| <= Backlog(s) && LogAfter(s, run).stage == s.stage && LogInv(LogAfter(s, run))
    ensures Arrivals(run) == []
    decreases |run|
  {
    hide LogInv, Backlog;
    if run != [] {
      assert IsWork(run[0]);
      StepKeepsLogInv(s, run[0]);
      WorkFalls(s, run[0]);
      WorkIsBounded(LogApply(s, run[0]), run[1..]);
    }
  }

  /** At rest no writer is inside, nothing is queued, and the drain thread waits. */
  lemma RestMeansWritten<M>(s: LogState<M>)
    requires LogInv(s) && s.stage == Running
    requires forall a: LogAction<M> :: IsWork(a) ==> !LogEnabled(s, a)
    ensures s.queue == [] && s.drain.Waiting? && forall w :: 0 <= w < |s.writers| ==> s.writers[w].Outside?
  {
    if s.holder >= 0 {
      HolderNeverBlocks(s, s.holder);
    }
    forall w | 0 <= w < |s.writers| ensures s.writers[w].Outside? {
      assert !LogEnabled(s, LogAction<M>.Lock(w));
    }
    assert !LogEnabled(s, LogAction<M>.DrainTurn) && !LogEnabled(s, LogAction<M>.DrainWrite);
  }

  lemma NothingElsewhere<M(!new)>(s: LogState<M>)
    requires NothingLost(s) && s.queue == [] && !s.drain.Got?
    ensures QueuedIn(s.file) == s.enqueued && DirectIn(s.file) == s.written
    ensures Permutation(Messages(s.file), s.enqueued + s.written)
  {
    assert s.enqueued == QueuedIn(s.file);
    forall m: M ensures Count(Messages(s.file), m) == Count(s.enqueued + s.written, m) {
      MessagesSplit(s.file, m);
      CountConcat(s.enqueued, s.written, m);
    }
  }

  /**
   An open log, in either text, writes everything it is given: from any point of any run, work without new messages
   comes to rest after a bounded number of steps, and then the file holds each message brought so far exactly once.
   */
  lemma OpenLogWritesAll<M(!new)>(s: LogState<M>, before: seq<LogAction<M>>, work: seq<LogAction<M>>)
    requires LogInitial(s) && LogRun(s, before) && LogAfter(s, before).stage == Running
    requires LogRun(LogAfter(s, before), work) && AllWork(work)
    ensures |work| <= Backlog(LogAfter(s, before))
    ensures var s' := LogAfter(LogAfter(s, before), work);
            (forall a: LogAction<M> :: IsWork(a) ==> !LogEnabled(s', a)) ==>
              Permutation(Messages(s'.file), Arrivals(before))
  {
    var mid := LogAfter(s, before);
    var s' := LogAfter(mid, work);
    LogRunKeepsInv(s, before);
    WorkIsBounded(mid, work);
    if forall a: LogAction<M> :: IsWork(a) ==> !LogEnabled(s', a) {
      RestMeansWritten(s');
      NothingElsewhere(s');
      forall m: M ensures Count(Messages(s'.file), m) == Count(Arrivals(before), m) {
        EveryMessageIsAccepted(s, before, m);
        RunKeepsAccepted(mid, work, m);
        NobodyHolds(s'.writers, m);
        CountConcat(s'.enqueued, s'.written, m);
        assert Count(Messages(s'.file), m) == Count(s'.enqueued + s'.written, m);
      }
    }
  }

  // ---------- Shutdown ----------

  /** What the drain thread still has to do after `close`. */
  function DrainWork<M>(d: Drain<M>): nat {
    match d
    case Got(_) => 2
    case Calling(_) => 1
    case Waiting => 2
    case Gone => 0
  }

  /**
   With the flag tested before the wait, every step after the notification brings the drain thread nearer its end, and
   one is always possible.
   */
  lemma JoinReturns<M>(s: LogState<M>)
    requires LogInv(s) && s.mode == TestedFirst && s.stage == Notified
    ensures forall a: LogAction<M> :: LogEnabled(s, a) ==> DrainWork(LogApply(s, a).drain) < DrainWork(s.drain)
    ensures !s.drain.Gone? ==> LogEnabled(s, DrainTurn) || LogEnabled(s, DrainWrite)
  {
  }

  /** When the drain thread has gone, every accepted message is in the file exactly once. */
  lemma FileIsComplete<M(!new)>(s: LogState<M>)
    requires LogInv(s) && s.drain.Gone?
    ensures QueuedIn(s.file) == s.enqueued && DirectIn(s.file) == s.written
    ensures Permutation(Messages(s.file), s.enqueued + s.written)
  {
    NothingElsewhere(s);
  }

  lemma {:induction false} NotifiedDrainIsBounded<M>(s: LogState<M>, run: seq<LogAction<M>>)
    requires LogInv(s) && s.mode == TestedFirst && s.stage == Notified && LogRun(s, run)
    ensures LogInv(LogAfter(s, run)) && LogAfter(s, run).mode == TestedFirst && LogAfter(s, run).stage == Notified
    ensures |run| <= DrainWork(s.drain)
    decreases |run|
  {
    if run != [] {
      JoinReturns(s);
      StepKeepsLogInv(s, run[0]);
      NotifiedDrainIsBounded(LogApply(s, run[0]), run[1..]);
    }
  }

  /**
   The whole shutdown with the repaired queue: after the notification every continuation takes at most two steps,
   and one that cannot go on has let join return with every accepted message in the file exactly once.
   */
  lemma LogShutdownCompletes<M(!new)>(s: LogState<M>, before: seq<LogAction<M>>, after: seq<LogAction<M>>)
    requires LogInitial(s) && s.mode == TestedFirst && LogRun(s, before)
    requires LogAfter(s, before).stage == Notified && LogRun(LogAfter(s, before), after)
    ensures |after| <= 2
    ensures var s' := LogAfter(LogAfter(s, before), after);
            (forall a: LogAction<M> :: !LogEnabled(s', a)) ==>
              && s'.drain.Gone? && QueuedIn(s'.file) == s'.enqueued
              && Permutation(Messages(s'.file), s'.enqueued + s'.written)
  {
    LogRunKeepsInv(s, before);
    ModeStays(s, before);
    NotifiedDrainIsBounded(LogAfter(s, before), after);
    var s' := LogAfter(LogAfter(s, before), after);
    if forall a: LogAction<M> :: !LogEnabled(s', a) {
      JoinReturns(s');
      FileIsComplete(s');
    }
  }

  lemma {:induction false} ModeStays<M>(s: LogState<M>, run: seq<LogAction<M>>)
    requires LogRun(s, run)
    ensures LogAfter(s, run).mode == s.mode
    decreases |run|
  {
    if run != [] {
      ModeStays(LogApply(s, run[0]), run[1..]);
    }
  }

  /** In every run that ends with the drain thread gone, the file holds exactly the messages that were brought. */
  lemma FileHoldsAllArrivals<M(!new)>(s: LogState<M>, run: seq<LogAction<M>>)
    requires LogInitial(s) && LogRun(s, run) && LogAfter(s, run).drain.Gone?
    ensures Permutation(Messages(LogAfter(s, run).file), Arrivals(run))
  {
    var s' := LogAfter(s, run);
    LogRunKeepsInv(s, run);
    FileIsComplete(s');
    forall m: M ensures Count(Messages(s'.file), m) == Count(Arrivals(run), m) {
      EveryMessageIsAccepted(s, run, m);
      NobodyHolds(s'.writers, m);
      CountConcat(s'.enqueued, s'.written, m);
      assert Count(Messages(s'.file), m) == Count(s'.enqueued + s'.written, m);
    }
  }

  function Messages<M>(file: seq<Line<M>>): seq<M> {
    if file == [] then [] else Messages(file[..|file| - 1]) + [file[|file| - 1].msg]
  }

  lemma {:induction false} MessagesSplit<M>(file: seq<Line<M>>, m: M)
    ensures Count(Messages(file), m) == Count(QueuedIn(file), m) + Count(DirectIn(file), m)
    decreases |file|
  {
    if file != [] {
      var rest, l := file[..|file| - 1], file[|file| - 1];
      MessagesSplit(rest, m);
      CountConcat(Messages(rest), [l.msg], m);
      CountConcat(QueuedIn(rest), [l.msg], m);
      CountConcat(DirectIn(rest), [l.msg], m);
    }
  }

  /** No spurious wake-up, and no flush. */
  predicate Undisturbed<M(==)>(run: seq<LogAction<M>>) {
    forall i :: 0 <= i < |run| ==> !run[i].WakeDrain?
  }

  lemma {:induction false} DrainNeverEnds<M>(s: LogState<M>, run: seq<LogAction<M>>)
    requires LogInv(s) && s.mode == AsWritten && s.stage == Notified && LogRun(s, run) && Undisturbed(run)
    requires !s.drain.Gone? && s.drain != Calling(true)
    ensures !LogAfter(s, run).drain.Gone?
    decreases |run|
  {
    if run != [] {
      var s' := LogApply(s, run[0]);
      StepKeepsLogInv(s, run[0]);
      assert run[0].DrainTurn? || run[0].DrainWrite? by {
        assert !run[0].WakeDrain?;
      }
      assert s'.mode == AsWritten && s'.stage == Notified && s'.drain != Calling(true) && !s'.drain.Gone?;
      DrainNeverEnds(s', run[1..]);
    }
  }

  /**
   As written the drain thread can end after `close`, undisturbed, exactly if the notification finds it inside its
   wait or on its way out of it.  If it holds a message, or is on its way to pop, its next pop waits with nobody left
   to wake it, and join hangs.
   */
  lemma AsWrittenDrainEndsIffWaiting<M>(s: LogState<M>)
    requires LogInv(s) && s.mode == AsWritten && s.stage == Flagged && !s.drain.Gone?
    ensures var s' := LogApply(s, LogAction<M>.Notify);
            (exists run :: LogRun(s', run) && Undisturbed(run) && LogAfter(s', run).drain.Gone?)
              <==> s.drain.Waiting? || s.drain == Calling(true)
  {
    var s' := LogApply(s, LogAction<M>.Notify);
    StepKeepsLogInv(s, LogAction<M>.Notify);
    if s.drain.Waiting? || s.drain == Calling(true) {
      var run: seq<LogAction<M>> := [DrainTurn];
      assert run[1..] == [] && LogEnabled(s', run[0]) && LogApply(s', run[0]).drain == Gone;
      assert LogRun(s', run) && Undisturbed(run) && LogAfter(s', run).drain.Gone?;
    } else {
      forall run | LogRun(s', run) && Undisturbed(run) ensures !LogAfter(s', run).drain.Gone? {
        DrainNeverEnds(s', run);
      }
    }
  }

  lemma AsWrittenJoinHangs<M>(s: LogState<M>, a: LogAction<M>)
    requires LogInv(s) && s.mode == AsWritten && s.stage == Notified && s.drain.Waiting?
    ensures LogEnabled(s, a) <==> a == WakeDrain
  {
  }

  // ---------- The queue inside the log ----------

  function DrainPlace<M>(d: Drain<M>): Place {
    if d.Waiting? then Asleep else if d == Calling(true) then Woken else Idle
  }

  function PhaseOf(stage: Stage): Phase {
    match stage
    case Running => Open
    case Flagged => FlagSet
    case Notified => AllNotified
  }

  /** The queue of `BlockQueueProtocol` that a state of the log stands for; `item` is the last message pushed. */
  function QueueOf<M>(s: LogState<M>, item: M): State<M> {
    State(s.mode, s.capacity, s.queue, PhaseOf(s.stage), [Idle], [item], [DrainPlace(s.drain)], [false],
          s.enqueued, QueuedIn(s.file) + InHand(s.drain))
  }

  /** What an action of the log does to its queue. */
  function QueueRun<M(==)>(s: LogState<M>, a: LogAction<M>): seq<Action<M>>
    requires LogEnabled(s, a)
  {
    match a
    case PushMessage(w) => [PushCall(0, s.writers[w].msg, if s.drain.Waiting? then One(0) else Nobody)]
    case DrainTurn => if s.drain.woken then [PopResume(0, Nobody)] else [PopCall(0, false, Nobody)]
    case WakeDrain => [Flush(One(0))]
    case Flag => [SetClosed]
    case Notify => [NotifyConsumers, NotifyProducers]
    case _ => []
  }

  function LastItem<M(==)>(s: LogState<M>, a: LogAction<M>, item: M): M
    requires LogEnabled(s, a)
  {
    if a.PushMessage? then s.writers[a.w].msg else item
  }

  lemma OneQueueStep<M>(q: State<M>, a: Action<M>)
    requires WellFormed(q) && Enabled(q, a)
    ensures ValidRun(q, [a]) && After(q, [a]) == Apply(q, a)
  {
    assert [a][1..] == [];
  }

  lemma PushIsQueueStep<M>(s: LogState<M>, w: nat, item: M)
    requires s.capacity > 0 && LogEnabled(s, PushMessage(w))
    ensures var a: LogAction<M> := PushMessage(w);
            && Enabled(QueueOf(s, item), QueueRun(s, a)[0])
            && Apply(QueueOf(s, item), QueueRun(s, a)[0]) == QueueOf(LogApply(s, a), LastItem(s, a, item))
  {
  }

  lemma DrainTurnIsQueueStep<M>(s: LogState<M>, item: M)
    requires s.capacity > 0 && s.drain.Calling?
    ensures var a := LogAction<M>.DrainTurn;
            && Enabled(QueueOf(s, item), QueueRun(s, a)[0])
            && Apply(QueueOf(s, item), QueueRun(s, a)[0]) == QueueOf(LogApply(s, a), item)
  {
    assert QueuedIn(s.file) + [] == QueuedIn(s.file);
  }

  lemma NotifyIsQueueRun<M>(s: LogState<M>, item: M)
    requires s.capacity > 0 && s.stage == Flagged
    ensures var a := LogAction<M>.Notify;
            && ValidRun(QueueOf(s, item), QueueRun(s, a))
            && After(QueueOf(s, item), QueueRun(s, a)) == QueueOf(LogApply(s, a), item)
  {
    var q := QueueOf(s, item);
    var q1 := Apply(q, Action<M>.NotifyConsumers);
    assert [Action<M>.NotifyConsumers, NotifyProducers][1..] == [NotifyProducers];
    OneQueueStep(q1, NotifyProducers);
    assert q1.consumers == [DrainPlace(WokenDrain(s.drain))];
    assert WakeAll(q1.producers) == [Idle];
  }

  /** Every action of the log is a run of the blocking queue, with one producer and one consumer. */
  lemma LogStepIsQueueRun<M>(s: LogState<M>, a: LogAction<M>, item: M)
    requires s.capacity > 0 && LogEnabled(s, a)
    ensures ValidRun(QueueOf(s, item), QueueRun(s, a))
    ensures After(QueueOf(s, item), QueueRun(s, a)) == QueueOf(LogApply(s, a), LastItem(s, a, item))
  {
    match a {
      case PushMessage(w) =>
        PushIsQueueStep(s, w, item);
        OneQueueStep(QueueOf(s, item), QueueRun(s, a)[0]);
      case DrainTurn =>
        DrainTurnIsQueueStep(s, item);
        OneQueueStep(QueueOf(s, item), QueueRun(s, a)[0]);
      case WakeDrain => OneQueueStep(QueueOf(s, item), Flush(One(0)));
      case Flag => OneQueueStep(QueueOf(s, item), SetClosed);
      case Notify => NotifyIsQueueRun(s, item);
      case TestFull(w) => AppendedLine(s.file, Direct(s.writers[w].msg));
      case DrainWrite => AppendedLine(s.file, Queued(s.drain.msg));
      case _ =>
    }
  }

  function QueueRuns<M(==)>(s: LogState<M>, run: seq<LogAction<M>>): seq<Action<M>>
    requires LogRun(s, run)
    decreases |run|
  {
    if run == [] then [] else QueueRun(s, run[0]) + QueueRuns(LogApply(s, run[0]), run[1..])
  }

  lemma {:induction false} QueueRunsJoin<M>(q: State<M>, r1: seq<Action<M>>, r2: seq<Action<M>>)
    requires WellFormed(q) && ValidRun(q, r1) && ValidRun(After(q, r1), r2)
    ensures ValidRun(q, r1 + r2) && After(q, r1 + r2) == After(After(q, r1), r2)
    decreases |r1|
  {
    if r1 == [] {
      assert r1 + r2 == r2;
    } else {
      assert (r1 + r2)[1..] == r1[1..] + r2;
      QueueRunsJoin(Apply(q, r1[0]), r1[1..], r2);
    }
  }

  /** So is every run of the log, and what is proved of the blocking queue holds of the queue inside the log. */
  lemma {:induction false} LogRunIsQueueRun<M>(s: LogState<M>, run: seq<LogAction<M>>, item: M) returns (last: M)
    requires s.capacity > 0 && LogRun(s, run)
    ensures ValidRun(QueueOf(s, item), QueueRuns(s, run))
    ensures After(QueueOf(s, item), QueueRuns(s, run)) == QueueOf(LogAfter(s, run), last)
    decreases |run|
  {
    if run == [] {
      last := item;
    } else {
      LogStepIsQueueRun(s, run[0], item);
      last := LogRunIsQueueRun(LogApply(s, run[0]), run[1..], LastItem(s, run[0], item));
      QueueRunsJoin(QueueOf(s, item), QueueRun(s, run[0]), QueueRuns(LogApply(s, run[0]), run[1..]));
    }
  }

  // ---------- The log object ----------

  /** The log as the source keeps it; each method is one action. */
  class Log<M(==)> {
    const mode: Mode
    const capacity: nat
    var queue: seq<M>
    var holder: int
    var writers: seq<Writer<M>>
    var drain: Drain<M>
    var stage: Stage
    var file: seq<Line<M>>
    ghost var enqueued: seq<M>
    ghost var written: seq<M>

    ghost function View(): LogState<M>
      reads this
    {
      LogState(mode, capacity, queue, holder, writers, drain, stage, file, enqueued, written)
    }

    constructor (mode: Mode, capacity: nat, writerCount: nat)
      requires capacity > 0
      ensures LogInitial(View()) && LogInv(View()) && |writers| == writerCount
    {
      this.mode, this.capacity, queue, holder, stage, file := mode, capacity, [], -1, Running, [];
      writers, drain, enqueued, written := seq(writerCount, _ => Outside), Calling(false), [], [];
    }

    /** The locked part of `write`, from the test to the unlock or to the push. */
    method WriteLocked(w: nat)
      requires LogEnabled(View(), TestFull(w))
      modifies this
      ensures View() == LogApply(old(View()), TestFull(w))
    {
      var msg := writers[w].msg;
      if |queue| < capacity {
        writers := writers[w := NotFull(msg)];
      } else {
        file := file + [Direct(msg)];
        written := written + [msg];
        writers := writers[w := Outside];
        holder := -1;
      }
    }

    /** The push after the test needs no test of its own: the queue still has room. */
    method WritePush(w: nat)
      requires LogInv(View()) && w < |writers| && writers[w].NotFull?
      modifies this
      ensures LogInv(View())
      ensures old(LogEnabled(View(), PushMessage(w))) && View() == LogApply(old(View()), PushMessage(w))
    {
      StepKeepsLogInv(View(), PushMessage(w));
      queue := queue + [writers[w].msg];
      enqueued := enqueued + [writers[w].msg];
      writers := writers[w := Outside];
      holder := -1;
      if drain.Waiting? {
        drain := Calling(true);
      }
    }

    /** pop, once it has the queue's mutex. */
    method PopForDrain()
      requires drain.Calling?
      modifies this
      ensures View() == LogApply(old(View()), LogAction<M>.DrainTurn)
    {
      if mode == AsWritten && drain.woken && stage != Running {
        drain := Gone;
      } else if |queue| > 0 {
        drain := Got(queue[0]);
        queue := queue[1..];
      } else if mode == TestedFirst && stage != Running {
        drain := Gone;
      } else {
        drain := Waiting;
      }
    }

    /** The body of the drain thread's loop. */
    method WriteDrained()
      requires LogEnabled(View(), LogAction<M>.DrainWrite)
      modifies this
      ensures View() == LogApply(old(View()), LogAction<M>.DrainWrite)
    {
      file := file + [Queued(drain.msg)];
      drain := Calling(false);
    }
  }
}
