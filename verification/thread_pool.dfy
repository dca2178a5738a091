/**
 The worker pool: a shared task queue under one mutex, one condition variable, and a destructor that lets
 the workers drain the queue.

 Everything a thread does between taking the mutex and giving it up is one action here, because no other
 thread can look in between.  `notify_one` and `notify_all` come after the unlock and are actions of their own.
 */
module ThreadPoolProtocol {
  import opened Counting

  /** Where a worker stands.  Contending and Woken are about to take the mutex; Woken comes out of `cond.wait`. */
  datatype Worker<T> = Contending | Running(task: T) | Sleeping | Woken | Exited

  /** The destructor sets the flag under the mutex, and notifies all after releasing it. */
  datatype Closing = Open | FlagSet | Notified

  /** The shared state, the workers, the `notify_one` calls still due, and three history variables. */
  datatype State<T> = State(
    queue: seq<T>,
    closing: Closing,
    workers: seq<Worker<T>>,
    pending: nat,
    submitted: seq<T>,
    started: seq<T>,
    finished: seq<T>
  )

  datatype Action<T> =
    | Submit(task: T)          // addTask, under the mutex
    | NotifyOne(woken: nat)    // addTask's notify_one, reaching a sleeper
    | NotifyNobody             // addTask's notify_one with no one asleep
    | WorkerTurn(w: nat)       // one pass through the loop head, from locking to unlock, wait or exit
    | TaskReturns(w: nat)
    | SpuriousWake(w: nat)
    | SetClosed                // destructor, under the mutex
    | NotifyAll                // destructor, after the mutex

  function Initial<T>(n: nat): State<T> {
    State([], Open, seq(n, _ => Contending), 0, [], [], [])
  }

  predicate Enabled<T(==)>(s: State<T>, a: Action<T>) {
    match a
    case Submit(_) => s.closing == Open
    case NotifyOne(w) => s.pending > 0 && w < |s.workers| && s.workers[w] == Sleeping
    case NotifyNobody => s.pending > 0 && Sleeping !in s.workers
    case WorkerTurn(w) => w < |s.workers| && (s.workers[w] == Contending || s.workers[w] == Woken)
    case TaskReturns(w) => w < |s.workers| && s.workers[w].Running?
    case SpuriousWake(w) => w < |s.workers| && s.workers[w] == Sleeping
    case SetClosed => s.closing == Open
    case NotifyAll => s.closing == FlagSet
  }

  function WakeAll<T>(workers: seq<Worker<T>>): seq<Worker<T>> {
    seq(|workers|, i requires 0 <= i < |workers| => if workers[i].Sleeping? then Woken else workers[i])
  }

  function Apply<T(==)>(s: State<T>, a: Action<T>): State<T>
    requires Enabled(s, a)
  {
    match a
    case Submit(t) => s.(queue := s.queue + [t], pending := s.pending + 1, submitted := s.submitted + [t])
    case NotifyOne(w) => s.(pending := s.pending - 1, workers := s.workers[w := Woken])
    case NotifyNobody => s.(pending := s.pending - 1)
    case WorkerTurn(w) =>
      if s.queue != [] then
        s.(queue := s.queue[1..], workers := s.workers[w := Running(s.queue[0])], started := s.started + [s.queue[0]])
      else if s.closing != Open then s.(workers := s.workers[w := Exited])
      else s.(workers := s.workers[w := Sleeping])
    case TaskReturns(w) =>
      s.(workers := s.workers[w := Contending], finished := s.finished + [s.workers[w].task])
    case SpuriousWake(w) => s.(workers := s.workers[w := Woken])
    case SetClosed => s.(closing := FlagSet)
    case NotifyAll => s.(closing := Notified, workers := WakeAll(s.workers))
  }

  /** A run: every action enabled where it is taken. */
  predicate ValidRun<T(==)>(s: State<T>, run: seq<Action<T>>)
    decreases |run|
  {
    run == [] || (Enabled(s, run[0]) && ValidRun(Apply(s, run[0]), run[1..]))
  }

  function After<T(==)>(s: State<T>, run: seq<Action<T>>): State<T>
    requires ValidRun(s, run)
    decreases |run|
  {
    if run == [] then s else After(Apply(s, run[0]), run[1..])
  }

  // ---------- What every step keeps ----------

  /** No lost wake-up: if someone sleeps, every queued task has a woken worker or a notification on its way. */
  ghost predicate NoLostWakeup<T>(s: State<T>) {
    Count(s.workers, Sleeping) > 0 ==> |s.queue| <= Count(s.workers, Woken) + s.pending
  }

  /** Who may sleep, and who may have exited. */
  ghost predicate WakeupInv<T>(s: State<T>) {
    && NoLostWakeup(s)
    && (Count(s.workers, Exited) > 0 ==> s.closing != Open && s.queue == [])
    && (s.closing == Notified ==> Count(s.workers, Sleeping) == 0)
  }

  /** Tasks are taken in FIFO order, and a task that was taken is either still running or finished. */
  ghost predicate TaskInv<T(!new)>(s: State<T>) {
    && s.submitted == s.started + s.queue
    && forall t: T :: Count(s.started, t) == Count(s.finished, t) + Count(s.workers, Running(t))
  }

  ghost predicate Inv<T(!new)>(s: State<T>) {
    WakeupInv(s) && TaskInv(s)
  }

  lemma StepKeepsWakeups<T>(s: State<T>, a: Action<T>)
    requires Enabled(s, a) && WakeupInv(s)
    ensures WakeupInv(Apply(s, a))
  {
    var s' := Apply(s, a);
    if a.NotifyOne? || a.SpuriousWake? || a.WorkerTurn? || a.TaskReturns? {
      var w := if a.NotifyOne? then a.woken else a.w;
      CountUpdate(s.workers, w, s'.workers[w], Woken);
      CountUpdate(s.workers, w, s'.workers[w], Sleeping);
      CountUpdate(s.workers, w, s'.workers[w], Exited);
    } else if a.NotifyNobody? {
      CountedIsIn(s.workers, Sleeping);
    } else if a.NotifyAll? {
      CountedIsIn(s'.workers, Sleeping);
      CountSame(s.workers, s'.workers, Exited);
    }
  }

  lemma StepKeepsTasks<T(!new)>(s: State<T>, a: Action<T>)
    requires Enabled(s, a) && TaskInv(s)
    ensures TaskInv(Apply(s, a))
  {
    var s' := Apply(s, a);
    forall t: T ensures Count(s'.started, t) == Count(s'.finished, t) + Count(s'.workers, Running(t)) {
      match a {
        case NotifyOne(w) => CountUpdate(s.workers, w, Woken, Running(t));
        case WorkerTurn(w) =>
          CountUpdate(s.workers, w, s'.workers[w], Running(t));
          if s.queue != [] {
            CountConcat(s.started, [s.queue[0]], t);
          }
        case TaskReturns(w) =>
          CountUpdate(s.workers, w, Contending, Running(t));
          CountConcat(s.finished, [s.workers[w].task], t);
        case SpuriousWake(w) => CountUpdate(s.workers, w, Woken, Running(t));
        case NotifyAll => CountSame(s.workers, s'.workers, Running(t));
        case _ =>
      }
    }
  }

  lemma StepKeepsInv<T(!new)>(s: State<T>, a: Action<T>)
    requires Inv(s) && Enabled(s, a)
    ensures Inv(Apply(s, a))
  {
    StepKeepsWakeups(s, a);
    StepKeepsTasks(s, a);
  }

  lemma InitialInv<T(!new)>(n: nat)
    ensures Inv(Initial<T>(n))
  {
    var ws := Initial<T>(n).workers;
    CountedIsIn(ws, Exited);
    CountedIsIn(ws, Sleeping);
    forall t: T ensures Count(ws, Running(t)) == 0 {
      CountedIsIn(ws, Running(t));
    }
  }

  lemma {:induction false} RunKeepsInv<T(!new)>(s: State<T>, run: seq<Action<T>>)
    requires Inv(s) && ValidRun(s, run)
    ensures Inv(After(s, run))
    decreases |run|
  {
    if run != [] {
      StepKeepsInv(s, run[0]);
      RunKeepsInv(Apply(s, run[0]), run[1..]);
    }
  }

  /** The tasks a run submits, in order. */
  function Submissions<T(==)>(run: seq<Action<T>>): seq<T> {
    if run == [] then []
    else (if run[0].Submit? then [run[0].task] else []) + Submissions(run[1..])
  }

  lemma {:induction false} SubmittedByRun<T>(s: State<T>, run: seq<Action<T>>)
    requires ValidRun(s, run)
    ensures After(s, run).submitted == s.submitted + Submissions(run)
    decreases |run|
  {
    if run != [] {
      SubmittedByRun(Apply(s, run[0]), run[1..]);
    }
  }

  /** Over all interleavings from the start: FIFO, no task lost or duplicated, and no lost wake-up. */
  lemma EveryRunIsSafe<T(!new)>(n: nat, run: seq<Action<T>>)
    requires ValidRun(Initial(n), run)
    ensures var s := After(Initial(n), run);
            && Submissions(run) == s.submitted == s.started + s.queue
            && (forall t: T :: Count(s.started, t) == Count(s.finished, t) + Count(s.workers, Running(t)))
            && (Count(s.workers, Sleeping) > 0 ==> |s.queue| <= Count(s.workers, Woken) + s.pending)
  {
    InitialInv<T>(n);
    RunKeepsInv(Initial(n), run);
    SubmittedByRun(Initial(n), run);
  }

  /** Tasks submitted once are run by at most one worker at a time, and never again once finished. */
  lemma NoTaskRunsTwice<T(!new)>(s: State<T>, i: nat)
    requires TaskInv(s) && Distinct(s.submitted)
    requires i < |s.workers| && s.workers[i].Running?
    ensures forall j: nat :: j < |s.workers| && j != i ==> s.workers[j] != s.workers[i]
    ensures s.workers[i].task !in s.finished && s.workers[i].task !in s.queue
  {
    var t := s.workers[i].task;
    DistinctCountsOne(s.submitted, t);
    CountConcat(s.started, s.queue, t);
    assert s.workers[i] == Running(t);
    CountedIsIn(s.workers, Running(t));
    CountedIsIn(s.queue, t);
    CountedIsIn(s.finished, t);
    forall j: nat | j < |s.workers| && j != i ensures s.workers[j] != s.workers[i] {
      if s.workers[j] == s.workers[i] {
        TwoSlotsCountTwo(s.workers, if i < j then i else j, if i < j then j else i);
      }
    }
  }

  /** With work queued, the pool is never stuck: a worker can move, or a notification that wakes one is due. */
  lemma QueuedWorkIsPickedUp<T(!new)>(s: State<T>)
    requires Inv(s) && s.queue != [] && s.workers != []
    ensures exists a: Action<T> :: Enabled(s, a) && (a.WorkerTurn? || a.TaskReturns? || a.NotifyOne?)
  {
    var first := s.workers[0];
    CountedIsIn(s.workers, Sleeping);
    CountedIsIn(s.workers, Exited);
    if first == Contending || first == Woken {
      assert Enabled(s, WorkerTurn(0));
    } else if first.Running? {
      assert Enabled(s, TaskReturns(0));
    } else if s.pending > 0 {
      assert Enabled(s, NotifyOne(0));
    } else {
      CountedIsIn(s.workers, Woken);
      var w: nat :| w < |s.workers| && s.workers[w] == Woken;
      assert Enabled(s, WorkerTurn(w));
    }
  }

  // ---------- While the pool is open ----------

  /** Steps of the pool's own threads, and the notifications that addTask still owes. */
  predicate IsWork<T>(a: Action<T>) {
    a.WorkerTurn? || a.TaskReturns? || a.NotifyOne? || a.NotifyNobody?
  }

  predicate AllWork<T>(run: seq<Action<T>>) {
    forall i :: 0 <= i < |run| ==> IsWork(run[i])
  }

  ghost function AwakeWeight<T>(w: Worker<T>): nat {
    match w
    case Running(_) => 2
    case Contending => 1
    case Woken => 1
    case _ => 0
  }

  ghost function AwakeEffort<T>(workers: seq<Worker<T>>): nat {
    if workers == [] then 0 else AwakeWeight(workers[0]) + AwakeEffort(workers[1..])
  }

  lemma {:induction false} AwakeEffortUpdate<T>(ws: seq<Worker<T>>, i: nat, w: Worker<T>)
    requires i < |ws|
    ensures AwakeEffort(ws[i := w]) + AwakeWeight(ws[i]) == AwakeEffort(ws) + AwakeWeight(w)
  {
    if i > 0 {
      AwakeEffortUpdate(ws[1..], i - 1, w);
      assert ws[i := w][1..] == ws[1..][i - 1 := w];
    } else {
      assert ws[i := w][1..] == ws[1..];
    }
  }

  ghost function Backlog<T>(s: State<T>): nat {
    3 * |s.queue| + 2 * s.pending + AwakeEffort(s.workers)
  }

  /** Each step of work brings an open pool nearer to rest. */
  lemma WorkFalls<T(!new)>(s: State<T>, a: Action<T>)
    requires Enabled(s, a) && IsWork(a) && s.closing == Open
    ensures Backlog(Apply(s, a)) < Backlog(s) && Apply(s, a).closing == Open
    ensures Apply(s, a).submitted == s.submitted
  {
    var s' := Apply(s, a);
    if !a.NotifyNobody? {
      var w := if a.NotifyOne? then a.woken else a.w;
      AwakeEffortUpdate(s.workers, w, s'.workers[w]);
    }
  }

  /** At rest everybody sleeps, and everything submitted has been run. */
  lemma RestMeansServed<T(!new)>(s: State<T>)
    requires Inv(s) && s.closing == Open && s.workers != []
    requires forall a: Action<T> :: IsWork(a) ==> !Enabled(s, a)
    ensures s.queue == [] && s.started == s.submitted && Permutation(s.finished, s.submitted)
  {
    forall w | 0 <= w < |s.workers| ensures s.workers[w] == Sleeping {
      assert !Enabled(s, WorkerTurn(w)) && !Enabled(s, TaskReturns(w));
      assert s.workers[w] in s.workers;
      CountedIsIn(s.workers, Exited);
    }
    assert s.workers[0] == Sleeping;
    assert !Enabled(s, NotifyOne(0));
    CountedIsIn(s.workers, Sleeping);
    CountedIsIn(s.workers, Woken);
    assert s.queue == [];
    assert s.started + [] == s.submitted;
    forall t: T ensures Count(s.finished, t) == Count(s.submitted, t) {
      CountedIsIn(s.workers, Running(t));
      assert s.started == s.submitted;
    }
  }

  lemma {:induction false} WorkIsBounded<T(!new)>(s: State<T>, run: seq<Action<T>>)
    requires Inv(s) && s.closing == Open && ValidRun(s, run) && AllWork(run)
    ensures |run| <= Backlog(s) && After(s, run).closing == Open && Inv(After(s, run))
    ensures After(s, run).submitted == s.submitted
    decreases |run|
  {
    if run != [] {
      assert IsWork(run[0]);
      StepKeepsInv(s, run[0]);
      WorkFalls(s, run[0]);
      WorkIsBounded(Apply(s, run[0]), run[1..]);
    }
  }

  /**
   An open pool serves everything it is given: from any point of any run, work without further submissions comes to
   rest after a bounded number of steps, and then each task submitted so far has been run exactly once.
   */
  lemma OpenPoolServesAll<T(!new)>(n: nat, before: seq<Action<T>>, work: seq<Action<T>>)
    requires n > 0 && ValidRun(Initial(n), before) && After(Initial(n), before).closing == Open
    requires ValidRun(After(Initial(n), before), work) && AllWork(work)
    ensures |work| <= Backlog(After(Initial(n), before))
    ensures var s := After(After(Initial(n), before), work);
            (forall a: Action<T> :: IsWork(a) ==> !Enabled(s, a)) ==>
              s.queue == [] && s.started == Submissions(before) && Permutation(s.finished, Submissions(before))
  {
    var s0 := After(Initial(n), before);
    InitialInv<T>(n);
    RunKeepsInv(Initial(n), before);
    SubmittedByRun(Initial(n), before);
    WorkIsBounded(s0, work);
    WorkersStay(Initial(n), before);
    WorkersStay(s0, work);
    var s := After(s0, work);
    assert s.submitted == Submissions(before);
    if forall a: Action<T> :: IsWork(a) ==> !Enabled(s, a) {
      RestMeansServed(s);
    }
  }

  /** An open pool refuses no task, however many are queued, and owes a notification for each. */
  lemma {:induction false} NothingIsRefused<T>(s: State<T>, tasks: seq<T>)
    requires s.closing == Open
    ensures var run := seq(|tasks|, i requires 0 <= i < |tasks| => Submit(tasks[i]));
            && ValidRun(s, run)
            && After(s, run) == s.(queue := s.queue + tasks, pending := s.pending + |tasks|,
                                   submitted := s.submitted + tasks)
    decreases |tasks|
  {
    if tasks == [] {
      assert s.queue + tasks == s.queue && s.submitted + tasks == s.submitted;
    } else {
      var run := seq(|tasks|, i requires 0 <= i < |tasks| => Submit(tasks[i]));
      var rest := tasks[1..];
      NothingIsRefused(Apply(s, run[0]), rest);
      assert run[1..] == seq(|rest|, i requires 0 <= i < |rest| => Submit(rest[i]));
      assert s.queue + tasks == s.queue + [tasks[0]] + rest;
      assert s.submitted + tasks == s.submitted + [tasks[0]] + rest;
    }
  }

  /** A worker of an open pool that wakes with nothing queued goes back to sleep, and nothing has changed. */
  lemma {:induction false} SpuriousWakeIsHarmless<T>(s: State<T>, w: nat)
    requires s.closing == Open && s.queue == [] && w < |s.workers| && s.workers[w] == Sleeping
    ensures var run := [SpuriousWake(w)] + ([WorkerTurn(w)] + []);
            ValidRun(s, run) && After(s, run) == s
  {
    var woken := Apply(s, SpuriousWake(w));
    var asleep := Apply(woken, WorkerTurn(w));
    assert asleep.workers == s.workers;
    assert ValidRun(asleep, []) && After(asleep, []) == asleep;
    assert ValidRun(woken, [WorkerTurn(w)] + []) && After(woken, [WorkerTurn(w)] + []) == asleep;
  }

  // ---------- Shutdown ----------

  ghost function Weight<T>(w: Worker<T>): nat {
    match w
    case Running(_) => 2
    case Exited => 0
    case _ => 1
  }

  ghost function Effort<T>(workers: seq<Worker<T>>): nat {
    if workers == [] then 0 else Weight(workers[0]) + Effort(workers[1..])
  }

  lemma {:induction false} EffortUpdate<T>(ws: seq<Worker<T>>, i: nat, w: Worker<T>)
    requires i < |ws|
    ensures Effort(ws[i := w]) + Weight(ws[i]) == Effort(ws) + Weight(w)
  {
    if i > 0 {
      EffortUpdate(ws[1..], i - 1, w);
      assert ws[i := w][1..] == ws[1..][i - 1 := w];
    } else {
      assert ws[i := w][1..] == ws[1..];
    }
  }

  /** The destructor can always run, and takes nothing out of the queue. */
  lemma DestructorRuns<T>(s: State<T>)
    requires s.closing == Open
    ensures var run: seq<Action<T>> := [SetClosed, NotifyAll];
            && ValidRun(s, run) && After(s, run).closing == Notified
            && After(s, run).queue == s.queue && After(s, run).submitted == s.submitted
  {
    var run: seq<Action<T>> := [SetClosed, NotifyAll];
    assert run[1..] == [NotifyAll] && run[1..][1..] == [];
    assert ValidRun(Apply(s, SetClosed), run[1..]);
  }

  /** What is left to do after the destructor's notify_all. */
  ghost function Remaining<T>(s: State<T>): nat {
    2 * |s.queue| + Effort(s.workers) + s.pending
  }

  /** After notify_all nobody sleeps, nobody can fall asleep again, and every step brings the end nearer. */
  lemma ShutdownStepFalls<T(!new)>(s: State<T>, a: Action<T>)
    requires Inv(s) && s.closing == Notified && Enabled(s, a)
    ensures Apply(s, a).closing == Notified && Count(Apply(s, a).workers, Sleeping) == 0
    ensures Remaining(Apply(s, a)) < Remaining(s)
  {
    StepKeepsWakeups(s, a);
    var s' := Apply(s, a);
    if a.WorkerTurn? || a.TaskReturns? {
      EffortUpdate(s.workers, a.w, s'.workers[a.w]);
    } else {
      CountedIsIn(s.workers, Sleeping);
    }
  }

  /** So a shutdown takes a bounded number of steps, if tasks return. */
  lemma {:induction false} ShutdownIsBounded<T(!new)>(s: State<T>, run: seq<Action<T>>)
    requires Inv(s) && s.closing == Notified && ValidRun(s, run)
    ensures |run| <= Remaining(s)
    ensures Count(After(s, run).workers, Sleeping) == 0
    decreases |run|
  {
    if run != [] {
      StepKeepsInv(s, run[0]);
      ShutdownStepFalls(s, run[0]);
      ShutdownIsBounded(Apply(s, run[0]), run[1..]);
    }
  }

  /** It cannot get stuck on the way: until all have exited, each worker that has not can take a step. */
  lemma ShutdownNeverSticks<T(!new)>(s: State<T>, w: nat)
    requires Inv(s) && s.closing == Notified && w < |s.workers| && s.workers[w] != Exited
    ensures Enabled(s, WorkerTurn(w)) || Enabled(s, TaskReturns(w))
  {
    CountedIsIn(s.workers, Sleeping);
  }

  /** When all workers have exited, every submitted task has been run exactly once, taken in FIFO order. */
  lemma ShutdownDrains<T(!new)>(s: State<T>)
    requires Inv(s) && s.workers != [] && forall w :: 0 <= w < |s.workers| ==> s.workers[w] == Exited
    ensures s.queue == [] && s.started == s.submitted
    ensures Permutation(s.finished, s.submitted)
  {
    assert s.workers[0] in s.workers;
    CountedIsIn(s.workers, Exited);
    assert s.started + [] == s.submitted;
    forall t: T ensures Count(s.finished, t) == Count(s.submitted, t) {
      CountedIsIn(s.workers, Running(t));
      assert Running(t) !in s.workers;
      assert s.started == s.submitted;
    }
  }

  /**
   The whole shutdown: any run that goes on after notify_all until no step is left ends with every
   worker gone and every submitted task run exactly once.
   */
  lemma ShutdownCompletes<T(!new)>(n: nat, before: seq<Action<T>>, after: seq<Action<T>>)
    requires n > 0 && ValidRun(Initial(n), before)
    requires After(Initial(n), before).closing == Notified
    requires ValidRun(After(Initial(n), before), after)
    requires forall a: Action<T> :: !Enabled(After(After(Initial(n), before), after), a)
    ensures var s := After(After(Initial(n), before), after);
            && (forall w :: 0 <= w < |s.workers| ==> s.workers[w] == Exited)
            && Permutation(s.finished, s.submitted)
            && s.started == s.submitted == Submissions(before) + Submissions(after)
  {
    var s0 := After(Initial(n), before);
    InitialInv<T>(n);
    RunKeepsInv(Initial(n), before);
    RunKeepsInv(s0, after);
    StaysNotified(s0, after);
    WorkersStay(Initial(n), before);
    WorkersStay(s0, after);
    SubmittedByRun(Initial(n), before);
    SubmittedByRun(s0, after);
    var s := After(s0, after);
    forall w | 0 <= w < |s.workers| ensures s.workers[w] == Exited {
      if s.workers[w] != Exited {
        ShutdownNeverSticks(s, w);
      }
    }
    ShutdownDrains(s);
  }

  lemma {:induction false} StaysNotified<T(!new)>(s: State<T>, run: seq<Action<T>>)
    requires Inv(s) && s.closing == Notified && ValidRun(s, run)
    ensures After(s, run).closing == Notified
    decreases |run|
  {
    if run != [] {
      StepKeepsInv(s, run[0]);
      StaysNotified(Apply(s, run[0]), run[1..]);
    }
  }

  lemma {:induction false} WorkersStay<T>(s: State<T>, run: seq<Action<T>>)
    requires ValidRun(s, run)
    ensures |After(s, run).workers| == |s.workers|
    decreases |run|
  {
    if run != [] {
      WorkersStay(Apply(s, run[0]), run[1..]);
    }
  }

  // ---------- The pool object ----------

  /** The pool as the source keeps it, with every worker's place in its loop.  Each method is one action. */
  class ThreadPool<T(==)> {
    var taskQueue: seq<T>
    var isClosed: bool
    var allNotified: bool
    var workers: seq<Worker<T>>
    var pending: nat
    ghost var submitted: seq<T>
    ghost var started: seq<T>
    ghost var finished: seq<T>

    ghost function View(): State<T>
      reads this
    {
      State(taskQueue, if !isClosed then Open else if allNotified then Notified else FlagSet,
            workers, pending, submitted, started, finished)
    }

    constructor (threadCount: nat)
      requires threadCount > 0
      ensures View() == Initial(threadCount)
    {
      taskQueue, isClosed, allNotified, pending := [], false, false, 0;
      workers := seq(threadCount, _ => Contending);
      submitted, started, finished := [], [], [];
    }

    method AddTask(task: T)
      requires !isClosed
      modifies this
      ensures View() == Apply(old(View()), Submit(task))
    {
      taskQueue := taskQueue + [task];
      pending := pending + 1;
      submitted := submitted + [task];
    }

    /** The condition variable picks any sleeper. */
    method NotifyOne()
      requires pending > 0
      modifies this
      ensures exists a: Action<T> :: (a.NotifyOne? || a.NotifyNobody?) &&
                old(Enabled(View(), a)) && View() == Apply(old(View()), a)
    {
      ghost var a: Action<T> := NotifyNobody;
      pending := pending - 1;
      if Sleeping in workers {
        var w :| 0 <= w < |workers| && workers[w] == Sleeping;
        workers := workers[w := Woken];
        a := Action.NotifyOne(w);
      }
      assert old(Enabled(View(), a)) && View() == Apply(old(View()), a);
    }

    /** From taking the mutex at the loop head to running a task, waiting, or leaving the loop. */
    method WorkerTurn(w: nat)
      requires Enabled(View(), Action.WorkerTurn(w))
      modifies this
      ensures View() == Apply(old(View()), Action.WorkerTurn(w))
    {
      if |taskQueue| > 0 {
        var task := taskQueue[0];
        taskQueue := taskQueue[1..];
        started := started + [task];
        workers := workers[w := Running(task)];
      } else if isClosed {
        workers := workers[w := Exited];
      } else {
        workers := workers[w := Sleeping];
      }
    }

    method TaskReturns(w: nat)
      requires Enabled(View(), Action.TaskReturns(w))
      modifies this
      ensures View() == Apply(old(View()), Action.TaskReturns(w))
    {
      finished := finished + [workers[w].task];
      workers := workers[w := Contending];
    }

    /** First half of the destructor. */
    method SetClosed()
      requires Enabled(View(), Action<T>.SetClosed)
      modifies this
      ensures View() == Apply(old(View()), Action<T>.SetClosed)
    {
      isClosed, allNotified := true, false;
    }

    /** Second half of the destructor. */
    method NotifyAll()
      requires Enabled(View(), Action<T>.NotifyAll)
      modifies this
      ensures View() == Apply(old(View()), Action<T>.NotifyAll)
    {
      var i := 0;
      while i < |workers|
        invariant 0 <= i <= |workers| == |old(workers)|
        invariant forall k :: 0 <= k < i ==> workers[k] == if old(workers)[k].Sleeping? then Woken else old(workers)[k]
        invariant forall k :: i <= k < |workers| ==> workers[k] == old(workers)[k]
        invariant View() == old(View()).(workers := workers)
      {
        if workers[i].Sleeping? {
          workers := workers[i := Woken];
        }
        i := i + 1;
      }
      allNotified := true;
      assert workers == WakeAll(old(workers));
    }
  }
}
