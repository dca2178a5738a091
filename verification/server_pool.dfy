/**
 The server's tasks and the worker pool: the task queue and the busy workers of `ServerProtocol` are those of
 `ThreadPoolProtocol`, seen without their sleeping, waking and notifying.
 */
module ServerPool {
  import S = ServerProtocol
  import P = ThreadPoolProtocol
  import opened Counting

  ghost function Busy(workers: seq<P.Worker<S.Item>>): nat {
    if workers == [] then 0 else (if workers[0].Running? then 1 else 0) + Busy(workers[1..])
  }

  /** The tasks in the workers' hands are those whose handlers still use their connection, and those that leave. */
  ghost predicate SameTasks(s: S.State, workers: seq<P.Worker<S.Item>>) {
    && Busy(workers) == |s.running| + |s.leaving|
    && forall t: S.Item :: Count(workers, P.Running(t)) == Count(s.running, t) + Count(s.leaving, t)
  }

  ghost predicate Linked(s: S.State, p: P.State<S.Item>) {
    p.closing == P.Open && |p.workers| == s.workers && p.queue == s.queue && SameTasks(s, p.workers)
  }

  lemma {:induction false} BusyUpdate(ws: seq<P.Worker<S.Item>>, i: nat, w: P.Worker<S.Item>)
    requires i < |ws|
    ensures Busy(ws[i := w]) + (if ws[i].Running? then 1 else 0) == Busy(ws) + (if w.Running? then 1 else 0)
  {
    if i == 0 {
      assert ws[0 := w][1..] == ws[1..];
    } else {
      assert ws[i := w][1..] == ws[1..][i - 1 := w];
      BusyUpdate(ws[1..], i - 1, w);
    }
  }

  lemma {:induction false} BusyAtMostAll(ws: seq<P.Worker<S.Item>>)
    ensures Busy(ws) <= |ws|
  {
    if ws != [] {
      BusyAtMostAll(ws[1..]);
    }
  }

  lemma {:induction false} IdleWorkerLeavesRoom(ws: seq<P.Worker<S.Item>>, i: nat)
    requires i < |ws| && !ws[i].Running?
    ensures Busy(ws) < |ws|
  {
    if i == 0 {
      BusyAtMostAll(ws[1..]);
    } else {
      IdleWorkerLeavesRoom(ws[1..], i - 1);
    }
  }

  lemma CountRemoveAt(xs: seq<S.Item>, i: nat, t: S.Item)
    requires i < |xs|
    ensures Count(S.RemoveAt(xs, i), t) + (if xs[i] == t then 1 else 0) == Count(xs, t)
  {
    assert xs == xs[..i] + xs[i..] && xs[i..][1..] == xs[i + 1..];
    CountConcat(xs[..i], xs[i..], t);
    CountConcat(xs[..i], xs[i + 1..], t);
  }

  lemma TasksStart(s: S.State, s': S.State, ws: seq<P.Worker<S.Item>>, w: nat, t: S.Item)
    requires SameTasks(s, ws) && w < |ws| && !ws[w].Running?
    requires s'.running == s.running + [t] && s'.leaving == s.leaving
    ensures SameTasks(s', ws[w := P.Running(t)])
  {
    BusyUpdate(ws, w, P.Running(t));
    forall x: S.Item ensures Count(ws[w := P.Running(t)], P.Running(x)) == Count(s'.running, x) + Count(s'.leaving, x) {
      CountUpdate(ws, w, P.Running(t), P.Running(x));
      CountConcat(s.running, [t], x);
    }
  }

  lemma TasksLeave(s: S.State, s': S.State, ws: seq<P.Worker<S.Item>>, i: nat)
    requires SameTasks(s, ws) && i < |s.running|
    requires s'.running == S.RemoveAt(s.running, i) && s'.leaving == s.leaving + [s.running[i]]
    ensures SameTasks(s', ws)
  {
    forall x: S.Item ensures Count(s'.running, x) + Count(s'.leaving, x) == Count(s.running, x) + Count(s.leaving, x) {
      CountRemoveAt(s.running, i, x);
      CountConcat(s.leaving, [s.running[i]], x);
    }
  }

  lemma TasksEnd(s: S.State, s': S.State, ws: seq<P.Worker<S.Item>>, w: nat, i: nat)
    requires SameTasks(s, ws) && w < |ws| && i < |s.leaving| && ws[w] == P.Running(s.leaving[i])
    requires s'.running == s.running && s'.leaving == S.RemoveAt(s.leaving, i)
    ensures SameTasks(s', ws[w := P.Contending])
  {
    BusyUpdate(ws, w, P.Contending);
    forall x: S.Item ensures Count(ws[w := P.Contending], P.Running(x)) == Count(s'.running, x) + Count(s'.leaving, x) {
      CountUpdate(ws, w, P.Contending, P.Running(x));
      CountRemoveAt(s.leaving, i, x);
    }
  }

  lemma TasksStay(s: S.State, s': S.State, ws: seq<P.Worker<S.Item>>, w: nat, place: P.Worker<S.Item>)
    requires SameTasks(s, ws) && w < |ws| && !ws[w].Running? && !place.Running?
    requires s'.running == s.running && s'.leaving == s.leaving
    ensures SameTasks(s', ws[w := place])
  {
    BusyUpdate(ws, w, place);
    forall x: S.Item ensures Count(ws[w := place], P.Running(x)) == Count(ws, P.Running(x)) {
      CountUpdate(ws, w, place, P.Running(x));
    }
  }

  function FirstIndex(xs: seq<S.Item>, t: S.Item): (i: nat)
    requires t in xs
    ensures i < |xs| && xs[i] == t
  {
    if xs[0] == t then 0 else 1 + FirstIndex(xs[1..], t)
  }

  /** What a step of the pool is for the server, if anything. */
  function StepsFor(s: S.State, p: P.State<S.Item>, a: P.Action<S.Item>): seq<S.Action>
    requires P.Enabled(p, a) && (a.TaskReturns? ==> p.workers[a.w].task in s.leaving)
  {
    match a
    case Submit(_) => [S.Handle]
    case WorkerTurn(_) => if p.queue != [] then [S.StartTask] else []
    case TaskReturns(w) => [S.TaskReturns(FirstIndex(s.leaving, p.workers[w].task))]
    case _ => []
  }

  /**
   Every step of the open pool is a step of the server's protocol, or none at all: a task that is submitted is the
   event in the main loop's hands, one that is taken is started, with room for it among the workers, and one that
   returns has left its connection.
   */
  lemma PoolStepIsServerStep(s: S.State, p: P.State<S.Item>, a: P.Action<S.Item>)
    requires Linked(s, p) && P.Enabled(p, a) && !a.SetClosed? && !a.NotifyAll?
    requires a.Submit? ==> s.held != [] && s.held[0] == a.task && a.task.kind != S.HangUp
    requires a.TaskReturns? ==> p.workers[a.w].task in s.leaving
    ensures var steps := StepsFor(s, p, a);
            && (steps != [] ==> S.Enabled(s, steps[0]))
            && Linked(if steps == [] then s else S.Apply(s, steps[0]), P.Apply(p, a))
  {
    hide SameTasks, S.HandleNext;
    match a {
      case Submit(t) =>
        S.HandledShape(s);
        SameTasksDependsOn(s, S.HandleNext(s), p.workers);
      case WorkerTurn(w) =>
        if p.queue != [] {
          RoomForTask(s, p.workers, w);
          TasksStart(s, S.Apply(s, S.StartTask), p.workers, w, p.queue[0]);
        } else {
          TasksStay(s, s, p.workers, w, P.Sleeping);
        }
      case TaskReturns(w) =>
        var i := FirstIndex(s.leaving, p.workers[w].task);
        TasksEnd(s, S.Apply(s, S.TaskReturns(i)), p.workers, w, i);
      case NotifyOne(w) => TasksStay(s, s, p.workers, w, P.Woken);
      case SpuriousWake(w) => TasksStay(s, s, p.workers, w, P.Woken);
      case _ =>
    }
  }

  lemma RoomForTask(s: S.State, ws: seq<P.Worker<S.Item>>, w: nat)
    requires SameTasks(s, ws) && w < |ws| && !ws[w].Running?
    ensures |s.running| + |s.leaving| < |ws|
  {
    IdleWorkerLeavesRoom(ws, w);
  }

  lemma SameTasksDependsOn(s: S.State, s': S.State, ws: seq<P.Worker<S.Item>>)
    requires SameTasks(s, ws) && s'.running == s.running && s'.leaving == s.leaving
    ensures SameTasks(s', ws)
  {
  }

  /** All other steps of the server leave the pool as it is. */
  lemma OtherServerStepsKeepTheLink(s: S.State, p: P.State<S.Item>, a: S.Action)
    requires Linked(s, p) && S.Enabled(s, a) && !a.StartTask? && !a.TaskReturns?
    requires a.Handle? ==> s.held[0].kind == S.HangUp
    ensures Linked(S.Apply(s, a), p)
  {
    hide SameTasks, S.HandleNext;
    var s' := S.Apply(s, a);
    match a {
      case FinishTask(i, outcome) => TasksLeave(s, s', p.workers, i);
      case Handle =>
        S.HandledShape(s);
        SameTasksDependsOn(s, s', p.workers);
      case TimePasses(_) => SameTasksDependsOn(s, s', p.workers);
      case Accept(_) => SameTasksDependsOn(s, s', p.workers);
      case Wait(_) => SameTasksDependsOn(s, s', p.workers);
      case Fire(_) => SameTasksDependsOn(s, s', p.workers);
      case _ => assert false;
    }
  }

  /** So the pool's promise holds for the server: queued work is taken up, as long as handlers return. */
  lemma QueuedEventsAreTakenUp(s: S.State, p: P.State<S.Item>)
    requires Linked(s, p) && P.Inv(p) && s.queue != [] && s.workers > 0
    ensures exists a: P.Action<S.Item> :: P.Enabled(p, a) && (a.WorkerTurn? || a.TaskReturns? || a.NotifyOne?)
    ensures (exists w: nat :: P.Enabled(p, P.WorkerTurn(w))) ==> S.Enabled(s, S.StartTask)
  {
    P.QueuedWorkIsPickedUp(p);
    if w: nat :| P.Enabled(p, P.WorkerTurn(w)) {
      RoomForTask(s, p.workers, w);
    }
  }

  // ---------- Runs of both together ----------

  datatype Joint = Joint(server: S.State, pool: P.State<S.Item>)

  /** A step of the pool, with what it is for the server; or a step of the server that does not concern the pool. */
  datatype JointStep = PoolStep(inPool: P.Action<S.Item>) | ServerStep(inServer: S.Action)

  /** A handler returns when it has let its connection go; an event is submitted by the main loop that holds it. */
  ghost predicate JointEnabled(j: Joint, st: JointStep) {
    match st
    case PoolStep(a) =>
      && P.Enabled(j.pool, a) && !a.SetClosed? && !a.NotifyAll?
      && (a.Submit? ==> j.server.held != [] && j.server.held[0] == a.task && a.task.kind != S.HangUp)
      && (a.TaskReturns? ==> j.pool.workers[a.w].task in j.server.leaving)
    case ServerStep(a) =>
      S.Enabled(j.server, a) && !a.StartTask? && !a.TaskReturns? && (a.Handle? ==> j.server.held[0].kind == S.HangUp)
  }

  /** A server action that is not possible would leave the server where it is, and break the link. */
  ghost function Try(s: S.State, a: S.Action): S.State {
    if S.Enabled(s, a) then S.Apply(s, a) else s
  }

  ghost function JointApply(j: Joint, st: JointStep): Joint
    requires JointEnabled(j, st)
  {
    match st
    case ServerStep(a) => Joint(S.Apply(j.server, a), j.pool)
    case PoolStep(a) =>
      var steps := StepsFor(j.server, j.pool, a);
      Joint(if steps == [] then j.server else Try(j.server, steps[0]), P.Apply(j.pool, a))
  }

  ghost predicate JointRun(j: Joint, run: seq<JointStep>)
    decreases |run|
  {
    run == [] || (JointEnabled(j, run[0]) && JointRun(JointApply(j, run[0]), run[1..]))
  }

  ghost function JointAfter(j: Joint, run: seq<JointStep>): Joint
    requires JointRun(j, run)
    decreases |run|
  {
    if run == [] then j else JointAfter(JointApply(j, run[0]), run[1..])
  }

  lemma JointStepKeepsLink(j: Joint, st: JointStep)
    requires Linked(j.server, j.pool) && P.Inv(j.pool) && JointEnabled(j, st)
    ensures Linked(JointApply(j, st).server, JointApply(j, st).pool) && P.Inv(JointApply(j, st).pool)
  {
    match st {
      case PoolStep(a) =>
        PoolStepIsServerStep(j.server, j.pool, a);
        hide Linked, S.Apply, P.Apply, S.Enabled, StepsFor;
        P.StepKeepsInv(j.pool, a);
      case ServerStep(a) =>
        OtherServerStepsKeepTheLink(j.server, j.pool, a);
    }
  }

  lemma StartIsLinked(timeout: int, workers: nat, now: int)
    ensures Linked(S.Initial(timeout, workers, now), P.Initial(workers)) && P.Inv(P.Initial<S.Item>(workers))
  {
    P.InitialInv<S.Item>(workers);
    var ws := P.Initial<S.Item>(workers).workers;
    NobodyBusy(ws);
    forall t: S.Item ensures Count(ws, P.Running(t)) == 0 {
      CountedIsIn(ws, P.Running(t));
    }
  }

  lemma {:induction false} NobodyBusy(ws: seq<P.Worker<S.Item>>)
    requires forall i :: 0 <= i < |ws| ==> !ws[i].Running?
    ensures Busy(ws) == 0
  {
    if ws != [] {
      NobodyBusy(ws[1..]);
    }
  }

  lemma {:induction false} JointRunKeepsLink(j: Joint, run: seq<JointStep>)
    requires Linked(j.server, j.pool) && P.Inv(j.pool) && JointRun(j, run)
    ensures Linked(JointAfter(j, run).server, JointAfter(j, run).pool) && P.Inv(JointAfter(j, run).pool)
    decreases |run|
  {
    hide Linked, P.Inv, JointApply, JointEnabled;
    if run != [] {
      JointStepKeepsLink(j, run[0]);
      JointRunKeepsLink(JointApply(j, run[0]), run[1..]);
    }
  }

  /**
   Every run of server and pool together, in every interleaving: the server's queue is the pool's, its tasks are
   those in the workers' hands, and no wake-up for them is lost.
   */
  lemma EveryJointRunIsLinked(timeout: int, workers: nat, now: int, run: seq<JointStep>)
    requires JointRun(Joint(S.Initial(timeout, workers, now), P.Initial(workers)), run)
    ensures var j := JointAfter(Joint(S.Initial(timeout, workers, now), P.Initial(workers)), run);
            Linked(j.server, j.pool) && P.NoLostWakeup(j.pool) && j.pool.submitted == j.pool.started + j.server.queue
  {
    StartIsLinked(timeout, workers, now);
    JointRunKeepsLink(Joint(S.Initial(timeout, workers, now), P.Initial(workers)), run);
  }

  /** A worker with a task is never stuck: the handler still has its connection to let go, or it can return. */
  lemma RunningTaskGoesOn(j: Joint, w: nat)
    requires Linked(j.server, j.pool) && w < |j.pool.workers| && j.pool.workers[w].Running?
    ensures JointEnabled(j, PoolStep(P.TaskReturns(w))) || j.pool.workers[w].task in j.server.running
    ensures forall i: nat, outcome :: i < |j.server.running| ==> JointEnabled(j, ServerStep(S.FinishTask(i, outcome)))
  {
    var t := j.pool.workers[w].task;
    assert j.pool.workers[w] == P.Running(t);
    CountedIsIn(j.pool.workers, P.Running(t));
    CountedIsIn(j.server.running, t);
    CountedIsIn(j.server.leaving, t);
  }
}
