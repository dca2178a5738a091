/**
 The database connection pool: a queue of idle connections under a mutex, and a semaphore that counts them.

 A session is one use of the pool, from `getConn` to `freeConn`.  `getConn` looks at the queue without the
 mutex, waits on the semaphore, and only then takes the mutex and pops.  `freeConn` pushes and posts under the
 mutex; other threads can act on the semaphore in between, so these are two actions.
 */
module SqlConnPoolProtocol {
  import opened Counting

  datatype Session<C> =
    | Outside
    | Checked           // saw a non-empty queue
    | Waited            // past the semaphore, not yet past the mutex
    | Holding(conn: C)
    | Pushed            // in freeConn, holding the mutex, not yet posted

  /** `broken` records a pop from an empty queue, which is undefined behaviour in the source. */
  datatype State<C> = State(idle: seq<C>, sem: nat, sessions: seq<Session<C>>, broken: bool)

  datatype Action = Check(t: nat) | SemWait(t: nat) | Pop(t: nat) | Push(t: nat) | Post(t: nat)

  ghost predicate MutexFree<C>(s: State<C>) {
    Count(s.sessions, Pushed) == 0
  }

  /** `Pop` does not ask for a non-empty queue: that one is there is proved below. */
  ghost predicate Enabled<C>(s: State<C>, a: Action) {
    a.t < |s.sessions| &&
    match a
    case Check(t) => s.sessions[t] == Outside
    case SemWait(t) => s.sessions[t] == Checked && s.sem > 0
    case Pop(t) => s.sessions[t] == Waited && MutexFree(s)
    case Push(t) => s.sessions[t].Holding? && MutexFree(s)
    case Post(t) => s.sessions[t] == Pushed
  }

  ghost function Apply<C>(s: State<C>, a: Action): State<C>
    requires Enabled(s, a)
  {
    match a
    case Check(t) => if s.idle == [] then s else s.(sessions := s.sessions[t := Checked])
    case SemWait(t) => s.(sem := s.sem - 1, sessions := s.sessions[t := Waited])
    case Pop(t) => if s.idle == [] then s.(broken := true) else
      s.(idle := s.idle[1..], sessions := s.sessions[t := Holding(s.idle[0])])
    case Push(t) => s.(idle := s.idle + [s.sessions[t].conn], sessions := s.sessions[t := Pushed])
    case Post(t) => s.(sem := s.sem + 1, sessions := s.sessions[t := Outside])
  }

  /** After `init`, before anybody asks. */
  ghost predicate Initial<C>(s: State<C>, original: seq<C>) {
    && s.idle == original && s.sem == |original| && !s.broken
    && forall t :: 0 <= t < |s.sessions| ==> s.sessions[t] == Outside
  }

  /** Units of the semaphore, in hand or in flight, match the idle connections one for one. */
  ghost predicate UnitsMatch<C>(s: State<C>) {
    s.sem + Count(s.sessions, Waited) + Count(s.sessions, Pushed) == |s.idle|
  }

  /** Idle and lent connections together are the original ones. */
  ghost predicate ConnectionsKept<C(!new)>(s: State<C>, original: seq<C>) {
    forall c: C :: Count(s.idle, c) + Count(s.sessions, Holding(c)) == Count(original, c)
  }

  ghost predicate Inv<C(!new)>(s: State<C>, original: seq<C>) {
    UnitsMatch(s) && ConnectionsKept(s, original) && Count(s.sessions, Pushed) <= 1 && !s.broken
  }

  /** A thread past the semaphore never finds the queue empty. */
  lemma PopFindsAConnection<C>(s: State<C>, t: nat)
    requires UnitsMatch(s) && t < |s.sessions| && s.sessions[t] == Waited
    ensures s.idle != []
  {
    CountedIsIn(s.sessions, Waited);
  }

  lemma StepKeepsInv<C(!new)>(s: State<C>, a: Action, original: seq<C>)
    requires Inv(s, original) && Enabled(s, a)
    ensures Inv(Apply(s, a), original)
  {
    if a.Pop? {
      PopFindsAConnection(s, a.t);
    }
    var s' := Apply(s, a);
    var place := s'.sessions[a.t];
    assert s'.sessions == s.sessions[a.t := place];
    CountUpdate(s.sessions, a.t, place, Waited);
    CountUpdate(s.sessions, a.t, place, Pushed);
    forall c: C ensures Count(s'.idle, c) + Count(s'.sessions, Holding(c)) == Count(original, c) {
      CountUpdate(s.sessions, a.t, place, Holding(c));
      if a.Push? {
        CountConcat(s.idle, [s.sessions[a.t].conn], c);
      }
    }
  }

  ghost predicate ValidRun<C>(s: State<C>, run: seq<Action>)
    decreases |run|
  {
    run == [] || (Enabled(s, run[0]) && ValidRun(Apply(s, run[0]), run[1..]))
  }

  ghost function After<C>(s: State<C>, run: seq<Action>): State<C>
    requires ValidRun(s, run)
    decreases |run|
  {
    if run == [] then s else After(Apply(s, run[0]), run[1..])
  }

  lemma {:induction false} RunKeepsInv<C(!new)>(s: State<C>, run: seq<Action>, original: seq<C>)
    requires Inv(s, original) && ValidRun(s, run)
    ensures Inv(After(s, run), original)
    decreases |run|
  {
    if run != [] {
      StepKeepsInv(s, run[0], original);
      RunKeepsInv(Apply(s, run[0]), run[1..], original);
    }
  }

  /**
   Every interleaving after initialisation: no pop meets an empty queue, the semaphore accounts for every idle
   connection, and no connection is lost or invented.
   */
  lemma EveryRunIsSafe<C(!new)>(s: State<C>, run: seq<Action>, original: seq<C>)
    requires Initial(s, original) && ValidRun(s, run)
    ensures !After(s, run).broken
    ensures UnitsMatch(After(s, run)) && ConnectionsKept(After(s, run), original)
  {
    CountedIsIn(s.sessions, Waited);
    CountedIsIn(s.sessions, Pushed);
    forall c: C ensures Count(s.sessions, Holding(c)) == 0 {
      CountedIsIn(s.sessions, Holding(c));
    }
    RunKeepsInv(s, run, original);
  }

  /** Distinct connections are never lent to two sessions, and a lent one is not idle. */
  lemma NeverLentTwice<C(!new)>(s: State<C>, original: seq<C>, i: nat)
    requires ConnectionsKept(s, original) && Distinct(original)
    requires i < |s.sessions| && s.sessions[i].Holding?
    ensures s.sessions[i].conn in original && s.sessions[i].conn !in s.idle
    ensures forall j: nat :: j < |s.sessions| && j != i && s.sessions[j].Holding? ==>
              s.sessions[j].conn != s.sessions[i].conn
  {
    var c := s.sessions[i].conn;
    assert s.sessions[i] == Holding(c);
    DistinctCountsOne(original, c);
    CountedIsIn(s.sessions, Holding(c));
    CountedIsIn(s.idle, c);
    CountedIsIn(original, c);
    forall j: nat | j < |s.sessions| && j != i && s.sessions[j].Holding?
      ensures s.sessions[j].conn != c
    {
      if s.sessions[j].conn == c {
        TwoSlotsCountTwo(s.sessions, if i < j then i else j, if i < j then j else i);
      }
    }
  }

  /** A session can block on the semaphore, but never with nobody left to release it. */
  lemma WaitersAreReleased<C(!new)>(s: State<C>, original: seq<C>, t: nat)
    requires Inv(s, original) && original != []
    requires t < |s.sessions| && s.sessions[t] == Checked && s.sem == 0
    ensures exists a: Action :: a.t != t && Enabled(s, a) && (a.Pop? || a.Push? || a.Post?)
  {
    CountedIsIn(s.sessions, Waited);
    CountedIsIn(s.sessions, Pushed);
    if Pushed in s.sessions {
      var u: nat :| u < |s.sessions| && s.sessions[u] == Pushed;
      assert Enabled(s, Post(u));
    } else if Waited in s.sessions {
      var u: nat :| u < |s.sessions| && s.sessions[u] == Waited;
      assert Enabled(s, Pop(u));
    } else {
      var c := original[0];
      CountedIsIn(original, c);
      CountedIsIn(s.sessions, Holding(c));
      var u: nat :| u < |s.sessions| && s.sessions[u] == Holding(c);
      assert Enabled(s, Push(u));
    }
  }

  /** A session that asks alone gets the oldest idle connection, and giving it back undoes all but the order. */
  lemma GetAndFreeGoRound<C(!new)>(s: State<C>, original: seq<C>, t: nat)
    requires Inv(s, original) && s.idle != [] && s.sem > 0 && MutexFree(s)
    requires t < |s.sessions| && s.sessions[t] == Outside
    ensures var get := [Check(t)] + ([SemWait(t)] + ([Pop(t)] + []));
            && ValidRun(s, get)
            && After(s, get)
               == s.(idle := s.idle[1..], sem := s.sem - 1, sessions := s.sessions[t := Holding(s.idle[0])])
    ensures var s' := s.(idle := s.idle[1..], sem := s.sem - 1, sessions := s.sessions[t := Holding(s.idle[0])]);
            var free := [Push(t)] + ([Post(t)] + []);
            ValidRun(s', free) && After(s', free) == s.(idle := s.idle[1..] + [s.idle[0]])
  {
    var c := s.idle[0];
    var s1 := s.(sessions := s.sessions[t := Checked]);
    var s2 := s.(sem := s.sem - 1, sessions := s.sessions[t := Waited]);
    var s3 := s.(idle := s.idle[1..], sem := s.sem - 1, sessions := s.sessions[t := Holding(c)]);
    var s4 := s.(idle := s.idle[1..] + [c], sem := s.sem - 1, sessions := s.sessions[t := Pushed]);
    CountUpdate(s.sessions, t, Checked, Pushed);
    CountUpdate(s.sessions, t, Waited, Pushed);
    CountUpdate(s.sessions, t, Holding(c), Pushed);
    assert Apply(s, Check(t)) == s1;
    assert Apply(s1, SemWait(t)) == s2;
    assert Apply(s2, Pop(t)) == s3;
    assert Apply(s3, Push(t)) == s4;
    assert Apply(s4, Post(t)) == s.(idle := s.idle[1..] + [c]) by {
      assert s.sessions[t := Outside] == s.sessions;
    }
    hide Apply, Enabled;
    StepThenRun(s2, Pop(t), []);
    StepThenRun(s1, SemWait(t), [Pop(t)] + []);
    StepThenRun(s, Check(t), [SemWait(t)] + ([Pop(t)] + []));
    StepThenRun(s4, Post(t), []);
    StepThenRun(s3, Push(t), [Post(t)] + []);
  }

  lemma StepThenRun<C>(s: State<C>, a: Action, rest: seq<Action>)
    requires Enabled(s, a) && ValidRun(Apply(s, a), rest)
    ensures ValidRun(s, [a] + rest) && After(s, [a] + rest) == After(Apply(s, a), rest)
  {
    assert ([a] + rest)[1..] == rest;
  }

  /**
   The test that is meant to avoid blocking is not taken under the mutex: with one connection, two sessions can both
   pass it.
   */
  lemma CheckDoesNotPreventBlocking()
    ensures var s := State([7], 1, [Outside, Outside], false);
            var run := [Check(0), Check(1), SemWait(0)];
            && Initial(s, [7]) && ValidRun(s, run)
            && After(s, run).sessions[1] == Checked && After(s, run).sem == 0
  {
  }

  // ---------- The pool object ----------

  /** The pool as the source keeps it, with each session's place in its call.  Each method is one action. */
  class SqlConnPool<C> {
    var connQueue: seq<C>
    var sem: nat
    var sessions: seq<Session<C>>

    ghost function View(): State<C>
      reads this
    {
      State(connQueue, sem, sessions, false)
    }

    /** The semaphore starts at the pool's size, and `init` queues that many connections one by one. */
    constructor (conns: seq<C>, sessionCount: nat)
      ensures Initial(View(), conns) && |sessions| == sessionCount
    {
      sem := |conns|;
      sessions := seq(sessionCount, _ => Outside);
      connQueue := [];
      new;
      var i := 0;
      while i < |conns|
        invariant 0 <= i <= |conns| && connQueue == conns[..i]
        invariant sem == |conns| && sessions == seq(sessionCount, _ => Outside)
      {
        connQueue := connQueue + [conns[i]];
        i := i + 1;
      }
    }

    /** The unguarded test of getConn; false stands for the null pointer it returns. */
    method IsEmptyTest(t: nat) returns (goesOn: bool)
      requires Enabled(View(), Action.Check(t))
      modifies this
      ensures View() == Apply(old(View()), Action.Check(t))
      ensures goesOn <==> old(connQueue) != []
    {
      goesOn := |connQueue| > 0;
      if goesOn {
        sessions := sessions[t := Checked];
      }
    }

    method SemWait(t: nat)
      requires Enabled(View(), Action.SemWait(t))
      modifies this
      ensures View() == Apply(old(View()), Action.SemWait(t))
    {
      sem := sem - 1;
      sessions := sessions[t := Waited];
    }

    method Pop(t: nat) returns (conn: C)
      requires Enabled(View(), Action.Pop(t)) && UnitsMatch(View())
      modifies this
      ensures old(connQueue) != [] && conn == old(connQueue)[0]
      ensures View() == Apply(old(View()), Action.Pop(t))
    {
      PopFindsAConnection(View(), t);
      conn := connQueue[0];
      connQueue := connQueue[1..];
      sessions := sessions[t := Holding(conn)];
    }

    method Push(t: nat)
      requires Enabled(View(), Action.Push(t))
      modifies this
      ensures View() == Apply(old(View()), Action.Push(t))
    {
      connQueue := connQueue + [sessions[t].conn];
      sessions := sessions[t := Pushed];
    }

    method Post(t: nat)
      requires Enabled(View(), Action.Post(t))
      modifies this
      ensures View() == Apply(old(View()), Action.Post(t))
    {
      sem := sem + 1;
      sessions := sessions[t := Outside];
    }
  }
}
