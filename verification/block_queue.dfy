/**
 The bounded blocking queue: one mutex, a condition variable for consumers and one for producers.

 As in `ThreadPoolProtocol`, what a thread does while it holds the mutex is one action.  Both `notify_one`
 calls are made with the mutex held, so they belong to the action that pushes or pops.
 */
module BlockQueueProtocol {
  import opened Counting

  /** Where a thread stands: not in a call, inside `wait`, out of `wait` but not yet holding the mutex. */
  datatype Place = Idle | Asleep | Woken | TimedOut

  /** `close` sets the flag under the mutex, then notifies all consumers, then all producers. */
  datatype Phase = Open | FlagSet | ConsumersNotified | AllNotified

  /** AsWritten tests the closed flag after a wait only; TestedFirst tests it before each wait instead. */
  datatype Mode = AsWritten | TestedFirst

  datatype State<T> = State(
    mode: Mode,
    capacity: nat,
    queue: seq<T>,
    phase: Phase,
    producers: seq<Place>,
    items: seq<T>,        // the argument of each producer's current call
    consumers: seq<Place>,
    timed: seq<bool>,     // whether each consumer's current call is popTimeout
    pushed: seq<T>,
    popped: seq<T>
  )

  /** The sleeper a notify_one reaches, if anybody sleeps. */
  datatype Choice = Nobody | One(i: nat)

  datatype Action<T> =
    | PushCall(p: nat, item: T, reach: Choice)
    | PushResume(p: nat, reach: Choice)
    | PopCall(c: nat, withTimeout: bool, reach: Choice)
    | PopResume(c: nat, reach: Choice)
    | Timeout(c: nat)
    | TimeoutReturns(c: nat)
    | SpuriousProducer(p: nat)
    | SpuriousConsumer(c: nat)
    | Flush(reach: Choice)
    | SetClosed
    | NotifyConsumers
    | NotifyProducers

  /** How a critical section of push or pop ends. */
  datatype Outcome = Goes | Refuses | Sleeps

  function PushOutcome<T>(s: State<T>, p: nat): Outcome
    requires p < |s.producers|
  {
    if s.mode == AsWritten && s.producers[p] == Woken && s.phase != Open then Refuses
    else if |s.queue| < s.capacity then Goes
    else if s.mode == TestedFirst && s.phase != Open then Refuses
    else Sleeps
  }

  function PopOutcome<T>(s: State<T>, c: nat): Outcome
    requires c < |s.consumers|
  {
    if s.mode == AsWritten && s.consumers[c] == Woken && s.phase != Open then Refuses
    else if |s.queue| > 0 then Goes
    else if s.mode == TestedFirst && s.phase != Open then Refuses
    else Sleeps
  }

  predicate CanReach(places: seq<Place>, reach: Choice) {
    match reach
    case Nobody => Asleep !in places
    case One(i) => i < |places| && places[i] == Asleep
  }

  function Wake(places: seq<Place>, reach: Choice): seq<Place>
    requires CanReach(places, reach)
  {
    if reach.One? then places[reach.i := Woken] else places
  }

  function WakeAll(places: seq<Place>): seq<Place> {
    seq(|places|, i requires 0 <= i < |places| => if places[i] == Asleep then Woken else places[i])
  }

  predicate WellFormed<T>(s: State<T>) {
    |s.items| == |s.producers| && |s.timed| == |s.consumers| && s.capacity > 0
  }

  predicate Enabled<T>(s: State<T>, a: Action<T>)
    requires WellFormed(s)
  {
    match a
    case PushCall(p, _, r) =>
      p < |s.producers| && s.producers[p] == Idle && (PushOutcome(s, p) == Goes ==> CanReach(s.consumers, r))
    case PushResume(p, r) =>
      p < |s.producers| && s.producers[p] == Woken && (PushOutcome(s, p) == Goes ==> CanReach(s.consumers, r))
    case PopCall(c, _, r) =>
      c < |s.consumers| && s.consumers[c] == Idle && (PopOutcome(s, c) == Goes ==> CanReach(s.producers, r))
    case PopResume(c, r) =>
      c < |s.consumers| && s.consumers[c] == Woken && (PopOutcome(s, c) == Goes ==> CanReach(s.producers, r))
    case Timeout(c) => c < |s.consumers| && s.consumers[c] == Asleep && s.timed[c]
    case TimeoutReturns(c) => c < |s.consumers| && s.consumers[c] == TimedOut
    case SpuriousProducer(p) => p < |s.producers| && s.producers[p] == Asleep
    case SpuriousConsumer(c) => c < |s.consumers| && s.consumers[c] == Asleep
    case Flush(r) => CanReach(s.consumers, r)
    case SetClosed => s.phase == Open
    case NotifyConsumers => s.phase == FlagSet
    case NotifyProducers => s.phase == ConsumersNotified
  }

  function PushTurn<T>(s: State<T>, p: nat, reach: Choice): State<T>
    requires WellFormed(s) && p < |s.producers| && (PushOutcome(s, p) == Goes ==> CanReach(s.consumers, reach))
  {
    match PushOutcome(s, p)
    case Goes => s.(queue := s.queue + [s.items[p]], pushed := s.pushed + [s.items[p]],
                    producers := s.producers[p := Idle], consumers := Wake(s.consumers, reach))
    case Refuses => s.(producers := s.producers[p := Idle])
    case Sleeps => s.(producers := s.producers[p := Asleep])
  }

  function PopTurn<T>(s: State<T>, c: nat, reach: Choice): State<T>
    requires WellFormed(s) && c < |s.consumers| && (PopOutcome(s, c) == Goes ==> CanReach(s.producers, reach))
  {
    match PopOutcome(s, c)
    case Goes => s.(queue := s.queue[1..], popped := s.popped + [s.queue[0]],
                    consumers := s.consumers[c := Idle], producers := Wake(s.producers, reach))
    case Refuses => s.(consumers := s.consumers[c := Idle])
    case Sleeps => s.(consumers := s.consumers[c := Asleep])
  }

  function Apply<T>(s: State<T>, a: Action<T>): (s': State<T>)
    requires WellFormed(s) && Enabled(s, a)
    ensures WellFormed(s') && s'.mode == s.mode && s'.capacity == s.capacity
    ensures |s'.consumers| == |s.consumers| && |s'.producers| == |s.producers|
  {
    match a
    case PushCall(p, item, r) => PushTurn(s.(items := s.items[p := item]), p, r)
    case PushResume(p, r) => PushTurn(s, p, r)
    case PopCall(c, t, r) => PopTurn(s.(timed := s.timed[c := t]), c, r)
    case PopResume(c, r) => PopTurn(s, c, r)
    case Timeout(c) => s.(consumers := s.consumers[c := TimedOut])
    case TimeoutReturns(c) => s.(consumers := s.consumers[c := Idle])
    case SpuriousProducer(p) => s.(producers := s.producers[p := Woken])
    case SpuriousConsumer(c) => s.(consumers := s.consumers[c := Woken])
    case Flush(r) => s.(consumers := Wake(s.consumers, r))
    case SetClosed => s.(phase := FlagSet)
    case NotifyConsumers => s.(phase := ConsumersNotified, consumers := WakeAll(s.consumers))
    case NotifyProducers => s.(phase := AllNotified, producers := WakeAll(s.producers))
  }

  predicate ValidRun<T>(s: State<T>, run: seq<Action<T>>)
    requires WellFormed(s)
    decreases |run|
  {
    run == [] || (Enabled(s, run[0]) && ValidRun(Apply(s, run[0]), run[1..]))
  }

  function After<T>(s: State<T>, run: seq<Action<T>>): (s': State<T>)
    requires WellFormed(s) && ValidRun(s, run)
    ensures WellFormed(s') && s'.mode == s.mode && s'.capacity == s.capacity
    ensures |s'.consumers| == |s.consumers| && |s'.producers| == |s.producers|
    decreases |run|
  {
    if run == [] then s else After(Apply(s, run[0]), run[1..])
  }

  /** A fresh queue, with all threads outside.  The items are placeholders until the first call. */
  predicate Initial<T>(s: State<T>) {
    && WellFormed(s) && s.queue == [] && s.phase == Open && s.pushed == [] && s.popped == []
    && (forall i :: 0 <= i < |s.producers| ==> s.producers[i] == Idle)
    && (forall i :: 0 <= i < |s.consumers| ==> s.consumers[i] == Idle)
  }

  // ---------- What every step keeps ----------

  ghost predicate ContentsInv<T>(s: State<T>) {
    s.pushed == s.popped + s.queue && |s.queue| <= s.capacity
  }

  /** A sleeping consumer means all queued items are spoken for by consumers already woken. */
  ghost predicate ConsumersServed<T>(s: State<T>) {
    Count(s.consumers, Asleep) > 0 ==> |s.queue| <= Count(s.consumers, Woken)
  }

  /** A sleeping producer means all free slots are spoken for by producers already woken. */
  ghost predicate ProducersServed<T>(s: State<T>) {
    Count(s.producers, Asleep) > 0 ==> s.capacity - |s.queue| <= Count(s.producers, Woken)
  }

  /** Once notified after the flag was set, nobody is left asleep. */
  ghost predicate AwakeAfterClose<T>(s: State<T>) {
    && (s.phase == ConsumersNotified || s.phase == AllNotified ==> Count(s.consumers, Asleep) == 0)
    && (s.phase == AllNotified ==> Count(s.producers, Asleep) == 0)
  }

  ghost predicate Inv<T>(s: State<T>) {
    && WellFormed(s) && ContentsInv(s) && ConsumersServed(s) && ProducersServed(s)
    && (s.mode == TestedFirst ==> AwakeAfterClose(s))
  }

  lemma CountsAfter(places: seq<Place>, i: nat, place: Place)
    requires i < |places|
    ensures forall x: Place :: Count(places[i := place], x) + (if places[i] == x then 1 else 0)
                            == Count(places, x) + (if place == x then 1 else 0)
  {
    forall x: Place {
      CountUpdate(places, i, place, x);
    }
  }

  lemma CountsAfterWake(places: seq<Place>, reach: Choice)
    requires CanReach(places, reach)
    ensures Count(places, Asleep) > 0 ==>
              && Count(Wake(places, reach), Asleep) == Count(places, Asleep) - 1
              && Count(Wake(places, reach), Woken) == Count(places, Woken) + 1
    ensures Count(places, Asleep) == 0 ==> Wake(places, reach) == places
  {
    CountedIsIn(places, Asleep);
    if reach.One? {
      CountsAfter(places, reach.i, Woken);
    }
  }

  lemma PushTurnKeepsInv<T>(s: State<T>, p: nat, reach: Choice)
    requires Inv(s) && (s.mode == AsWritten ==> s.phase == Open)
    requires p < |s.producers| && (s.producers[p] == Idle || s.producers[p] == Woken)
    requires PushOutcome(s, p) == Goes ==> CanReach(s.consumers, reach)
    ensures Inv(PushTurn(s, p, reach))
  {
    CountsAfter(s.producers, p, PushTurn(s, p, reach).producers[p]);
    if PushOutcome(s, p) == Goes {
      CountsAfterWake(s.consumers, reach);
    }
  }

  lemma PopTurnKeepsInv<T>(s: State<T>, c: nat, reach: Choice)
    requires Inv(s) && (s.mode == AsWritten ==> s.phase == Open)
    requires c < |s.consumers| && (s.consumers[c] == Idle || s.consumers[c] == Woken)
    requires PopOutcome(s, c) == Goes ==> CanReach(s.producers, reach)
    ensures Inv(PopTurn(s, c, reach))
  {
    CountsAfter(s.consumers, c, PopTurn(s, c, reach).consumers[c]);
    if PopOutcome(s, c) == Goes {
      CountsAfterWake(s.producers, reach);
      assert s.queue == [s.queue[0]] + s.queue[1..];
    }
  }

  lemma NotifyAllLeavesNobodyAsleep(places: seq<Place>)
    ensures Count(WakeAll(places), Asleep) == 0
  {
    CountedIsIn(WakeAll(places), Asleep);
  }

  /** Holds of the text as written while the queue is open, and of the repaired text always. */
  lemma StepKeepsInv<T>(s: State<T>, a: Action<T>)
    requires Inv(s) && Enabled(s, a)
    requires s.mode == AsWritten ==> s.phase == Open
    ensures Inv(Apply(s, a))
  {
    match a {
      case PushCall(p, item, r) => PushTurnKeepsInv(s.(items := s.items[p := item]), p, r);
      case PushResume(p, r) => PushTurnKeepsInv(s, p, r);
      case PopCall(c, t, r) => PopTurnKeepsInv(s.(timed := s.timed[c := t]), c, r);
      case PopResume(c, r) => PopTurnKeepsInv(s, c, r);
      case Timeout(c) => CountsAfter(s.consumers, c, TimedOut);
      case TimeoutReturns(c) => CountsAfter(s.consumers, c, Idle);
      case SpuriousProducer(p) => CountsAfter(s.producers, p, Woken);
      case SpuriousConsumer(c) => CountsAfter(s.consumers, c, Woken);
      case Flush(r) => CountsAfterWake(s.consumers, r);
      case NotifyConsumers => NotifyAllLeavesNobodyAsleep(s.consumers);
      case NotifyProducers => NotifyAllLeavesNobodyAsleep(s.producers);
      case SetClosed =>
    }
  }

  lemma InitialInv<T>(s: State<T>)
    requires Initial(s)
    ensures Inv(s)
  {
    CountedIsIn(s.consumers, Asleep);
    CountedIsIn(s.producers, Asleep);
  }

  /** The phase never goes back to Open. */
  lemma {:induction false} OpenWasOpen<T>(s: State<T>, run: seq<Action<T>>)
    requires WellFormed(s) && ValidRun(s, run) && After(s, run).phase == Open
    ensures s.phase == Open
    decreases |run|
  {
    if run != [] {
      OpenWasOpen(Apply(s, run[0]), run[1..]);
    }
  }

  lemma {:induction false} RunKeepsInv<T>(s: State<T>, run: seq<Action<T>>)
    requires Inv(s) && ValidRun(s, run)
    requires s.mode == AsWritten ==> After(s, run).phase == Open
    ensures Inv(After(s, run))
    decreases |run|
  {
    if run != [] {
      if s.mode == AsWritten {
        OpenWasOpen(s, run);
      }
      StepKeepsInv(s, run[0]);
      RunKeepsInv(Apply(s, run[0]), run[1..]);
    }
  }

  /**
   While the queue is open, in either text and every interleaving: FIFO, bounded, and no lost wake-up on either side.
   */
  lemma OpenQueueIsSafe<T>(s: State<T>, run: seq<Action<T>>)
    requires Initial(s) && ValidRun(s, run) && After(s, run).phase == Open
    ensures var s' := After(s, run);
            && s'.pushed == s'.popped + s'.queue && |s'.queue| <= s'.capacity
            && (Asleep in s'.consumers ==> |s'.queue| <= Count(s'.consumers, Woken))
            && (Asleep in s'.producers ==> s'.capacity - |s'.queue| <= Count(s'.producers, Woken))
  {
    InitialInv(s);
    RunKeepsInv(s, run);
    CountedIsIn(After(s, run).consumers, Asleep);
    CountedIsIn(After(s, run).producers, Asleep);
  }

  /** In either text, open or closed, every step keeps the order of items and the bound on the queue. */
  lemma StepKeepsContents<T>(s: State<T>, a: Action<T>)
    requires WellFormed(s) && ContentsInv(s) && Enabled(s, a)
    ensures ContentsInv(Apply(s, a))
  {
    if s.queue != [] {
      assert s.queue == [s.queue[0]] + s.queue[1..];
    }
    match a {
      case PushCall(p, item, r) => TurnsKeepContents(s.(items := s.items[p := item]), p, 0, r);
      case PushResume(p, r) => TurnsKeepContents(s, p, 0, r);
      case PopCall(c, t, r) => TurnsKeepContents(s.(timed := s.timed[c := t]), 0, c, r);
      case PopResume(c, r) => TurnsKeepContents(s, 0, c, r);
      case _ =>
    }
  }

  lemma TurnsKeepContents<T>(s: State<T>, p: nat, c: nat, reach: Choice)
    requires WellFormed(s) && ContentsInv(s)
    ensures p < |s.producers| && (PushOutcome(s, p) == Goes ==> CanReach(s.consumers, reach)) ==>
              ContentsInv(PushTurn(s, p, reach))
    ensures c < |s.consumers| && (PopOutcome(s, c) == Goes ==> CanReach(s.producers, reach)) ==>
              ContentsInv(PopTurn(s, c, reach))
  {
    if s.queue != [] {
      assert s.queue == [s.queue[0]] + s.queue[1..];
    }
  }

  /** So every run is first in, first out and bounded, whatever is closed, times out or wakes up in between. */
  lemma {:induction false} EveryRunIsFifo<T>(s: State<T>, run: seq<Action<T>>)
    requires WellFormed(s) && ContentsInv(s) && ValidRun(s, run)
    ensures After(s, run).pushed == After(s, run).popped + After(s, run).queue
    ensures |After(s, run).queue| <= s.capacity
    decreases |run|
  {
    if run != [] {
      StepKeepsContents(s, run[0]);
      EveryRunIsFifo(Apply(s, run[0]), run[1..]);
    }
  }

  // ---------- What one call does ----------

  /**
   A push adds its item at the end whenever there is room and, in the text as written, the call does not come out of a
   wait into a closed queue.  Without room it waits with its item, but is refused if the queue is closed and the flag
   is tested first, or if it comes out of a wait.
   */
  lemma PushMeans<T>(s: State<T>, a: Action<T>)
    requires WellFormed(s) && Enabled(s, a) && (a.PushCall? || a.PushResume?)
    ensures var s', item := Apply(s, a), if a.PushCall? then a.item else s.items[a.p];
            var room, closed := |s.queue| < s.capacity, s.phase != Open;
            var fails := closed && if s.mode == AsWritten then a.PushResume? else !room;
            && s'.popped == s.popped && s'.phase == s.phase
            && (fails ==> s'.producers[a.p] == Idle && s'.queue == s.queue && s'.pushed == s.pushed)
            && (!fails && room ==>
                  && s'.producers[a.p] == Idle && s'.queue == s.queue + [item] && s'.pushed == s.pushed + [item]
                  && (Asleep in s.consumers ==> a.reach.One? && s'.consumers == s.consumers[a.reach.i := Woken]))
            && (!fails && !room ==>
                  s'.producers[a.p] == Asleep && s'.items[a.p] == item && s'.queue == s.queue && s'.pushed == s.pushed)
  {
  }

  /** A pop hands out the oldest item if there is one, with the same two exceptions; on an empty queue it waits. */
  lemma PopMeans<T>(s: State<T>, a: Action<T>)
    requires WellFormed(s) && Enabled(s, a) && (a.PopCall? || a.PopResume?)
    ensures var s' := Apply(s, a);
            var some, closed := s.queue != [], s.phase != Open;
            var fails := closed && if s.mode == AsWritten then a.PopResume? else !some;
            && s'.pushed == s.pushed && s'.phase == s.phase
            && (fails ==> s'.consumers[a.c] == Idle && s'.queue == s.queue && s'.popped == s.popped)
            && (!fails && some ==>
                  && s'.consumers[a.c] == Idle && [s.queue[0]] + s'.queue == s.queue
                  && s'.popped == s.popped + [s.queue[0]]
                  && (Asleep in s.producers ==> a.reach.One? && s'.producers == s.producers[a.reach.i := Woken]))
            && (!fails && !some ==> s'.consumers[a.c] == Asleep && s'.queue == s.queue && s'.popped == s.popped)
  {
  }

  /** A waiting popTimeout can always end: its timeout may come, and it then returns without an item. */
  lemma TimedCallEnds<T>(s: State<T>, c: nat)
    requires WellFormed(s) && c < |s.consumers| && s.consumers[c] == Asleep && s.timed[c]
    ensures var run: seq<Action<T>> := [Timeout(c)] + ([TimeoutReturns(c)] + []);
            && ValidRun(s, run) && After(s, run) == s.(consumers := s.consumers[c := Idle])
  {
    StepThenRun(Apply(s, Timeout(c)), TimeoutReturns(c), []);
    StepThenRun(s, Timeout(c), [TimeoutReturns(c)] + []);
  }

  /** The items of the pushes called in a run. */
  function Offered<T>(run: seq<Action<T>>): seq<T> {
    if run == [] then [] else (if run[0].PushCall? then [run[0].item] else []) + Offered(run[1..])
  }

  /** How many producers are inside a push with a given item. */
  ghost function Waiting<T>(places: seq<Place>, items: seq<T>, x: T): nat
    requires |places| == |items|
  {
    if places == [] then 0
    else (if places[0] != Idle && items[0] == x then 1 else 0) + Waiting(places[1..], items[1..], x)
  }

  lemma {:induction false} WaitingUpdate<T>(places: seq<Place>, items: seq<T>, i: nat, place: Place, item: T, x: T)
    requires i < |places| == |items|
    ensures Waiting(places[i := place], items[i := item], x) + (if places[i] != Idle && items[i] == x then 1 else 0)
         == Waiting(places, items, x) + (if place != Idle && item == x then 1 else 0)
  {
    if i == 0 {
      assert places[0 := place][1..] == places[1..] && items[0 := item][1..] == items[1..];
    } else {
      assert places[i := place][1..] == places[1..][i - 1 := place];
      assert items[i := item][1..] == items[1..][i - 1 := item];
      WaitingUpdate(places[1..], items[1..], i - 1, place, item, x);
    }
  }

  lemma PlaceUpdate<T>(places: seq<Place>, items: seq<T>, i: nat, place: Place, x: T)
    requires i < |places| == |items|
    ensures Waiting(places[i := place], items, x) + (if places[i] != Idle && items[i] == x then 1 else 0)
         == Waiting(places, items, x) + (if place != Idle && items[i] == x then 1 else 0)
  {
    WaitingUpdate(places, items, i, place, items[i], x);
    assert items[i := items[i]] == items;
  }

  /** How many consumers are inside a call. */
  ghost function Inside(places: seq<Place>): nat {
    if places == [] then 0 else (if places[0] != Idle then 1 else 0) + Inside(places[1..])
  }

  lemma {:induction false} InsideUpdate(places: seq<Place>, i: nat, place: Place)
    requires i < |places|
    ensures Inside(places[i := place]) + (if places[i] != Idle then 1 else 0) ==
            Inside(places) + (if place != Idle then 1 else 0)
  {
    if i == 0 {
      assert places[0 := place][1..] == places[1..];
    } else {
      assert places[i := place][1..] == places[1..][i - 1 := place];
      InsideUpdate(places[1..], i - 1, place);
    }
  }

  lemma PushKeepsOffers<T>(s: State<T>, p: nat, reach: Choice, x: T)
    requires WellFormed(s) && p < |s.producers| && s.phase == Open
    requires PushOutcome(s, p) == Goes ==> CanReach(s.consumers, reach)
    ensures var s' := PushTurn(s, p, reach);
            Count(s'.pushed, x) + Waiting(s'.producers, s'.items, x)
            + (if s.producers[p] != Idle && s.items[p] == x then 1 else 0)
            == Count(s.pushed, x) + Waiting(s.producers, s.items, x) + (if s.items[p] == x then 1 else 0)
  {
    PlaceUpdate(s.producers, s.items, p, PushTurn(s, p, reach).producers[p], x);
    CountConcat(s.pushed, [s.items[p]], x);
  }

  lemma PopKeepsOffers<T>(s: State<T>, c: nat, reach: Choice, x: T)
    requires WellFormed(s) && c < |s.consumers| && (PopOutcome(s, c) == Goes ==> CanReach(s.producers, reach))
    ensures var s' := PopTurn(s, c, reach);
            && s'.pushed == s.pushed && s'.items == s.items
            && Waiting(s'.producers, s'.items, x) == Waiting(s.producers, s.items, x)
  {
    if PopOutcome(s, c) == Goes && reach.One? {
      PlaceUpdate(s.producers, s.items, reach.i, Woken, x);
    }
  }

  /** What one step does to the offers. */
  lemma StepKeepsOffers<T>(s: State<T>, a: Action<T>, x: T)
    requires WellFormed(s) && Enabled(s, a) && Apply(s, a).phase == Open && s.phase == Open
    ensures Count(Apply(s, a).pushed, x) + Waiting(Apply(s, a).producers, Apply(s, a).items, x) ==
            Count(s.pushed, x) + Waiting(s.producers, s.items, x) + (if a.PushCall? && a.item == x then 1 else 0)
  {
    hide PushTurn, PopTurn, Count, Waiting;
    match a {
      case PushCall(p, item, r) =>
        WaitingUpdate(s.producers, s.items, p, Idle, item, x);
        assert s.producers[p := Idle] == s.producers;
        PushKeepsOffers(s.(items := s.items[p := item]), p, r, x);
      case PushResume(p, r) => PushKeepsOffers(s, p, r, x);
      case PopCall(c, t, r) => PopKeepsOffers(s.(timed := s.timed[c := t]), c, r, x);
      case PopResume(c, r) => PopKeepsOffers(s, c, r, x);
      case SpuriousProducer(p) => PlaceUpdate(s.producers, s.items, p, Woken, x);
      case _ =>
    }
  }

  /** And to the calls of pop. */
  lemma StepKeepsCalls<T>(s: State<T>, a: Action<T>)
    requires WellFormed(s) && Enabled(s, a) && Apply(s, a).phase == Open
    ensures |Apply(s, a).popped| + Inside(Apply(s, a).consumers) + (if a.TimeoutReturns? then 1 else 0) ==
            |s.popped| + Inside(s.consumers) + (if a.PopCall? then 1 else 0)
  {
    var s' := Apply(s, a);
    match a {
      case PopCall(c, _, _) => InsideUpdate(s.consumers, c, s'.consumers[c]);
      case PopResume(c, _) => InsideUpdate(s.consumers, c, s'.consumers[c]);
      case Timeout(c) => InsideUpdate(s.consumers, c, TimedOut);
      case TimeoutReturns(c) => InsideUpdate(s.consumers, c, Idle);
      case SpuriousConsumer(c) => InsideUpdate(s.consumers, c, Woken);
      case PushCall(_, _, r) =>
        if s'.consumers != s.consumers {
          InsideUpdate(s.consumers, r.i, Woken);
        }
      case PushResume(_, r) =>
        if s'.consumers != s.consumers {
          InsideUpdate(s.consumers, r.i, Woken);
        }
      case Flush(r) =>
        if s'.consumers != s.consumers {
          InsideUpdate(s.consumers, r.i, Woken);
        }
      case _ =>
    }
  }

  function PopCalls<T>(run: seq<Action<T>>): nat {
    if run == [] then 0 else (if run[0].PopCall? then 1 else 0) + PopCalls(run[1..])
  }

  function TimedOutCalls<T>(run: seq<Action<T>>): nat {
    if run == [] then 0 else (if run[0].TimeoutReturns? then 1 else 0) + TimedOutCalls(run[1..])
  }

  lemma {:induction false} RunKeepsOffers<T>(s: State<T>, run: seq<Action<T>>, x: T)
    requires WellFormed(s) && ValidRun(s, run) && After(s, run).phase == Open
    ensures Count(After(s, run).pushed, x) + Waiting(After(s, run).producers, After(s, run).items, x) ==
            Count(s.pushed, x) + Waiting(s.producers, s.items, x) + Count(Offered(run), x)
    ensures |After(s, run).popped| + Inside(After(s, run).consumers) + TimedOutCalls(run) ==
            |s.popped| + Inside(s.consumers) + PopCalls(run)
    decreases |run|
  {
    if run != [] {
      var s' := Apply(s, run[0]);
      OpenWasOpen(s, run);
      OpenWasOpen(s', run[1..]);
      StepKeepsOffers(s, run[0], x);
      StepKeepsCalls(s, run[0]);
      RunKeepsOffers(s', run[1..], x);
      CountConcat(if run[0].PushCall? then [run[0].item] else [], Offered(run[1..]), x);
    }
  }

  lemma {:induction false} NobodyInside<T>(places: seq<Place>, items: seq<T>, x: T)
    requires |places| == |items| && forall i :: 0 <= i < |places| ==> places[i] == Idle
    ensures Waiting(places, items, x) == 0 && Inside(places) == 0
  {
    if places != [] {
      NobodyInside(places[1..], items[1..], x);
    }
  }

  lemma {:induction false} NobodyInsideCalls(places: seq<Place>)
    requires forall i :: 0 <= i < |places| ==> places[i] == Idle
    ensures Inside(places) == 0
  {
    if places != [] {
      NobodyInsideCalls(places[1..]);
    }
  }

  /**
   While the queue is open no offer is lost, refused or doubled: each item of a push called is in the queue's history
   once, or its producer still waits with it; and each pop called has handed out one item, timed out, or still waits.
   */
  lemma OpenQueueServesEveryCall<T>(s: State<T>, run: seq<Action<T>>, x: T)
    requires Initial(s) && ValidRun(s, run) && After(s, run).phase == Open
    ensures Count(Offered(run), x) ==
            Count(After(s, run).pushed, x) + Waiting(After(s, run).producers, After(s, run).items, x)
    ensures PopCalls(run) == |After(s, run).popped| + Inside(After(s, run).consumers) + TimedOutCalls(run)
  {
    RunKeepsOffers(s, run, x);
    NobodyInside(s.producers, s.items, x);
    NobodyInsideCalls(s.consumers);
  }

  // ---------- Closing ----------

  /** `close` can always run to its end, and takes nothing out of the queue. */
  lemma CloseRuns<T>(s: State<T>)
    requires WellFormed(s) && s.phase == Open
    ensures var run: seq<Action<T>> := [SetClosed] + ([NotifyConsumers] + ([NotifyProducers] + []));
            && ValidRun(s, run) && After(s, run).phase == AllNotified
            && After(s, run).queue == s.queue && After(s, run).popped == s.popped
            && Asleep !in After(s, run).consumers && Asleep !in After(s, run).producers
  {
    var s1 := Apply(s, Action<T>.SetClosed);
    var s2 := Apply(s1, Action<T>.NotifyConsumers);
    StepThenRun(s2, NotifyProducers, []);
    StepThenRun(s1, NotifyConsumers, [NotifyProducers] + []);
    StepThenRun(s, SetClosed, [NotifyConsumers] + ([NotifyProducers] + []));
  }

  /**
   With the flag tested before each wait, `close` leaves nobody asleep, and pop fails only once everything was handed
   out.
   */
  lemma CloseReleasesEveryone<T>(s: State<T>, run: seq<Action<T>>, c: nat, p: nat)
    requires Initial(s) && s.mode == TestedFirst && ValidRun(s, run)
    requires After(s, run).phase == AllNotified
    ensures var s' := After(s, run);
            && Asleep !in s'.consumers && Asleep !in s'.producers
            && (c < |s'.consumers| ==> PopOutcome(s', c) != Sleeps)
            && (p < |s'.producers| ==> PushOutcome(s', p) != Sleeps)
            && (c < |s'.consumers| && PopOutcome(s', c) == Refuses ==> s'.popped == s'.pushed)
  {
    InitialInv(s);
    RunKeepsInv(s, run);
    var s' := After(s, run);
    CountedIsIn(s'.consumers, Asleep);
    CountedIsIn(s'.producers, Asleep);
    assert s'.popped + [] == s'.popped;
  }

  /** The calls of one consumer that empty a closed queue. */
  function DrainRun<T>(n: nat, c: nat): seq<Action<T>> {
    if n == 0 then [] else [PopCall(c, false, Nobody)] + DrainRun(n - 1, c)
  }

  /** After a repaired close a consumer still receives every queued item, in order, without ever waiting. */
  lemma {:induction false} ClosedQueueDrains<T>(s: State<T>, c: nat)
    requires Inv(s) && s.mode == TestedFirst && s.phase == AllNotified
    requires c < |s.consumers| && s.consumers[c] == Idle
    ensures ValidRun(s, DrainRun(|s.queue|, c))
    ensures var s' := After(s, DrainRun(|s.queue|, c));
            s'.popped == s.popped + s.queue && s'.queue == [] && PopOutcome(s', c) == Refuses
    decreases |s.queue|
  {
    CountedIsIn(s.producers, Asleep);
    if s.queue == [] {
      assert s.popped + [] == s.popped;
    } else {
      var a: Action<T> := PopCall(c, false, Nobody);
      StepKeepsInv(s, a);
      var s1 := Apply(s, a);
      ClosedQueueDrains(s1, c);
      var run := DrainRun<T>(|s.queue|, c);
      assert run[0] == a && run[1..] == DrainRun(|s1.queue|, c);
      assert s.popped + s.queue == s1.popped + s1.queue;
    }
  }

  /** As written, a consumer that calls pop on an empty queue after close falls asleep... */
  lemma AsWrittenSleepsAfterClose()
    ensures var s := State(AsWritten, 1, [], Open, [Idle], [0], [Idle], [false], [], []);
            var run := [SetClosed, NotifyConsumers, NotifyProducers, PopCall(0, false, Nobody)];
            Initial(s) && ValidRun(s, run) && After(s, run).consumers[0] == Asleep
  {
  }

  /** ...and stays asleep: only a new push, a flush or a spurious wake-up can reach it. */
  lemma AsWrittenStaysAsleep<T>(s: State<T>, c: nat, a: Action<T>)
    requires WellFormed(s) && s.phase == AllNotified && Enabled(s, a)
    requires c < |s.consumers| && s.consumers[c] == Asleep && !s.timed[c]
    ensures Apply(s, a).consumers[c] != Asleep <==>
              || a == SpuriousConsumer(c)
              || a == Flush(One(c))
              || (a.PushCall? && a.reach == One(c) && PushOutcome(s, a.p) == Goes)
              || (a.PushResume? && a.reach == One(c) && PushOutcome(s, a.p) == Goes)
  {
  }

  /**
   The same for a producer that sleeps on a full queue after close: only a pop that picks it, or a spurious wake-up.
   */
  lemma AsWrittenProducerStaysAsleep<T>(s: State<T>, p: nat, a: Action<T>)
    requires WellFormed(s) && s.phase == AllNotified && Enabled(s, a)
    requires p < |s.producers| && s.producers[p] == Asleep
    ensures Apply(s, a).producers[p] != Asleep <==>
              || a == SpuriousProducer(p)
              || (a.PopCall? && a.reach == One(p) &&
                  PopOutcome(s.(timed := s.timed[a.c := a.withTimeout]), a.c) == Goes)
              || (a.PopResume? && a.reach == One(p) && PopOutcome(s, a.c) == Goes)
  {
  }

  datatype Side = Consumers | Producers

  function PlacesOf<T>(s: State<T>, side: Side): seq<Place> {
    if side == Consumers then s.consumers else s.producers
  }

  /** The notification of close that releases this side has been given. */
  predicate Released<T>(s: State<T>, side: Side) {
    s.phase == AllNotified || (side == Consumers && s.phase == ConsumersNotified)
  }

  /** A call that meets its empty, or its full, queue. */
  predicate MeetsWait<T>(s: State<T>, a: Action<T>, side: Side) {
    if side == Consumers then a.PopCall? && s.queue == [] else a.PushCall? && |s.queue| >= s.capacity
  }

  /**
   As written, once close has released a side and nobody of it sleeps, somebody falls asleep again exactly by calling
   pop on an empty queue, or push on a full one.
   */
  lemma AsWrittenSleepsIff<T>(s: State<T>, a: Action<T>, side: Side)
    requires WellFormed(s) && s.mode == AsWritten && Released(s, side)
    requires Asleep !in PlacesOf(s, side) && Enabled(s, a)
    ensures Asleep in PlacesOf(Apply(s, a), side) <==> MeetsWait(s, a, side)
    ensures Released(Apply(s, a), side)
  {
    if MeetsWait(s, a, side) {
      assert PlacesOf(Apply(s, a), side)[if side == Consumers then a.c else a.p] == Asleep;
    }
  }

  ghost predicate AvoidsWaits<T>(s: State<T>, run: seq<Action<T>>, side: Side)
    requires WellFormed(s) && ValidRun(s, run)
    decreases |run|
  {
    run == [] || (!MeetsWait(s, run[0], side) && AvoidsWaits(Apply(s, run[0]), run[1..], side))
  }

  ghost predicate AwakeAt<T>(s: State<T>, run: seq<Action<T>>, n: nat, side: Side)
    requires WellFormed(s) && n <= |run|
  {
    ValidRun(s, run[..n]) && Asleep !in PlacesOf(After(s, run[..n]), side)
  }

  /** So nobody of a released side sleeps at any point of a run exactly if none of its calls meets its wait. */
  lemma {:induction false} AsWrittenStaysAwakeIff<T>(s: State<T>, run: seq<Action<T>>, side: Side)
    requires WellFormed(s) && s.mode == AsWritten && Released(s, side)
    requires Asleep !in PlacesOf(s, side) && ValidRun(s, run)
    ensures AvoidsWaits(s, run, side) <==> forall n :: 0 <= n <= |run| ==> AwakeAt(s, run, n, side)
    decreases |run|
  {
    if run != [] {
      var s' := Apply(s, run[0]);
      AsWrittenSleepsIff(s, run[0], side);
      var awake := Asleep !in PlacesOf(s', side);
      forall n | 1 <= n <= |run| ensures AwakeAt(s, run, n, side) <==> AwakeAt(s', run[1..], n - 1, side) {
        PrefixIsValid(s, run, n);
        PrefixIsValid(s', run[1..], n - 1);
        assert run[..n][1..] == run[1..][..n - 1];
      }
      assert AwakeAt(s', run[1..], 0, side) <==> awake;
      if awake {
        AsWrittenStaysAwakeIff(s', run[1..], side);
      }
      if forall n :: 0 <= n <= |run| ==> AwakeAt(s, run, n, side) {
        assert AwakeAt(s, run, 1, side);
        forall n | 0 <= n < |run| ensures AwakeAt(s', run[1..], n, side) {
          assert AwakeAt(s, run, n + 1, side);
        }
      }
    }
  }

  /**
   As written, from the notify_all of close that is meant for a side, whoever slept before: nobody of that side sleeps
   at any point of the run that follows exactly if none of its calls meets an empty, or a full, queue.
   */
  lemma AsWrittenNobodySleepsIff<T>(s: State<T>, run: seq<Action<T>>, side: Side)
    requires WellFormed(s) && s.mode == AsWritten
    requires s.phase == if side == Consumers then FlagSet else ConsumersNotified
    requires ValidRun(Apply(s, if side == Consumers then NotifyConsumers else NotifyProducers), run)
    ensures var s1 := Apply(s, if side == Consumers then NotifyConsumers else NotifyProducers);
            AvoidsWaits(s1, run, side) <==> forall n :: 0 <= n <= |run| ==> AwakeAt(s1, run, n, side)
  {
    AsWrittenStaysAwakeIff(Apply(s, if side == Consumers then NotifyConsumers else NotifyProducers), run, side);
  }

  /**
   The two notifications are not one: a pop between them sleeps for good, though nobody calls anything after close.
   */
  lemma AsWrittenPopBetweenNotifications()
    ensures var s := State(AsWritten, 1, [], Open, [Idle], [0], [Idle], [false], [], []);
            var run := [SetClosed, NotifyConsumers, PopCall(0, false, Nobody), NotifyProducers];
            && Initial(s) && ValidRun(s, run)
            && After(s, run).phase == AllNotified && After(s, run).consumers[0] == Asleep
  {
  }

  lemma {:induction false} PrefixIsValid<T>(s: State<T>, run: seq<Action<T>>, n: nat)
    requires WellFormed(s) && ValidRun(s, run) && n <= |run|
    ensures ValidRun(s, run[..n])
    decreases n
  {
    if n > 0 {
      PrefixIsValid(Apply(s, run[0]), run[1..], n - 1);
      assert run[..n][1..] == run[1..][..n - 1];
    }
  }

  /**
   After close, as written, a pop on a queue that still has items hands one out exactly if it is a new call, not one
   coming out of a wait.
   */
  lemma AsWrittenAbandonsIff<T>(s: State<T>, a: Action<T>)
    requires WellFormed(s) && s.mode == AsWritten && s.phase != Open && s.queue != []
    requires Enabled(s, a) && (a.PopCall? || a.PopResume?)
    ensures Apply(s, a).popped == s.popped + [s.queue[0]] <==> a.PopCall?
    ensures a.PopResume? ==> Apply(s, a).queue == s.queue && Apply(s, a).consumers[a.c] == Idle
  {
    assert |s.popped + [s.queue[0]]| > |s.popped|;
  }

  // ---------- Operations outside the protocol ----------

  /** `clear` empties the queue and notifies no one. */
  function Clear<T>(s: State<T>): State<T> {
    s.(queue := [], popped := s.popped + s.queue)
  }

  /** It strands producers unless none sleeps or enough have been woken to fill the whole queue. */
  lemma ClearKeepsInvIff<T>(s: State<T>)
    requires Inv(s)
    ensures Inv(Clear(s)) <==> Asleep !in s.producers || s.capacity <= Count(s.producers, Woken)
  {
    CountedIsIn(s.producers, Asleep);
    assert s.popped + s.queue == (s.popped + s.queue) + [];
  }

  /** A notified popTimeout call that nevertheless reports a timeout, as wait_for may when the deadline has passed. */
  function LateTimeout<T>(s: State<T>, c: nat): State<T>
    requires c < |s.consumers|
  {
    s.(consumers := s.consumers[c := TimedOut])
  }

  /**
   It swallows the notification: the invariant survives exactly when nobody sleeps or another woken consumer is to
   spare.
   */
  lemma LateTimeoutKeepsInvIff<T>(s: State<T>, c: nat)
    requires Inv(s) && c < |s.consumers| && s.consumers[c] == Woken
    ensures Inv(LateTimeout(s, c)) <==> Asleep !in s.consumers || |s.queue| < Count(s.consumers, Woken)
  {
    CountedIsIn(s.consumers, Asleep);
    CountsAfter(s.consumers, c, TimedOut);
  }

  /**
   A timeout that comes late: of two waiting consumers the notified one gives up, and the item waits with the other.
   */
  lemma LateTimeoutStrandsAnItem()
    ensures var s := State(TestedFirst, 1, [], Open, [Idle], [0], [Idle, Idle], [false, false], [], []);
            var run := [PopCall(0, true, Nobody), PopCall(1, false, Nobody), PushCall(0, 7, One(0))];
            && Initial(s) && ValidRun(s, run) && After(s, run).consumers[0] == Woken
            && (var s' := LateTimeout(After(s, run), 0);
                s'.queue == [7] && s'.consumers == [TimedOut, Asleep] && !ConsumersServed(s'))
  {
    TwoWaitersOnePush();
    hide ValidRun, After, Apply, Enabled;
    CountedIsIn([TimedOut, Asleep], Asleep);
    CountedIsIn([TimedOut, Asleep], Woken);
  }

  lemma TwoWaitersOnePush()
    ensures var s := State(TestedFirst, 1, [], Open, [Idle], [0], [Idle, Idle], [false, false], [], []);
            var run := [PopCall(0, true, Nobody), PopCall(1, false, Nobody), PushCall(0, 7, One(0))];
            && ValidRun(s, run)
            && After(s, run) == State(TestedFirst, 1, [7], Open, [Idle], [7], [Woken, Asleep], [true, false], [7], [])
  {
    var s := State(TestedFirst, 1, [], Open, [Idle], [0], [Idle, Idle], [false, false], [], []);
    var s1 := s.(consumers := [Asleep, Idle], timed := [true, false]);
    var s2 := s1.(consumers := [Asleep, Asleep]);
    assert Apply(s, PopCall(0, true, Nobody)) == s1;
    assert Apply(s1, PopCall(1, false, Nobody)) == s2;
    assert Apply(s2, PushCall(0, 7, One(0))) ==
           s2.(consumers := [Woken, Asleep], queue := [7], pushed := [7], items := [7]);
    hide Apply, ValidRun, After;
    ThreeSteps(s, PopCall(0, true, Nobody), PopCall(1, false, Nobody), PushCall(0, 7, One(0)));
  }

  /** `clear` on a full queue with a producer waiting: the queue is empty, and the producer still sleeps. */
  lemma ClearStrandsAProducer()
    ensures var s := State(TestedFirst, 1, [], Open, [Idle, Idle], [0, 0], [Idle], [false], [], []);
            var run := [PushCall(0, 7, Nobody), PushCall(1, 8, Nobody)];
            && Initial(s) && ValidRun(s, run)
            && (var s' := Clear(After(s, run));
                s'.queue == [] && s'.producers == [Idle, Asleep] && !ProducersServed(s'))
  {
    CountedIsIn([Idle, Asleep], Asleep);
    CountedIsIn([Idle, Asleep], Woken);
  }

  lemma ThreeSteps<T>(s: State<T>, a: Action<T>, b: Action<T>, c: Action<T>)
    requires WellFormed(s) && Enabled(s, a) && Enabled(Apply(s, a), b) && Enabled(Apply(Apply(s, a), b), c)
    ensures ValidRun(s, [a, b, c]) && After(s, [a, b, c]) == Apply(Apply(Apply(s, a), b), c)
  {
    hide Enabled, Apply;
    StepThenRun(Apply(Apply(s, a), b), c, []);
    StepThenRun(Apply(s, a), b, [c] + []);
    StepThenRun(s, a, [b] + ([c] + []));
    assert [a] + ([b] + ([c] + [])) == [a, b, c];
  }

  lemma StepThenRun<T>(s: State<T>, a: Action<T>, rest: seq<Action<T>>)
    requires WellFormed(s) && Enabled(s, a) && ValidRun(Apply(s, a), rest)
    ensures ValidRun(s, [a] + rest) && After(s, [a] + rest) == After(Apply(s, a), rest)
  {
    assert ([a] + rest)[1..] == rest;
  }

  // ---------- The queue object ----------

  /**
   The queue as the source keeps it, with each thread's place in its call.  `PushAttempt` and `PopAttempt` are
   what push and pop do from taking the mutex, on entry or after a wait, until they return or wait again.
   */
  class BlockQueue<T(==)> {
    const mode: Mode
    const capacity: nat
    var queue: seq<T>
    var phase: Phase
    var producers: seq<Place>
    var items: seq<T>
    var consumers: seq<Place>
    var timed: seq<bool>
    ghost var pushed: seq<T>
    ghost var popped: seq<T>

    ghost function View(): State<T>
      reads this
    {
      State(mode, capacity, queue, phase, producers, items, consumers, timed, pushed, popped)
    }

    constructor (mode: Mode, capacity: nat, items: seq<T>, consumerCount: nat)
      requires capacity > 0
      ensures Initial(View()) && View().mode == mode && View().capacity == capacity
      ensures |producers| == |items| && |consumers| == consumerCount
    {
      this.mode, this.capacity, this.queue, this.phase := mode, capacity, [], Open;
      this.items, this.producers := items, seq(|items|, _ => Idle);
      this.timed, this.consumers := seq(consumerCount, _ => false), seq(consumerCount, _ => Idle);
      this.pushed, this.popped := [], [];
    }

    /** `_cond_consumer.notify_one()`: reaches any sleeping consumer. */
    method NotifyConsumer() returns (reach: Choice)
      modifies this`consumers
      ensures CanReach(old(consumers), reach) && consumers == Wake(old(consumers), reach)
    {
      reach := Nobody;
      if Asleep in consumers {
        var i :| 0 <= i < |consumers| && consumers[i] == Asleep;
        consumers := consumers[i := Woken];
        reach := One(i);
      }
    }

    /** `_cond_producer.notify_one()`: reaches any sleeping producer. */
    method NotifyProducer() returns (reach: Choice)
      modifies this`producers
      ensures CanReach(old(producers), reach) && producers == Wake(old(producers), reach)
    {
      reach := Nobody;
      if Asleep in producers {
        var i :| 0 <= i < |producers| && producers[i] == Asleep;
        producers := producers[i := Woken];
        reach := One(i);
      }
    }

    method PushAttempt(p: nat) returns (ghost reach: Choice)
      requires WellFormed(View()) && p < |producers|
      requires producers[p] == Idle || producers[p] == Woken
      modifies this
      ensures PushOutcome(old(View()), p) == Goes ==> CanReach(old(consumers), reach)
      ensures View() == PushTurn(old(View()), p, reach)
    {
      reach := Nobody;
      if mode == AsWritten && producers[p] == Woken && phase != Open {
        producers := producers[p := Idle];
        return;
      }
      if |queue| >= capacity {
        producers := producers[p := if mode == TestedFirst && phase != Open then Idle else Asleep];
        return;
      }
      queue := queue + [items[p]];
      pushed := pushed + [items[p]];
      producers := producers[p := Idle];
      reach := NotifyConsumer();
    }

    method PopAttempt(c: nat) returns (item: seq<T>, ghost reach: Choice)
      requires WellFormed(View()) && c < |consumers|
      requires consumers[c] == Idle || consumers[c] == Woken
      modifies this
      ensures PopOutcome(old(View()), c) == Goes ==> CanReach(old(producers), reach)
      ensures View() == PopTurn(old(View()), c, reach)
      ensures item == if PopOutcome(old(View()), c) == Goes then [old(queue)[0]] else []
    {
      item, reach := [], Nobody;
      if mode == AsWritten && consumers[c] == Woken && phase != Open {
        consumers := consumers[c := Idle];
        return;
      }
      if |queue| == 0 {
        consumers := consumers[c := if mode == TestedFirst && phase != Open then Idle else Asleep];
        return;
      }
      item := [queue[0]];
      popped := popped + item;
      queue := queue[1..];
      consumers := consumers[c := Idle];
      reach := NotifyProducer();
    }

    /** A call of push: its item stays with the thread until the push is done. */
    method PushCall(p: nat, item: T) returns (ghost reach: Choice)
      requires WellFormed(View()) && p < |producers| && producers[p] == Idle
      modifies this
      ensures old(Enabled(View(), Action.PushCall(p, item, reach)))
      ensures View() == Apply(old(View()), Action.PushCall(p, item, reach))
    {
      items := items[p := item];
      reach := PushAttempt(p);
    }

    method PushResume(p: nat) returns (ghost reach: Choice)
      requires WellFormed(View()) && p < |producers| && producers[p] == Woken
      modifies this
      ensures old(Enabled(View(), Action<T>.PushResume(p, reach)))
      ensures View() == Apply(old(View()), Action<T>.PushResume(p, reach))
    {
      reach := PushAttempt(p);
    }

    /** A call of pop, or of popTimeout. */
    method PopCall(c: nat, withTimeout: bool) returns (item: seq<T>, ghost reach: Choice)
      requires WellFormed(View()) && c < |consumers| && consumers[c] == Idle
      modifies this
      ensures old(Enabled(View(), Action<T>.PopCall(c, withTimeout, reach)))
      ensures View() == Apply(old(View()), Action<T>.PopCall(c, withTimeout, reach))
      ensures popped == old(popped) + item
    {
      timed := timed[c := withTimeout];
      item, reach := PopAttempt(c);
    }

    method PopResume(c: nat) returns (item: seq<T>, ghost reach: Choice)
      requires WellFormed(View()) && c < |consumers| && consumers[c] == Woken
      modifies this
      ensures old(Enabled(View(), Action<T>.PopResume(c, reach)))
      ensures View() == Apply(old(View()), Action<T>.PopResume(c, reach))
      ensures popped == old(popped) + item
    {
      item, reach := PopAttempt(c);
    }

    method SetClosed()
      requires WellFormed(View()) && phase == Open
      modifies this`phase
      ensures View() == Apply(old(View()), Action<T>.SetClosed)
    {
      phase := FlagSet;
    }

    /** `_cond_consumer.notify_all()` of close. */
    method NotifyConsumers()
      requires WellFormed(View()) && phase == FlagSet
      modifies this`phase, this`consumers
      ensures View() == Apply(old(View()), Action<T>.NotifyConsumers)
      ensures Asleep !in consumers
    {
      phase := ConsumersNotified;
      consumers := AllWoken(consumers);
    }

    /** `_cond_producer.notify_all()` of close. */
    method NotifyProducers()
      requires WellFormed(View()) && phase == ConsumersNotified
      modifies this`phase, this`producers
      ensures View() == Apply(old(View()), Action<T>.NotifyProducers)
      ensures Asleep !in producers
    {
      phase := AllNotified;
      producers := AllWoken(producers);
    }

    /** notify_all reaches the sleepers one after another. */
    static method AllWoken(places: seq<Place>) returns (woken: seq<Place>)
      ensures woken == WakeAll(places)
    {
      woken := places;
      var i := 0;
      while i < |woken|
        invariant 0 <= i <= |woken| == |places|
        invariant forall k :: 0 <= k < i ==> woken[k] == if places[k] == Asleep then Woken else places[k]
        invariant forall k :: i <= k < |woken| ==> woken[k] == places[k]
      {
        if woken[i] == Asleep {
          woken := woken[i := Woken];
        }
        i := i + 1;
      }
    }
  }
}
