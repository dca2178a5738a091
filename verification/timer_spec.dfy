/**
 The timer seen from outside: a finite map from ids to deadlines and callbacks, and what one pass of
 firing due timers may do to it.  `TimerHeap` refines this map; `Server` is composed with it.
 */
module TimerSpec {

  /** Clock readings, in nanoseconds, as high_resolution_clock counts them. */
  type TimeStamp = int

  /** Clock units in one millisecond. */
  const MS := 1_000_000

  datatype Entry<C> = Entry(expire: TimeStamp, tcb: C)

  /** duration_cast to milliseconds: the quotient truncated toward zero. */
  function ToMs(d: int): int {
    if d >= 0 then d / MS else -((-d) / MS)
  }

  /** Whole milliseconds: a duration lies between its count and one more, on either side of zero. */
  lemma ToMsCountsMilliseconds(d: int)
    ensures d >= 0 ==> ToMs(d) * 1_000_000 <= d < (ToMs(d) + 1) * 1_000_000
    ensures d <= 0 ==> (ToMs(d) - 1) * 1_000_000 < d <= ToMs(d) * 1_000_000
  {
  }

  /** The firing test of one loop iteration, for one clock sample. */
  predicate Due(expire: TimeStamp, now: TimeStamp) {
    ToMs(expire - now) <= 0
  }

  /** Truncation makes a timer fire when less than one whole millisecond is left, and not before. */
  lemma DueWithinAMillisecond(expire: TimeStamp, now: TimeStamp)
    ensures Due(expire, now) <==> expire - now < MS
  {
  }

  /** Sample number k of the clock; the source reads the clock anew in every iteration. */
  type Clock = nat -> TimeStamp

  ghost predicate NonDecreasing(clock: Clock) {
    forall i: nat, j: nat :: i <= j ==> clock(i) <= clock(j)
  }

  function Ids(fired: seq<int>): set<int> {
    set id | id in fired
  }

  ghost predicate IsEarliest<C>(m: map<int, Entry<C>>, id: int) {
    id in m && forall other :: other in m ==> m[id].expire <= m[other].expire
  }

  /** Firing number k takes the earliest entry still present, and finds it due at clock sample k. */
  ghost predicate FireChain<C>(m: map<int, Entry<C>>, clock: Clock, fired: seq<int>) {
    forall k {:trigger fired[k]} :: 0 <= k < |fired| ==>
      && IsEarliest(m - Ids(fired[..k]), fired[k])
      && Due(m[fired[k]].expire, clock(k))
  }

  /** A whole pass: firings, then a sample at which nothing that is left is due. */
  ghost predicate TickRun<C>(m: map<int, Entry<C>>, clock: Clock, fired: seq<int>, m': map<int, Entry<C>>) {
    && FireChain(m, clock, fired)
    && m' == m - Ids(fired)
    && forall id :: id in m' ==> !Due(m'[id].expire, clock(|fired|))
  }

  lemma OneMoreFires<C>(m: map<int, Entry<C>>, clock: Clock, fired: seq<int>, id: int)
    requires FireChain(m, clock, fired) && IsEarliest(m - Ids(fired), id) && Due(m[id].expire, clock(|fired|))
    ensures FireChain(m, clock, fired + [id]) && m - Ids(fired + [id]) == m - Ids(fired) - {id}
  {
    var all := fired + [id];
    assert all[..|fired|] == fired;
    assert Ids(all) == Ids(fired) + {id};
    forall k {:trigger all[k]} | 0 <= k < |all|
      ensures IsEarliest(m - Ids(all[..k]), all[k]) && Due(m[all[k]].expire, clock(k))
    {
      if k < |fired| {
        assert all[..k] == fired[..k] && all[k] == fired[k];
      }
    }
  }

  /** No entry fires twice, only present entries fire, and every other entry keeps its deadline and callback. */
  lemma TickFiresEachOnce<C>(m: map<int, Entry<C>>, clock: Clock, fired: seq<int>, m': map<int, Entry<C>>)
    requires TickRun(m, clock, fired, m')
    ensures forall i, j :: 0 <= i < j < |fired| ==> fired[i] != fired[j]
    ensures forall id :: id in m <==> (id in m' || id in fired)
    ensures forall id :: id in m' ==> id !in fired && m'[id] == m[id]
  {
  }

  /** Timers fire in order of their deadlines. */
  lemma TickFiresInOrder<C>(m: map<int, Entry<C>>, clock: Clock, fired: seq<int>, m': map<int, Entry<C>>)
    requires TickRun(m, clock, fired, m')
    ensures forall i, j :: 0 <= i <= j < |fired| ==>
              fired[i] in m && fired[j] in m && m[fired[i]].expire <= m[fired[j]].expire
  {
    forall i, j | 0 <= i <= j < |fired|
      ensures fired[i] in m && fired[j] in m && m[fired[i]].expire <= m[fired[j]].expire
    {
      assert fired[j] in m - Ids(fired[..j]);
      assert Ids(fired[..i]) <= Ids(fired[..j]) by {
        forall id | id in fired[..i] ensures id in fired[..j] {
          var p :| 0 <= p < i && fired[..i][p] == id;
          assert fired[..j][p] == id;
        }
      }
      assert fired[j] in m - Ids(fired[..i]);
    }
  }

  /** What has less than 1 ms left at the first sample fires; what has 1 ms or more left at the last one does not. */
  lemma TickFiresExactlyTheDue<C>(m: map<int, Entry<C>>, clock: Clock, fired: seq<int>, m': map<int, Entry<C>>)
    requires NonDecreasing(clock) && TickRun(m, clock, fired, m')
    ensures forall id :: id in m && m[id].expire - clock(0) < MS ==> id in fired
    ensures forall id :: id in m && m[id].expire - clock(|fired|) >= MS ==> id !in fired
  {
    forall id | id in m && m[id].expire - clock(0) < MS ensures id in fired {
      if id !in fired {
        assert id in m' && clock(0) <= clock(|fired|);
        DueWithinAMillisecond(m[id].expire, clock(|fired|));
      }
    }
    forall id | id in m && m[id].expire - clock(|fired|) >= MS ensures id !in fired {
      if id in fired {
        var k :| 0 <= k < |fired| && fired[k] == id;
        assert clock(k) <= clock(|fired|);
        DueWithinAMillisecond(m[id].expire, clock(k));
      }
    }
  }

  /** Milliseconds until the next deadline; -1 stands for "no timer". */
  ghost predicate IsNextTick<C>(m: map<int, Entry<C>>, now: TimeStamp, res: int) {
    && (m == map[] ==> res == -1)
    && (m != map[] ==> exists id :: IsEarliest(m, id) && res == Clamp(ToMs(m[id].expire - now)))
  }

  function Clamp(x: int): int {
    if x < 0 then 0 else x
  }

  /** -1 is returned exactly when no timer is left, so the event loop blocks for ever only then. */
  lemma NextTickMinusOneIffEmpty<C>(m: map<int, Entry<C>>, now: TimeStamp, res: int)
    requires IsNextTick(m, now, res)
    ensures res == -1 <==> m == map[]
    ensures res >= -1
  {
  }

  /** The loop may sleep for the whole milliseconds left to the earliest deadline, and not at all if that has passed. */
  lemma NextTickIsTimeLeft<C>(m: map<int, Entry<C>>, now: TimeStamp, res: int, id: int)
    requires IsNextTick(m, now, res) && IsEarliest(m, id)
    ensures var left := if m[id].expire < now then 0 else m[id].expire - now;
            res * 1_000_000 <= left < (res + 1) * 1_000_000
  {
    var other :| IsEarliest(m, other) && res == Clamp(ToMs(m[other].expire - now));
    assert m[other].expire == m[id].expire;
    ToMsCountsMilliseconds(m[id].expire - now);
  }

  /** The result as written: the clamp compares an unsigned number with zero and never takes effect. */
  function NextTickAsWritten(expire: TimeStamp, now: TimeStamp): int {
    ToMs(expire - now)
  }

  /**
   As written the result is the intended one exactly when the second sample is less than 1 ms past the
   earliest deadline.  Between 1 and 2 ms past it, the result is -1 and epoll would wait for ever.
   */
  lemma NextTickAsWrittenIffFresh(expire: TimeStamp, now: TimeStamp)
    ensures NextTickAsWritten(expire, now) == Clamp(ToMs(expire - now)) <==> now - expire < MS
    ensures NextTickAsWritten(expire, now) == -1 <==> MS <= now - expire < 2 * MS
    ensures now > expire ==>
              NextTickAsWritten(expire, now) * MS >= expire - now > (NextTickAsWritten(expire, now) - 1) * MS
  {
  }
}
