/**
 The indexed binary heap of timers: `heap` orders the nodes by deadline, `ref` finds a node by id.
 Every operation is proved against the map of `TimerSpec`.
 */
module TimerHeap {
  import opened TimerSpec

  datatype TimerNode<C> = TimerNode(id: int, expire: TimeStamp, tcb: C)

  type Heap<C> = seq<TimerNode<C>>

  function Parent(i: int): int {
    (i - 1) / 2
  }

  ghost predicate HeapOrdered<C>(h: Heap<C>) {
    forall k {:trigger Parent(k)} :: 0 < k < |h| ==> h[Parent(k)].expire <= h[k].expire
  }

  /** `ref` is the inverse of the array of ids: every id sits in exactly one slot, and no other key is present. */
  ghost predicate Indexed<C>(h: Heap<C>, ref: map<int, nat>) {
    && (forall i :: 0 <= i < |h| ==> h[i].id in ref && ref[h[i].id] == i)
    && (forall id :: id in ref ==> ref[id] < |h| && h[ref[id]].id == id)
  }

  ghost function EntriesOf<C>(h: Heap<C>, ref: map<int, nat>): map<int, Entry<C>>
    requires Indexed(h, ref)
  {
    map id | id in ref :: Entry(h[ref[id]].expire, h[ref[id]].tcb)
  }

  /** Slots above and below i fit each other, whatever is in slot i. */
  ghost predicate Bridged<C>(h: Heap<C>, i: int) {
    forall k {:trigger Parent(k)} :: 0 < k < |h| && Parent(k) == i && 0 < i ==> h[Parent(i)].expire <= h[k].expire
  }

  /** Heap order except between slot i and its neighbours. */
  ghost predicate OrderedExceptAt<C>(h: Heap<C>, i: int) {
    && (forall k {:trigger Parent(k)} :: 0 < k < |h| && k != i && Parent(k) != i ==> h[Parent(k)].expire <= h[k].expire)
    && Bridged(h, i)
  }

  /** Heap order except between slot i and its children. */
  ghost predicate OrderedExceptBelow<C>(h: Heap<C>, i: int) {
    && (forall k {:trigger Parent(k)} :: 0 < k < |h| && Parent(k) != i ==> h[Parent(k)].expire <= h[k].expire)
    && Bridged(h, i)
  }

  /** The node in slot i is strictly earlier than its children. */
  ghost predicate BeforeChildren<C>(h: Heap<C>, i: int)
    requires 0 <= i < |h|
  {
    forall k {:trigger Parent(k)} :: 0 < k < |h| && Parent(k) == i ==> h[i].expire < h[k].expire
  }

  /** The root of a heap is its earliest node. */
  lemma {:induction false} RootIsEarliest<C>(h: Heap<C>, k: int)
    requires HeapOrdered(h) && 0 <= k < |h|
    ensures h[0].expire <= h[k].expire
    decreases k
  {
    if k > 0 {
      RootIsEarliest(h, Parent(k));
    }
  }

  /** A deadline may be overwritten in place, without sifting, exactly when it fits between parent and children. */
  ghost predicate FitsInPlace<C>(h: Heap<C>, i: int, t: TimeStamp)
    requires 0 <= i < |h|
  {
    && (i > 0 ==> h[Parent(i)].expire <= t)
    && (forall k {:trigger Parent(k)} :: 0 < k < |h| && Parent(k) == i ==> t <= h[k].expire)
  }

  /** `add` on a known id as written does not sift: heap order survives exactly when the new deadline fits in place. */
  lemma OverwriteAsWrittenIffFits<C>(h: Heap<C>, i: int, t: TimeStamp, tcb: C)
    requires HeapOrdered(h) && 0 <= i < |h|
    ensures HeapOrdered(h[i := TimerNode(h[i].id, t, tcb)]) <==> FitsInPlace(h, i, t)
  {
  }

  /** Any new deadline leaves the rest of the heap ordered. */
  lemma OverwriteKeepsTheRest<C>(h: Heap<C>, i: int, t: TimeStamp, tcb: C)
    requires HeapOrdered(h) && 0 <= i < |h|
    ensures OrderedExceptAt(h[i := TimerNode(h[i].id, t, tcb)], i)
    ensures (i > 0 ==> h[Parent(i)].expire <= t) ==>
              OrderedExceptBelow(h[i := TimerNode(h[i].id, t, tcb)], i)
  {
  }

  function Exchanged<C>(h: Heap<C>, i: nat, j: nat): Heap<C>
    requires i < |h| && j < |h|
  {
    h[i := h[j]][j := h[i]]
  }

  /** The sift-up loop that stops at the root. */
  function SiftedUp<C>(h: Heap<C>, i: nat): Heap<C>
    requires i < |h|
    decreases i
  {
    if i == 0 || h[Parent(i)].expire < h[i].expire then h else SiftedUp(Exchanged(h, i, Parent(i)), Parent(i))
  }

  // ---------- Sifting up as written ----------

  /** Index arithmetic of size_t: the parent index of the root wraps around. */
  function ParentAsWritten(i: int): int
    requires 0 <= i
  {
    ((i - 1) % 0x1_0000_0000_0000_0000) / 2
  }

  const MOST_NODES := 0x7fff_ffff_ffff_ffff

  lemma SiftUpAsWrittenReadsInsideIffBelowRoot(i: int, size: int)
    requires 0 <= i < size <= MOST_NODES
    ensures ParentAsWritten(i) < size <==> i > 0
    ensures i > 0 ==> ParentAsWritten(i) == Parent(i)
  {
  }

  /** How the loop as written ends: with a heap, or by reading outside the vector. */
  datatype SiftEnd<C> = Inside(heap: Heap<C>) | Outside

  /** The test `j >= 0` always holds, so only an earlier parent ends the loop. */
  function SiftUpAsWritten<C>(h: Heap<C>, i: nat): SiftEnd<C>
    requires i < |h| <= MOST_NODES
    decreases i
  {
    var j := ParentAsWritten(i);
    if j >= |h| then Outside
    else if h[j].expire < h[i].expire then Inside(h)
    else
      assert j < i by { SiftUpAsWrittenReadsInsideIffBelowRoot(i, |h|); }
      SiftUpAsWritten(Exchanged(h, i, j), j)
  }

  /**
   With order above slot i, the loop as written does what is meant exactly when the slot is not the root and the
   root is strictly earlier than the node to be sifted; in every other case it reads outside the heap.
   */
  lemma {:induction false} SiftUpAsWrittenIff<C>(h: Heap<C>, i: nat)
    requires i < |h| <= MOST_NODES && HeapOrdered(h[..i])
    ensures SiftUpAsWritten(h, i) == Inside(SiftedUp(h, i)) <==> i > 0 && h[0].expire < h[i].expire
    ensures SiftUpAsWritten(h, i) != Inside(SiftedUp(h, i)) ==> SiftUpAsWritten(h, i) == Outside
    decreases i
  {
    SiftUpAsWrittenReadsInsideIffBelowRoot(i, |h|);
    if i > 0 {
      var j: nat := Parent(i);
      RootIsEarliest(h[..i], j);
      if h[j].expire >= h[i].expire {
        var h' := Exchanged(h, i, j);
        assert h'[..j] == h[..i][..j];
        SiftUpAsWrittenIff(h', j);
      }
    }
  }

  /** So `add` of a new id is safe as written exactly for a non-empty heap whose root is strictly earlier. */
  lemma AddAsWrittenIff<C>(h: Heap<C>, n: TimerNode<C>)
    requires HeapOrdered(h) && |h| < MOST_NODES
    ensures SiftUpAsWritten(h + [n], |h|) == Inside(SiftedUp(h + [n], |h|)) <==> h != [] && h[0].expire < n.expire
    ensures !(h != [] && h[0].expire < n.expire) ==> SiftUpAsWritten(h + [n], |h|) == Outside
  {
    assert (h + [n])[..|h|] == h;
    SiftUpAsWrittenIff(h + [n], |h|);
  }

  /**
   `_delete` as written, up to its sift-down: it sifts at slot i even if that slot is gone, which an assertion stops.
   */
  function DeleteAsWritten<C>(h: Heap<C>, i: nat): SiftEnd<C>
    requires i < |h| <= MOST_NODES
  {
    var rest := Exchanged(h, i, |h| - 1)[..|h| - 1];
    if i >= |rest| then Outside else SiftUpAsWritten(rest, i)
  }

  /**
   Removal as written works exactly for a slot strictly between root and last whose replacement is later than the
   root.
   */
  lemma DeleteAsWrittenIff<C>(h: Heap<C>, i: nat)
    requires HeapOrdered(h) && i < |h| <= MOST_NODES
    ensures var last := |h| - 1;
            DeleteAsWritten(h, i) != Outside <==> 0 < i < last && h[0].expire < h[last].expire
    ensures DeleteAsWritten(h, i) != Outside ==>
              DeleteAsWritten(h, i) == Inside(SiftedUp(Exchanged(h, i, |h| - 1)[..|h| - 1], i))
  {
    var last := |h| - 1;
    if i < last {
      var rest := Exchanged(h, i, last)[..last];
      assert rest[..i] == h[..i];
      SiftUpAsWrittenIff(rest, i);
    }
  }

  /** In particular no timer is removed as written once its callback has run: `_pop` removes the root. */
  lemma PopAsWrittenFails<C>(h: Heap<C>)
    requires HeapOrdered(h) && 0 < |h| <= MOST_NODES
    ensures DeleteAsWritten(h, 0) == Outside
  {
    DeleteAsWrittenIff(h, 0);
  }

  /** An input of the first kind: the new timer is due before the only one there. */
  lemma EarlierTimerFailsAsWritten<C>(tcb: C)
    ensures var h := [TimerNode(1, 5, tcb), TimerNode(2, 3, tcb)];
            SiftUpAsWritten(h, 1) == Outside && SiftedUp(h, 1) == [h[1], h[0]]
  {
    var h := [TimerNode(1, 5, tcb), TimerNode(2, 3, tcb)];
    assert h[..1] == [h[0]];
    SiftUpAsWrittenIff(h, 1);
    assert Exchanged(h, 1, 0) == [h[1], h[0]];
  }

  /**
   A heap built with some default nodes, as the constructor's `_heap(64)` does, and no index entries is inconsistent.
   */
  lemma PrefilledHeapIsIndexedIffEmpty<C>(size: nat, node: TimerNode<C>)
    ensures Indexed(seq(size, _ => node), map[]) <==> size == 0
  {
    if size > 0 {
      assert seq(size, _ => node)[0] == node;
    }
  }

  class Timer<C> {
    var heap: Heap<C>
    var ref: map<int, nat>

    ghost predicate Valid()
      reads this
    {
      Indexed(heap, ref) && HeapOrdered(heap)
    }

    ghost function Contents(): map<int, Entry<C>>
      requires Indexed(heap, ref)
      reads this
    {
      EntriesOf(heap, ref)
    }

    constructor ()
      ensures Valid() && Contents() == map[]
    {
      heap := [];
      ref := map[];
    }

    method Swap(i: nat, j: nat)
      requires i < |heap| && j < |heap|
      requires Indexed(heap, ref)
      modifies this
      ensures heap == Exchanged(old(heap), i, j)
      ensures Indexed(heap, ref) && Contents() == old(Contents())
    {
      SwapKeepsEntries(heap, ref, i, j);
      heap := heap[i := heap[j]][j := heap[i]];
      ref := ref[heap[i].id := i];
      ref := ref[heap[j].id := j];
    }

    /** Moves the node in slot i up past later parents. */
    method SiftUp(i: nat)
      requires i < |heap|
      requires Indexed(heap, ref) && OrderedExceptAt(heap, i)
      modifies this
      ensures |heap| == old(|heap|)
      ensures Indexed(heap, ref) && Contents() == old(Contents())
      ensures heap == SiftedUp(old(heap), i) && OrderedExceptBelow(heap, i)
    {
      var c := i;
      while c > 0
        invariant 0 <= c <= i < |heap| == old(|heap|)
        invariant Indexed(heap, ref) && Contents() == old(Contents())
        invariant forall k {:trigger Parent(k)} :: 0 < k < |heap| && k != c && (Parent(k) != i || c != i) ==>
                    heap[Parent(k)].expire <= heap[k].expire
        invariant Bridged(heap, c) && Bridged(heap, i)
        invariant SiftedUp(heap, c) == SiftedUp(old(heap), i)
      {
        var j := Parent(c);
        if heap[j].expire < heap[c].expire {
          break;
        }
        ghost var before := heap;
        Swap(c, j);
        SwapUpKeeps(before, heap, i, c);
        c := j;
      }
    }

    /** Moves the node in slot i down past earlier children. */
    method SiftDown(i: nat)
      requires i < |heap|
      requires Indexed(heap, ref)
      modifies this
      ensures |heap| == old(|heap|)
      ensures Indexed(heap, ref) && Contents() == old(Contents())
      ensures old(OrderedExceptBelow(heap, i)) ==> HeapOrdered(heap)
      ensures old(BeforeChildren(heap, i)) ==> heap == old(heap)
    {
      hide HeapOrdered, OrderedExceptBelow, SiftedUp;
      ghost var ordered := OrderedExceptBelow(heap, i);
      ghost var settled := BeforeChildren(heap, i);
      var c: nat := i;
      var j := c * 2 + 1;
      while j < |heap|
        invariant c < |heap| == old(|heap|) && j == c * 2 + 1
        invariant Indexed(heap, ref) && Contents() == old(Contents())
        invariant ordered ==> OrderedExceptBelow(heap, c)
        invariant settled ==> c == i && heap == old(heap)
        decreases |heap| - c
      {
        if j + 1 < |heap| && heap[j + 1].expire < heap[j].expire {
          j := j + 1;
        }
        EarlierChild(heap, c, j);
        if heap[c].expire < heap[j].expire {
          if ordered {
            ChildrenLaterEndsSift(heap, c);
          }
          return;
        }
        ghost var before := heap;
        Swap(c, j);
        if ordered {
          SwapDownKeeps(before, heap, c, j);
        }
        c := j;
        j := c * 2 + 1;
      }
      if ordered {
        ChildrenLaterEndsSift(heap, c);
      }
    }

    /** Removes the node in slot i, wherever it is. */
    method Delete(i: nat)
      requires i < |heap|
      requires Valid()
      modifies this
      ensures Valid()
      ensures Contents() == old(Contents()) - {old(heap[i].id)}
      ensures |heap| == old(|heap|) - 1
    {
      hide SiftedUp, HeapOrdered, OrderedExceptAt, OrderedExceptBelow, BeforeChildren;
      var last := |heap| - 1;
      ghost var before := heap;
      Swap(i, last);
      RemovalRemovesOneEntry(heap, ref);
      ref := ref - {heap[last].id};
      heap := heap[..last];
      if i < |heap| {
        RemovalKeepsTheRest(before, heap, i);
        SiftUp(i);
        SiftDown(i);
      } else {
        assert heap == before[..last];
        PrefixIsOrdered(before, last);
      }
    }

    /** Inserts a timer, or overwrites the timer with the same id; an overwritten node is sifted both ways. */
    method Add(id: int, timeout: int, tcb: C, now: TimeStamp)
      requires Valid()
      modifies this
      ensures Valid()
      ensures Contents() == old(Contents())[id := Entry(now + timeout * MS, tcb)]
    {
      hide SiftedUp, HeapOrdered, OrderedExceptAt, OrderedExceptBelow;
      var i: nat;
      if id !in ref {
        i := |heap|;
        AppendAddsOneEntry(heap, ref, TimerNode(id, now + timeout * MS, tcb));
        AppendKeepsTheRest(heap, TimerNode(id, now + timeout * MS, tcb));
        ref := ref[id := i];
        heap := heap + [TimerNode(id, now + timeout * MS, tcb)];
        SiftUp(i);
        LastHasNoChildren(heap);
        return;
      }
      i := ref[id];
      OverwriteKeepsTheRest(heap, i, now + timeout * MS, tcb);
      OverwriteChangesOneEntry(heap, ref, TimerNode(id, now + timeout * MS, tcb));
      heap := heap[i := TimerNode(id, now + timeout * MS, tcb)];
      SiftUp(i);
      SiftDown(i);
    }

    /**
     Moves one deadline and sifts down only: heap order is kept exactly when the new deadline is not
     earlier than the parent's.
     */
    method AdjustExpire(id: int, timeout: int, now: TimeStamp)
      requires Valid() && id in ref
      modifies this
      ensures Indexed(heap, ref)
      ensures Contents() == old(Contents())[id := Entry(now + timeout * MS, old(Contents())[id].tcb)]
      ensures Valid() <==>
              old(ref[id] > 0 ==> heap[Parent(ref[id])].expire <= now + timeout * MS)
      ensures old(Contents())[id].expire <= now + timeout * MS ==> Valid()
    {
      var i := ref[id];
      ghost var before := heap;
      heap := heap[i := heap[i].(expire := now + timeout * MS)];
      OverwriteKeepsTheRest(before, i, now + timeout * MS, before[i].tcb);
      OverwriteChangesOneEntry(before, ref, TimerNode(id, now + timeout * MS, before[i].tcb));
      if i > 0 && now + timeout * MS < before[Parent(i)].expire {
        EarlierThanParentStays(before, heap, i);
      }
      SiftDown(i);
      if i > 0 && now + timeout * MS < before[Parent(i)].expire {
        assert heap[i].expire < heap[Parent(i)].expire;
      }
    }

    /** Runs and removes the timer with this id; an unknown id is ignored. */
    method DoWork(id: int) returns (ran: seq<C>)
      requires Valid()
      modifies this
      ensures Valid()
      ensures Contents() == old(Contents()) - {id}
      ensures ran == if id in old(Contents()) then [old(Contents())[id].tcb] else []
    {
      if id !in ref {
        return [];
      }
      var i := ref[id];
      ran := [heap[i].tcb];
      Delete(i);
    }

    /** Fires due timers from the root until the root is not due. */
    method Tick(clock: Clock) returns (fired: seq<int>, ran: seq<C>)
      requires Valid()
      modifies this
      ensures Valid()
      ensures TickRun(old(Contents()), clock, fired, Contents())
      ensures |ran| == |fired| && forall k :: 0 <= k < |fired| ==>
                fired[k] in old(Contents()) && ran[k] == old(Contents())[fired[k]].tcb
    {
      ghost var all := Contents();
      fired, ran := [], [];
      assert all - Ids([]) == all;
      hide FireChain, Ids, HeapOrdered, IsEarliest;
      while |heap| > 0
        invariant Valid()
        invariant FireChain(all, clock, fired) && Contents() == all - Ids(fired)
        invariant |ran| == |fired| && forall k :: 0 <= k < |fired| ==>
                    fired[k] in all && ran[k] == all[fired[k]].tcb
        decreases |heap|
      {
        var node := heap[0];
        FrontIsEarliest();
        if ToMs(node.expire - clock(|fired|)) > 0 {
          break;
        }
        OneMoreFires(all, clock, fired, node.id);
        ran := ran + [node.tcb];
        fired := fired + [node.id];
        Delete(0);
      }
      NothingLeftIsDue(clock(|fired|));
    }

    lemma NothingLeftIsDue(now: TimeStamp)
      requires Valid() && (|heap| > 0 ==> ToMs(heap[0].expire - now) > 0)
      ensures forall id :: id in Contents() ==> !Due(Contents()[id].expire, now)
    {
      if |heap| > 0 {
        FrontIsEarliest();
      }
    }

    /** Fires due timers, then tells how long the event loop may sleep. */
    method GetNextTick(clock: Clock) returns (res: int, fired: seq<int>, ran: seq<C>)
      requires Valid()
      modifies this
      ensures Valid()
      ensures TickRun(old(Contents()), clock, fired, Contents())
      ensures |ran| == |fired| && forall k :: 0 <= k < |fired| ==>
                fired[k] in old(Contents()) && ran[k] == old(Contents())[fired[k]].tcb
      ensures IsNextTick(Contents(), clock(|fired| + 1), res)
      ensures forall id :: IsEarliest(Contents(), id) ==>
                var now := clock(|fired| + 1);
                var left := if Contents()[id].expire < now then 0 else Contents()[id].expire - now;
                res * MS <= left < (res + 1) * MS
    {
      fired, ran := Tick(clock);
      res := -1;
      if |heap| > 0 {
        FrontIsEarliest();
        assert IsEarliest(Contents(), heap[0].id);
        res := ToMs(heap[0].expire - clock(|fired| + 1));
        res := if res < 0 then 0 else res;
        forall id | IsEarliest(Contents(), id) {
          NextTickIsTimeLeft(Contents(), clock(|fired| + 1), res, id);
        }
      } else {
        NoNodesNoEntries(heap, ref);
      }
    }

    lemma FrontIsEarliest()
      requires Valid() && |heap| > 0
      ensures IsEarliest(Contents(), heap[0].id)
      ensures Contents()[heap[0].id] == Entry(heap[0].expire, heap[0].tcb)
    {
      forall other | other in Contents() ensures heap[0].expire <= Contents()[other].expire {
        RootIsEarliest(heap, ref[other]);
      }
    }
  }

  lemma SwapKeepsEntries<C>(h: Heap<C>, ref: map<int, nat>, i: nat, j: nat)
    requires Indexed(h, ref) && i < |h| && j < |h|
    ensures var h' := h[i := h[j]][j := h[i]];
            var ref' := ref[h'[i].id := i][h'[j].id := j];
            Indexed(h', ref') && EntriesOf(h', ref') == EntriesOf(h, ref)
  {
    var h' := h[i := h[j]][j := h[i]];
    var ref' := ref[h'[i].id := i][h'[j].id := j];
    var m, m' := EntriesOf(h, ref), EntriesOf(h', ref');
    assert m'.Keys == m.Keys;
    forall id | id in m' ensures m'[id] == m[id] {
      assert id in ref;
    }
  }

  lemma NoNodesNoEntries<C>(h: Heap<C>, ref: map<int, nat>)
    requires Indexed(h, ref)
    ensures h == [] <==> EntriesOf(h, ref) == map[]
  {
    var ids := set i | 0 <= i < |h| :: h[i].id;
    assert EntriesOf(h, ref).Keys == ref.Keys == ids by {
      forall id | id in ref ensures id in ids {
        assert h[ref[id]].id == id;
      }
    }
    if h != [] {
      assert h[0].id in ids;
    }
  }

  lemma AppendAddsOneEntry<C>(h: Heap<C>, ref: map<int, nat>, n: TimerNode<C>)
    requires Indexed(h, ref) && n.id !in ref
    ensures Indexed(h + [n], ref[n.id := |h|])
    ensures EntriesOf(h + [n], ref[n.id := |h|]) == EntriesOf(h, ref)[n.id := Entry(n.expire, n.tcb)]
  {
    var m, m' := EntriesOf(h, ref)[n.id := Entry(n.expire, n.tcb)], EntriesOf(h + [n], ref[n.id := |h|]);
    assert m'.Keys == m.Keys;
    forall id | id in m' ensures m'[id] == m[id] {
      assert id in ref || id == n.id;
    }
  }

  lemma OverwriteChangesOneEntry<C>(h: Heap<C>, ref: map<int, nat>, n: TimerNode<C>)
    requires Indexed(h, ref) && n.id in ref
    ensures Indexed(h[ref[n.id] := n], ref)
    ensures EntriesOf(h[ref[n.id] := n], ref) == EntriesOf(h, ref)[n.id := Entry(n.expire, n.tcb)]
  {
    var m, m' := EntriesOf(h, ref)[n.id := Entry(n.expire, n.tcb)], EntriesOf(h[ref[n.id] := n], ref);
    assert m'.Keys == m.Keys;
    forall id | id in m' ensures m'[id] == m[id] {
      assert id in ref;
    }
  }

  lemma RemovalRemovesOneEntry<C>(h: Heap<C>, ref: map<int, nat>)
    requires Indexed(h, ref) && |h| > 0
    ensures var last := |h| - 1;
            Indexed(h[..last], ref - {h[last].id}) &&
            EntriesOf(h[..last], ref - {h[last].id}) == EntriesOf(h, ref) - {h[last].id}
  {
    var last := |h| - 1;
    var m, m' := EntriesOf(h, ref) - {h[last].id}, EntriesOf(h[..last], ref - {h[last].id});
    assert m'.Keys == m.Keys;
    forall id | id in m' ensures m'[id] == m[id] {
      assert id in ref;
    }
  }

  lemma AppendKeepsTheRest<C>(h: Heap<C>, n: TimerNode<C>)
    requires HeapOrdered(h)
    ensures OrderedExceptAt(h + [n], |h|)
  {
  }

  lemma LastHasNoChildren<C>(h: Heap<C>)
    requires h != [] && OrderedExceptBelow(h, |h| - 1)
    ensures HeapOrdered(h)
  {
  }

  lemma EarlierThanParentStays<C>(before: Heap<C>, after: Heap<C>, i: int)
    requires HeapOrdered(before) && 0 < i < |before| == |after|
    requires after == before[i := after[i]] && after[i].expire < before[Parent(i)].expire
    ensures BeforeChildren(after, i)
  {
  }

  lemma EarlierChild<C>(h: Heap<C>, c: int, j: int)
    requires 0 <= c < j < |h| && Parent(j) == c
    requires j == 2 * c + 1 ==> j + 1 < |h| ==> h[j].expire <= h[j + 1].expire
    requires j == 2 * c + 2 ==> h[j].expire < h[j - 1].expire
    ensures forall k {:trigger Parent(k)} :: 0 < k < |h| && Parent(k) == c ==> h[j].expire <= h[k].expire
  {
  }

  lemma ChildrenLaterEndsSift<C>(h: Heap<C>, c: int)
    requires OrderedExceptBelow(h, c)
    requires forall k {:trigger Parent(k)} :: 0 < k < |h| && Parent(k) == c ==> h[c].expire <= h[k].expire
    ensures HeapOrdered(h)
  {
  }

  lemma SwapUpKeeps<C>(before: Heap<C>, after: Heap<C>, i: int, c: int)
    requires 0 < c <= i < |before|
    requires after == before[c := before[Parent(c)]][Parent(c) := before[c]]
    requires forall k {:trigger Parent(k)} :: 0 < k < |before| && k != c && (Parent(k) != i || c != i) ==>
               before[Parent(k)].expire <= before[k].expire
    requires Bridged(before, c) && Bridged(before, i)
    requires before[c].expire <= before[Parent(c)].expire
    ensures forall k {:trigger Parent(k)} :: 0 < k < |after| && k != Parent(c) ==>
              after[Parent(k)].expire <= after[k].expire
    ensures Bridged(after, Parent(c)) && Bridged(after, i)
  {
  }

  lemma SwapDownKeeps<C>(before: Heap<C>, after: Heap<C>, c: int, j: int)
    requires 0 <= c < j < |before| && Parent(j) == c
    requires OrderedExceptBelow(before, c)
    requires after == before[c := before[j]][j := before[c]]
    requires before[j].expire <= before[c].expire
    requires forall k {:trigger Parent(k)} :: 0 < k < |before| && Parent(k) == c ==>
               before[j].expire <= before[k].expire
    ensures OrderedExceptBelow(after, j)
  {
  }

  lemma PrefixIsOrdered<C>(h: Heap<C>, n: nat)
    requires HeapOrdered(h) && n <= |h|
    ensures HeapOrdered(h[..n])
  {
  }

  lemma RemovalKeepsTheRest<C>(before: Heap<C>, after: Heap<C>, i: int)
    requires HeapOrdered(before) && 0 <= i < |before| - 1
    requires after == before[i := before[|before| - 1]][|before| - 1 := before[i]][..|before| - 1]
    ensures OrderedExceptAt(after, i)
  {
  }
}
