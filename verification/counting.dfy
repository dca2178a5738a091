/** How many slots of a sequence hold a given value; used to count threads by where they stand. */
module Counting {

  ghost function Count<T>(xs: seq<T>, x: T): nat {
    if xs == [] then 0 else (if xs[0] == x then 1 else 0) + Count(xs[1..], x)
  }

  lemma {:induction false} CountUpdate<T>(xs: seq<T>, i: nat, y: T, x: T)
    requires i < |xs|
    ensures Count(xs[i := y], x) + (if xs[i] == x then 1 else 0) == Count(xs, x) + (if y == x then 1 else 0)
  {
    if i == 0 {
      assert xs[0 := y][1..] == xs[1..];
    } else {
      assert xs[i := y][1..] == xs[1..][i - 1 := y];
      CountUpdate(xs[1..], i - 1, y, x);
    }
  }

  lemma {:induction false} CountConcat<T>(xs: seq<T>, ys: seq<T>, x: T)
    ensures Count(xs + ys, x) == Count(xs, x) + Count(ys, x)
  {
    if xs == [] {
      assert xs + ys == ys;
    } else {
      assert (xs + ys)[1..] == xs[1..] + ys;
      CountConcat(xs[1..], ys, x);
    }
  }

  lemma {:induction false} CountedIsIn<T>(xs: seq<T>, x: T)
    ensures Count(xs, x) > 0 <==> x in xs
  {
    if xs != [] {
      CountedIsIn(xs[1..], x);
      assert x in xs <==> x == xs[0] || x in xs[1..];
    }
  }

  /** If every slot either holds x in both sequences or in neither, the counts agree. */
  lemma {:induction false} CountSame<T>(xs: seq<T>, ys: seq<T>, x: T)
    requires |xs| == |ys| && forall i :: 0 <= i < |xs| ==> (xs[i] == x <==> ys[i] == x)
    ensures Count(xs, x) == Count(ys, x)
  {
    if xs != [] {
      CountSame(xs[1..], ys[1..], x);
    }
  }

  ghost predicate Distinct<T>(xs: seq<T>) {
    forall i, j :: 0 <= i < j < |xs| ==> xs[i] != xs[j]
  }

  /** Each value occurs equally often in both. */
  ghost predicate Permutation<T(!new)>(xs: seq<T>, ys: seq<T>) {
    forall x: T :: Count(xs, x) == Count(ys, x)
  }

  lemma {:induction false} DistinctCountsOne<T>(xs: seq<T>, x: T)
    requires Distinct(xs)
    ensures Count(xs, x) <= 1
  {
    if xs != [] {
      DistinctCountsOne(xs[1..], x);
      if xs[0] == x {
        CountedIsIn(xs[1..], x);
      }
    }
  }

  lemma {:induction false} TwoSlotsCountTwo<T>(xs: seq<T>, i: nat, j: nat)
    requires i < j < |xs| && xs[i] == xs[j]
    ensures Count(xs, xs[i]) >= 2
  {
    if i > 0 {
      TwoSlotsCountTwo(xs[1..], i - 1, j - 1);
    } else {
      assert xs[1..][j - 1] == xs[0];
      CountedIsIn(xs[1..], xs[0]);
    }
  }
}
