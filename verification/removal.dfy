/**
  Removing list elements by index, one `pop` at a time. Popping an index
  shifts every later element down by one, so the indices to remove are
  popped from the highest down: then each pop still finds its element where
  it was in the original list.
 */
module Removal {

  /** Every later entry is strictly smaller than every earlier one. */
  ghost predicate StrictlyDecreasing(ds: seq<int>)
  {
    forall i, j :: 0 <= i < j < |ds| ==> ds[i] > ds[j]
  }

  /** The entries of ds, as a set of indices. */
  function Elems(ds: seq<int>): set<int>
  {
    set k | k in ds
  }

  /**
    The elements of xs at positions lo, lo + 1, ... that are not in del, in
    their original order: the reference meaning of "remove the indices del".
   */
  function WithoutFrom<T>(xs: seq<T>, del: set<int>, lo: nat): (r: seq<T>)
    requires lo <= |xs|
    ensures |r| <= |xs| - lo
    decreases |xs| - lo
  {
    if lo == |xs| then []
    else (if lo in del then [] else [xs[lo]]) + WithoutFrom(xs, del, lo + 1)
  }

  /** A run of positions none of which is removed comes through unchanged. */
  lemma {:induction false} WithoutUnmarkedRun<T>(xs: seq<T>, del: set<int>, lo: nat, hi: nat)
    requires lo <= hi <= |xs|
    requires forall k :: lo <= k < hi ==> k !in del
    ensures WithoutFrom(xs, del, lo) == xs[lo..hi] + WithoutFrom(xs, del, hi)
    decreases hi - lo
  {
    if lo == hi {
      assert xs[lo..hi] == [];
    } else {
      var tail := WithoutFrom(xs, del, hi);
      assert lo !in del;
      WithoutUnmarkedRun(xs, del, lo + 1, hi);
      calc {
        WithoutFrom(xs, del, lo);
        [xs[lo]] + WithoutFrom(xs, del, lo + 1);
        [xs[lo]] + (xs[lo + 1..hi] + tail);
        ([xs[lo]] + xs[lo + 1..hi]) + tail;
        { assert xs[lo..hi] == [xs[lo]] + xs[lo + 1..hi]; }
        xs[lo..hi] + tail;
      }
    }
  }

  /**
    One pop: if ys is xs with removals done only at or above low, popping a
    removed position p below low, with no removed positions between p and
    low, extends the removals down to p.
   */
  lemma PopStep<T>(xs: seq<T>, del: set<int>, ys: seq<T>, p: nat, low: nat)
    requires p < low <= |xs|
    requires p in del
    requires forall k :: p < k < low ==> k !in del
    requires ys == xs[..low] + WithoutFrom(xs, del, low)
    ensures ys[..p] + ys[p + 1..] == xs[..p] + WithoutFrom(xs, del, p)
  {
    var prefix := xs[..low];
    var rest := WithoutFrom(xs, del, low);
    WithoutUnmarkedRun(xs, del, p + 1, low);
    assert WithoutFrom(xs, del, p) == WithoutFrom(xs, del, p + 1);
    DropFromPrefix(prefix, rest, p);
    assert prefix[..p] == xs[..p];
    assert prefix[p + 1..] == xs[p + 1..low];
  }

  /** Dropping position p of a + b, when p falls inside a, only touches a. */
  lemma DropFromPrefix<T>(a: seq<T>, b: seq<T>, p: nat)
    requires p < |a|
    ensures (a + b)[..p] == a[..p]
    ensures (a + b)[p + 1..] == a[p + 1..] + b
  {
  }

  /**
    In a strictly decreasing list, nothing lies strictly between entry t and
    a bound that all earlier entries reach.
   */
  lemma NoneBetween(dels: seq<int>, t: nat, low: int)
    requires StrictlyDecreasing(dels)
    requires t < |dels|
    requires forall u :: 0 <= u < t ==> low <= dels[u]
    ensures forall k :: dels[t] < k < low ==> k !in Elems(dels)
  {
  }

  /** Nothing in the list lies below a bound that every entry reaches. */
  lemma NoneBelowLast(dels: seq<int>, low: int)
    requires forall u :: 0 <= u < |dels| ==> low <= dels[u]
    ensures forall k :: k < low ==> k !in Elems(dels)
  {
  }

  /**
    Pops the indices of dels from xs, in the order given (`for i in dels:
    xs.pop(i)`). When dels is strictly decreasing the result is xs with
    exactly those positions removed and the others in their original order.
   */
  method PopDescending<T>(xs: seq<T>, dels: seq<int>) returns (ys: seq<T>)
    requires StrictlyDecreasing(dels)
    requires forall k :: k in dels ==> 0 <= k < |xs|
    ensures ys == WithoutFrom(xs, Elems(dels), 0)
    ensures |ys| == |xs| - |dels|
  {
    ghost var del := Elems(dels);
    ys := xs;
    ghost var low := |xs|;
    assert forall u :: 0 <= u < |dels| ==> dels[u] in dels;
    for t := 0 to |dels|
      invariant low == (if t == 0 then |xs| else dels[t - 1])
      invariant 0 <= low <= |xs|
      invariant forall u :: t <= u < |dels| ==> dels[u] < low
      invariant forall u :: 0 <= u < t ==> low <= dels[u]
      invariant ys == xs[..low] + WithoutFrom(xs, del, low)
      invariant |ys| == |xs| - t
    {
      var p := dels[t];
      assert p in dels;
      NoneBetween(dels, t, low);
      PopStep(xs, del, ys, p, low);
      ys := ys[..p] + ys[p + 1..];
      low := p;
    }
    NoneBelowLast(dels, low);
    WithoutUnmarkedRun(xs, del, 0, low);
    assert xs[0..low] == xs[..low];
  }
}
