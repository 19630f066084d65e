/**
  Locating the approximate center atom of a structure: the atom whose
  fractional position is lattice-closest to (0.5, 0.5, 0.5). The scan keeps
  the quirks of `findCenter`: the best distance starts at the atom count rather
  than at infinity, ties keep the earlier atom, and "not found" is -1.
 */
module CenterFinder {
  import opened Geometry

  /** The canonical center of the unit cell, in fractional coordinates. */
  const Center: Vec := Vec(0.5, 0.5, 0.5)

  /** Lattice distance from atom k to the canonical center. */
  function CenterDist(s: Structure, k: nat): real
    requires k < |s.atoms|
  {
    s.lattice.dist(s.atoms[k].xyz, Center)
  }

  /** The distances of all atoms to the canonical center, in atom order. */
  function Distances(s: Structure): (ds: seq<real>)
    ensures |ds| == |s.atoms|
    ensures forall k :: 0 <= k < |ds| ==> ds[k] == CenterDist(s, k)
  {
    seq(|s.atoms|, k requires 0 <= k < |s.atoms| => CenterDist(s, k))
  }

  /**
    Among the first n distances, index k holds the smallest, that smallest
    value is below bound, and no earlier index reaches it.
   */
  ghost predicate FirstMinOfPrefix(ds: seq<real>, n: int, k: int, bound: real)
  {
    && 0 <= k < n <= |ds|
    && ds[k] < bound
    && (forall i :: 0 <= i < n ==> ds[k] <= ds[i])
    && (forall i :: 0 <= i < k ==> ds[k] < ds[i])
  }

  /**
    The specification of the scan's answer r: -1 when no distance is below
    the bound, otherwise the first index of the minimum distance.
   */
  ghost predicate IsFirstMinBelow(ds: seq<real>, bound: real, r: int)
  {
    if r == -1 then forall i :: 0 <= i < |ds| ==> bound <= ds[i]
    else FirstMinOfPrefix(ds, |ds|, r, bound)
  }

  /** What the scan knows after looking at the first i distances. */
  ghost predicate ScanState(ds: seq<real>, i: int, best: int, bestd: real, bound: real)
  {
    && 0 <= i <= |ds|
    && (|| (best == -1 && bestd == bound && forall k :: 0 <= k < i ==> bound <= ds[k])
        || (FirstMinOfPrefix(ds, i, best, bound) && bestd == ds[best]))
  }

  /**
    The scan loop from index i on, with best index and best distance so far;
    a candidate replaces the best only when strictly closer.
   */
  function Scan(ds: seq<real>, i: nat, best: int, bestd: real, bound: real): (r: int)
    requires i <= |ds|
    requires ScanState(ds, i, best, bestd, bound)
    ensures IsFirstMinBelow(ds, bound, r)
    decreases |ds| - i
  {
    if i == |ds| then best
    else if ds[i] < bestd then Scan(ds, i + 1, i, ds[i], bound)
    else Scan(ds, i + 1, best, bestd, bound)
  }

  /**
    The index of the center atom, or -1. The sentinel distance is the number
    of atoms, so -1 comes back exactly when no atom lies closer to the center
    than that count, which includes the empty structure.
   */
  function FindCenter(s: Structure): (r: int)
    ensures -1 <= r < |s.atoms|
    ensures r == -1 <==> forall k :: 0 <= k < |s.atoms| ==> |s.atoms| as real <= CenterDist(s, k)
    ensures r != -1 ==> CenterDist(s, r) < |s.atoms| as real
    ensures r != -1 ==> forall k :: 0 <= k < |s.atoms| ==> CenterDist(s, r) <= CenterDist(s, k)
    ensures r != -1 ==> forall k :: 0 <= k < r ==> CenterDist(s, r) < CenterDist(s, k)
  {
    var ds := Distances(s);
    Scan(ds, 0, -1, |ds| as real, |ds| as real)
  }

  /** The specification pins the answer down: FindCenter is the only index meeting it. */
  lemma FindCenterUnique(s: Structure, r: int)
    requires IsFirstMinBelow(Distances(s), |s.atoms| as real, r)
    ensures r == FindCenter(s)
  {
  }

  /** On a tie in distance the earlier atom wins, so the later one is never chosen. */
  lemma TieKeepsEarlier(s: Structure, i: nat, j: nat)
    requires i < j < |s.atoms|
    requires CenterDist(s, i) == CenterDist(s, j)
    ensures FindCenter(s) != j
  {
  }

  /**
    The sentinel is an atom count compared with a length: a one-atom structure
    whose atom lies 10 length units from the center gets no center (-1), and
    Python's indexing then reads the last atom instead.
   */
  lemma DistantSingleAtomHasNoCenter()
    ensures
      var lat := Lattice(v => v, v => v, (u, v) => 10.0);
      var s := Structure(lat, [Atom("Ni", Vec(0.0, 0.0, 0.0), "Ni1", 1.0, [])]);
      FindCenter(s) == -1 && PyIndex(FindCenter(s), |s.atoms|) == Outcomes.Some(0)
  {
  }
}
