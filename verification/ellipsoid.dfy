/**
  Carving an ellipsoidal nanoparticle out of a crystal: size and request a
  supercell, pick its center atom, and drop every atom whose normalised
  ellipsoid distance from the center exceeds 1.
 */
module Ellipsoid {
  import opened Outcomes
  import opened Geometry
  import CenterFinder
  import Removal

  /**
    The one way the carving itself fails: indexing the center of an empty
    supercell. The lattice routines and the supercell collaborator are taken
    to always return.
   */
  datatype CarveError = IndexError

  /** Semi-axes (a, b, c), with an omitted b or c taking the value of a. */
  function ResolveAxes(a: real, b: Option<real>, c: Option<real>): (axes: Vec)
    ensures axes.x == a
    ensures b.None? ==> axes.y == a
    ensures b.Some? ==> axes.y == b.value
    ensures c.None? ==> axes.z == a
    ensures c.Some? ==> axes.z == c.value
  {
    Vec(a, if b.Some? then b.value else a, if c.Some? then c.value else a)
  }

  /** The normalisation divides by each semi-axis, so none may be zero. */
  predicate NonZeroAxes(axes: Vec)
  {
    axes.x != 0.0 && axes.y != 0.0 && axes.z != 0.0
  }

  /** The default case is the sphere of radius a. */
  lemma DefaultIsSphere(a: real)
    ensures ResolveAxes(a, None, None) == Vec(a, a, a)
  {
  }

  /**
    Unit cells to request along each lattice axis: the ceiling of twice the
    fractional extent of the semi-axis vector, so that the supercell spans
    the full diameter along that axis.
   */
  function ReplicationCounts(lat: Lattice, axes: Vec): (mno: Counts)
    ensures var f := lat.fractional(axes);
      && 2.0 * f.x <= mno.m as real < 2.0 * f.x + 1.0
      && 2.0 * f.y <= mno.n as real < 2.0 * f.y + 1.0
      && 2.0 * f.z <= mno.o as real < 2.0 * f.z + 1.0
  {
    var f := lat.fractional(axes);
    Counts(Ceil(2.0 * f.x), Ceil(2.0 * f.y), Ceil(2.0 * f.z))
  }

  /** An axis asks for at least one cell exactly when its fractional extent is positive. */
  lemma PositiveExtentNeedsACell(lat: Lattice, axes: Vec)
    ensures var f := lat.fractional(axes);
      var mno := ReplicationCounts(lat, axes);
      && (f.x > 0.0 <==> mno.m >= 1)
      && (f.y > 0.0 <==> mno.n >= 1)
      && (f.z > 0.0 <==> mno.o >= 1)
  {
  }

  /**
    The semi-axes are not validated: a negative one passes through the
    sizing and asks the supercell collaborator for no cells at all.
   */
  lemma NegativeAxisCanRequestNoCells(a: real, b: real, c: real)
    requires a < 0.0
    ensures ReplicationCounts(Lattice(v => v, v => v, (u, v) => 0.0), Vec(a, b, c)).m <= 0
  {
  }

  function Sq(r: real): real
  {
    r * r
  }

  /** ((x-cx)/a)^2 + ((y-cy)/b)^2 + ((z-cz)/c)^2: the squared normalised distance of p from center. */
  function NormSq(p: Vec, center: Vec, axes: Vec): (s: real)
    requires NonZeroAxes(axes)
    ensures s >= 0.0
    ensures p == center ==> s == 0.0
  {
    Sq((p.x - center.x) / axes.x) + Sq((p.y - center.y) / axes.y) + Sq((p.z - center.z) / axes.z)
  }

  /**
    Comparing the square root of a non-negative sum with 1 is the same as
    comparing the sum itself with 1, so the model needs no square root.
   */
  lemma SqrtThreshold(s: real, d: real)
    requires 0.0 <= d && d * d == s
    ensures d > 1.0 <==> s > 1.0
  {
    if d > 1.0 {
      assert d * d > d * 1.0;
    } else {
      assert d * d <= d * 1.0;
    }
  }

  /** Every non-negative square root of s lies above 1 exactly when s does. */
  lemma SqrtThresholdAll(s: real)
    ensures forall d :: 0.0 <= d && Sq(d) == s ==> (d > 1.0 <==> s > 1.0)
  {
    forall d | 0.0 <= d && Sq(d) == s
      ensures d > 1.0 <==> s > 1.0
    {
      SqrtThreshold(s, d);
    }
  }

  /**
    An atom is discarded when its normalised distance d from the center, the
    square root of NormSq, exceeds 1; the atom at the center never is.
   */
  predicate Outside(lat: Lattice, center: Vec, axes: Vec, atom: Atom): (o: bool)
    requires NonZeroAxes(axes)
    ensures forall d :: 0.0 <= d && Sq(d) == NormSq(lat.cartesian(atom.xyz), center, axes) ==> (o <==> d > 1.0)
    ensures lat.cartesian(atom.xyz) == center ==> !o
  {
    SqrtThresholdAll(NormSq(lat.cartesian(atom.xyz), center, axes));
    NormSq(lat.cartesian(atom.xyz), center, axes) > 1.0
  }

  /**
    The atoms kept by the carving, in their original order: those whose
    normalised distance is at most 1 (the boundary is kept).
   */
  function KeepInside(atoms: seq<Atom>, lat: Lattice, center: Vec, axes: Vec): (kept: seq<Atom>)
    requires NonZeroAxes(axes)
    ensures |kept| <= |atoms|
    ensures forall x :: x in kept <==> x in atoms && !Outside(lat, center, axes, x)
    decreases |atoms|
  {
    if |atoms| == 0 then []
    else
      (if Outside(lat, center, axes, atoms[0]) then [] else [atoms[0]])
      + KeepInside(atoms[1..], lat, center, axes)
  }

  /** Positions of the atoms the carving discards. */
  ghost function Marked(atoms: seq<Atom>, lat: Lattice, center: Vec, axes: Vec): set<int>
    requires NonZeroAxes(axes)
  {
    set k | 0 <= k < |atoms| && Outside(lat, center, axes, atoms[k])
  }

  /**
    Keeping the inside atoms is the same as removing exactly the marked
    positions: the kept atoms stay in their original relative order.
   */
  lemma {:induction false} KeepInsideRemovesMarked(atoms: seq<Atom>, lat: Lattice, center: Vec, axes: Vec, lo: nat)
    requires NonZeroAxes(axes)
    requires lo <= |atoms|
    ensures Removal.WithoutFrom(atoms, Marked(atoms, lat, center, axes), lo)
         == KeepInside(atoms[lo..], lat, center, axes)
    decreases |atoms| - lo
  {
    if lo < |atoms| {
      KeepInsideRemovesMarked(atoms, lat, center, axes, lo + 1);
      assert atoms[lo..][1..] == atoms[lo + 1..];
    }
  }

  /** When no atom is outside, nothing is removed. */
  lemma {:induction false} KeepInsideAllInside(atoms: seq<Atom>, lat: Lattice, center: Vec, axes: Vec)
    requires NonZeroAxes(axes)
    requires forall k :: 0 <= k < |atoms| ==> !Outside(lat, center, axes, atoms[k])
    ensures KeepInside(atoms, lat, center, axes) == atoms
    decreases |atoms|
  {
    if |atoms| > 0 {
      KeepInsideAllInside(atoms[1..], lat, center, axes);
      assert atoms == [atoms[0]] + atoms[1..];
    }
  }

  /**
    The marking loop: walks j from the last atom down to the first and
    records each atom outside the ellipsoid, so the list comes out strictly
    decreasing and holds exactly the outside positions.
   */
  method MarkOutside(atoms: seq<Atom>, lat: Lattice, center: Vec, axes: Vec) returns (delList: seq<int>)
    requires NonZeroAxes(axes)
    ensures Removal.StrictlyDecreasing(delList)
    ensures forall k :: k in delList <==> 0 <= k < |atoms| && Outside(lat, center, axes, atoms[k])
  {
    delList := [];
    var n := |atoms|;
    var j := n;
    for i := 0 to n
      invariant j == n - i
      invariant Removal.StrictlyDecreasing(delList)
      invariant forall k :: k in delList ==> j <= k < n && Outside(lat, center, axes, atoms[k])
      invariant forall k :: j <= k < n && Outside(lat, center, axes, atoms[k]) ==> k in delList
    {
      j := j - 1;
      if Outside(lat, center, axes, atoms[j]) {
        assert forall u :: 0 <= u < |delList| ==> delList[u] in delList;
        delList := delList + [j];
      }
    }
  }

  /**
    The center position (in the supercell's Cartesian frame) the carving
    measures from: the atom FindCenter names, read with Python indexing, so
    -1 stands for the last atom; None for an empty supercell.
   */
  function CenterIndex(s: Structure): (ci: Option<nat>)
    ensures ci.Some? <==> |s.atoms| > 0
    ensures ci.Some? ==> ci.value < |s.atoms|
    ensures ci.Some? && CenterFinder.FindCenter(s) != -1 ==> ci.value == CenterFinder.FindCenter(s)
    ensures ci.Some? && CenterFinder.FindCenter(s) == -1 ==> ci.value == |s.atoms| - 1
  {
    PyIndex(CenterFinder.FindCenter(s), |s.atoms|)
  }

  /** The supercell the carving requests for semi-axes (a, b, c). */
  function Supercell(s: Structure, a: real, b: Option<real>, c: Option<real>,
                     supercell: (Structure, Counts) -> Structure): Structure
  {
    supercell(s, ReplicationCounts(s.lattice, ResolveAxes(a, b, c)))
  }

  /**
    The carving, as a single filtering pass: the supercell's atoms that lie
    within the ellipsoid about the center atom, in their original order, on
    the supercell's lattice.
   */
  function Carve(s: Structure, a: real, b: Option<real>, c: Option<real>,
                 supercell: (Structure, Counts) -> Structure): (r: Result<Structure, CarveError>)
    requires NonZeroAxes(ResolveAxes(a, b, c))
    ensures r.Err? <==> |Supercell(s, a, b, c, supercell).atoms| == 0
    ensures r.Ok? ==> r.value.lattice == Supercell(s, a, b, c, supercell).lattice
    ensures r.Ok? ==> |r.value.atoms| <= |Supercell(s, a, b, c, supercell).atoms|
    ensures r.Ok? ==> forall x :: x in r.value.atoms ==> x in Supercell(s, a, b, c, supercell).atoms
  {
    var axes := ResolveAxes(a, b, c);
    var newS := Supercell(s, a, b, c, supercell);
    match CenterIndex(newS)
    case None => Err(IndexError)
    case Some(ci) =>
      var center := newS.lattice.cartesian(newS.atoms[ci].xyz);
      Ok(Structure(newS.lattice, KeepInside(newS.atoms, newS.lattice, center, axes)))
  }

  /**
    What the carving guarantees: it fails only on an empty supercell; it
    keeps the supercell's lattice; every atom it keeps came from the supercell
    and lies within the ellipsoid; the center atom is always kept, so at
    least one atom and at most the supercell's atoms come out.
   */
  lemma CarveProperties(s: Structure, a: real, b: Option<real>, c: Option<real>,
                        supercell: (Structure, Counts) -> Structure)
    requires NonZeroAxes(ResolveAxes(a, b, c))
    ensures var newS := Supercell(s, a, b, c, supercell);
      var r := Carve(s, a, b, c, supercell);
      && (r.Err? <==> |newS.atoms| == 0)
      && (r.Ok? ==>
            var ci := CenterIndex(newS).value;
            var center := newS.lattice.cartesian(newS.atoms[ci].xyz);
            && r.value.lattice == newS.lattice
            && 1 <= |r.value.atoms| <= |newS.atoms|
            && newS.atoms[ci] in r.value.atoms
            && (forall x :: x in r.value.atoms ==>
                  x in newS.atoms && NormSq(newS.lattice.cartesian(x.xyz), center, ResolveAxes(a, b, c)) <= 1.0))
  {
    var newS := Supercell(s, a, b, c, supercell);
    if |newS.atoms| > 0 {
      var axes := ResolveAxes(a, b, c);
      var ci := CenterIndex(newS).value;
      var center := newS.lattice.cartesian(newS.atoms[ci].xyz);
      assert !Outside(newS.lattice, center, axes, newS.atoms[ci]);
      assert newS.atoms[ci] in KeepInside(newS.atoms, newS.lattice, center, axes);
    }
  }

  /** Omitting b and c is the same as passing a for both. */
  lemma SphereDefaultMatchesExplicit(s: Structure, a: real, supercell: (Structure, Counts) -> Structure)
    requires a != 0.0
    ensures Carve(s, a, None, None, supercell) == Carve(s, a, Some(a), Some(a), supercell)
  {
  }

  /**
    The carving as `makeEllipsoid` performs it: mark the outside atoms from the
    highest index down, then pop the marked indices in that order.
   */
  method MakeEllipsoid(s: Structure, a: real, b: Option<real>, c: Option<real>,
                       supercell: (Structure, Counts) -> Structure) returns (r: Result<Structure, CarveError>)
    requires NonZeroAxes(ResolveAxes(a, b, c))
    ensures r == Carve(s, a, b, c, supercell)
  {
    var axes := ResolveAxes(a, b, c);
    var mno := ReplicationCounts(s.lattice, axes);
    var newS := supercell(s, mno);
    var lat := newS.lattice;
    var ncenter := CenterFinder.FindCenter(newS);
    var ci := PyIndex(ncenter, |newS.atoms|);
    if ci.None? {
      return Err(IndexError);
    }
    var center := lat.cartesian(newS.atoms[ci.value].xyz);
    var delList := MarkOutside(newS.atoms, lat, center, axes);
    var kept := Removal.PopDescending(newS.atoms, delList);
    assert Removal.Elems(delList) == Marked(newS.atoms, lat, center, axes);
    KeepInsideRemovesMarked(newS.atoms, lat, center, axes, 0);
    assert newS.atoms[0..] == newS.atoms;
    r := Ok(Structure(lat, kept));
  }
}
