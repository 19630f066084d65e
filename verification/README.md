# Ellipsoidal nanoparticle carving, modelled in Dafny

This project models `makeEllipsoid` and `findCenter` from diffpy.Structure's
`Structure/expansion/makeEllipsoid.py`. Together they cut an ellipsoidal (by
default spherical) nanoparticle out of a periodic crystal structure. The
carving takes three steps:

1. It sizes a supercell so the ellipsoid fits: along each lattice axis it asks
   for `ceil(2 * f)` cells, where `f` is the fractional extent of the
   semi-axis vector `(a, b, c)`.
2. It finds the supercell's center atom. This is the first atom whose lattice
   distance to the fractional point `(0.5, 0.5, 0.5)` is smallest. The scan's
   sentinel is the atom count, and its "not found" answer is `-1`.
3. It marks, from the highest index down, every atom whose normalised
   distance `((x-cx)/a)^2 + ((y-cy)/b)^2 + ((z-cz)/c)^2` exceeds 1. It then
   pops the marked indices in that descending order.

The model treats the lattice as a value holding three uninterpreted
functions: `fractional`, `cartesian` and `dist`. The supercell collaborator
is a function parameter. Nothing is assumed about either beyond the fact
that they are functions: each always returns a value, and the same value
for the same input. Exceptions they may raise are not modelled.

Modules:

- `Outcomes` (`outcomes.dfy`): `Option` and `Result`.
- `Geometry` (`geometry.dfy`): points, lattice, atoms, structures,
  replication counts, Python's `ceil` and Python's list indexing.
- `CenterFinder` (`center_finder.dfy`): `findCenter` as a recursive scan that
  mirrors the loop. It is checked against a first-minimum specification.
- `Removal` (`removal.dfy`): popping list indices in strictly decreasing
  order, proved equal to "remove exactly these positions, keep the rest in
  order".
- `Ellipsoid` (`ellipsoid.dfy`): the axis defaults, the replication counts,
  the membership test and the carving. The carving appears twice:
  - `Carve` is a single filtering pass.
  - `MakeEllipsoid` is `makeEllipsoid`'s own mark-then-pop procedure, proved equal
    to `Carve`.

For behaviour the docstrings do not state, the model follows the code:

- The code never raises an "empty structure" error. `findCenter` returns
  `-1`, and `newS[-1]` on an empty supercell raises Python's `IndexError`.
  The model returns `Err(IndexError)` in exactly that case.
- The code does not validate the semi-axes. A negative semi-axis is
  harmless in the membership test, where it is squared. In the sizing it can
  give a non-positive replication count, which `supercell` receives
  unchecked (`Ellipsoid.NegativeAxisCanRequestNoCells`). A zero semi-axis
  would divide by zero, which is floating-point behaviour (see Left out).
  The model therefore requires non-zero semi-axes.
- Replication counts are not clamped to at least 1.
  `Ellipsoid.PositiveExtentNeedsACell` shows that a count is at least 1
  exactly when the fractional extent on that axis is positive.
- `findCenter`'s `-1` can surface even for a non-empty structure: the
  sentinel compares a length with an atom count, so a one-atom structure
  whose atom is 10 length units from the center gets `-1`
  (`CenterFinder.DistantSingleAtomHasNoCenter`). Python's negative indexing
  then makes the last atom the center, and the model keeps that behaviour
  (`Ellipsoid.CenterIndex`).

## Model

| member | source | states |
|---|---|---|
| Geometry.Ceil | Structure/expansion/makeEllipsoid.py:29 | `ceil` returns an integer n with r <= n < r + 1 |
| Geometry.CeilUnique | Structure/expansion/makeEllipsoid.py:29 | any integer in [r, r + 1) is `Ceil(r)`, so the replication count is determined uniquely |
| Geometry.PyIndex | Structure/expansion/makeEllipsoid.py:38 | Python indexing succeeds exactly for -len <= i < len, and lands on a position congruent to i modulo len |
| CenterFinder.Scan | Structure/expansion/makeEllipsoid.py:68-78 | from any loop state consistent with the prefix scanned so far, the strict-less-than scan ends with -1 if no distance is below the sentinel, and otherwise with the first index of the minimum |
| CenterFinder.FindCenter | Structure/expansion/makeEllipsoid.py:61-78 | the result is -1 or a valid index; it is -1 iff no atom is closer than the atom count (so always for an empty structure); otherwise the chosen atom's distance is below the count and is the minimum, and every earlier atom is strictly farther |
| CenterFinder.FindCenterUnique | Structure/expansion/makeEllipsoid.py:72-76 | any index meeting the first-minimum specification is the one `FindCenter` returns |
| CenterFinder.TieKeepsEarlier | Structure/expansion/makeEllipsoid.py:74-76 | when two atoms are equally close, the later one is never chosen |
| CenterFinder.DistantSingleAtomHasNoCenter | Structure/expansion/makeEllipsoid.py:68-69 | a non-empty structure can get -1, and Python indexing then reads its last atom |
| Removal.WithoutUnmarkedRun | Structure/expansion/makeEllipsoid.py:56-57 | a run of positions with no removals survives unchanged, ahead of what follows |
| Removal.PopDescending | Structure/expansion/makeEllipsoid.py:56-57 | popping a strictly decreasing list of in-range indices removes exactly those positions and keeps the rest in order; the length drops by the number popped |
| Ellipsoid.ResolveAxes | Structure/expansion/makeEllipsoid.py:23-25 | an omitted b or c equals a; a given one is used as is |
| Ellipsoid.DefaultIsSphere | Structure/expansion/makeEllipsoid.py:23-24 | with b and c omitted, the semi-axes are (a, a, a) |
| Ellipsoid.ReplicationCounts | Structure/expansion/makeEllipsoid.py:28-29 | on every axis, count >= 2 * fractional extent and count - 1 < 2 * fractional extent |
| Ellipsoid.PositiveExtentNeedsACell | Structure/expansion/makeEllipsoid.py:28-29 | an axis asks for at least one cell exactly when its fractional extent is positive |
| Ellipsoid.NegativeAxisCanRequestNoCells | Structure/expansion/makeEllipsoid.py:25-29 | with the identity lattice, every negative semi-axis a (whatever b and c are) gives a non-positive replication count on the first axis |
| Ellipsoid.NormSq | Structure/expansion/makeEllipsoid.py:47-50 | the normalised squared distance is non-negative and is 0 at the center itself |
| Ellipsoid.SqrtThreshold | Structure/expansion/makeEllipsoid.py:50-53 | for a non-negative sum s with square root d, d > 1 iff s > 1, so the test can be made on s |
| Ellipsoid.Outside | Structure/expansion/makeEllipsoid.py:47-53 | an atom is discarded exactly when the non-negative square root d of its normalised squared distance satisfies d > 1; an atom at the center itself is never discarded |
| Ellipsoid.KeepInside | Structure/expansion/makeEllipsoid.py:41-57 | the kept atoms are exactly the input atoms with normalised distance <= 1 (the boundary is kept), and there are no more of them than input atoms |
| Ellipsoid.KeepInsideRemovesMarked | Structure/expansion/makeEllipsoid.py:41-57 | keeping the inside atoms equals removing exactly the marked positions, so the kept atoms keep their relative order |
| Ellipsoid.KeepInsideAllInside | Structure/expansion/makeEllipsoid.py:52-57 | if no atom is outside, the structure's atoms come back unchanged |
| Ellipsoid.MarkOutside | Structure/expansion/makeEllipsoid.py:41-54 | the scan from N-1 down to 0 yields a strictly decreasing list holding exactly the positions of atoms whose normalised distance exceeds 1 |
| Ellipsoid.CenterIndex | Structure/expansion/makeEllipsoid.py:36-38 | a center exists iff the supercell is non-empty; it is `findCenter`'s index, or the last atom when `findCenter` gives -1 |
| Ellipsoid.Carve | Structure/expansion/makeEllipsoid.py:32-59 | the carving as one filtering pass fails exactly when the supercell is empty; otherwise it returns the supercell's lattice and at most the supercell's atoms, all drawn from the supercell (`Ellipsoid.CarveProperties` adds center retention, the lower bound of 1 and the ellipsoid bound) |
| Ellipsoid.CarveProperties | Structure/expansion/makeEllipsoid.py:32-59 | the carving fails only on an empty supercell; otherwise it keeps the supercell's lattice, keeps the center atom, returns between 1 and N atoms, and every kept atom is a supercell atom within the ellipsoid |
| Ellipsoid.SphereDefaultMatchesExplicit | Structure/expansion/makeEllipsoid.py:23-24 | carving with b and c omitted equals carving with b = c = a |
| Ellipsoid.MakeEllipsoid | Structure/expansion/makeEllipsoid.py:10-59 | the mark-then-pop procedure produces exactly the single-pass filter `Carve` |

## Left out

- The `__main__` driver (lines 80-99): it only reads and writes structure files in `pdffit` format, which is I/O.
- `supercell`, `fractional`, `cartesian` and `dist` are assumed to return a value; exceptions they may raise are not modelled (for example `supercell` rejecting the non-positive count of `Ellipsoid.NegativeAxisCanRequestNoCells`). "Fails exactly when the supercell is empty" holds only under that assumption.
- The supercell replication (lines 31-32): its source is not part of this model. It is a function parameter with no assumed behaviour.
- The lattice transforms `fractional` and `cartesian`, and the metric `dist`: these are foreign numeric routines. They are uninterpreted function fields.
- Floating point: all arithmetic is over mathematical reals. The square root at line 50 is not computed. The test compares the squared sum with 1, which `Ellipsoid.SqrtThreshold` justifies.
- Zero semi-axes: numpy division by zero yields `inf`/`nan` rather than an exception. That is floating-point behaviour, so the carving requires non-zero semi-axes.
- Python 2's `ceil` returns a float: the replication counts are modelled as integers with the same value.
- The lattice base diagonal `abc` at line 39 is computed but never used.
