/**
  The crystal-structure vocabulary the carving procedure works on: points,
  the lattice collaborator, atoms and structures, and the two pieces of
  Python arithmetic (ceil, negative list indexing) the procedure relies on.
 */
module Geometry {
  import opened Outcomes

  /** A triple of reals: fractional or Cartesian coordinates, or the semi-axes (a, b, c). */
  datatype Vec = Vec(x: real, y: real, z: real)

  /**
    The lattice collaborator. Its coordinate transforms and its metric
    distance are foreign numeric routines; the model assumes nothing of them
    beyond being functions (the same input always gives the same output).
   */
  datatype Lattice = Lattice(
    fractional: Vec -> Vec,
    cartesian: Vec -> Vec,
    dist: (Vec, Vec) -> real)

  /**
    An atom: fractional coordinates plus properties the carving never
    interprets and must carry over verbatim.
   */
  datatype Atom = Atom(element: string, xyz: Vec, name: string, occupancy: real, uij: seq<real>)

  /** An ordered list of atoms together with the lattice they live in. */
  datatype Structure = Structure(lattice: Lattice, atoms: seq<Atom>)

  /** Replication counts along the three lattice axes, as handed to the supercell collaborator. */
  datatype Counts = Counts(m: int, n: int, o: int)

  /** The smallest integer not below r (Python's `math.ceil`). */
  function Ceil(r: real): (n: int)
    ensures r <= n as real < r + 1.0
  {
    -((-r).Floor)
  }

  /** Ceil is the only integer in [r, r + 1). */
  lemma CeilUnique(r: real, n: int)
    requires r <= n as real < r + 1.0
    ensures n == Ceil(r)
  {
  }

  /**
    Python's `xs[i]` on a list of length len: non-negative indices count from
    the front, negative ones from the back, and anything else is an IndexError
    (None here).
   */
  function PyIndex(i: int, len: nat): (r: Option<nat>)
    ensures r.Some? <==> -(len as int) <= i < len
    ensures r.Some? ==> r.value < len && (r.value as int - i) % len == 0
  {
    if 0 <= i < len then Some(i)
    else if -(len as int) <= i < 0 then Some(len + i)
    else None
  }
}
