/** Three-component vectors (`Vector3<double>`, with `real` in place of `double`)
    and the triclinic simulation box built from three of them. */
module Vector3 {

  datatype Vec3 = Vec3(x: real, y: real, z: real)

  const Zero: Vec3 := Vec3(0.0, 0.0, 0.0)

  function Sub(a: Vec3, b: Vec3): Vec3 {
    Vec3(a.x - b.x, a.y - b.y, a.z - b.z)
  }

  /** The three Cartesian directions; the computes keep one table per direction. */
  datatype Axis = X | Y | Z

  function Coord(v: Vec3, ax: Axis): real {
    match ax
    case X => v.x
    case Y => v.y
    case Z => v.z
  }

  function Square(v: real): (r: real)
    ensures r >= 0.0
  {
    v * v
  }

  /** `acc` with the square of each component of `diff` added on its axis. */
  function AddSquares(acc: Vec3, diff: Vec3): (r: Vec3)
    ensures forall ax :: Coord(r, ax) == Coord(acc, ax) + Square(Coord(diff, ax))
  {
    Vec3(acc.x + Square(diff.x), acc.y + Square(diff.y), acc.z + Square(diff.z))
  }

  /** A periodic cell spanned by three arbitrary lattice vectors; no validity check. */
  datatype TriclinicBox = TriclinicBox(v1: Vec3, v2: Vec3, v3: Vec3)
}
