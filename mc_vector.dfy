// Three-dimensional vectors of src/data/mc_vector.rs, over exact reals.

module McVector {
  datatype MCVector = MCVector(x: real, y: real, z: real)
  {
    /** Component-wise difference (the Sub impl). */
    function Minus(vv: MCVector): MCVector
    {
      MCVector(x - vv.x, y - vv.y, z - vv.z)
    }

    /** Scalar product (dot). */
    function Dot(vv: MCVector): real
    {
      x * vv.x + y * vv.y + z * vv.z
    }
  }

  function Sq(v: real): real
  {
    v * v
  }

  /** Squared distance between two points, as nearest_center computes it:
      the sum of the squared component differences. */
  function Dist2(a: MCVector, b: MCVector): (r: real)
    ensures r >= 0.0
    ensures r == Sq(a.x - b.x) + Sq(a.y - b.y) + Sq(a.z - b.z)
  {
    var d := a.Minus(b);
    d.Dot(d)
  }
}
