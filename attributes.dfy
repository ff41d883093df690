/**
 * The attribute hooks Cork plugs into its mesh engine (src/cork.cpp:42-105):
 * what a vertex becomes when two vertices merge, when an edge is
 * interpolated, or when an intersection point is created, and what a
 * triangle carries over when it is merged, split, moved or subdivided.
 *
 * Each hook assigns to the object it is called on; here it is a function
 * from the old value of that object (`self`) to the new one. Only the fields
 * the hooks use are modelled: the position and manifold flag of a vertex and
 * the Boolean label `bool_alg_data` of a triangle.
 */
module Attributes {
  import opened MeshTypes

  datatype CorkVertex = CorkVertex(pos: Vec3, manifold: bool)

  datatype CorkTriangle = CorkTriangle(boolAlgData: nat)

  /** `a0 * p + a1 * q`. */
  function Blend(a0: real, p: Vec3, a1: real, q: Vec3): Vec3
  {
    Vec3(a0 * p.x + a1 * q.x, a0 * p.y + a1 * q.y, a0 * p.z + a1 * q.z)
  }

  function Midpoint(p: Vec3, q: Vec3): Vec3
  {
    Vec3((p.x + q.x) / 2.0, (p.y + q.y) / 2.0, (p.z + q.z) / 2.0)
  }

  /** The weight `a0` of `v0` in `merge`: a half, unless exactly one side is manifold. */
  function MergeWeight(v0: CorkVertex, v1: CorkVertex): (a0: real)
    ensures a0 == 0.0 || a0 == 0.5 || a0 == 1.0
  {
    var a0 := 0.5;
    var a0 := if v0.manifold && !v1.manifold then 0.0 else a0;
    if !v0.manifold && v1.manifold then 1.0 else a0
  }

  /**
   * `CorkVertex::merge` (src/cork.cpp:48-55): when exactly one side is
   * manifold the merged vertex sits on the other, non-manifold side;
   * otherwise at the midpoint. The manifold flag is not touched.
   */
  function Merge(self: CorkVertex, v0: CorkVertex, v1: CorkVertex): (r: CorkVertex)
    ensures r.manifold == self.manifold
    ensures v0.manifold && !v1.manifold ==> r.pos == v1.pos
    ensures !v0.manifold && v1.manifold ==> r.pos == v0.pos
    ensures v0.manifold == v1.manifold ==> r.pos == Midpoint(v0.pos, v1.pos)
  {
    var a0 := MergeWeight(v0, v1);
    var a1 := 1.0 - a0;
    self.(pos := Blend(a0, v0.pos, a1, v1.pos))
  }

  /** `CorkVertex::interpolate` (src/cork.cpp:56-60): equal weights of a half. */
  function Interpolate(self: CorkVertex, v0: CorkVertex, v1: CorkVertex): (r: CorkVertex)
    ensures r.manifold == self.manifold
    ensures r.pos == Midpoint(v0.pos, v1.pos)
  {
    self.(pos := Blend(0.5, v0.pos, 0.5, v1.pos))
  }

  /** The midpoint is as far from one end as from the other. */
  lemma InterpolateIsEquidistant(self: CorkVertex, v0: CorkVertex, v1: CorkVertex)
    ensures var m := Interpolate(self, v0, v1).pos;
      && m.x - v0.pos.x == v1.pos.x - m.x
      && m.y - v0.pos.y == v1.pos.y - m.y
      && m.z - v0.pos.z == v1.pos.z - m.z
  {
  }

  /** The merge weights are symmetric: swapping the operands gives the same position. */
  lemma MergeSymmetric(self: CorkVertex, v0: CorkVertex, v1: CorkVertex)
    ensures Merge(self, v0, v1) == Merge(self, v1, v0)
  {
  }

  /** When the flags agree, merging is interpolation. */
  lemma MergeOfLikeIsInterpolate(self: CorkVertex, v0: CorkVertex, v1: CorkVertex)
    requires v0.manifold == v1.manifold
    ensures Merge(self, v0, v1) == Interpolate(self, v0, v1)
  {
  }

  /**
   * The weights `isct` computes for an edge-triangle intersection
   * (src/cork.cpp:63-69): a quarter per edge end and a sixth per triangle
   * corner, which together sum to one.
   */
  function EdgeTriWeights(): (w: (real, real, real, real, real))
    ensures w.0 + w.1 + w.2 + w.3 + w.4 == 1.0
    ensures w.0 == w.1 && w.2 == w.3 == w.4
  {
    var ae := 1.0 / 2.0 / 2.0;
    var at := 1.0 / 3.0 / 2.0;
    (ae, ae, at, at, at)
  }

  /**
   * The weights `isct` computes for a triangle-triangle-triangle intersection
   * (src/cork.cpp:70-80): a ninth for each of the nine corners, summing to one.
   */
  function TriTriTriWeights(): (w: seq<real>)
    ensures |w| == 9
    ensures w[0] + w[1] + w[2] + w[3] + w[4] + w[5] + w[6] + w[7] + w[8] == 1.0
  {
    seq(9, _ => 1.0 / 3.0 / 3.0)
  }

  /**
   * The weights `isctInterpolate` computes from `l0 = len(v1.pos - pos)` and
   * `l1 = len(v0.pos - pos)` (src/cork.cpp:81-88): normalised to sum to one,
   * halves when both lengths are zero, and the end nearer to `pos` weighs more.
   */
  function IsctInterpolateWeights(l0: real, l1: real): (w: (real, real))
    requires l0 >= 0.0 && l1 >= 0.0
    ensures w.0 + w.1 == 1.0
    ensures 0.0 <= w.0 <= 1.0 && 0.0 <= w.1 <= 1.0
    ensures l0 + l1 == 0.0 ==> w.0 == w.1 == 0.5
    ensures l0 >= l1 <==> w.0 >= w.1
  {
    var (a0, a1) := if l0 + l1 == 0.0 then (0.5, 0.5) else (l0, l1);
    var sum := a0 + a1;
    ScaleByPositive(a0, a1, sum);
    (a0 / sum, a1 / sum)
  }

  /** Dividing by a positive `s` keeps order and distributes over the sum. */
  lemma ScaleByPositive(a: real, b: real, s: real)
    requires s > 0.0
    ensures a / s >= b / s <==> a >= b
    ensures a / s + b / s == (a + b) / s
  {
    assert a / s - b / s == (a - b) / s;
  }

  /** `isct` on an edge-triangle intersection: its weights are never applied, the vertex is unchanged. */
  function IsctEdgeTri(self: CorkVertex): (r: CorkVertex)
    ensures r.pos == self.pos && r.manifold == self.manifold
  {
    var _ := EdgeTriWeights();
    self
  }

  /** `isct` on a triangle triple: its weights are never applied, the vertex is unchanged. */
  function IsctTriTriTri(self: CorkVertex): (r: CorkVertex)
    ensures r.pos == self.pos && r.manifold == self.manifold
  {
    var _ := TriTriTriWeights();
    self
  }

  /** `isctInterpolate`: its weights are never applied, the vertex is unchanged. */
  function IsctInterpolate(self: CorkVertex, l0: real, l1: real): (r: CorkVertex)
    requires l0 >= 0.0 && l1 >= 0.0
    ensures r.pos == self.pos && r.manifold == self.manifold
  {
    var _ := IsctInterpolateWeights(l0, l1);
    self
  }

  /** `CorkTriangle::merge` (src/cork.cpp:97): no effect. */
  function TriangleMerge(self: CorkTriangle, t0: CorkTriangle, t1: CorkTriangle): (r: CorkTriangle)
    ensures r.boolAlgData == self.boolAlgData
  {
    self
  }

  /** `CorkTriangle::split` (src/cork.cpp:98-99): neither child is changed. */
  function TriangleSplit(t0: CorkTriangle, t1: CorkTriangle, parent: CorkTriangle): (r: (CorkTriangle, CorkTriangle))
    ensures r.0.boolAlgData == t0.boolAlgData && r.1.boolAlgData == t1.boolAlgData
  {
    (t0, t1)
  }

  /** `CorkTriangle::move` (src/cork.cpp:100): no effect. */
  function TriangleMove(self: CorkTriangle, src: CorkTriangle): (r: CorkTriangle)
    ensures r.boolAlgData == self.boolAlgData
  {
    self
  }

  /** `CorkTriangle::subdivide` (src/cork.cpp:101-104): the child takes the parent's label. */
  function Subdivide(self: CorkTriangle, parent: CorkTriangle): (r: CorkTriangle)
    ensures r.boolAlgData == parent.boolAlgData
  {
    self.(boolAlgData := parent.boolAlgData)
  }
}
