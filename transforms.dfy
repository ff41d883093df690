/**
 * The whole-mesh transforms of src/cork.cpp:261-295. Each works in place on
 * the coordinate buffer of a `CorkTriMesh`, touching only the first
 * `3 * n_vertices` slots and, of those, only its own coordinates.
 */
module Transforms {
  import opened MeshTypes

  /** Coordinate `k` (0 = x, 1 = y, 2 = z) of `v`. */
  function Coord(v: Vec3, k: nat): real
  {
    if k == 0 then v.x else if k == 1 then v.y else v.z
  }

  /** Vertex `i` of a coordinate buffer. */
  function VertexAt(s: seq<real>, i: nat): Vec3
    requires 3 * i + 2 < |s|
  {
    Vec3(s[3 * i], s[3 * i + 1], s[3 * i + 2])
  }

  function Neg(d: Vec3): Vec3 { Vec3(-d.x, -d.y, -d.z) }

  function Add(d: Vec3, e: Vec3): Vec3 { Vec3(d.x + e.x, d.y + e.y, d.z + e.z) }

  /** The buffer after `translate(in0, d.x, d.y, d.z)` on `n` vertices. */
  function Translated(s: seq<real>, n: nat, d: Vec3): (r: seq<real>)
    requires 3 * n <= |s|
    ensures |r| == |s|
  {
    seq(|s|, p requires 0 <= p < |s| => if p < 3 * n then s[p] + Coord(d, p % 3) else s[p])
  }

  /** The buffer after `translateZ(in0, dz)` on `n` vertices: only the z slots move. */
  function TranslatedZ(s: seq<real>, n: nat, dz: real): (r: seq<real>)
    requires 3 * n <= |s|
    ensures |r| == |s|
  {
    seq(|s|, p requires 0 <= p < |s| => if p < 3 * n && p % 3 == 2 then s[p] + dz else s[p])
  }

  /** The buffer after `rotate180X` on `n` vertices: y and z slots negated. */
  function Rotated180X(s: seq<real>, n: nat): (r: seq<real>)
    requires 3 * n <= |s|
    ensures |r| == |s|
  {
    seq(|s|, p requires 0 <= p < |s| => if p < 3 * n && p % 3 != 0 then -s[p] else s[p])
  }

  /** The buffer after `rotate180Y` on `n` vertices: x and z slots negated. */
  function Rotated180Y(s: seq<real>, n: nat): (r: seq<real>)
    requires 3 * n <= |s|
    ensures |r| == |s|
  {
    seq(|s|, p requires 0 <= p < |s| => if p < 3 * n && p % 3 != 1 then -s[p] else s[p])
  }

  // ---------------------------------------------------------------- properties

  /** Translation moves every counted vertex by `d` and leaves the slots past them alone. */
  lemma TranslatedMovesVertices(s: seq<real>, n: nat, d: Vec3)
    requires 3 * n <= |s|
    ensures forall i :: 0 <= i < n ==> VertexAt(Translated(s, n, d), i) == Add(VertexAt(s, i), d)
    ensures forall p :: 3 * n <= p < |s| ==> Translated(s, n, d)[p] == s[p]
  {
    var r := Translated(s, n, d);
    forall i | 0 <= i < n ensures VertexAt(r, i) == Add(VertexAt(s, i), d) {
      assert (3 * i) % 3 == 0 && (3 * i + 1) % 3 == 1 && (3 * i + 2) % 3 == 2;
    }
  }

  /** `translateZ` is `translate` by `(0, 0, dz)`; its x and y slots never change. */
  lemma TranslatedZIsTranslated(s: seq<real>, n: nat, dz: real)
    requires 3 * n <= |s|
    ensures TranslatedZ(s, n, dz) == Translated(s, n, Vec3(0.0, 0.0, dz))
    ensures forall p :: 0 <= p < |s| && p % 3 != 2 ==> TranslatedZ(s, n, dz)[p] == s[p]
  {
  }

  /** Translating by `d` and then by `-d` restores the buffer. */
  lemma TranslatedInverse(s: seq<real>, n: nat, d: Vec3)
    requires 3 * n <= |s|
    ensures Translated(Translated(s, n, d), n, Neg(d)) == s
  {
  }

  /** Two translations compose into one by the sum of their vectors. */
  lemma TranslatedCompose(s: seq<real>, n: nat, d: Vec3, e: Vec3)
    requires 3 * n <= |s|
    ensures Translated(Translated(s, n, d), n, e) == Translated(s, n, Add(d, e))
  {
  }

  /** `rotate180X` maps every counted vertex `(x, y, z)` to `(x, -y, -z)`. */
  lemma Rotated180XMapsVertices(s: seq<real>, n: nat)
    requires 3 * n <= |s|
    ensures forall i :: 0 <= i < n ==>
      VertexAt(Rotated180X(s, n), i) == Vec3(VertexAt(s, i).x, -VertexAt(s, i).y, -VertexAt(s, i).z)
    ensures forall p :: 3 * n <= p < |s| ==> Rotated180X(s, n)[p] == s[p]
  {
    var r := Rotated180X(s, n);
    forall i | 0 <= i < n ensures VertexAt(r, i) == Vec3(s[3 * i], -s[3 * i + 1], -s[3 * i + 2]) {
      assert (3 * i) % 3 == 0 && (3 * i + 1) % 3 == 1 && (3 * i + 2) % 3 == 2;
    }
  }

  /** `rotate180Y` maps every counted vertex `(x, y, z)` to `(-x, y, -z)`. */
  lemma Rotated180YMapsVertices(s: seq<real>, n: nat)
    requires 3 * n <= |s|
    ensures forall i :: 0 <= i < n ==>
      VertexAt(Rotated180Y(s, n), i) == Vec3(-VertexAt(s, i).x, VertexAt(s, i).y, -VertexAt(s, i).z)
    ensures forall p :: 3 * n <= p < |s| ==> Rotated180Y(s, n)[p] == s[p]
  {
    var r := Rotated180Y(s, n);
    forall i | 0 <= i < n ensures VertexAt(r, i) == Vec3(-s[3 * i], s[3 * i + 1], -s[3 * i + 2]) {
      assert (3 * i) % 3 == 0 && (3 * i + 1) % 3 == 1 && (3 * i + 2) % 3 == 2;
    }
  }

  /** Each rotation by 180 degrees is its own inverse. */
  lemma RotationsAreInvolutions(s: seq<real>, n: nat)
    requires 3 * n <= |s|
    ensures Rotated180X(Rotated180X(s, n), n) == s
    ensures Rotated180Y(Rotated180Y(s, n), n) == s
  {
  }

  /**
   * The two rotations commute, and together they are the rotation by 180
   * degrees about Z: x and y negated, z kept.
   */
  lemma RotationsCompose(s: seq<real>, n: nat)
    requires 3 * n <= |s|
    ensures Rotated180Y(Rotated180X(s, n), n) == Rotated180X(Rotated180Y(s, n), n)
    ensures forall p :: 0 <= p < |s| ==>
      Rotated180Y(Rotated180X(s, n), n)[p] == if p < 3 * n && p % 3 != 2 then -s[p] else s[p]
  {
  }

  // ---------------------------------------------------------------- in place

  /** `translateZ` (src/cork.cpp:261-266). */
  method TranslateZ(m: MeshRef, deltaZ: real)
    requires 3 * m.nVertices <= m.vertices.Length
    modifies m.vertices
    ensures m.vertices[..] == TranslatedZ(old(m.vertices[..]), m.nVertices, deltaZ)
  {
    ghost var s := m.vertices[..];
    ghost var want := TranslatedZ(s, m.nVertices, deltaZ);
    var i := 0;
    while i < m.nVertices
      invariant 0 <= i <= m.nVertices
      invariant forall p :: 0 <= p < |s| ==> m.vertices[p] == if p < 3 * i then want[p] else s[p]
    {
      assert (3 * i) % 3 == 0 && (3 * i + 1) % 3 == 1 && (3 * i + 2) % 3 == 2;
      m.vertices[3 * i + 2] := m.vertices[3 * i + 2] + deltaZ;
      i := i + 1;
    }
    assert m.vertices[..] == want;
  }

  /** `translate` (src/cork.cpp:268-275). */
  method Translate(m: MeshRef, deltaX: real, deltaY: real, deltaZ: real)
    requires 3 * m.nVertices <= m.vertices.Length
    modifies m.vertices
    ensures m.vertices[..] == Translated(old(m.vertices[..]), m.nVertices, Vec3(deltaX, deltaY, deltaZ))
  {
    ghost var s := m.vertices[..];
    ghost var want := Translated(s, m.nVertices, Vec3(deltaX, deltaY, deltaZ));
    var i := 0;
    while i < m.nVertices
      invariant 0 <= i <= m.nVertices
      invariant forall p :: 0 <= p < |s| ==> m.vertices[p] == if p < 3 * i then want[p] else s[p]
    {
      assert (3 * i) % 3 == 0 && (3 * i + 1) % 3 == 1 && (3 * i + 2) % 3 == 2;
      m.vertices[3 * i + 0] := m.vertices[3 * i + 0] + deltaX;
      m.vertices[3 * i + 1] := m.vertices[3 * i + 1] + deltaY;
      m.vertices[3 * i + 2] := m.vertices[3 * i + 2] + deltaZ;
      i := i + 1;
    }
    assert m.vertices[..] == want;
  }

  /**
   * `rotate180X` (src/cork.cpp:277-285). `p` plays the stepping pointer `pF`,
   * which starts at the first y slot and advances by one vertex per turn.
   */
  method Rotate180X(m: MeshRef)
    requires 3 * m.nVertices <= m.vertices.Length
    modifies m.vertices
    ensures m.vertices[..] == Rotated180X(old(m.vertices[..]), m.nVertices)
  {
    ghost var s := m.vertices[..];
    ghost var want := Rotated180X(s, m.nVertices);
    var p := 1;
    var i := 0;
    while i < m.nVertices
      invariant 0 <= i <= m.nVertices && p == 3 * i + 1
      invariant forall q :: 0 <= q < |s| ==> m.vertices[q] == if q < 3 * i then want[q] else s[q]
    {
      assert (3 * i) % 3 == 0 && (3 * i + 1) % 3 == 1 && (3 * i + 2) % 3 == 2;
      m.vertices[p] := -m.vertices[p];
      m.vertices[p + 1] := -m.vertices[p + 1];
      p := p + 3;
      i := i + 1;
    }
    assert m.vertices[..] == want;
  }

  /** `rotate180Y` (src/cork.cpp:287-295); `p` plays `pF`, starting at the first x slot. */
  method Rotate180Y(m: MeshRef)
    requires 3 * m.nVertices <= m.vertices.Length
    modifies m.vertices
    ensures m.vertices[..] == Rotated180Y(old(m.vertices[..]), m.nVertices)
  {
    ghost var s := m.vertices[..];
    ghost var want := Rotated180Y(s, m.nVertices);
    var p := 0;
    var i := 0;
    while i < m.nVertices
      invariant 0 <= i <= m.nVertices && p == 3 * i
      invariant forall q :: 0 <= q < |s| ==> m.vertices[q] == if q < 3 * i then want[q] else s[q]
    {
      assert (3 * i) % 3 == 0 && (3 * i + 1) % 3 == 1 && (3 * i + 2) % 3 == 2;
      m.vertices[p] := -m.vertices[p];
      m.vertices[p + 2] := -m.vertices[p + 2];
      p := p + 3;
      i := i + 1;
    }
    assert m.vertices[..] == want;
  }
}
