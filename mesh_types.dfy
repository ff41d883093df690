/**
 * Shared data model of the Cork glue layer: positions, index triples, the
 * engine's raw mesh, and the flat `CorkTriMesh` record that clients exchange
 * with the library (src/cork.h:47-53).
 *
 * Coordinates are `real`: the source stores `float` in the flat record and
 * `double` inside the engine; rounding is not modelled.
 */
module MeshTypes {

  datatype Option<T> = None | Some(value: T)

  /** A point or vector in space. */
  datatype Vec3 = Vec3(x: real, y: real, z: real)

  const Origin: Vec3 := Vec3(0.0, 0.0, 0.0)

  /** A triangle of a raw mesh: three indices into the vertex list. */
  datatype Tri = Tri(a: nat, b: nat, c: nat)

  /** The engine's raw mesh (`RawMesh<CorkVertex, CorkTriangle>`): positions and index triples. */
  datatype RawMesh = RawMesh(vertices: seq<Vec3>, triangles: seq<Tri>)

  /** True iff every corner of every triangle names an existing vertex. */
  predicate IndicesInRange(vertices: seq<Vec3>, triangles: seq<Tri>)
  {
    forall i :: 0 <= i < |triangles| ==>
      triangles[i].a < |vertices| && triangles[i].b < |vertices| && triangles[i].c < |vertices|
  }

  /**
   * The contents of a `CorkTriMesh` as a value: the two counts and the
   * entries of the two buffers. Triangle `i` occupies slots `3i .. 3i+2` of
   * `triangles`, vertex `i` slots `3i .. 3i+2` of `vertices`.
   */
  datatype FlatMesh = FlatMesh(nTriangles: nat, nVertices: nat, triangles: seq<nat>, vertices: seq<real>)

  /** The buffers hold exactly three entries per counted triangle and vertex. */
  predicate ExactlySized(f: FlatMesh)
  {
    |f.triangles| == 3 * f.nTriangles && |f.vertices| == 3 * f.nVertices
  }

  /**
   * A `CorkTriMesh` record on the heap. Its buffers are arrays, so two records
   * may share them: a struct copy (`*pMesh = *it->second`) copies the
   * pointers, not the coordinates.
   */
  class MeshRef {
    const nTriangles: nat
    const nVertices: nat
    const triangles: array<nat>
    const vertices: array<real>

    /** The buffers have the lengths the counts promise. */
    predicate Valid()
    {
      triangles.Length == 3 * nTriangles && vertices.Length == 3 * nVertices
    }

    /** The record's current contents. */
    function Value(): (f: FlatMesh)
      reads triangles, vertices
      ensures Valid() <==> ExactlySized(f)
    {
      FlatMesh(nTriangles, nVertices, triangles[..], vertices[..])
    }

    /** A record over fresh buffers (used by `new CorkTriMesh` plus an allocation of its arrays). */
    constructor Over(nT: nat, nV: nat, tris: array<nat>, verts: array<real>)
      ensures nTriangles == nT && nVertices == nV
      ensures triangles == tris && vertices == verts
    {
      nTriangles, nVertices := nT, nV;
      triangles, vertices := tris, verts;
    }

    /** A fresh record whose fields equal `src`'s: the buffers are shared, not copied. */
    constructor ShallowCopy(src: MeshRef)
      ensures nTriangles == src.nTriangles && nVertices == src.nVertices
      ensures triangles == src.triangles && vertices == src.vertices
    {
      nTriangles, nVertices := src.nTriangles, src.nVertices;
      triangles, vertices := src.triangles, src.vertices;
    }

    /** A fresh record with fresh buffers holding `f`. */
    constructor FromValue(f: FlatMesh)
      requires ExactlySized(f)
      ensures Valid() && Value() == f
      ensures fresh(triangles) && fresh(vertices)
    {
      nTriangles, nVertices := f.nTriangles, f.nVertices;
      triangles := new nat[|f.triangles|](i requires 0 <= i < |f.triangles| => f.triangles[i]);
      vertices := new real[|f.vertices|](i requires 0 <= i < |f.vertices| => f.vertices[i]);
    }
  }
}
