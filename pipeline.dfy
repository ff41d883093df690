/**
 * The flat-record entry points around the Boolean engine (src/cork.cpp:180-259):
 * convert the inputs, run the engine, flatten the result.
 *
 * The engine itself (`boolUnion`, `boolDiff`, `boolIsct`, `boolXor`,
 * `disjointUnion` followed by `resolveIntersections`, `isSelfIntersecting`,
 * `isClosed`) is not part of this model: it is passed in as functions over raw
 * meshes, so every property below holds whatever the engine computes.
 */
module Pipeline {
  import opened MeshTypes
  import opened Convert

  /** The operations the engine offers on a pair of meshes. */
  datatype Operation = Union | Difference | Intersection | SymmetricDifference | ResolveIntersections

  /**
   * `isSolid` (src/cork.cpp:180-198): solid iff the converted mesh is not
   * self-intersecting and is closed; both tests always run.
   */
  method IsSolid(m: MeshRef, selfIntersecting: RawMesh -> bool, closed: RawMesh -> bool) returns (solid: bool)
    requires Readable(m.Value())
    ensures solid <==> !selfIntersecting(ConvertFlat(m.Value()).raw) && closed(ConvertFlat(m.Value()).raw)
  {
    var c := TriMeshToRaw(m);
    solid := true;
    if selfIntersecting(c.raw) {
      solid := false;
    }
    if !closed(c.raw) {
      solid := false;
    }
  }

  /**
   * `computeUnion`, `computeDifference`, `computeIntersection`,
   * `computeSymmetricDifference` and `resolveIntersections`
   * (src/cork.cpp:200-259): the result is a fresh record over fresh buffers
   * holding the flattened engine result; the inputs are left untouched.
   */
  method Compute(op: Operation, engine: (Operation, RawMesh, RawMesh) -> RawMesh, in0: MeshRef, in1: MeshRef)
    returns (out: MeshRef)
    requires Readable(in0.Value()) && Readable(in1.Value())
    ensures fresh(out) && fresh(out.triangles) && fresh(out.vertices)
    ensures out.Valid()
    ensures out.Value() == Flatten(engine(op, ConvertFlat(in0.Value()).raw, ConvertFlat(in1.Value()).raw))
  {
    var c0 := TriMeshToRaw(in0);
    var c1 := TriMeshToRaw(in1);
    out := RawToTriMesh(engine(op, c0.raw, c1.raw));
  }
}
