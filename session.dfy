/**
 * The ID-keyed session store behind the C#-friendly entry points
 * (src/cork.cpp:297-476): the static `std::map<int, CorkTriMesh*> meshDict`
 * and the functions that load, save, copy, delete and transform its entries
 * or combine two of them with the Boolean engine.
 *
 * `loadMesh` and `saveMesh` are not part of this model: the first becomes the
 * parameter `loaded` (what it read, or `None` when it failed), the second the
 * returned record that would be handed to it. Freeing memory is not modelled;
 * note that `delete` on a map entry frees the record but never its buffers,
 * so buffers shared by copies never dangle.
 */
module Session {
  import opened MeshTypes
  import opened Convert
  import Transforms
  import Pipeline

  class MeshStore {
    var dict: map<int, MeshRef>

    /** Every stored record's buffers have the lengths its counts promise. */
    ghost predicate Valid()
      reads this
    {
      forall id :: id in dict ==> dict[id].Valid()
    }

    constructor ()
      ensures Valid() && dict == map[]
    {
      dict := map[];
    }

    /** `LoadMesh` (src/cork.cpp:303-314): binds `id` only when loading succeeded. */
    method LoadMesh(id: int, loaded: Option<FlatMesh>) returns (success: bool)
      requires Valid()
      requires loaded.Some? ==> ExactlySized(loaded.value)
      modifies this
      ensures Valid()
      ensures success == loaded.Some?
      ensures success ==> id in dict && fresh(dict[id]) && dict[id].Value() == loaded.value
      ensures success ==> fresh(dict[id].triangles) && fresh(dict[id].vertices)
      ensures success ==> dict == old(dict)[id := dict[id]]
      ensures !success ==> dict == old(dict)
    {
      success := loaded.Some?;
      if success {
        var pMesh := new MeshRef.FromValue(loaded.value);
        dict := dict[id := pMesh];
      }
    }

    /**
     * `SaveMesh` (src/cork.cpp:316-324): false for an absent ID; otherwise
     * the record's contents are what is handed to `saveMesh`.
     */
    method SaveMesh(id: int) returns (ok: bool, saved: Option<FlatMesh>)
      ensures ok <==> id in dict
      ensures ok ==> saved == Some(dict[id].Value())
      ensures !ok ==> saved == None
    {
      if id !in dict {
        return false, None;
      }
      ok, saved := true, Some(dict[id].Value());
    }

    /** `ClearAllMeshes` (src/cork.cpp:326-332). */
    method ClearAllMeshes()
      modifies this
      ensures Valid() && dict == map[]
    {
      dict := map[];
    }

    /** `DeleteMesh` (src/cork.cpp:334-343): removes exactly `id`, if present. */
    method DeleteMesh(id: int) returns (ok: bool)
      requires Valid()
      modifies this
      ensures Valid()
      ensures ok <==> id in old(dict)
      ensures dict == old(dict) - {id}
    {
      if id !in dict {
        return false;
      }
      dict := dict - {id};
      ok := true;
    }

    /**
     * `CopyMesh` (src/cork.cpp:345-355): binds `destID` to a fresh record whose
     * fields equal the source's, so both records share the same buffers.
     */
    method CopyMesh(srcID: int, destID: int) returns (ok: bool)
      requires Valid()
      modifies this
      ensures Valid()
      ensures ok <==> srcID in old(dict)
      ensures !ok ==> dict == old(dict)
      ensures ok ==> destID in dict && dict == old(dict)[destID := dict[destID]] && fresh(dict[destID])
      ensures ok ==> (&& dict[destID].nTriangles == old(dict)[srcID].nTriangles
                      && dict[destID].nVertices == old(dict)[srcID].nVertices
                      && dict[destID].triangles == old(dict)[srcID].triangles
                      && dict[destID].vertices == old(dict)[srcID].vertices)
    {
      if srcID !in dict {
        return false;
      }
      var pMesh := new MeshRef.ShallowCopy(dict[srcID]);
      dict := dict[destID := pMesh];
      ok := true;
    }

    /** `IsSolid` (src/cork.cpp:357-364): false for an absent ID. */
    method IsSolid(id: int, selfIntersecting: RawMesh -> bool, closed: RawMesh -> bool) returns (solid: bool)
      requires Valid()
      ensures solid <==> (&& id in dict
                          && !selfIntersecting(ConvertFlat(dict[id].Value()).raw)
                          && closed(ConvertFlat(dict[id].Value()).raw))
    {
      if id !in dict {
        return false;
      }
      solid := Pipeline.IsSolid(dict[id], selfIntersecting, closed);
    }

    /**
     * `Union`, `Difference`, `Intersection` and `Xor` (src/cork.cpp:366-436),
     * which differ only in the engine operation. Both inputs are looked up
     * before `DeleteMesh(OutID)` runs; `OutID` must differ from both, because
     * the source frees an aliased input before reading it.
     */
    method Boolean(op: Pipeline.Operation, engine: (Pipeline.Operation, RawMesh, RawMesh) -> RawMesh,
                   inID1: int, inID2: int, outID: int) returns (ok: bool)
      requires Valid()
      requires op != Pipeline.ResolveIntersections
      requires outID != inID1 && outID != inID2
      modifies this
      ensures Valid()
      ensures ok <==> inID1 in old(dict) && inID2 in old(dict)
      ensures !ok ==> dict == old(dict)
      ensures ok ==> outID in dict && dict == old(dict)[outID := dict[outID]] && fresh(dict[outID])
      ensures ok ==> (dict[outID].Value() ==
                      Flatten(engine(op, ConvertFlat(dict[inID1].Value()).raw, ConvertFlat(dict[inID2].Value()).raw)))
    {
      if inID1 !in dict {
        return false;
      }
      if inID2 !in dict {
        return false;
      }
      var in1, in2 := dict[inID1], dict[inID2];
      assert in1.Valid() && in2.Valid();
      var _ := DeleteMesh(outID);
      var pMesh := Pipeline.Compute(op, engine, in1, in2);
      ghost var rest := dict;
      dict := dict[outID := pMesh];
      forall id | id in dict ensures dict[id].Valid() {
        if id != outID {
          assert dict[id] == rest[id];
        }
      }
      assert dict[inID1] == in1 && dict[inID2] == in2;
      ok := true;
    }

    /** `TranslateZ` (src/cork.cpp:438-446): false for an absent ID, nothing else changes. */
    method TranslateZ(id: int, deltaZ: real) returns (ok: bool)
      requires Valid()
      modifies if id in dict then {dict[id].vertices} else {}
      ensures ok <==> id in dict
      ensures ok ==> dict[id].vertices[..] == Transforms.TranslatedZ(old(dict[id].vertices[..]), dict[id].nVertices, deltaZ)
    {
      if id !in dict {
        return false;
      }
      Transforms.TranslateZ(dict[id], deltaZ);
      ok := true;
    }

    /** `Translate` (src/cork.cpp:448-456): false for an absent ID, nothing else changes. */
    method Translate(id: int, deltaX: real, deltaY: real, deltaZ: real) returns (ok: bool)
      requires Valid()
      modifies if id in dict then {dict[id].vertices} else {}
      ensures ok <==> id in dict
      ensures ok ==> (dict[id].vertices[..] ==
                      Transforms.Translated(old(dict[id].vertices[..]), dict[id].nVertices, Vec3(deltaX, deltaY, deltaZ)))
    {
      if id !in dict {
        return false;
      }
      Transforms.Translate(dict[id], deltaX, deltaY, deltaZ);
      ok := true;
    }

    /** `Rotate180X` (src/cork.cpp:458-466): false for an absent ID, nothing else changes. */
    method Rotate180X(id: int) returns (ok: bool)
      requires Valid()
      modifies if id in dict then {dict[id].vertices} else {}
      ensures ok <==> id in dict
      ensures ok ==> dict[id].vertices[..] == Transforms.Rotated180X(old(dict[id].vertices[..]), dict[id].nVertices)
    {
      if id !in dict {
        return false;
      }
      Transforms.Rotate180X(dict[id]);
      ok := true;
    }

    /** `Rotate180Y` (src/cork.cpp:468-476): false for an absent ID, nothing else changes. */
    method Rotate180Y(id: int) returns (ok: bool)
      requires Valid()
      modifies if id in dict then {dict[id].vertices} else {}
      ensures ok <==> id in dict
      ensures ok ==> dict[id].vertices[..] == Transforms.Rotated180Y(old(dict[id].vertices[..]), dict[id].nVertices)
    {
      if id !in dict {
        return false;
      }
      Transforms.Rotate180Y(dict[id]);
      ok := true;
    }
  }

  /**
   * The usage in win/TestLibwincorkNET/Program.cs:60-67: after `CopyMesh`, an
   * in-place rotation of the source is seen through the copy as well, since
   * both records share one coordinate buffer.
   */
  method RotateAfterCopy(store: MeshStore, srcID: int, destID: int)
    requires store.Valid() && srcID in store.dict && srcID != destID
    modifies store, store.dict[srcID].vertices
    ensures store.Valid() && srcID in store.dict && destID in store.dict
    ensures store.dict[destID].vertices == store.dict[srcID].vertices
    ensures store.dict[destID].vertices[..] ==
      Transforms.Rotated180X(old(store.dict[srcID].vertices[..]), old(store.dict[srcID].nVertices))
  {
    var copied := store.CopyMesh(srcID, destID);
    var rotated := store.Rotate180X(srcID);
  }
}
