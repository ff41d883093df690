/**
 * Conversion between the flat `CorkTriMesh` record and the engine's raw mesh
 * (src/cork.cpp:112-177): validation of the record on the way in, and
 * flattening of the raw mesh on the way out.
 */
module Convert {
  import opened MeshTypes

  /** The diagnostics `corkTriMesh2CorkMesh` can report (it prints them and carries on). */
  datatype Status = Converted | EmptyInput | OutOfRangeReference

  /** What `corkTriMesh2CorkMesh` hands to the engine, and which diagnostic it reported. */
  datatype Conversion = Conversion(status: Status, raw: RawMesh)

  function Max(a: nat, b: nat): nat { if a < b then b else a }

  // ---------------------------------------------------------------- flattening

  /** The triangle buffer of a flat record: triangle `i` at slots `3i, 3i+1, 3i+2`. */
  function FlattenTris(ts: seq<Tri>): (s: seq<nat>)
    ensures |s| == 3 * |ts|
    ensures forall i :: 0 <= i < |ts| ==>
      s[3 * i] == ts[i].a && s[3 * i + 1] == ts[i].b && s[3 * i + 2] == ts[i].c
  {
    if ts == [] then [] else [ts[0].a, ts[0].b, ts[0].c] + FlattenTris(ts[1..])
  }

  /** The coordinate buffer of a flat record: vertex `i` at slots `3i, 3i+1, 3i+2`. */
  function FlattenVerts(vs: seq<Vec3>): (s: seq<real>)
    ensures |s| == 3 * |vs|
    ensures forall i :: 0 <= i < |vs| ==>
      s[3 * i] == vs[i].x && s[3 * i + 1] == vs[i].y && s[3 * i + 2] == vs[i].z
  {
    if vs == [] then [] else [vs[0].x, vs[0].y, vs[0].z] + FlattenVerts(vs[1..])
  }

  /** The first `n` triangles read from a triangle buffer. */
  function UnflattenTris(s: seq<nat>, n: nat): (ts: seq<Tri>)
    requires 3 * n <= |s|
    ensures |ts| == n
  {
    seq(n, i requires 0 <= i < n => Tri(s[3 * i], s[3 * i + 1], s[3 * i + 2]))
  }

  /** The first `n` vertices read from a coordinate buffer. */
  function UnflattenVerts(s: seq<real>, n: nat): (vs: seq<Vec3>)
    requires 3 * n <= |s|
    ensures |vs| == n
  {
    seq(n, i requires 0 <= i < n => Vec3(s[3 * i], s[3 * i + 1], s[3 * i + 2]))
  }

  /** The flat record `corkMesh2CorkTriMesh` produces from a raw mesh. */
  function Flatten(raw: RawMesh): (f: FlatMesh)
    ensures ExactlySized(f)
    ensures f.nTriangles == |raw.triangles| && f.nVertices == |raw.vertices|
  {
    FlatMesh(|raw.triangles|, |raw.vertices|, FlattenTris(raw.triangles), FlattenVerts(raw.vertices))
  }

  /** Reading back the first `|ts|` triangles of their flattening gives `ts`. */
  lemma UnflattenFlattenTris(ts: seq<Tri>)
    ensures UnflattenTris(FlattenTris(ts), |ts|) == ts
  {
    var flat := FlattenTris(ts);
    var back := UnflattenTris(flat, |ts|);
    forall i | 0 <= i < |ts| ensures back[i] == ts[i] {
      assert back[i] == Tri(flat[3 * i], flat[3 * i + 1], flat[3 * i + 2]);
    }
  }

  /** Reading back the first `|vs|` vertices of their flattening gives `vs`. */
  lemma UnflattenFlattenVerts(vs: seq<Vec3>)
    ensures UnflattenVerts(FlattenVerts(vs), |vs|) == vs
  {
    var flat := FlattenVerts(vs);
    var back := UnflattenVerts(flat, |vs|);
    forall i | 0 <= i < |vs| ensures back[i] == vs[i] {
      assert back[i] == Vec3(flat[3 * i], flat[3 * i + 1], flat[3 * i + 2]);
    }
  }

  /** Flattening the first `n` triangles read from a buffer gives back that buffer's prefix. */
  lemma {:induction false} FlattenUnflattenTris(s: seq<nat>, n: nat)
    requires 3 * n <= |s|
    ensures FlattenTris(UnflattenTris(s, n)) == s[..3 * n]
  {
    if n > 0 {
      var ts := UnflattenTris(s, n);
      assert ts[1..] == UnflattenTris(s[3..], n - 1);
      FlattenUnflattenTris(s[3..], n - 1);
      assert s[..3 * n] == [s[0], s[1], s[2]] + s[3..][..3 * (n - 1)];
    }
  }

  /** Flattening the first `n` vertices read from a buffer gives back that buffer's prefix. */
  lemma {:induction false} FlattenUnflattenVerts(s: seq<real>, n: nat)
    requires 3 * n <= |s|
    ensures FlattenVerts(UnflattenVerts(s, n)) == s[..3 * n]
  {
    if n > 0 {
      var vs := UnflattenVerts(s, n);
      assert vs[1..] == UnflattenVerts(s[3..], n - 1);
      FlattenUnflattenVerts(s[3..], n - 1);
      assert s[..3 * n] == [s[0], s[1], s[2]] + s[3..][..3 * (n - 1)];
    }
  }

  // ---------------------------------------------------------------- validation

  /**
   * `max_ref_idx`: the running maximum over a prefix of the triangle buffer,
   * 0 when the prefix is empty.
   */
  function MaxRef(s: seq<nat>): (m: nat)
    ensures forall j :: 0 <= j < |s| ==> s[j] <= m
    ensures |s| == 0 ==> m == 0
  {
    if s == [] then 0 else Max(MaxRef(s[..|s| - 1]), s[|s| - 1])
  }

  /** The maximum of a non-empty prefix is one of its entries. */
  lemma {:induction false} MaxRefAttained(s: seq<nat>)
    requires |s| > 0
    ensures exists j :: 0 <= j < |s| && s[j] == MaxRef(s)
  {
    if |s| == 1 {
      assert s[..0] == [];
    } else if MaxRef(s) != s[|s| - 1] {
      var front := s[..|s| - 1];
      MaxRefAttained(front);
      var j :| 0 <= j < |front| && front[j] == MaxRef(front);
      assert s[j] == MaxRef(s);
    }
  }

  /** One iteration of the loop at src/cork.cpp:126-136 folds three more entries into the maximum. */
  lemma MaxRefStep(s: seq<nat>, i: nat)
    requires 3 * i + 3 <= |s|
    ensures MaxRef(s[..3 * i + 3]) == Max(Max(MaxRef(s[..3 * i]), s[3 * i]), Max(s[3 * i + 1], s[3 * i + 2]))
  {
    assert s[..3 * i + 3][..3 * i + 2] == s[..3 * i + 2];
    assert MaxRef(s[..3 * i + 3]) == Max(MaxRef(s[..3 * i + 2]), s[3 * i + 2]);
    assert s[..3 * i + 2][..3 * i + 1] == s[..3 * i + 1];
    assert MaxRef(s[..3 * i + 2]) == Max(MaxRef(s[..3 * i + 1]), s[3 * i + 1]);
    assert s[..3 * i + 1][..3 * i] == s[..3 * i];
    assert MaxRef(s[..3 * i + 1]) == Max(MaxRef(s[..3 * i]), s[3 * i]);
  }

  /** The buffers must hold the counted entries whenever the converter reads them. */
  predicate Readable(f: FlatMesh)
  {
    f.nVertices > 0 && f.nTriangles > 0 ==>
      3 * f.nTriangles <= |f.triangles| && 3 * f.nVertices <= |f.vertices|
  }

  /** Some corner of some counted triangle is not below `nVertices`. */
  predicate HasOutOfRangeReference(f: FlatMesh)
    requires 3 * f.nTriangles <= |f.triangles|
  {
    exists j :: 0 <= j < 3 * f.nTriangles && f.triangles[j] >= f.nVertices
  }

  /** The raw mesh `raw.vertices.resize(nV); raw.triangles.resize(nT)` leaves behind. */
  function Resized(nV: nat, nT: nat): (r: RawMesh)
    ensures |r.vertices| == nV && |r.triangles| == nT
    ensures forall i :: 0 <= i < nV ==> r.vertices[i] == Origin
    ensures forall i :: 0 <= i < nT ==> r.triangles[i] == Tri(0, 0, 0)
  {
    RawMesh(seq(nV, _ => Origin), seq(nT, _ => Tri(0, 0, 0)))
  }

  /**
   * The shape shared by the converter as written and as corrected; they
   * differ only in the bound test `rejected`.
   */
  function ConvertWith(f: FlatMesh, rejected: bool): (c: Conversion)
    requires Readable(f)
    ensures c.status == EmptyInput <==> f.nVertices == 0 || f.nTriangles == 0
    ensures c.status == OutOfRangeReference <==> f.nVertices > 0 && f.nTriangles > 0 && rejected
    ensures c.status == OutOfRangeReference ==> c.raw == RawMesh([], [])
    ensures c.status == Converted ==> |c.raw.vertices| == f.nVertices && |c.raw.triangles| == f.nTriangles
  {
    if f.nVertices == 0 || f.nTriangles == 0 then
      Conversion(EmptyInput, Resized(f.nVertices, f.nTriangles))
    else if rejected then
      Conversion(OutOfRangeReference, RawMesh([], []))
    else
      Conversion(Converted, RawMesh(UnflattenVerts(f.vertices, f.nVertices), UnflattenTris(f.triangles, f.nTriangles)))
  }

  /** `corkTriMesh2CorkMesh` as written: it rejects only `max_ref_idx > n_vertices` (src/cork.cpp:137). */
  function ConvertFlatAsWritten(f: FlatMesh): (c: Conversion)
    requires Readable(f)
    ensures c.status == Converted ==> forall i :: 0 <= i < |c.raw.triangles| ==>
      c.raw.triangles[i].a <= f.nVertices && c.raw.triangles[i].b <= f.nVertices && c.raw.triangles[i].c <= f.nVertices
  {
    ConvertWith(f, f.nVertices > 0 && f.nTriangles > 0 && MaxRef(f.triangles[..3 * f.nTriangles]) > f.nVertices)
  }

  /**
   * `corkTriMesh2CorkMesh` with the bound test corrected to
   * `max_ref_idx >= n_vertices`.
   */
  function ConvertFlat(f: FlatMesh): (c: Conversion)
    requires Readable(f)
    ensures c.status == Converted ==> IndicesInRange(c.raw.vertices, c.raw.triangles)
  {
    ConvertWith(f, f.nVertices > 0 && f.nTriangles > 0 && MaxRef(f.triangles[..3 * f.nTriangles]) >= f.nVertices)
  }

  /**
   * The corrected converter reports an empty record exactly when a count is
   * zero and an out-of-range reference exactly when some counted corner is
   * not below the vertex count; otherwise every index it accepts names a
   * vertex, and it reads triangle and vertex `i` from slots `3i .. 3i+2`.
   */
  lemma ConvertFlatMeaning(f: FlatMesh)
    requires Readable(f)
    ensures var c := ConvertFlat(f);
      && (c.status == EmptyInput <==> f.nVertices == 0 || f.nTriangles == 0)
      && (c.status == EmptyInput ==> |c.raw.vertices| == f.nVertices && |c.raw.triangles| == f.nTriangles)
      && (c.status == OutOfRangeReference <==> f.nVertices > 0 && f.nTriangles > 0 && HasOutOfRangeReference(f))
      && (c.status == OutOfRangeReference ==> c.raw == RawMesh([], []))
      && (c.status == Converted ==>
            && |c.raw.vertices| == f.nVertices && |c.raw.triangles| == f.nTriangles
            && IndicesInRange(c.raw.vertices, c.raw.triangles)
            && FlattenTris(c.raw.triangles) == f.triangles[..3 * f.nTriangles]
            && FlattenVerts(c.raw.vertices) == f.vertices[..3 * f.nVertices])
  {
    if f.nVertices > 0 && f.nTriangles > 0 {
      var prefix := f.triangles[..3 * f.nTriangles];
      assert forall j :: 0 <= j < 3 * f.nTriangles ==> f.triangles[j] == prefix[j];
      MaxRefAttained(prefix);
      if MaxRef(prefix) < f.nVertices {
        FlattenUnflattenTris(f.triangles, f.nTriangles);
        FlattenUnflattenVerts(f.vertices, f.nVertices);
      }
    }
  }

  /** A record whose largest index equals its vertex count passes the check as written. */
  lemma AsWrittenAcceptsDanglingIndex()
    ensures var f := FlatMesh(1, 1, [0, 0, 1], [0.0, 0.0, 0.0]);
      && ConvertFlatAsWritten(f).status == Converted
      && ConvertFlatAsWritten(f).raw.triangles[0].c == |ConvertFlatAsWritten(f).raw.vertices|
      && !IndicesInRange(ConvertFlatAsWritten(f).raw.vertices, ConvertFlatAsWritten(f).raw.triangles)
      && ConvertFlat(f).status == OutOfRangeReference
  {
    var f := FlatMesh(1, 1, [0, 0, 1], [0.0, 0.0, 0.0]);
    assert f.triangles[..3] == [0, 0, 1];
    assert [0, 0, 1][..2] == [0, 0];
    assert [0, 0][..1] == [0];
  }

  /** The two tests disagree only when the largest index equals the vertex count. */
  lemma {:induction false} AsWrittenDiffersOnlyAtBound(f: FlatMesh)
    requires Readable(f)
    requires f.nVertices > 0 && f.nTriangles > 0 ==> MaxRef(f.triangles[..3 * f.nTriangles]) != f.nVertices
    ensures ConvertFlatAsWritten(f) == ConvertFlat(f)
  {
  }

  /**
   * Converting the flattening of a non-empty raw mesh whose indices are in
   * range gives back that raw mesh, with no diagnostic.
   */
  lemma {:induction false} ConvertFlattenRoundTrip(raw: RawMesh)
    requires |raw.vertices| > 0 && |raw.triangles| > 0
    requires IndicesInRange(raw.vertices, raw.triangles)
    ensures ConvertFlat(Flatten(raw)) == Conversion(Converted, raw)
  {
    var f := Flatten(raw);
    assert f.triangles[..3 * f.nTriangles] == f.triangles;
    forall j | 0 <= j < 3 * f.nTriangles ensures f.triangles[j] < f.nVertices {
      var i := j / 3;
      assert j == 3 * i || j == 3 * i + 1 || j == 3 * i + 2;
      assert raw.triangles[i] in raw.triangles;
    }
    MaxRefAttained(f.triangles);
    UnflattenFlattenTris(raw.triangles);
    UnflattenFlattenVerts(raw.vertices);
  }

  /** A converted, exactly sized record flattens back to itself. */
  lemma FlattenConvertRoundTrip(f: FlatMesh)
    requires ExactlySized(f)
    requires ConvertFlat(f).status == Converted
    ensures Flatten(ConvertFlat(f).raw) == f
  {
    ConvertFlatMeaning(f);
    assert f.triangles[..3 * f.nTriangles] == f.triangles;
    assert f.vertices[..3 * f.nVertices] == f.vertices;
  }

  // ---------------------------------------------------------------- imperative converters

  /**
   * The loop at src/cork.cpp:126-136: copies the counted triangles out of the
   * buffer into `raw.triangles` and keeps the running maximum `max_ref_idx`.
   */
  method LoadTriangles(m: MeshRef) returns (tris: seq<Tri>, maxRefIdx: nat)
    requires 3 * m.nTriangles <= m.triangles.Length
    ensures tris == UnflattenTris(m.triangles[..], m.nTriangles)
    ensures maxRefIdx == MaxRef(m.triangles[..3 * m.nTriangles])
  {
    ghost var s := m.triangles[..];
    var buf := new Tri[m.nTriangles](_ => Tri(0, 0, 0));
    maxRefIdx := 0;
    var i := 0;
    while i < m.nTriangles
      invariant 0 <= i <= m.nTriangles
      invariant forall j :: 0 <= j < i ==> buf[j] == Tri(s[3 * j], s[3 * j + 1], s[3 * j + 2])
      invariant maxRefIdx == MaxRef(s[..3 * i])
    {
      var a, b, c := m.triangles[3 * i], m.triangles[3 * i + 1], m.triangles[3 * i + 2];
      assert a == s[3 * i] && b == s[3 * i + 1] && c == s[3 * i + 2];
      MaxRefStep(s, i);
      buf[i] := Tri(a, b, c);
      maxRefIdx := Max(Max(maxRefIdx, a), Max(b, c));
      i := i + 1;
    }
    tris := buf[..];
  }

  /** The loop at src/cork.cpp:146-150: copies the counted vertices into `raw.vertices`. */
  method LoadVertices(m: MeshRef) returns (verts: seq<Vec3>)
    requires 3 * m.nVertices <= m.vertices.Length
    ensures verts == UnflattenVerts(m.vertices[..], m.nVertices)
  {
    var buf := new Vec3[m.nVertices](_ => Origin);
    var i := 0;
    while i < m.nVertices
      invariant 0 <= i <= m.nVertices
      invariant forall j :: 0 <= j < i ==>
        buf[j] == Vec3(m.vertices[3 * j], m.vertices[3 * j + 1], m.vertices[3 * j + 2])
    {
      buf[i] := Vec3(m.vertices[3 * i], m.vertices[3 * i + 1], m.vertices[3 * i + 2]);
      i := i + 1;
    }
    verts := buf[..];
  }

  /**
   * `corkTriMesh2CorkMesh` (src/cork.cpp:112-153), with the corrected bound
   * test. An empty record returns before either buffer is read: the
   * precondition asks nothing of the buffers in that case.
   */
  method TriMeshToRaw(m: MeshRef) returns (c: Conversion)
    requires Readable(m.Value())
    ensures c == ConvertFlat(m.Value())
  {
    var nV, nT := m.nVertices, m.nTriangles;
    if nV == 0 || nT == 0 {
      return Conversion(EmptyInput, Resized(nV, nT));
    }
    var tris, maxRefIdx := LoadTriangles(m);
    if maxRefIdx >= nV {
      return Conversion(OutOfRangeReference, RawMesh([], []));
    }
    var verts := LoadVertices(m);
    c := Conversion(Converted, RawMesh(verts, tris));
  }

  /**
   * `corkMesh2CorkTriMesh` (src/cork.cpp:154-177): a fresh record over fresh
   * buffers holding the flattening of `raw`.
   */
  method RawToTriMesh(raw: RawMesh) returns (m: MeshRef)
    ensures fresh(m) && fresh(m.triangles) && fresh(m.vertices)
    ensures m.Valid() && m.Value() == Flatten(raw)
  {
    var nT, nV := |raw.triangles|, |raw.vertices|;
    var tris := new nat[3 * nT];
    var verts := new real[3 * nV];
    ghost var wantT := FlattenTris(raw.triangles);
    ghost var wantV := FlattenVerts(raw.vertices);
    var i := 0;
    while i < nT
      invariant 0 <= i <= nT
      invariant forall p :: 0 <= p < 3 * i ==> tris[p] == wantT[p]
    {
      tris[3 * i] := raw.triangles[i].a;
      tris[3 * i + 1] := raw.triangles[i].b;
      tris[3 * i + 2] := raw.triangles[i].c;
      i := i + 1;
    }
    i := 0;
    while i < nV
      modifies verts
      invariant 0 <= i <= nV
      invariant forall p :: 0 <= p < 3 * i ==> verts[p] == wantV[p]
    {
      verts[3 * i] := raw.vertices[i].x;
      verts[3 * i + 1] := raw.vertices[i].y;
      verts[3 * i + 2] := raw.vertices[i].z;
      i := i + 1;
    }
    assert forall p :: 0 <= p < 3 * nT ==> tris[..][p] == wantT[p];
    assert tris[..] == wantT;
    assert forall p :: 0 <= p < 3 * nV ==> verts[..][p] == wantV[p];
    assert verts[..] == wantV;
    m := new MeshRef.Over(nT, nV, tris, verts);
  }
}
