/**
 * Binary STL reading and writing (src/file_formats/stl.cpp).
 *
 * A binary STL file is an 80-byte header, a 32-bit triangle count and one
 * packed 50-byte record per triangle: a normal and three corners, each three
 * 4-byte floats, then a 16-bit attribute byte count. The reader welds
 * corners that are bitwise equal into one shared vertex through an ordered
 * map; the writer emits one record per triangle with a zeroed normal.
 *
 * A file is modelled by its decoded fields (`StlFile`): `count` is `None`
 * when the four count bytes cannot be read, and `records` holds the complete
 * records present after the count. Opening, seeking and writing are
 * parameters saying whether the C library call succeeded.
 */
module Stl {
  import opened MeshTypes

  /** `tuple3d`: three packed floats. */
  type Tuple3d = Vec3

  type uint16 = x: nat | x < 0x1_0000

  type uint32 = x: nat | x < 0x1_0000_0000

  datatype StlTriangle = StlTriangle(normal: Tuple3d, v1: Tuple3d, v2: Tuple3d, v3: Tuple3d, attributeByteCount: uint16)

  datatype StlFile = StlFile(header: seq<char>, count: Option<uint32>, records: seq<StlTriangle>)

  const HeaderSize: nat := 80
  const CountSize: nat := 4
  const FloatSize: nat := 4
  const TupleSize: nat := 3 * FloatSize
  /** `sizeof(StlTriangle)` under `#pragma pack(1)`: four tuples and a `uint16_t`. */
  const RecordSize: nat := 4 * TupleSize + 2
  /** The reader's (arbitrarily chosen) limit on the triangle count. */
  const MaxTriangles: nat := 50000000

  /** Number of bytes a file occupies. */
  function FileSize(f: StlFile): nat
  {
    |f.header| + (if f.count.Some? then CountSize else 0) + RecordSize * |f.records|
  }

  /** `FileMesh`: the vertex and triangle lists the reader appends to and the writer reads. */
  class FileMesh {
    var vertices: seq<Vec3>
    var triangles: seq<Tri>

    constructor (vertices: seq<Vec3>, triangles: seq<Tri>)
      ensures this.vertices == vertices && this.triangles == triangles
    {
      this.vertices := vertices;
      this.triangles := triangles;
    }
  }

  // ---------------------------------------------------------------- key order

  /** `operator<` on `tuple3d` (src/file_formats/stl.cpp:45-57): lexicographic on x, y, z. */
  predicate Less(a: Tuple3d, b: Tuple3d)
    ensures Less(a, b) <==> a.x < b.x || (a.x == b.x && (a.y < b.y || (a.y == b.y && a.z < b.z)))
  {
    if a.x == b.x then
      if a.y == b.y then a.z < b.z else a.y < b.y
    else
      a.x < b.x
  }

  /**
   * `Less` is a strict total order, and two keys the map treats as
   * equivalent (neither less than the other) are equal: so the ordered map
   * finds a corner exactly when an equal corner was stored.
   */
  lemma LessIsStrictTotalOrder()
    ensures forall a :: !Less(a, a)
    ensures forall a, b, c :: Less(a, b) && Less(b, c) ==> Less(a, c)
    ensures forall a, b :: a != b ==> Less(a, b) || Less(b, a)
    ensures forall a, b :: Less(a, b) ==> !Less(b, a)
    ensures forall a, b :: !Less(a, b) && !Less(b, a) <==> a == b
  {
  }

  // ---------------------------------------------------------------- welding

  /** The growing vertex list together with the reader's `vertexLookup`. */
  datatype Weld = Weld(vertices: seq<Vec3>, lookup: map<Tuple3d, nat>)

  /** Every key maps to a vertex equal to it. */
  ghost predicate LookupValid(w: Weld)
  {
    forall k :: k in w.lookup ==> w.lookup[k] < |w.vertices| && w.vertices[w.lookup[k]] == k
  }

  /**
   * Every vertex from position `base` on was added through the lookup: it is
   * a key that maps back to its own position, and no key maps below `base`.
   */
  ghost predicate WeldedSince(base: nat, w: Weld)
  {
    && base <= |w.vertices|
    && (forall k :: k in w.lookup ==> base <= w.lookup[k])
    && (forall j :: base <= j < |w.vertices| ==> w.vertices[j] in w.lookup && w.lookup[w.vertices[j]] == j)
  }

  /** Corner `p` (0, 1 or 2) of a triangle. */
  function TriCorner(t: Tri, p: nat): nat
    requires p < 3
  {
    if p == 0 then t.a else if p == 1 then t.b else t.c
  }

  /** Corner `p` (0, 1 or 2) of a record. */
  function RecCorner(rec: StlTriangle, p: nat): Tuple3d
    requires p < 3
  {
    if p == 0 then rec.v1 else if p == 1 then rec.v2 else rec.v3
  }

  /** Every corner of `t` is at position `base` or later. */
  predicate Above(t: Tri, base: nat)
  {
    t.a >= base && t.b >= base && t.c >= base
  }

  /** Triangle `tri` names, in `vs`, the three corners of record `rec`. */
  predicate Resolves(tri: Tri, rec: StlTriangle, vs: seq<Vec3>)
  {
    && tri.a < |vs| && tri.b < |vs| && tri.c < |vs|
    && vs[tri.a] == rec.v1 && vs[tri.b] == rec.v2 && vs[tri.c] == rec.v3
  }

  lemma ResolvesExtend(tri: Tri, rec: StlTriangle, vs: seq<Vec3>, more: seq<Vec3>)
    requires Resolves(tri, rec, vs) && vs <= more
    ensures Resolves(tri, rec, more)
  {
    assert more[tri.a] == vs[tri.a] && more[tri.b] == vs[tri.b] && more[tri.c] == vs[tri.c];
  }

  lemma ResolvesCorner(tri: Tri, rec: StlTriangle, vs: seq<Vec3>, p: nat)
    requires Resolves(tri, rec, vs) && p < 3
    ensures TriCorner(tri, p) < |vs| && vs[TriCorner(tri, p)] == RecCorner(rec, p)
  {
  }

  /**
   * `get_vertex_index` (src/file_formats/stl.cpp:59-77): a known corner gets
   * its stored index; a new one is appended and recorded under the next index.
   */
  function VertexIndex(vertex: Tuple3d, w: Weld): (r: (nat, Weld))
    ensures vertex in r.1.lookup && r.1.lookup[vertex] == r.0
    ensures w.vertices <= r.1.vertices && |r.1.vertices| <= |w.vertices| + 1
  {
    if vertex in w.lookup then
      (w.lookup[vertex], w)
    else
      var index := |w.vertices|;
      (index, Weld(w.vertices + [vertex], w.lookup[vertex := index]))
  }

  /**
   * Over a valid lookup, the index returned names a vertex equal to the
   * corner, the lookup stays valid and records that index, and the vertex
   * list keeps its old entries and grows by at most one.
   */
  lemma VertexIndexFinds(vertex: Tuple3d, w: Weld)
    requires LookupValid(w)
    ensures var r := VertexIndex(vertex, w);
      && LookupValid(r.1)
      && r.0 < |r.1.vertices| && r.1.vertices[r.0] == vertex
      && r.1.lookup == w.lookup[vertex := r.0]
      && w.vertices <= r.1.vertices && |r.1.vertices| <= |w.vertices| + 1
  {
  }

  /** The three lookups of one loop turn of `readSTL` (src/file_formats/stl.cpp:116-119). */
  function WeldTriangle(rec: StlTriangle, w: Weld): (r: (Tri, Weld))
    ensures w.vertices <= r.1.vertices && |r.1.vertices| <= |w.vertices| + 3
  {
    var (a, w1) := VertexIndex(rec.v1, w);
    var (b, w2) := VertexIndex(rec.v2, w1);
    var (c, w3) := VertexIndex(rec.v3, w2);
    (Tri(a, b, c), w3)
  }

  /** Over a valid lookup, the triangle built resolves to the record's three corners. */
  lemma WeldTriangleResolves(rec: StlTriangle, w: Weld)
    requires LookupValid(w)
    ensures var r := WeldTriangle(rec, w);
      && LookupValid(r.1)
      && w.vertices <= r.1.vertices && |r.1.vertices| <= |w.vertices| + 3
      && Resolves(r.0, rec, r.1.vertices)
  {
    VertexIndexFinds(rec.v1, w);
    var w1 := VertexIndex(rec.v1, w).1;
    VertexIndexFinds(rec.v2, w1);
    var w2 := VertexIndex(rec.v2, w1).1;
    VertexIndexFinds(rec.v3, w2);
  }

  /**
   * The triangles and vertices `readSTL` produces from the first `n` records
   * of `recs`, starting from `w`: one triangle per record.
   */
  function WeldRecords(recs: seq<StlTriangle>, n: nat, w: Weld): (r: (seq<Tri>, Weld))
    requires n <= |recs|
    ensures |r.0| == n
  {
    if n == 0 then
      ([], w)
    else
      var (tris, w0) := WeldRecords(recs, n - 1, w);
      var (tri, w1) := WeldTriangle(recs[n - 1], w0);
      (tris + [tri], w1)
  }

  /**
   * Over a valid lookup, welding keeps the lookup valid and the vertices
   * already present, adds at most three vertices per record, and every
   * triangle produced resolves to its record's corners.
   */
  lemma {:induction false} WeldRecordsResolves(recs: seq<StlTriangle>, n: nat, w: Weld)
    requires LookupValid(w) && n <= |recs|
    ensures var r := WeldRecords(recs, n, w);
      && LookupValid(r.1)
      && w.vertices <= r.1.vertices && |r.1.vertices| <= |w.vertices| + 3 * n
      && forall j :: 0 <= j < n ==> Resolves(r.0[j], recs[j], r.1.vertices)
  {
    if n != 0 {
      WeldRecordsResolves(recs, n - 1, w);
      var p := WeldRecords(recs, n - 1, w);
      WeldTriangleResolves(recs[n - 1], p.1);
      var t := WeldTriangle(recs[n - 1], p.1);
      var r := WeldRecords(recs, n, w);
      assert r == (p.0 + [t.0], t.1);
      forall j | 0 <= j < n ensures Resolves(r.0[j], recs[j], r.1.vertices) {
        if j < n - 1 {
          ResolvesExtend(p.0[j], recs[j], p.1.vertices, t.1.vertices);
        }
      }
    }
  }

  /** A lookup keeps `WeldedSince` and returns an index at `base` or later. */
  lemma VertexIndexWeldedSince(vertex: Tuple3d, w: Weld, base: nat)
    requires WeldedSince(base, w)
    ensures WeldedSince(base, VertexIndex(vertex, w).1)
    ensures VertexIndex(vertex, w).0 >= base
  {
  }

  lemma WeldTriangleWeldedSince(rec: StlTriangle, w: Weld, base: nat)
    requires WeldedSince(base, w)
    ensures WeldedSince(base, WeldTriangle(rec, w).1)
    ensures Above(WeldTriangle(rec, w).0, base)
  {
    VertexIndexWeldedSince(rec.v1, w, base);
    var w1 := VertexIndex(rec.v1, w).1;
    VertexIndexWeldedSince(rec.v2, w1, base);
    var w2 := VertexIndex(rec.v2, w1).1;
    VertexIndexWeldedSince(rec.v3, w2, base);
  }

  /**
   * Welding keeps every vertex added since `base` reachable through the
   * lookup, and every triangle it produces names only vertices from `base` on.
   */
  lemma {:induction false} WeldRecordsWeldedSince(recs: seq<StlTriangle>, n: nat, w: Weld, base: nat)
    requires WeldedSince(base, w) && n <= |recs|
    ensures var r := WeldRecords(recs, n, w);
      && WeldedSince(base, r.1)
      && forall j :: 0 <= j < n ==> Above(r.0[j], base)
  {
    if n != 0 {
      WeldRecordsWeldedSince(recs, n - 1, w, base);
      var p := WeldRecords(recs, n - 1, w);
      WeldTriangleWeldedSince(recs[n - 1], p.1, base);
      var t := WeldTriangle(recs[n - 1], p.1);
      assert WeldRecords(recs, n, w) == (p.0 + [t.0], t.1);
    }
  }

  /** Vertices reachable through the lookup are pairwise distinct. */
  lemma WeldedSinceDistinct(base: nat, w: Weld)
    requires WeldedSince(base, w)
    ensures forall i, j :: base <= i < j < |w.vertices| ==> w.vertices[i] != w.vertices[j]
  {
  }

  /**
   * What one read contributes: starting from the vertices `vs` already in
   * the mesh and an empty lookup, the vertices appended are pairwise
   * distinct and the triangles name only appended vertices.
   */
  lemma ReadWeldsNewVertices(recs: seq<StlTriangle>, n: nat, vs: seq<Vec3>)
    requires n <= |recs|
    ensures var r := WeldRecords(recs, n, Weld(vs, map[]));
      && (forall i, k :: |vs| <= i < k < |r.1.vertices| ==> r.1.vertices[i] != r.1.vertices[k])
      && (forall j :: 0 <= j < n ==> Above(r.0[j], |vs|))
  {
    var w := Weld(vs, map[]);
    WeldRecordsWeldedSince(recs, n, w, |vs|);
    WeldedSinceDistinct(|vs|, WeldRecords(recs, n, w).1);
  }

  /**
   * Welding in one read: two equal corners anywhere in the records read get
   * one and the same vertex index, whatever the mesh held before.
   */
  lemma ReadWeldsEqualCorners(recs: seq<StlTriangle>, n: nat, vs: seq<Vec3>)
    requires n <= |recs|
    ensures var r := WeldRecords(recs, n, Weld(vs, map[]));
      forall j, k, p, q ::
        0 <= j < n && 0 <= k < n && 0 <= p < 3 && 0 <= q < 3 && RecCorner(recs[j], p) == RecCorner(recs[k], q)
        ==> TriCorner(r.0[j], p) == TriCorner(r.0[k], q)
  {
    var w := Weld(vs, map[]);
    var r := WeldRecords(recs, n, w);
    ReadWeldsNewVertices(recs, n, vs);
    WeldRecordsResolves(recs, n, w);
    forall j, k, p, q | 0 <= j < n && 0 <= k < n && 0 <= p < 3 && 0 <= q < 3 &&
        RecCorner(recs[j], p) == RecCorner(recs[k], q)
      ensures TriCorner(r.0[j], p) == TriCorner(r.0[k], q)
    {
      ResolvesCorner(r.0[j], recs[j], r.1.vertices, p);
      ResolvesCorner(r.0[k], recs[k], r.1.vertices, q);
      assert Above(r.0[j], |vs|) && Above(r.0[k], |vs|);
    }
  }

  // ---------------------------------------------------------------- reading

  /** `readSTL` gets past the header, the count and the count limit. */
  predicate ReachesLoop(file: Option<StlFile>, seekOk: bool)
  {
    && file.Some? && seekOk
    && file.value.count.Some? && file.value.count.value <= MaxTriangles
  }

  /** The number of records the loop reads: the count, or fewer when the file is short. */
  function RecordsRead(f: StlFile): (n: nat)
    requires f.count.Some?
    ensures n <= |f.records| && n <= f.count.value
    ensures n == f.count.value || n == |f.records|
  {
    if f.count.value <= |f.records| then f.count.value else |f.records|
  }

  /**
   * `get_vertex_index` on the reader's state: `data.vertices` plays the
   * vertex list and `lookup` the map passed by reference.
   */
  method GetVertexIndex(vertex: Tuple3d, data: FileMesh, lookup: map<Tuple3d, nat>)
    returns (index: nat, lookup': map<Tuple3d, nat>)
    modifies data
    ensures (index, Weld(data.vertices, lookup')) == VertexIndex(vertex, Weld(old(data.vertices), lookup))
    ensures data.triangles == old(data.triangles)
  {
    if vertex in lookup {
      return lookup[vertex], lookup;
    }
    index := |data.vertices|;
    data.vertices := data.vertices + [vertex];
    lookup' := lookup[vertex := index];
  }

  /** One loop turn's lookups (src/file_formats/stl.cpp:116-119). */
  method ReadTriangle(triangle: StlTriangle, data: FileMesh, lookup: map<Tuple3d, nat>)
    returns (triData: Tri, lookup': map<Tuple3d, nat>)
    modifies data
    ensures (triData, Weld(data.vertices, lookup')) == WeldTriangle(triangle, Weld(old(data.vertices), lookup))
    ensures data.triangles == old(data.triangles)
  {
    var a, b, c;
    a, lookup' := GetVertexIndex(triangle.v1, data, lookup);
    b, lookup' := GetVertexIndex(triangle.v2, data, lookup');
    c, lookup' := GetVertexIndex(triangle.v3, data, lookup');
    triData := Tri(a, b, c);
  }

  /** The outcome of `readSTL`: its return code and the mesh it leaves behind. */
  datatype ReadOutcome = ReadOutcome(code: int, vertices: seq<Vec3>, triangles: seq<Tri>)

  /**
   * What `readSTL` (src/file_formats/stl.cpp:79-124) does to a mesh holding
   * `vertices` and `triangles`. `file` is `None` when the file cannot be
   * opened and `seekOk` says whether skipping the header worked.
   */
  function ReadSpec(file: Option<StlFile>, seekOk: bool, vertices: seq<Vec3>, triangles: seq<Tri>): (o: ReadOutcome)
    ensures o.code == 0 || o.code == 1
    ensures triangles <= o.triangles
  {
    if !ReachesLoop(file, seekOk) then
      ReadOutcome(1, vertices, triangles)
    else
      var n := RecordsRead(file.value);
      var r := WeldRecords(file.value.records, n, Weld(vertices, map[]));
      ReadOutcome(if n == file.value.count.value then 0 else 1, r.1.vertices, triangles + r.0)
  }

  /**
   * The reader returns 1 without touching the mesh when the file cannot be
   * opened, the header cannot be skipped, the count cannot be read or the
   * count exceeds 50,000,000. Otherwise it appends one triangle per record
   * read, each resolving to that record's corners, keeps the old vertices,
   * appends at most three per record, all pairwise distinct, and returns 0
   * exactly when all `count` records were present.
   */
  lemma ReadSpecMeaning(file: Option<StlFile>, seekOk: bool, vertices: seq<Vec3>, triangles: seq<Tri>)
    ensures var o := ReadSpec(file, seekOk, vertices, triangles);
      && (o.code == 0 || o.code == 1)
      && (o.code == 0 <==> ReachesLoop(file, seekOk) && file.value.count.value <= |file.value.records|)
      && (!ReachesLoop(file, seekOk) ==> o.vertices == vertices && o.triangles == triangles)
      && (ReachesLoop(file, seekOk) ==>
            var n := RecordsRead(file.value);
            && |o.triangles| == |triangles| + n
            && triangles <= o.triangles
            && vertices <= o.vertices
            && |o.vertices| <= |vertices| + 3 * n
            && (forall j :: 0 <= j < n ==>
                  Resolves(o.triangles[|triangles| + j], file.value.records[j], o.vertices) &&
                  Above(o.triangles[|triangles| + j], |vertices|))
            && (forall i, k :: |vertices| <= i < k < |o.vertices| ==> o.vertices[i] != o.vertices[k]))
  {
    if ReachesLoop(file, seekOk) {
      var n := RecordsRead(file.value);
      var w := Weld(vertices, map[]);
      ReadWeldsNewVertices(file.value.records, n, vertices);
      WeldRecordsResolves(file.value.records, n, w);
      var o := ReadSpec(file, seekOk, vertices, triangles);
      var r := WeldRecords(file.value.records, n, w);
      assert o.vertices == r.1.vertices && o.triangles == triangles + r.0;
      forall j | 0 <= j < n
        ensures Resolves(o.triangles[|triangles| + j], file.value.records[j], o.vertices)
        ensures Above(o.triangles[|triangles| + j], |vertices|)
      {
        assert o.triangles[|triangles| + j] == r.0[j];
      }
    }
  }

  /**
   * The triangle loop of `readSTL` (src/file_formats/stl.cpp:109-121): reads
   * up to `numTriangles` records, stopping with 1 at the first one missing.
   */
  method ReadRecords(records: seq<StlTriangle>, numTriangles: nat, data: FileMesh) returns (code: int)
    modifies data
    ensures var n := if numTriangles <= |records| then numTriangles else |records|;
      var r := WeldRecords(records, n, Weld(old(data.vertices), map[]));
      && code == (if n == numTriangles then 0 else 1)
      && data.vertices == r.1.vertices && data.triangles == old(data.triangles) + r.0
  {
    var vertexLookup: map<Tuple3d, nat> := map[];
    ghost var w := Weld(data.vertices, map[]);
    ghost var tris0 := data.triangles;
    var triangleIndex := 0;
    while triangleIndex < numTriangles
      invariant triangleIndex <= numTriangles && triangleIndex <= |records|
      invariant var r := WeldRecords(records, triangleIndex, w);
        data.triangles == tris0 + r.0 && data.vertices == r.1.vertices && vertexLookup == r.1.lookup
    {
      if triangleIndex >= |records| {
        return 1;
      }
      var triData;
      triData, vertexLookup := ReadTriangle(records[triangleIndex], data, vertexLookup);
      data.triangles := data.triangles + [triData];
      triangleIndex := triangleIndex + 1;
    }
    code := 0;
  }

  /**
   * `readSTL` (src/file_formats/stl.cpp:79-124) on the mesh `data`: the
   * return code and the new mesh are those of `ReadSpec`.
   */
  method ReadStl(file: Option<StlFile>, seekOk: bool, data: FileMesh) returns (code: int)
    modifies data
    ensures ReadOutcome(code, data.vertices, data.triangles) == ReadSpec(file, seekOk, old(data.vertices), old(data.triangles))
  {
    if file.None? {
      return 1;
    }
    if !seekOk {
      return 1;
    }
    var f := file.value;
    if f.count.None? {
      return 1;
    }
    var numTriangles := f.count.value;
    if numTriangles > MaxTriangles {
      return 1;
    }
    code := ReadRecords(f.records, numTriangles, data);
  }

  // ---------------------------------------------------------------- writing

  /** The text at the start of every header `writeSTL` produces. */
  const HeaderText: string := "This is a binary stl file that contains zeroed normal vectors"

  /** The 80-byte header (src/file_formats/stl.cpp:141-142): the text, then zero bytes. */
  function Header(): (h: seq<char>)
    ensures |h| == HeaderSize
    ensures h[..|HeaderText|] == HeaderText
    ensures forall i :: |HeaderText| <= i < HeaderSize ==> h[i] == '\0'
  {
    HeaderText + seq(HeaderSize - |HeaderText|, _ => '\0')
  }

  /** The normal every written record is meant to carry. */
  const ZeroNormal: Tuple3d := Vec3(0.0, 0.0, 0.0)

  /**
   * The normal `writeSTL` leaves in its record buffer as written
   * (src/file_formats/stl.cpp:151-152): components 0 and 2 are zeroed (2
   * twice), component 1 keeps `stale`, whatever the uninitialised buffer held.
   */
  function BufferNormalAsWritten(stale: Tuple3d): (n: Tuple3d)
    ensures n.x == 0.0 && n.z == 0.0
    ensures n.y == stale.y
  {
    stale.(x := 0.0, z := 0.0).(z := 0.0)
  }

  /** Whenever the stale component 1 is non-zero, the normal written is not the zeroed one the header announces. */
  lemma BufferNormalAsWrittenNotZeroed(stale: Tuple3d)
    requires stale.y != 0.0
    ensures BufferNormalAsWritten(stale) != ZeroNormal
  {
    assert BufferNormalAsWritten(stale).y != ZeroNormal.y;
  }

  /** The record written for triangle `t` (src/file_formats/stl.cpp:155-159). */
  function Record(vertices: seq<Vec3>, t: Tri): (rec: StlTriangle)
    requires t.a < |vertices| && t.b < |vertices| && t.c < |vertices|
    ensures rec.normal == ZeroNormal && rec.attributeByteCount == 0
    ensures Resolves(t, rec, vertices)
  {
    StlTriangle(ZeroNormal, vertices[t.a], vertices[t.b], vertices[t.c], 0)
  }

  /**
   * The file `writeSTL` produces: the header, the triangle count truncated
   * to 32 bits, and one record per triangle, every one with a zeroed normal
   * and no attribute bytes.
   */
  function WrittenFile(vertices: seq<Vec3>, triangles: seq<Tri>): (f: StlFile)
    requires IndicesInRange(vertices, triangles)
    ensures f.header == Header() && |f.records| == |triangles|
    ensures f.count == Some(|triangles| % 0x1_0000_0000)
    ensures forall j :: 0 <= j < |triangles| ==>
      f.records[j].normal == ZeroNormal && f.records[j].attributeByteCount == 0
      && Resolves(triangles[j], f.records[j], vertices)
    ensures FileSize(f) == 84 + 50 * |triangles|
  {
    StlFile(Header(), Some(|triangles| % 0x1_0000_0000),
            seq(|triangles|, j requires 0 <= j < |triangles| => Record(vertices, triangles[j])))
  }

  /**
   * `writeSTL` (src/file_formats/stl.cpp:133-164). `canOpen` says whether the
   * file opens and `headerWritten` whether the header write succeeds; either
   * failure returns 1 and yields no file. Later write failures go unnoticed.
   * The record buffer is filled once with the zeroed normal and no attribute
   * bytes, then its corners are overwritten for each triangle.
   */
  method WriteStl(canOpen: bool, headerWritten: bool, data: FileMesh) returns (code: int, file: Option<StlFile>)
    requires IndicesInRange(data.vertices, data.triangles)
    ensures !(canOpen && headerWritten) ==> code == 1 && file == None
    ensures canOpen && headerWritten ==> code == 0 && file == Some(WrittenFile(data.vertices, data.triangles))
  {
    if !canOpen {
      return 1, None;
    }
    var header := Header();
    if !headerWritten {
      return 1, None;
    }
    var size: uint32 := |data.triangles| % 0x1_0000_0000;
    ghost var want := WrittenFile(data.vertices, data.triangles).records;
    var triangle := StlTriangle(ZeroNormal, Origin, Origin, Origin, 0);
    var records := [];
    var i := 0;
    while i < |data.triangles|
      invariant i <= |data.triangles|
      invariant records == want[..i]
      invariant triangle.normal == ZeroNormal && triangle.attributeByteCount == 0
    {
      var t := data.triangles[i];
      triangle := triangle.(v1 := data.vertices[t.a], v2 := data.vertices[t.b], v3 := data.vertices[t.c]);
      records := records + [triangle];
      i := i + 1;
    }
    assert records == want;
    code, file := 0, Some(StlFile(header, Some(size), records));
  }

  // ---------------------------------------------------------------- round trip

  /**
   * Reading, into an empty mesh, a complete file whose records resolve to
   * `triangles` over `vertices` succeeds and rebuilds every triangle: each
   * corner of the triangle read equals the corresponding corner of the
   * original, and equal corners share one vertex.
   */
  lemma ReadBack(f: StlFile, vertices: seq<Vec3>, triangles: seq<Tri>)
    requires IndicesInRange(vertices, triangles)
    requires f.count == Some(|triangles|) && |f.records| == |triangles| <= MaxTriangles
    requires forall j :: 0 <= j < |triangles| ==> Resolves(triangles[j], f.records[j], vertices)
    ensures var o := ReadSpec(Some(f), true, [], []);
      && o.code == 0
      && |o.triangles| == |triangles|
      && IndicesInRange(o.vertices, o.triangles)
      && (forall j :: 0 <= j < |triangles| ==>
            && o.vertices[o.triangles[j].a] == vertices[triangles[j].a]
            && o.vertices[o.triangles[j].b] == vertices[triangles[j].b]
            && o.vertices[o.triangles[j].c] == vertices[triangles[j].c])
      && (forall i, k :: 0 <= i < k < |o.vertices| ==> o.vertices[i] != o.vertices[k])
  {
    var n := |triangles|;
    var r := WeldRecords(f.records, n, Weld([], map[]));
    ReadCompleteFile(f);
    WeldRecordsResolves(f.records, n, Weld([], map[]));
    ReadWeldsNewVertices(f.records, n, []);
    forall j | 0 <= j < n
      ensures r.0[j].a < |r.1.vertices| && r.0[j].b < |r.1.vertices| && r.0[j].c < |r.1.vertices|
      ensures r.1.vertices[r.0[j].a] == vertices[triangles[j].a]
      ensures r.1.vertices[r.0[j].b] == vertices[triangles[j].b]
      ensures r.1.vertices[r.0[j].c] == vertices[triangles[j].c]
    {
      assert Resolves(r.0[j], f.records[j], r.1.vertices);
      assert Resolves(triangles[j], f.records[j], vertices);
    }
  }

  /** A file holding exactly `count` records is read completely into an empty mesh. */
  lemma ReadCompleteFile(f: StlFile)
    requires f.count == Some(|f.records|) && |f.records| <= MaxTriangles
    ensures var r := WeldRecords(f.records, |f.records|, Weld([], map[]));
      ReadSpec(Some(f), true, [], []) == ReadOutcome(0, r.1.vertices, r.0)
  {
    assert RecordsRead(f) == |f.records|;
    var r := WeldRecords(f.records, |f.records|, Weld([], map[]));
    assert [] + r.0 == r.0;
  }

  /**
   * Reading back what `writeSTL` wrote, into an empty mesh, succeeds (as
   * long as the count is within the reader's limit) and rebuilds every
   * triangle: each corner of the triangle read is the corresponding corner
   * of the triangle written, and equal corners share one vertex.
   */
  lemma WriteThenRead(vertices: seq<Vec3>, triangles: seq<Tri>)
    requires IndicesInRange(vertices, triangles)
    requires |triangles| <= MaxTriangles
    ensures var o := ReadSpec(Some(WrittenFile(vertices, triangles)), true, [], []);
      && o.code == 0
      && |o.triangles| == |triangles|
      && IndicesInRange(o.vertices, o.triangles)
      && (forall j :: 0 <= j < |triangles| ==>
            && o.vertices[o.triangles[j].a] == vertices[triangles[j].a]
            && o.vertices[o.triangles[j].b] == vertices[triangles[j].b]
            && o.vertices[o.triangles[j].c] == vertices[triangles[j].c])
      && (forall i, k :: 0 <= i < k < |o.vertices| ==> o.vertices[i] != o.vertices[k])
  {
    ReadBack(WrittenFile(vertices, triangles), vertices, triangles);
  }
}
