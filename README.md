# Cork glue layer: a verified model

Cork is a library that computes Boolean operations (union, difference,
intersection, exclusive or) on closed triangle meshes. This project models
the sequential layer around its mesh engine:

- the flat `CorkTriMesh` record: a triangle count, a vertex count, an index
  buffer and a coordinate buffer;
- its conversion to and from the engine's raw mesh, with the checks for empty
  input and out-of-range vertex references (`convert.dfy`);
- the in-place transforms `translateZ`, `translate`, `rotate180X` and
  `rotate180Y` (`transforms.dfy`);
- the flat-record entry points that run the engine (`pipeline.dfy`);
- the ID-keyed session store `meshDict` with its load, save, copy, delete,
  clear, Boolean and transform functions (`session.dfy`);
- the vertex and triangle attribute hooks the engine calls when it merges,
  interpolates, intersects and subdivides (`attributes.dfy`);
- binary STL reading, which welds equal corners into shared vertices, and
  binary STL writing (`stl.dfy`).

`mesh_types.dfy` holds the shared data model. The record is the class
`MeshRef`, and its two buffers are Dafny arrays. A struct copy therefore shares
the buffers, exactly as the C++ pointer copy does. The session store is a class
holding `map<int, MeshRef>`. The in-place loops are methods over those arrays.
Each one is proved equal to a specification function on sequences, and the
properties are proved as lemmas about those functions.

The Boolean engine is a function-typed parameter (`engine`), and so are its
solidity tests (`selfIntersecting`, `closed`). Every property proved here
holds whatever the engine computes. Coordinates are `real`.

The attribute hooks follow the code, not the library's description, where the
two differ. The description says a merge favours the manifold vertex. In
`CorkVertex::merge` the weight is 0 for `v0` when only `v0` is manifold, so
the merged position is the non-manifold vertex's. `Attributes.Merge` states
that.

## Model

| member | source | states |
|---|---|---|
| MeshTypes.MeshRef.Value | src/cork.h:47-53 | The record's contents are exactly sized (buffers of `3 * n_triangles` and `3 * n_vertices` entries) iff its buffers have those lengths |
| MeshTypes.MeshRef.Over | src/cork.cpp:163-164 | A record over the given counts and the given two buffers, with nothing copied |
| MeshTypes.MeshRef.FromValue | src/cork.cpp:165-175 | A fresh record over fresh buffers whose contents are exactly the given counts and buffers |
| MeshTypes.MeshRef.ShallowCopy | src/cork.cpp:351-352 | The copy has the source's counts and the very same two buffers, not copies of them |
| Convert.FlattenTris | src/cork.cpp:165-169 | The index buffer has length `3 * n_triangles`, and triangle `i`'s corners `a, b, c` sit at slots `3i, 3i+1, 3i+2` |
| Convert.FlattenVerts | src/cork.cpp:171-175 | The coordinate buffer has length `3 * n_vertices`, and vertex `i`'s `x, y, z` sit at slots `3i, 3i+1, 3i+2` |
| Convert.UnflattenTris | src/cork.cpp:126-129 | Reading `n` triangles from the index buffer gives exactly `n` triangles. Their contents are stated by the two round-trip lemmas |
| Convert.UnflattenVerts | src/cork.cpp:146-150 | Reading `n` vertices from the coordinate buffer gives exactly `n` vertices. Their contents are stated by the two round-trip lemmas |
| Convert.Flatten | src/cork.cpp:158-163 | The output counts equal the list lengths, and both buffers have exactly three entries per element |
| Convert.UnflattenFlattenTris | src/cork.cpp:126-129 | Reading triangles back from the flattened index buffer gives the original list |
| Convert.UnflattenFlattenVerts | src/cork.cpp:146-150 | Reading vertices back from the flattened coordinate buffer gives the original list |
| Convert.FlattenUnflattenTris | src/cork.cpp:165-169 | Flattening the first `n` triangles read from a buffer gives back the buffer's first `3n` slots |
| Convert.FlattenUnflattenVerts | src/cork.cpp:171-175 | Flattening the first `n` vertices read from a buffer gives back the buffer's first `3n` slots |
| Convert.MaxRef | src/cork.cpp:125-136 | `max_ref_idx` bounds every entry of the counted prefix, and is 0 for an empty prefix |
| Convert.MaxRefAttained | src/cork.cpp:125-136 | The maximum of a non-empty prefix is one of its entries |
| Convert.MaxRefStep | src/cork.cpp:130-135 | One loop turn folds the next three entries into the running maximum |
| Convert.Resized | src/cork.cpp:117-118 | After the two `resize` calls the raw lists have exactly `n_vertices` and `n_triangles` entries, all of them default values |
| Convert.ConvertWith | src/cork.cpp:117-153 | `EmptyInput` iff a count is zero. `OutOfRangeReference` iff both counts are non-zero and the bound test rejects, and then both lists are empty. Otherwise `Converted`, with lists of exactly the counted lengths |
| Convert.ConvertFlatAsWritten | src/cork.cpp:112-153 | With the bound test as written, an accepted record only guarantees that every index is at most `n_vertices`, not below it |
| Convert.ConvertFlat | src/cork.cpp:112-153 | With the bound test corrected (see Findings), every index of an accepted record names a vertex |
| Convert.ConvertFlatMeaning | src/cork.cpp:112-153 | `EmptyInput` is reported iff a count is zero, and the raw lists are then resized to the counts. `OutOfRangeReference` is reported iff some counted index is not below `n_vertices`, and both lists are then cleared. On success every index names a vertex, and triangle and vertex `i` come from slots `3i..3i+2` |
| Convert.AsWrittenAcceptsDanglingIndex | src/cork.cpp:137 | With the test as written, one triangle `(0, 0, 1)` over one vertex is accepted even though index 1 names no vertex. The corrected test rejects it |
| Convert.AsWrittenDiffersOnlyAtBound | src/cork.cpp:137 | The test as written and the corrected test agree unless the largest index equals `n_vertices` |
| Convert.ConvertFlattenRoundTrip | src/cork.cpp:112-177 | Converting the flattening of a non-empty raw mesh with in-range indices gives back that raw mesh, with no diagnostic |
| Convert.FlattenConvertRoundTrip | src/cork.cpp:112-177 | Flattening the raw mesh converted from an exactly sized, accepted record gives back that record |
| Convert.LoadTriangles | src/cork.cpp:125-136 | The loop copies exactly the counted triangles, reading slots `3i..3i+2`, and ends with `max_ref_idx` equal to the maximum counted index |
| Convert.LoadVertices | src/cork.cpp:146-150 | The loop copies exactly the counted vertices, reading slots `3i..3i+2` |
| Convert.TriMeshToRaw | src/cork.cpp:112-153 | `corkTriMesh2CorkMesh` with its bound test corrected to `>=` (see Findings) computes the conversion `ConvertFlatMeaning` describes. An empty record returns before its buffers are read |
| Convert.RawToTriMesh | src/cork.cpp:154-177 | `corkMesh2CorkTriMesh` yields a fresh record over fresh buffers holding the flattening of the raw mesh |
| Transforms.Translated | src/cork.cpp:268-275 | The buffer keeps its length. `TranslatedMovesVertices` states what happens to each slot |
| Transforms.TranslatedZ | src/cork.cpp:261-266 | The buffer keeps its length. `TranslatedZIsTranslated` states what happens to each slot |
| Transforms.Rotated180X | src/cork.cpp:277-285 | The buffer keeps its length. `Rotated180XMapsVertices` states what happens to each vertex |
| Transforms.Rotated180Y | src/cork.cpp:287-295 | The buffer keeps its length. `Rotated180YMapsVertices` states what happens to each vertex |
| Transforms.TranslatedMovesVertices | src/cork.cpp:268-275 | Translation adds `(dx, dy, dz)` to every counted vertex and leaves slots past `3 * n_vertices` alone |
| Transforms.TranslatedZIsTranslated | src/cork.cpp:261-266 | `translateZ` is `translate` by `(0, 0, dz)`, and it changes only the z slots |
| Transforms.TranslatedInverse | src/cork.cpp:268-275 | Translating by `d` and then by `-d` restores the buffer |
| Transforms.TranslatedCompose | src/cork.cpp:268-275 | Two translations equal one translation by the sum of the two vectors |
| Transforms.Rotated180XMapsVertices | src/cork.cpp:277-285 | `rotate180X` maps every counted vertex `(x, y, z)` to `(x, -y, -z)` and leaves slots past the counted vertices alone |
| Transforms.Rotated180YMapsVertices | src/cork.cpp:287-295 | `rotate180Y` maps every counted vertex `(x, y, z)` to `(-x, y, -z)` and leaves slots past the counted vertices alone |
| Transforms.RotationsAreInvolutions | src/cork.cpp:277-295 | Applying either rotation twice restores the buffer |
| Transforms.RotationsCompose | src/cork.cpp:277-295 | The two rotations commute, and together they negate x and y and keep z |
| Transforms.TranslateZ | src/cork.cpp:261-266 | The in-place loop leaves the buffer equal to `TranslatedZ` of its old contents. Only the coordinate buffer may change |
| Transforms.Translate | src/cork.cpp:268-275 | The in-place loop leaves the buffer equal to `Translated` of its old contents |
| Transforms.Rotate180X | src/cork.cpp:277-285 | The stepping-pointer loop leaves the buffer equal to `Rotated180X` of its old contents |
| Transforms.Rotate180Y | src/cork.cpp:287-295 | The stepping-pointer loop leaves the buffer equal to `Rotated180Y` of its old contents |
| Pipeline.IsSolid | src/cork.cpp:180-198 | Solid iff the converted mesh is not self-intersecting and is closed |
| Pipeline.Compute | src/cork.cpp:200-259 | The result is a fresh, exactly sized record holding the flattened engine result on the two converted inputs |
| Session.MeshStore.constructor | src/cork.cpp:301 | The store starts empty |
| Session.MeshStore.LoadMesh | src/cork.cpp:303-314 | The ID is bound to a fresh record over fresh buffers, holding what was loaded, iff loading succeeded. Every other key is unchanged, and on failure the whole store is unchanged |
| Session.MeshStore.SaveMesh | src/cork.cpp:316-324 | Returns false for an absent ID. Otherwise it hands over that record's contents |
| Session.MeshStore.ClearAllMeshes | src/cork.cpp:326-332 | The store is left empty |
| Session.MeshStore.DeleteMesh | src/cork.cpp:334-343 | Returns true iff the ID was present, and removes exactly that key |
| Session.MeshStore.CopyMesh | src/cork.cpp:345-355 | Returns false with the store unchanged for an absent source. Otherwise `destID` is bound to a fresh record with the source's counts and the same buffers, and every other key is unchanged |
| Session.MeshStore.IsSolid | src/cork.cpp:357-364 | False for an absent ID. Otherwise the solidity of that record |
| Session.MeshStore.Boolean | src/cork.cpp:366-436 | Returns false with the store untouched if either input is missing. Otherwise it binds `OutID` to a fresh record holding the engine result on the two inputs, and every other key is unchanged |
| Session.MeshStore.TranslateZ | src/cork.cpp:438-446 | False, with nothing changed, for an absent ID. Otherwise that record's buffer becomes `TranslatedZ` of its old contents |
| Session.MeshStore.Translate | src/cork.cpp:448-456 | False, with nothing changed, for an absent ID. Otherwise that record's buffer becomes `Translated` of its old contents |
| Session.MeshStore.Rotate180X | src/cork.cpp:458-466 | False, with nothing changed, for an absent ID. Otherwise that record's buffer becomes `Rotated180X` of its old contents |
| Session.MeshStore.Rotate180Y | src/cork.cpp:468-476 | False, with nothing changed, for an absent ID. Otherwise that record's buffer becomes `Rotated180Y` of its old contents |
| Session.RotateAfterCopy | win/TestLibwincorkNET/Program.cs:60-62 | After `CopyMesh`, rotating the source in place is seen through the copy, which shares its buffer |
| Attributes.MergeWeight | src/cork.cpp:49-51 | The weight of `v0` is 0, one half or 1 |
| Attributes.Merge | src/cork.cpp:48-55 | When exactly one vertex is manifold, the result takes the other vertex's position. When the flags agree, it takes the midpoint. The manifold flag is not touched |
| Attributes.Interpolate | src/cork.cpp:56-60 | The result is the midpoint |
| Attributes.InterpolateIsEquidistant | src/cork.cpp:56-60 | The interpolated point is as far from one end as from the other |
| Attributes.MergeSymmetric | src/cork.cpp:48-55 | Swapping the two merged vertices does not change the result |
| Attributes.MergeOfLikeIsInterpolate | src/cork.cpp:48-55 | When the flags agree, merging is interpolation |
| Attributes.EdgeTriWeights | src/cork.cpp:63-69 | A quarter for each edge end and a sixth for each triangle corner, summing to one |
| Attributes.TriTriTriWeights | src/cork.cpp:70-80 | Nine weights of a ninth, summing to one |
| Attributes.IsctInterpolateWeights | src/cork.cpp:81-88 | The weights sum to one and lie in `[0, 1]`. They are halves when both lengths are zero, and the end nearer the point weighs more |
| Attributes.IsctEdgeTri | src/cork.cpp:63-69 | The vertex is unchanged |
| Attributes.IsctTriTriTri | src/cork.cpp:70-80 | The vertex is unchanged |
| Attributes.IsctInterpolate | src/cork.cpp:81-88 | The vertex is unchanged |
| Attributes.TriangleMerge | src/cork.cpp:97 | The label is unchanged |
| Attributes.TriangleSplit | src/cork.cpp:98-99 | Neither child's label changes |
| Attributes.TriangleMove | src/cork.cpp:100 | The label is unchanged |
| Attributes.Subdivide | src/cork.cpp:101-104 | The child takes the parent's label |
| Stl.Less | src/file_formats/stl.cpp:45-57 | `operator<` orders tuples lexicographically by x, then y, then z |
| Stl.LessIsStrictTotalOrder | src/file_formats/stl.cpp:45-57 | `operator<` is irreflexive, transitive and total on distinct tuples. Two tuples neither of which is less than the other are equal |
| Stl.VertexIndex | src/file_formats/stl.cpp:59-77 | `get_vertex_index` leaves the corner in the lookup, mapped to the index returned. The vertex list keeps its entries and grows by at most one |
| Stl.VertexIndexFinds | src/file_formats/stl.cpp:59-77 | Over a consistent lookup, the index returned names a vertex equal to the corner. The lookup stays consistent and records that index. Earlier vertices are kept and the list grows by at most one |
| Stl.WeldTriangle | src/file_formats/stl.cpp:116-119 | The three lookups of one record keep the vertex list's entries and add at most three |
| Stl.WeldTriangleResolves | src/file_formats/stl.cpp:116-119 | The triangle built from one record names that record's three corners, and at most three vertices are added |
| Stl.WeldRecords | src/file_formats/stl.cpp:109-121 | Welding `n` records yields exactly `n` triangles |
| Stl.WeldRecordsResolves | src/file_formats/stl.cpp:109-121 | Welding keeps the lookup consistent and the old vertices. It adds at most three vertices per record, and every triangle names its record's corners |
| Stl.VertexIndexWeldedSince | src/file_formats/stl.cpp:59-77 | A lookup keeps mapping every vertex appended since the read began back to its own position, and the index it returns is never below the read's starting vertex count |
| Stl.WeldRecordsWeldedSince | src/file_formats/stl.cpp:109-121 | Every vertex appended during a read stays mapped back to its own position, and every triangle the read produces names only vertices appended by that read |
| Stl.WeldedSinceDistinct | src/file_formats/stl.cpp:59-77 | Vertices mapped back to their own positions are pairwise distinct |
| Stl.ReadWeldsNewVertices | src/file_formats/stl.cpp:109-121 | The vertices appended during one read are pairwise distinct, and the triangles read name only those vertices |
| Stl.ReadWeldsEqualCorners | src/file_formats/stl.cpp:109-121 | Within one read, two equal corners anywhere in the records read get the same vertex index, whatever the mesh held before |
| Stl.RecordsRead | src/file_formats/stl.cpp:109-115 | The loop reads the count's worth of records, or all those present when the file is short |
| Stl.GetVertexIndex | src/file_formats/stl.cpp:59-77 | The imperative lookup and `push_back` compute `VertexIndex`, and the triangle list is untouched |
| Stl.ReadTriangle | src/file_formats/stl.cpp:116-119 | The three lookups of one loop turn compute `WeldTriangle` |
| Stl.ReadRecords | src/file_formats/stl.cpp:109-121 | The loop appends the welded triangles of the records read. It returns 1 at the first missing record, keeping what was appended so far |
| Stl.ReadSpec | src/file_formats/stl.cpp:79-124 | The return code is 0 or 1, and the triangles already in the mesh stay in place as a prefix |
| Stl.ReadStl | src/file_formats/stl.cpp:79-124 | The return code and the new mesh are those of `ReadSpec` |
| Stl.ReadSpecMeaning | src/file_formats/stl.cpp:79-124 | Returns 1 with the mesh untouched when the file cannot be opened, the header cannot be skipped, the count cannot be read or the count exceeds 50,000,000. Otherwise it appends one triangle per record read, each naming its record's corners and only vertices appended by this read. It appends at most three distinct new vertices per record, and returns 0 iff all counted records were present |
| Stl.Header | src/file_formats/stl.cpp:141-142 | 80 bytes: the fixed text, then zero bytes |
| Stl.BufferNormalAsWritten | src/file_formats/stl.cpp:151-152 | Components 0 and 2 of the record buffer's normal are zeroed, and component 1 keeps whatever the uninitialised buffer held |
| Stl.BufferNormalAsWrittenNotZeroed | src/file_formats/stl.cpp:152 | Whenever the stale component 1 is non-zero, the normal written is not the zeroed one the header announces |
| Stl.Record | src/file_formats/stl.cpp:151-158 | With the normal corrected (see Findings), the record written for a triangle has a zeroed normal, no attribute bytes, and the triangle's three corner positions |
| Stl.WrittenFile | src/file_formats/stl.cpp:141-160 | The header, the count truncated to 32 bits, then one record per triangle in order. Each record carries the triangle's three corner positions, a zeroed normal and no attribute bytes. The file is `84 + 50n` bytes |
| Stl.WriteStl | src/file_formats/stl.cpp:133-164 | With the normal corrected to zero (see Findings): returns 1 and produces no file when opening or the header write fails. Otherwise it returns 0 with `WrittenFile` of the mesh |
| Stl.ReadCompleteFile | src/file_formats/stl.cpp:103-123 | A file with exactly `count` records, within the limit, is read completely and returns 0 |
| Stl.ReadBack | src/file_formats/stl.cpp:109-121 | Reading a complete file into an empty mesh rebuilds every triangle's corner positions, with distinct vertices |
| Stl.WriteThenRead | src/file_formats/stl.cpp:117-119 | Reading back what `writeSTL` wrote succeeds and preserves the triangle count and every corner position |

## Findings

| source | as written | input that shows it | evidently intended | confidence | as-written member | corrected member |
|---|---|---|---|---|---|---|
| src/cork.cpp:137 | `max_ref_idx > n_vertices` rejects only indices above the vertex count | one triangle `(0, 0, 1)` over one vertex: index 1 names no vertex but is accepted | `max_ref_idx >= n_vertices`, so every accepted index names a vertex | high; not executed | Convert.AsWrittenAcceptsDanglingIndex | Convert.ConvertFlatMeaning |
| src/file_formats/stl.cpp:152 | `n[0] = n[2] = n[2] = 0` zeroes components 0 and 2 and never assigns component 1 | any write whose uninitialised record buffer holds a non-zero second component | all three components zeroed, as the header text announces | high; not executed | Stl.BufferNormalAsWrittenNotZeroed | Stl.WrittenFile |

The model uses the corrected versions. `Convert.ConvertFlat` (used by
`TriMeshToRaw`, `Pipeline` and `Session`) applies `>=`, and
`Convert.ConvertFlatAsWritten` keeps the test as written for the comparison.
`Stl.WriteStl` writes a zeroed normal, and `Stl.BufferNormalAsWritten` keeps
the buffer as written.

## Left out

- Floating point: coordinates are `real`. The casts between `float` and `double`, rounding in the transforms, and the effect of NaN and signed zero on welding equality and on `operator<` are not modelled.
- Integer widths: counts and indices are unbounded naturals. Wrap-around of `uint` in `3*i`, of the `uint32_t` vertex index in `get_vertex_index`, and of the `uint16_t` attribute count is not modelled. The only truncation modelled is the triangle count the writer stores in 32 bits.
- The Boolean engine (`boolUnion`, `boolDiff`, `boolIsct`, `boolXor`, `disjointUnion`, `resolveIntersections`, `isSelfIntersecting`, `isClosed`, the `CorkMesh` constructor and `raw()`) is not part of this model. It is passed in as functions over raw meshes.
- `loadMesh` and `saveMesh` are declared but not defined in the modelled files. `LoadMesh` takes what was loaded, or `None`, as a parameter. `SaveMesh` returns the record it would hand over.
- File I/O: `fopen`, `fseek`, `fread`, `fwrite` and `fclose` become success flags and an in-memory `StlFile` of decoded fields. Error messages on `stderr` and `CORK_ERROR` output are not modelled.
- Stl.WriteStl: when the header write fails, the partly written file is modelled as no file at all. Failures of later writes are ignored by the source and are not modelled either.
- Memory management: `new`, `delete`, `freeCorkTriMesh`, and the leaks when `LoadMesh` or `CopyMesh` overwrite an existing ID, are not modelled.
- Session.MeshStore.Boolean: requires `OutID` to differ from both inputs. The source deletes an aliased input before it reads it, which is undefined behaviour and not modelled.
- Session.MeshStore.LoadMesh: assumes that `loadMesh` yields a record whose buffers hold exactly three entries per counted triangle and vertex. `loadMesh` is not part of this model, so nothing checks that assumption.
- Convert.ConvertFlat: `Readable` demands `3 * n_vertices` coordinate slots whenever both counts are non-zero. The source does not read the coordinate buffer when the bound test rejects the record, so on that path the model asks for more than the source needs. The same holds for `Convert.ConvertFlatAsWritten`, `Convert.ConvertWith` and `Convert.TriMeshToRaw`.
- Convert.TriMeshToRaw: the entries that `resize` creates on the empty-input path are modelled as the zero vertex and the triangle `(0, 0, 0)`.
- `rotateZ` and `RotateZ` are declared without a definition and are not modelled.
- The attribute hooks model only the fields they use: a vertex's position and manifold flag, and a triangle's Boolean label. The intersection hooks compute weights that are never applied. The model computes the weights, proves their properties, and leaves the vertex unchanged.
- The STL header is modelled as characters, and the record layout as the constant sizes 80, 4 and 50. Byte-level encoding (endianness and IEEE 754 bit patterns) is not modelled.
