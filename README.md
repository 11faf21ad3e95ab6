# auto-3d-agent mesh core, in Dafny

This project models the part of the auto-3d-agent pipeline that works on meshes, strings and small
dictionaries, and proves what it does.

- **STL exporter** (`STLExporter`). It covers the validator with its errors and warnings and the
  manifold check. It covers the face normals and the binary and ASCII STL layouts, the printing
  recommendations and the path of the metadata file.
- **Parametric generators** (`GearShape`, `SpringShape`, `ThreadShape`,
  `ParametricGenerator.create_shape`). They build vertex and face lists in nested loops. The model
  keeps those loops and proves their counts, their index ranges and their structure: rings, fans,
  and back points that copy front points.
- **Keyword and parameter rules**. These are keyword extraction and shape detection in
  `TextParser`; the description and feature heuristics of the Blender pipeline (its pure
  dictionary helpers only); DuckDuckGo topic flattening and URL de-duplication in `WebSearch`;
  the wall-thickness clamp of the CAD processor; and the upload-extension filter of the web
  application.

Modules follow the source files:

| module | models |
|---|---|
| `PyCore` | Python values, `Option`, exceptions as `Result`, `dict.get`, truthiness, a mutable dictionary class |
| `PyStrings` | `str.lower`, `strip`, `split`, `in`, `split(sep, 1)`, `rsplit('.', 1)`, `replace`, `str(int)` |
| `Mesh` | vectors, faces, Python indexing with negative indices |
| `StlGeometry` | `_validate_geometry`, `_check_manifold`, `_calculate_face_normals` |
| `StlFormat` | the binary and ASCII STL byte and line layouts |
| `StlExporter` | `export_binary_stl`, `export_ascii_stl`, `_generate_print_recommendations`, `export_with_metadata` |
| `ParametricShapes` | the three generators and `create_shape` |
| `TextParser` | `parse_text`, `extract_keywords`, shape detection in `extract_parameters` |
| `BlenderParams` | `_is_parametric_shape`, `_extract_params_from_description`, `_extract_shape_params`, `_update_params_from_features` |
| `WebSearch` | `search_web`, `_extract_duckduckgo_topics`, the de-duplication in `_search_duckduckgo`, `fetch_results` |
| `CadProcessor` | `apply_3d_printing_constraints` |
| `Server` | `allowed_file`, `ALLOWED_EXTENSIONS` |

Floating-point primitives become parameters:

- `math.cos` and `math.sin` become `Trig`.
- `np.linalg.norm`'s square root becomes `Root`.
- `str.isalnum()` on characters outside ASCII, the Unicode half of the regular-expression class
  `\w`, becomes `UnicodeAlnum`.
- `struct.pack('<f')` becomes `Packer`, a partial function: it fails for values out of float32 range.
- `:.6f` formatting becomes `Fixed6`.

Coordinates are exact reals. Python exceptions that the code lets escape are a `Raised` outcome, so
the model keeps the crash paths: `IndexError`, `KeyError`, `TypeError`, `AttributeError`,
`ZeroDivisionError` and `ValueError`.

Some behaviours of the code that the model keeps:

- A gear tooth has 30 front points: three loops of `resolution = 10`
  (auto-3d-agent/src/generator/parametric_shapes.py:42-73).
- The spring's wire cross-section has 8 points (parametric_shapes.py:128).
- The thread's turn count is `int(length / pitch)`, truncated toward zero (parametric_shapes.py:192).
- A normal whose norm is at most `1e-10` is written as the raw cross product
  (auto-3d-agent/src/cad_export/stl_exporter.py:220-224).
- The generators check none of their parameters. Their only failures are the divisions by zero
  they perform (parametric_shapes.py:41, 158 and 192).
- `ALLOWED_EXTENSIONS` holds 11 extensions (webapp/server.py:30).

## Model

| member | source | states |
|---|---|---|
| PyCore.AsNumber | auto-3d-agent/src/ingestion/cad_processor.py:133 | a value takes part in a numeric comparison exactly when it is a bool, an int or a float |
| PyCore.Get | auto-3d-agent/src/retriever/web_search.py:116-118 | `dict.get` returns the stored value for a present key and the default otherwise |
| PyCore.PyDict.constructor | auto-3d-agent/src/ingestion/cad_processor.py:121 | a mutable dictionary starts with exactly the given entries |
| PyStrings.LowerChar | auto-3d-agent/src/ingestion/text_parser.py:15 | an ASCII capital moves up 32 code points, every other character stays, and no result is a capital |
| PyStrings.Lower | auto-3d-agent/src/ingestion/text_parser.py:15 | `str.lower` keeps the length and maps each character by `LowerChar`, leaving no capital |
| PyStrings.LowerOfLowerCase | auto-3d-agent/src/ingestion/text_parser.py:15 | lower-casing a text without capitals returns it unchanged |
| PyStrings.LeadingSpaces | auto-3d-agent/src/retriever/web_search.py:51 | counts the whitespace prefix: all blanks, followed by a non-blank or the end |
| PyStrings.TrailingSpaces | auto-3d-agent/src/retriever/web_search.py:51 | counts the whitespace suffix: all blanks, preceded by a non-blank or the start |
| PyStrings.Strip | auto-3d-agent/src/retriever/web_search.py:51 | `strip()` is empty exactly for all-whitespace text; otherwise it is the slice between the blank ends and starts and ends with a non-blank |
| PyStrings.WordLength | auto-3d-agent/src/ingestion/text_parser.py:21 | the first word is a maximal non-whitespace run |
| PyStrings.SplitGivesWords | auto-3d-agent/src/ingestion/text_parser.py:21 | every piece of `split()` is a non-empty run without whitespace |
| PyStrings.SplitKeepsNonSpace | auto-3d-agent/src/ingestion/text_parser.py:21 | `split()` loses only whitespace: its pieces, joined, are the text's non-blank characters in order |
| PyStrings.SplitBlank | auto-3d-agent/src/ingestion/text_parser.py:21 | `split()` of blank text is empty |
| PyStrings.SplitMaximal | auto-3d-agent/src/ingestion/text_parser.py:21 | the pieces are maximal: after blanks, a non-blank run ending at a blank or the end is the first piece, whole, and the split goes on after it; with `SplitBlank` this determines `split()` |
| PyStrings.NonSpaceAppend | auto-3d-agent/src/ingestion/text_parser.py:21 | the non-blank characters of a concatenation are those of each part |
| PyStrings.MissingCharNotContained | auto-3d-agent/src/generator/blender_pipeline.py:325 | `needle in s` is false when the needle holds a character the text lacks |
| PyStrings.FindFrom | auto-3d-agent/src/retriever/web_search.py:159 | finds the first occurrence of a separator at or after a position, or proves there is none |
| PyStrings.BeforeFirst | auto-3d-agent/src/retriever/web_search.py:159 | `split(sep, 1)[0]` is a prefix; it is the whole text exactly when `sep` is absent, and otherwise ends where the first `sep` starts |
| PyStrings.LastIndexOf | webapp/server.py:40 | finds the last occurrence of a character; none exactly when the character is absent |
| PyStrings.ReplaceAllWithout | auto-3d-agent/src/cad_export/stl_exporter.py:299 | `replace` changes nothing when the pattern does not occur |
| PyStrings.ReplaceAllGrows | auto-3d-agent/src/cad_export/stl_exporter.py:299 | a replacement longer than the pattern never shortens the text, and lengthens it whenever the pattern occurs |
| PyStrings.NatToString | auto-3d-agent/src/cad_export/stl_exporter.py:164 | `str(n)` is a non-empty run of decimal digits |
| PyStrings.NatToStringRoundTrip | auto-3d-agent/src/cad_export/stl_exporter.py:164 | reading the digits of `str(n)` back gives `n` |
| Mesh.CrossOrthogonal | auto-3d-agent/src/cad_export/stl_exporter.py:172-174 | `np.cross` is orthogonal to both of its factors |
| StlGeometry.CornerErrorsFacts | auto-3d-agent/src/cad_export/stl_exporter.py:161-164 | a face adds no error exactly when all of its indices are at most `len(vertices) - 1`; each error names this face and one of its too-large indices |
| StlGeometry.IndexErrorsFacts | auto-3d-agent/src/cad_export/stl_exporter.py:159-164 | there are no index errors exactly when no face index exceeds the last vertex; each error names a real face and one of its too-large indices |
| StlGeometry.IndexErrorsInFaceOrder | auto-3d-agent/src/cad_export/stl_exporter.py:161-164 | the index errors come in face order |
| StlGeometry.CheckFaceIndices | auto-3d-agent/src/cad_export/stl_exporter.py:159-164 | the loop appends exactly the index errors of all faces to the error list |
| StlGeometry.DegenerateCount | auto-3d-agent/src/cad_export/stl_exporter.py:166-178 | at most one per face, and zero exactly when no face has `|cross|^2 < 4e-20` |
| StlGeometry.CoincidentCornersDegenerate | auto-3d-agent/src/cad_export/stl_exporter.py:166-178 | a face with two coincident corners adds exactly one degenerate triangle |
| StlGeometry.CountDegenerate | auto-3d-agent/src/cad_export/stl_exporter.py:166-178 | the degeneracy loop raises `IndexError` exactly when some index is outside Python's range, and otherwise counts the degenerate faces |
| StlGeometry.ArgMin | auto-3d-agent/src/cad_export/stl_exporter.py:185 | names a vertex whose coordinate on the axis is the least |
| StlGeometry.ArgMax | auto-3d-agent/src/cad_export/stl_exporter.py:186 | names a vertex whose coordinate on the axis is the greatest |
| StlGeometry.Extent | auto-3d-agent/src/cad_export/stl_exporter.py:185-187 | a bounding-box extent is never negative |
| StlGeometry.ExtentIsSpread | auto-3d-agent/src/cad_export/stl_exporter.py:185-187 | the extent is the largest difference of two coordinates on its axis, and some pair of vertices reaches it |
| StlGeometry.Min3 | auto-3d-agent/src/cad_export/stl_exporter.py:190 | `np.min` of three extents is one of them and at most each |
| StlGeometry.Max3 | auto-3d-agent/src/cad_export/stl_exporter.py:195 | `np.max` of three extents is one of them and at least each |
| StlGeometry.CollectWarnings | auto-3d-agent/src/cad_export/stl_exporter.py:180-197 | the warnings are, in order: the degenerate count if positive, then "too small" if the least extent is under 0.4, then "too large" if the greatest is over 300; there are no box warnings without vertices |
| StlGeometry.CheckDimensions | auto-3d-agent/src/cad_export/stl_exporter.py:189-197 | the two bounding-box checks, small before large |
| StlGeometry.ValidateGeometry | auto-3d-agent/src/cad_export/stl_exporter.py:146-205 | the validator raises `IndexError` exactly when an index is outside Python's range; otherwise it returns the report with the structural errors, index errors and warnings in order; `is_valid` holds exactly when there are no errors |
| StlExporter.SingleVertexReport | auto-3d-agent/src/cad_export/stl_exporter.py:151-157 | one vertex and no faces give both structural errors in order, an invalid report, no degenerate count and `manifold_edges` true |
| StlGeometry.EdgeOf | auto-3d-agent/src/cad_export/stl_exporter.py:235-237 | `tuple(sorted(...))` is the pair in ascending order |
| StlGeometry.AddEdgesCounts | auto-3d-agent/src/cad_export/stl_exporter.py:240-241 | `get(edge, 0) + 1` over a list of edges adds each edge's number of occurrences to its count |
| StlGeometry.EdgeCountsAreOccurrences | auto-3d-agent/src/cad_export/stl_exporter.py:230-241 | the edge dictionary holds exactly the edges that occur, each with its number of occurrences |
| StlGeometry.SideOccurs | auto-3d-agent/src/cad_export/stl_exporter.py:232-241 | every side of every face is counted at least once |
| StlGeometry.OccurrenceWitness | auto-3d-agent/src/cad_export/stl_exporter.py:232-241 | every counted edge is a side of some face |
| StlGeometry.ManifoldIff | auto-3d-agent/src/cad_export/stl_exporter.py:228-248 | the dictionary check holds exactly when every side of every face is shared by exactly two face sides |
| StlGeometry.CheckManifold | auto-3d-agent/src/cad_export/stl_exporter.py:228-248 | `_check_manifold` returns true exactly when every counted edge occurs twice, and so exactly when every side is shared twice |
| StlGeometry.FaceNormal | auto-3d-agent/src/cad_export/stl_exporter.py:211-224 | a normal whose norm is at most `1e-10` is the raw cross product; a longer one is that product scaled by a positive factor |
| StlGeometry.FaceNormalUnit | auto-3d-agent/src/cad_export/stl_exporter.py:219-222 | with an exact square root, a normal whose norm exceeds `1e-10` has unit length: `normal / norm` is normalised |
| StlGeometry.FaceNormalOrthogonal | auto-3d-agent/src/cad_export/stl_exporter.py:211-224 | scaled or not, the normal is orthogonal to both edge vectors |
| StlGeometry.CalculateFaceNormals | auto-3d-agent/src/cad_export/stl_exporter.py:207-226 | there is one normal per face, in face order, each the face's normal |
| StlFormat.QuadBytes | auto-3d-agent/src/cad_export/stl_exporter.py:116 | a packed float is four bytes |
| StlFormat.U32LE | auto-3d-agent/src/cad_export/stl_exporter.py:109 | `struct.pack('<I', n)` is four bytes |
| StlFormat.U32RoundTrip | auto-3d-agent/src/cad_export/stl_exporter.py:108-109 | reading the packed count back gives the count |
| StlFormat.Utf8Char | auto-3d-agent/src/cad_export/stl_exporter.py:104 | a character encodes to 1 to 4 bytes; ASCII to its own code; no zero byte unless the character is NUL |
| StlFormat.Utf8 | auto-3d-agent/src/cad_export/stl_exporter.py:104 | `encode('utf-8')` is at least as long as the text and has no zero byte when the text has no NUL |
| StlFormat.Utf8Ascii | auto-3d-agent/src/cad_export/stl_exporter.py:104 | an ASCII name encodes to one byte per character, each its code |
| StlFormat.Header | auto-3d-agent/src/cad_export/stl_exporter.py:104 | the header is 80 bytes |
| StlFormat.HeaderLayout | auto-3d-agent/src/cad_export/stl_exporter.py:104 | the header is the name's bytes cut at 80, then zero bytes |
| StlFormat.HeaderName | auto-3d-agent/src/cad_export/stl_exporter.py:104 | a reader's view of the header: its prefix up to the first zero byte |
| StlFormat.HeaderRoundTrip | auto-3d-agent/src/cad_export/stl_exporter.py:104 | a name without NUL that fits in 80 bytes is read back from the header unchanged |
| StlFormat.PackAll | auto-3d-agent/src/cad_export/stl_exporter.py:116-121 | packing succeeds exactly when every value packs, giving four bytes per value |
| StlFormat.PackAllAt | auto-3d-agent/src/cad_export/stl_exporter.py:116-121 | value `i` lands at bytes `4i` to `4i+4` |
| StlFormat.Record | auto-3d-agent/src/cad_export/stl_exporter.py:112-124 | a record is 50 bytes ending in the zero attribute count |
| StlFormat.Records | auto-3d-agent/src/cad_export/stl_exporter.py:112-124 | the records of all faces take 50 bytes per face |
| StlFormat.RecordsAt | auto-3d-agent/src/cad_export/stl_exporter.py:112-124 | record `i` sits at bytes `50i` to `50i+50` and is face `i`'s record: normal, then corners in face order |
| StlFormat.RecordsFailFrom | auto-3d-agent/src/cad_export/stl_exporter.py:112-124 | one failing record makes the whole write fail |
| StlFormat.RecordsFailWitness | auto-3d-agent/src/cad_export/stl_exporter.py:112-124 | when the records fail, some face's own record is the one that fails |
| StlFormat.BinaryLayout | auto-3d-agent/src/cad_export/stl_exporter.py:102-124 | a written file is `84 + 50n` bytes: the header, then a count that reads back as `n`, then face `i`'s record at offset `84 + 50i` |
| StlFormat.FrontLayout | auto-3d-agent/src/cad_export/stl_exporter.py:104-109 | the header and count come first, and the count reads back |
| StlFormat.BinaryFailure | auto-3d-agent/src/cad_export/stl_exporter.py:108-124 | the write fails exactly when there are 2^32 faces or more, or some value does not fit a float32 |
| StlFormat.WriteBinary | auto-3d-agent/src/cad_export/stl_exporter.py:102-124 | the writer returns `BinaryStl`, whose layout `BinaryLayout` and `BinaryFailure` give; on success the file holds exactly those bytes, and even on failure the header already reached the file |
| StlFormat.FacetLines | auto-3d-agent/src/cad_export/stl_exporter.py:50-60 | a facet is seven lines |
| StlFormat.FaceFacet | auto-3d-agent/src/cad_export/stl_exporter.py:50-60 | a face's facet is seven lines, built from its normal and its corners in face order |
| StlFormat.Facets | auto-3d-agent/src/cad_export/stl_exporter.py:47-60 | the facets of all faces take seven lines per face |
| StlFormat.FacetsAt | auto-3d-agent/src/cad_export/stl_exporter.py:47-60 | lines `7i` to `7i+7` are face `i`'s facet |
| StlFormat.AsciiLayout | auto-3d-agent/src/cad_export/stl_exporter.py:41-63 | the text has `2 + 7n` lines: `solid <name>`, face `i`'s facet at line `1 + 7i`, and `endsolid <name>` |
| StlFormat.WriteAscii | auto-3d-agent/src/cad_export/stl_exporter.py:41-63 | the writer emits exactly `AsciiStl`, whose layout `AsciiLayout` gives |
| StlExporter.Dimensions | auto-3d-agent/src/cad_export/stl_exporter.py:258-260 | the bounding-box extents are non-negative |
| StlExporter.RecommendationRules | auto-3d-agent/src/cad_export/stl_exporter.py:262-287 | exactly one layer line first (fine < 2, medium < 10, coarse otherwise), exactly one infill line second (sparse exactly when the largest extent > 50), "Tall part" exactly when z beats x and y, and the thin-wall warning, last, exactly when the least extent < 1 |
| StlExporter.RecommendationsPresent | auto-3d-agent/src/cad_export/stl_exporter.py:254-255 | no recommendations exactly when there are no vertices; otherwise at least two |
| StlExporter.TallCoarseIsWide | auto-3d-agent/src/cad_export/stl_exporter.py:262-281 | supports together with coarse layers only happen for parts at least 10 mm in every direction |
| StlExporter.ThinTallPartRecommendations | auto-3d-agent/src/cad_export/stl_exporter.py:262-287 | a 0.5 x 0.5 x 20 part gets fine layers, full infill, supports and the thin-wall warning |
| StlExporter.BinaryExportOutcomes | auto-3d-agent/src/cad_export/stl_exporter.py:85-144 | the export raises on an out-of-range index; is rejected with the validator's non-empty errors exactly when invalid; fails writing only on a count or float out of range; and on success reports every face and a valid validation |
| StlExporter.ExportBinary | auto-3d-agent/src/cad_export/stl_exporter.py:85-144 | the result is `BinaryExport`, whose cases `BinaryExportOutcomes` gives; no file is opened unless validation passes; a successful export writes `BinaryStl`'s bytes |
| StlExporter.AsciiExportOutcomes | auto-3d-agent/src/cad_export/stl_exporter.py:25-83 | the ASCII export raises on an out-of-range index and is rejected exactly when there are errors; a valid mesh is always written |
| StlExporter.ExportAscii | auto-3d-agent/src/cad_export/stl_exporter.py:25-83 | the result is `AsciiExport`, whose cases `AsciiExportOutcomes` gives; a file is written exactly on success and holds `AsciiStl`'s lines |
| StlExporter.MetadataPathOverwritesStl | auto-3d-agent/src/cad_export/stl_exporter.py:299 | as written, `a.STL` gets the metadata path `a.STL`: the JSON would overwrite the STL file |
| StlExporter.SidecarPath | auto-3d-agent/src/cad_export/stl_exporter.py:299 | the corrected metadata path never names the STL file |
| StlExporter.SidecarPathAgrees | auto-3d-agent/src/cad_export/stl_exporter.py:299 | when ".stl" occurs only as the extension, the corrected path is the one the code computes |
| StlExporter.ReplaceAllSuffix | auto-3d-agent/src/cad_export/stl_exporter.py:299 | `replace` on a pattern that occurs only at the end replaces that end |
| StlExporter.ExportWithMetadata | auto-3d-agent/src/cad_export/stl_exporter.py:289-322 | a binary export under `part_name` (default "adapter"); a metadata file is written exactly when the export succeeds, at the corrected `SidecarPath` rather than the `replace` result of line 299 (see Findings), so never over the STL |
| StlExporter.OccurrencesAppend | auto-3d-agent/src/cad_export/stl_exporter.py:232-241 | edge occurrences add up over concatenated face lists |
| StlExporter.RemovingFaceBreaksManifold | auto-3d-agent/src/cad_export/stl_exporter.py:228-248 | removing any non-degenerate face from a manifold mesh makes it non-manifold |
| StlExporter.CountInThree | auto-3d-agent/src/cad_export/stl_exporter.py:234-241 | a face's three sides count an edge once per side equal to it |
| StlExporter.OccurrencesStep | auto-3d-agent/src/cad_export/stl_exporter.py:232-241 | one more face adds its own sides' hits to an edge's count |
| StlExporter.CubeOccurrences | auto-3d-agent/src/cad_export/stl_exporter.py:334-341 | an edge's count in the cube is the sum of its hits in the 12 triangles |
| StlExporter.CubeIsManifold | auto-3d-agent/src/cad_export/stl_exporter.py:334-341 | the 12-triangle sample cube is manifold |
| StlExporter.CubeSideSharedFront | auto-3d-agent/src/cad_export/stl_exporter.py:335-336 | every side of cube triangles 0 to 3 is shared by exactly two triangles |
| StlExporter.CubeSideSharedMiddle | auto-3d-agent/src/cad_export/stl_exporter.py:337-338 | every side of cube triangles 4 to 7 is shared by exactly two triangles |
| StlExporter.CubeSideSharedBack | auto-3d-agent/src/cad_export/stl_exporter.py:339-340 | every side of cube triangles 8 to 11 is shared by exactly two triangles |
| StlExporter.CubeMinusFaceNotManifold | auto-3d-agent/src/cad_export/stl_exporter.py:334-341 | removing any one triangle from the cube leaves a non-manifold mesh |
| ParametricShapes.Trunc | auto-3d-agent/src/generator/parametric_shapes.py:192 | `int(x)` truncates toward zero |
| ParametricShapes.Max0 | auto-3d-agent/src/generator/parametric_shapes.py:196 | `len(range(n))`: `n` when non-negative, never less than `n` |
| ParametricShapes.Band | auto-3d-agent/src/generator/parametric_shapes.py:164-173 | a ring contributes two triangles per point |
| ParametricShapes.TubeFaces | auto-3d-agent/src/generator/parametric_shapes.py:163-173 | a tube over `segs` segments of `width` points has `2 * width * segs` faces, none for `segs <= 0` |
| ParametricShapes.BandIndices | auto-3d-agent/src/generator/parametric_shapes.py:164-173 | each quad between rings `seg` and `seg + 1` uses points of those two rings only |
| ParametricShapes.TubeIndices | auto-3d-agent/src/generator/parametric_shapes.py:163-173 | a tube's faces only use its `(segs + 1) * width` points |
| ParametricShapes.AppendBand | auto-3d-agent/src/generator/parametric_shapes.py:164-173 | the inner loop appends exactly one ring's quads |
| ParametricShapes.ToothPoints | auto-3d-agent/src/generator/parametric_shapes.py:48-73 | a tooth has 30 front points |
| ParametricShapes.GearFront | auto-3d-agent/src/generator/parametric_shapes.py:45-73 | the front face has 30 points per tooth |
| ParametricShapes.GearFrontFlat | auto-3d-agent/src/generator/parametric_shapes.py:55-73 | every front point lies at z = 0 |
| ParametricShapes.BackCopy | auto-3d-agent/src/generator/parametric_shapes.py:75-78 | back point `k` has front point `k`'s x and y at z = thickness |
| ParametricShapes.FrontFan | auto-3d-agent/src/generator/parametric_shapes.py:87-88 | a tooth's front fan has 29 triangles |
| ParametricShapes.BackFan | auto-3d-agent/src/generator/parametric_shapes.py:106-107 | a tooth's back fan has 29 triangles |
| ParametricShapes.SideWall | auto-3d-agent/src/generator/parametric_shapes.py:91-99 | a tooth's side wall has two triangles per point |
| ParametricShapes.FrontAndSides | auto-3d-agent/src/generator/parametric_shapes.py:82-99 | the first loop makes 89 faces per tooth |
| ParametricShapes.Backs | auto-3d-agent/src/generator/parametric_shapes.py:102-107 | the back loop makes 29 faces per tooth |
| ParametricShapes.GearFaces | auto-3d-agent/src/generator/parametric_shapes.py:80-107 | the gear has `118 * teeth` faces |
| ParametricShapes.SideWallWithinTooth | auto-3d-agent/src/generator/parametric_shapes.py:91-99 | side-wall indices wrap within the tooth's own 30 front points and their back copies |
| ParametricShapes.FrontAndSidesIndices | auto-3d-agent/src/generator/parametric_shapes.py:82-99 | front and side faces only use the gear's `60 * teeth` vertices |
| ParametricShapes.BacksIndices | auto-3d-agent/src/generator/parametric_shapes.py:102-107 | back faces only use the gear's `60 * teeth` vertices |
| ParametricShapes.GearIndicesInRange | auto-3d-agent/src/generator/parametric_shapes.py:80-107 | every gear face index is below `60 * teeth` |
| ParametricShapes.CopyLoopNeverEnds | auto-3d-agent/src/generator/parametric_shapes.py:76-78 | as written, the back-face loop over a non-empty list has an element left to visit after any number of iterations |
| ParametricShapes.GearAsWrittenNeverEnds | auto-3d-agent/src/generator/parametric_shapes.py:45-78 | with at least one tooth the generator as written never leaves its back-face loop |
| ParametricShapes.AppendTooth | auto-3d-agent/src/generator/parametric_shapes.py:48-73 | the three loops append exactly one tooth's 30 points |
| ParametricShapes.AppendRoot | auto-3d-agent/src/generator/parametric_shapes.py:49-55 | the root-arc loop appends its 10 points |
| ParametricShapes.AppendFlank | auto-3d-agent/src/generator/parametric_shapes.py:58-64 | the flank loop appends its 10 points |
| ParametricShapes.AppendTop | auto-3d-agent/src/generator/parametric_shapes.py:67-73 | the tooth-top loop appends its 10 points |
| ParametricShapes.AppendBackCopy | auto-3d-agent/src/generator/parametric_shapes.py:76-78 | the corrected back loop appends one copy of each front point |
| ParametricShapes.AppendToothFaces | auto-3d-agent/src/generator/parametric_shapes.py:86-99 | appends one tooth's front fan and side wall |
| ParametricShapes.AppendBackFan | auto-3d-agent/src/generator/parametric_shapes.py:106-107 | appends one tooth's back fan |
| ParametricShapes.BacksStep | auto-3d-agent/src/generator/parametric_shapes.py:102-107 | one more back fan extends the back faces by one tooth |
| ParametricShapes.GenerateGear | auto-3d-agent/src/generator/parametric_shapes.py:24-109 | corrected (see Findings): with defaults module 1.0, teeth 20 and thickness 0.5, `teeth = 0` raises `ZeroDivisionError`; negative teeth give an empty mesh; otherwise the front points are followed by their back copies and the faces are the gear faces |
| ParametricShapes.CrossSection | auto-3d-agent/src/generator/parametric_shapes.py:131-137 | the wire's cross-section has 8 points |
| ParametricShapes.HelixRing | auto-3d-agent/src/generator/parametric_shapes.py:154-160 | each helix ring has one point per cross-section point |
| ParametricShapes.HelixRings | auto-3d-agent/src/generator/parametric_shapes.py:140-160 | `n` rings make `8n` points |
| ParametricShapes.SpringTopology | auto-3d-agent/src/generator/parametric_shapes.py:162-173 | `n` segments give `16n` faces, all below `8 (n + 1)` |
| ParametricShapes.MakeCrossSection | auto-3d-agent/src/generator/parametric_shapes.py:131-137 | the loop builds exactly the cross-section |
| ParametricShapes.AppendHelixRing | auto-3d-agent/src/generator/parametric_shapes.py:154-160 | the loop appends exactly one ring |
| ParametricShapes.GenerateSpring | auto-3d-agent/src/generator/parametric_shapes.py:115-175 | with `n = int(coils * 32)`: `radius = 0` raises `ZeroDivisionError` when there is a ring to place; otherwise there are `8 (n + 1)` ring points and exactly the tube faces |
| ParametricShapes.ThreadRing | auto-3d-agent/src/generator/parametric_shapes.py:199-213 | a thread ring has 32 points |
| ParametricShapes.ThreadRings | auto-3d-agent/src/generator/parametric_shapes.py:196-213 | `n` rings make `32n` points |
| ParametricShapes.BottomCap | auto-3d-agent/src/generator/parametric_shapes.py:235-237 | the bottom cap fans 32 triangles |
| ParametricShapes.TopCap | auto-3d-agent/src/generator/parametric_shapes.py:240-243 | the top cap fans 32 triangles |
| ParametricShapes.ThreadFaces | auto-3d-agent/src/generator/parametric_shapes.py:215-243 | `m` turns give `64 max(m, 0) + 64` faces |
| ParametricShapes.ThreadIndicesInRange | auto-3d-agent/src/generator/parametric_shapes.py:215-243 | every index is below `32 (m + 1) + 2` exactly when `m >= 0`; a negative turn count makes the top cap index below zero |
| ParametricShapes.AppendRing | auto-3d-agent/src/generator/parametric_shapes.py:199-213 | the segment loop appends exactly one ring |
| ParametricShapes.AppendBottomCap | auto-3d-agent/src/generator/parametric_shapes.py:235-237 | the loop appends exactly the bottom cap |
| ParametricShapes.AppendTopCap | auto-3d-agent/src/generator/parametric_shapes.py:240-243 | the loop appends exactly the top cap |
| ParametricShapes.ThreadVertices | auto-3d-agent/src/generator/parametric_shapes.py:192-232 | the rings, then (0,0,0) and (0,0,length) as the last two vertices |
| ParametricShapes.ThreadFaceList | auto-3d-agent/src/generator/parametric_shapes.py:215-243 | the face loops build exactly the thread faces |
| ParametricShapes.GenerateThread | auto-3d-agent/src/generator/parametric_shapes.py:181-245 | `pitch = 0` raises `ZeroDivisionError`; otherwise with `m = int(length / pitch)` there are `32 (m + 1) + 2` vertices ending in the two cap centres, and exactly the thread faces |
| ParametricShapes.CreateShape | auto-3d-agent/src/generator/parametric_shapes.py:251-264 | the lower-cased name selects gear, spring or thread; any other name raises `ValueError` with the original name |
| ParametricShapes.CreateShapeIgnoresCase | auto-3d-agent/src/generator/parametric_shapes.py:260 | a name and its lower-case form select the same class |
| ParametricShapes.CreateShapeExamples | auto-3d-agent/src/generator/parametric_shapes.py:251-264 | "Gear" and "SPRING" are accepted, "bolt" raises |
| TextParser.ParseText | auto-3d-agent/src/ingestion/text_parser.py:5-7 | the text comes back unchanged |
| TextParser.RemovePunctuation | auto-3d-agent/src/ingestion/text_parser.py:18 | only word characters (`str.isalnum()` or `_`) and whitespace remain, and nothing is added |
| TextParser.RemovePunctuationKeeps | auto-3d-agent/src/ingestion/text_parser.py:18 | a text of word characters and whitespace is unchanged, and no capital is introduced |
| TextParser.QuotedGermanWordCleaned | auto-3d-agent/src/ingestion/text_parser.py:15-18 | German quotation marks and the euro sign are not alphanumeric and go: "„Zahnrad“ 5€" is cleaned to "zahnrad 5" |
| TextParser.RemovePunctuationAppend | auto-3d-agent/src/ingestion/text_parser.py:18 | the substitution works character by character |
| TextParser.FilterWords | auto-3d-agent/src/ingestion/text_parser.py:29 | every kept word is longer than 2 characters and not a stop word |
| TextParser.FilterWordsAppend | auto-3d-agent/src/ingestion/text_parser.py:29 | the filter works word by word, keeping order |
| TextParser.FilterWordsMembers | auto-3d-agent/src/ingestion/text_parser.py:29 | a word is kept exactly when it qualifies, and as many times as it occurs |
| TextParser.SplitOfClean | auto-3d-agent/src/ingestion/text_parser.py:21 | splitting cleaned lower-case text gives lower-case words of word characters |
| TextParser.ExtractKeywords | auto-3d-agent/src/ingestion/text_parser.py:11-12 | empty text gives no keywords |
| TextParser.KeywordsAreClean | auto-3d-agent/src/ingestion/text_parser.py:14-29 | every keyword is lower-case, made of word characters, longer than 2 and not a stop word |
| TextParser.KeywordsAreWordsOfText | auto-3d-agent/src/ingestion/text_parser.py:14-29 | a word is a keyword exactly when it is a qualifying word of the cleaned text |
| TextParser.SplitWordThenRest | auto-3d-agent/src/ingestion/text_parser.py:21 | a word followed by a blank splits off as the first piece |
| TextParser.WordThenRest | auto-3d-agent/src/ingestion/text_parser.py:14-29 | the keywords of a word, a blank and more text are the word's, then the rest's |
| TextParser.LastWordThenStop | auto-3d-agent/src/ingestion/text_parser.py:14-29 | a last word followed by a full stop contributes its lower-cased form if it qualifies |
| TextParser.SentenceKeywords | auto-3d-agent/src/ingestion/text_parser.py:14-29 | a sentence of plain words ending in a full stop has as keywords the qualifying lower-cased words, in order |
| TextParser.QuotedGermanWordKeywords | auto-3d-agent/src/ingestion/text_parser.py:9-31 | `extract_keywords("„Zahnrad“ 5€")` is `["zahnrad"]`: the punctuation and symbol go, and "5" is too short |
| TextParser.SampleKeywords | auto-3d-agent/tests/test_ingestion.py:30-41 | the test sentence gives this, sample, text, for, testing, keyword, extraction, so it contains the four words the test looks for |
| TextParser.FirstShape | auto-3d-agent/src/ingestion/text_parser.py:54-58 | a shape is found only if it occurs; none exactly when no listed shape occurs |
| TextParser.FirstShapeIsFirst | auto-3d-agent/src/ingestion/text_parser.py:54-58 | the found shape is preceded in the list only by absent shapes |
| TextParser.DetectShape | auto-3d-agent/src/ingestion/text_parser.py:53-58 | the loop finds the first listed shape in the lower-cased text |
| TextParser.FirstShapeStep | auto-3d-agent/src/ingestion/text_parser.py:55-57 | one turn of the loop: this shape if it occurs, else the search goes on |
| TextParser.SpringGearIsGear | auto-3d-agent/src/ingestion/text_parser.py:54-58 | list order decides, not text order: "Spring gear" is a gear |
| BlenderParams.FirstIndicated | auto-3d-agent/src/generator/blender_pipeline.py:324-329 | no type exactly when no keyword of any type occurs; otherwise the type of the first matching entry |
| BlenderParams.FirstIndicatedStep | auto-3d-agent/src/generator/blender_pipeline.py:324-327 | one turn of the loop: this type if one of its keywords occurs, else the search goes on |
| BlenderParams.IsParametricShape | auto-3d-agent/src/generator/blender_pipeline.py:313-329 | true exactly when a keyword occurs; then only `parametric_type` is set, to the first matching type; otherwise `params` is unchanged |
| BlenderParams.ParametricTypeIsCreatable | auto-3d-agent/src/generator/blender_pipeline.py:318-326 | every recorded type is one `create_shape` accepts |
| BlenderParams.SpringBeforeThread | auto-3d-agent/src/generator/blender_pipeline.py:318-327 | without a gear word, a spring word beats any thread word |
| BlenderParams.GewindeMitFederIsSpring | auto-3d-agent/src/generator/blender_pipeline.py:318-327 | "Gewinde mit Feder" (thread with spring) is a spring |
| BlenderParams.ExtractParamsFromDescription | auto-3d-agent/src/generator/blender_pipeline.py:410-438 | keys type, size and modifiers; sphere words beat cylinder words, else cube; "small" beats "large", else 1.0; "smooth" adds subdivision level 2 and "rounded" adds bevel width 0.05, independently |
| BlenderParams.ExtractShapeParams | auto-3d-agent/src/generator/blender_pipeline.py:356-380 | each known type gets its keys; the thread's minor diameter is 0.8 of its major one; a non-numeric `thread_diameter` raises `TypeError`; an unknown type gives `{}` |
| BlenderParams.DefaultTablesMatchGenerators | auto-3d-agent/src/generator/blender_pipeline.py:356-380 | with nothing set, every table equals the matching generator's own defaults |
| BlenderParams.TypesOf | auto-3d-agent/src/generator/blender_pipeline.py:393-394 | one `type` per detected shape |
| BlenderParams.CountOf | auto-3d-agent/src/generator/blender_pipeline.py:392-395 | a type counts more than zero exactly when it occurs |
| BlenderParams.FirstSeen | auto-3d-agent/src/generator/blender_pipeline.py:392-395 | the count dictionary's keys: each type once, in order of first occurrence |
| BlenderParams.MostFrequent | auto-3d-agent/src/generator/blender_pipeline.py:398 | `max(..., key=...)` returns a key with the greatest count |
| BlenderParams.MostFrequentIsFirst | auto-3d-agent/src/generator/blender_pipeline.py:398 | every key before the winner counts strictly less: ties go to the first key |
| BlenderParams.Dominant | auto-3d-agent/src/generator/blender_pipeline.py:392-398 | the dominant type occurs, and no type occurs more often |
| BlenderParams.DominantIsFirstOfMost | auto-3d-agent/src/generator/blender_pipeline.py:392-398 | the dominant type is the first-seen type of greatest count |
| BlenderParams.TieGoesToFirstSeen | auto-3d-agent/src/generator/blender_pipeline.py:392-398 | between two equally frequent types, the one seen first wins |
| BlenderParams.CountsOfCounts | auto-3d-agent/src/generator/blender_pipeline.py:392-395 | the count dictionary holds exactly the occurring types with their counts |
| BlenderParams.TallyStep | auto-3d-agent/src/generator/blender_pipeline.py:395 | `get(t, 0) + 1` keeps the order and the counts in step with the types seen |
| BlenderParams.CountNext | auto-3d-agent/src/generator/blender_pipeline.py:392-395 | one turn of the counting loop appends the shape's type and keeps the counts in step |
| BlenderParams.CountShapes | auto-3d-agent/src/generator/blender_pipeline.py:392-395 | a shape that is not a dictionary raises `AttributeError`; otherwise the loop builds exactly the counts of the types |
| BlenderParams.MaxCount | auto-3d-agent/src/generator/blender_pipeline.py:398 | the loop returns the first key of greatest count |
| BlenderParams.EmptyFeaturesChangeNothing | auto-3d-agent/src/generator/blender_pipeline.py:384-385 | empty features leave the parameters unchanged |
| BlenderParams.ShapesStepFrame | auto-3d-agent/src/generator/blender_pipeline.py:388-402 | the shape step touches at most `type`, and only to sphere or cube |
| BlenderParams.FeatureCountStepFrame | auto-3d-agent/src/generator/blender_pipeline.py:405-408 | the count step touches at most `modifiers`, and only by adding `subdivision` |
| BlenderParams.FeatureUpdateFrame | auto-3d-agent/src/generator/blender_pipeline.py:382-408 | the whole update touches at most `type` and `modifiers` |
| BlenderParams.CirclesMakeSphere | auto-3d-agent/src/generator/blender_pipeline.py:397-400 | mostly circles, or mostly spheres, make the part a sphere |
| BlenderParams.ManyFeaturesSubdivide | auto-3d-agent/src/generator/blender_pipeline.py:405-408 | more than 50 features add subdivision level 2, or raise `KeyError` without `modifiers` |
| BlenderParams.UpdateParamsFromFeatures | auto-3d-agent/src/generator/blender_pipeline.py:382-408 | the dictionary ends as `FeatureUpdate` says, whose frame and cases the lemmas above give, and the method reports its exception if one is raised |
| WebSearch.SearchWeb | auto-3d-agent/src/retriever/web_search.py:50-60 | a blank query gives no hits; otherwise SerpAPI's hits if the key is set and they are non-empty, else DuckDuckGo's |
| WebSearch.BlankQueryFindsNothing | auto-3d-agent/src/retriever/web_search.py:51-52 | a whitespace-only query gives no hits even with a key |
| WebSearch.Leaf | auto-3d-agent/src/retriever/web_search.py:155-168 | an entry without a truthy `FirstURL` or `Text` gives no hit; otherwise a well-formed hit with that URL and the stripped text |
| WebSearch.Then | auto-3d-agent/src/retriever/web_search.py:146-153 | the walk's exception comes first; otherwise the hits are concatenated |
| WebSearch.ThenAssociative | auto-3d-agent/src/retriever/web_search.py:146-153 | concatenating walks is associative |
| WebSearch.TopicsOf | auto-3d-agent/src/retriever/web_search.py:144-169 | the walk raises only `TypeError` (a non-iterable topics value) and otherwise gives well-formed hits |
| WebSearch.EntryTopics | auto-3d-agent/src/retriever/web_search.py:147-168 | a non-dictionary entry gives no hits; every hit is well-formed |
| WebSearch.ItemsTopics | auto-3d-agent/src/retriever/web_search.py:146-168 | a list of entries raises only `TypeError` and otherwise gives well-formed hits |
| WebSearch.ItemsTopicsAppend | auto-3d-agent/src/retriever/web_search.py:146-169 | the hits of a list are the hits of its parts, in order |
| WebSearch.RaisedPrefix | auto-3d-agent/src/retriever/web_search.py:146-169 | an exception in a prefix is the exception of the whole list |
| WebSearch.DeepGroupsAreLeaves | auto-3d-agent/src/retriever/web_search.py:150-153 | from depth 3 on a group is read as a leaf |
| WebSearch.GroupsAreFlattened | auto-3d-agent/src/retriever/web_search.py:150-153 | above depth 3 a group contributes exactly its own flattened topics |
| WebSearch.IncompleteEntriesSkipped | auto-3d-agent/src/retriever/web_search.py:155-158 | an entry without a truthy `FirstURL` or `Text` is skipped |
| WebSearch.BeforeSeparator | auto-3d-agent/src/retriever/web_search.py:159 | the text before " - " of a word followed by " - " is that word |
| WebSearch.TitleFromText | auto-3d-agent/src/retriever/web_search.py:159-163 | without `Result`, the title is the text before the first " - " |
| WebSearch.StripStripped | auto-3d-agent/src/retriever/web_search.py:163-165 | stripping a stripped text changes nothing |
| WebSearch.ItemsTopicsStep | auto-3d-agent/src/retriever/web_search.py:146-168 | one more entry extends the hits by the entry's own |
| WebSearch.ExtractTopics | auto-3d-agent/src/retriever/web_search.py:144-169 | the loop returns exactly `TopicsOf` |
| WebSearch.ExtractEntry | auto-3d-agent/src/retriever/web_search.py:147-168 | the loop body returns exactly `EntryTopics`: it skips the entry, recurses into its group or takes its hit |
| WebSearch.UrlsOf | auto-3d-agent/src/retriever/web_search.py:136-138 | the non-empty URLs of the hits, never the empty one |
| WebSearch.UrlsOfSnoc | auto-3d-agent/src/retriever/web_search.py:136-138 | appending a hit adds its URL if it has one |
| WebSearch.FirstIndexOf | auto-3d-agent/src/retriever/web_search.py:136 | the position of the first hit with a URL |
| WebSearch.Unique | auto-3d-agent/src/retriever/web_search.py:133-138 | the de-duplication keeps every URL, drops empty URLs and repeats none |
| WebSearch.FirstIndexUnique | auto-3d-agent/src/retriever/web_search.py:136 | the first position is determined by its two properties |
| WebSearch.FirstIndexOfSnoc | auto-3d-agent/src/retriever/web_search.py:136 | appending a hit does not move the first occurrence of a URL already present |
| WebSearch.FirstIndexOfNew | auto-3d-agent/src/retriever/web_search.py:136 | a new URL's first occurrence is the appended hit |
| WebSearch.FirstOccurrencesKept | auto-3d-agent/src/retriever/web_search.py:135-138 | appending a hit keeps the first occurrences already found |
| WebSearch.FirstOccurrencesExtended | auto-3d-agent/src/retriever/web_search.py:135-138 | appending a hit with a new URL adds that hit to the first occurrences |
| WebSearch.UniqueKeepsFirstOccurrences | auto-3d-agent/src/retriever/web_search.py:133-138 | each kept hit is the first with its URL, in input order |
| WebSearch.UniquePrefix | auto-3d-agent/src/retriever/web_search.py:133-140 | de-duplicating a prefix gives a prefix of the de-duplication |
| WebSearch.Deduplicated | auto-3d-agent/src/retriever/web_search.py:133-142 | for `limit >= 1` at most `limit` hits, a prefix of the de-duplication, all of it if it fits |
| WebSearch.NonPositiveLimitKeepsFirst | auto-3d-agent/src/retriever/web_search.py:139-140 | with `limit <= 0` a first hit with a URL is returned alone, exceeding the limit |
| WebSearch.DeduplicatedIsFirstOccurrences | auto-3d-agent/src/retriever/web_search.py:133-142 | the output has non-empty, distinct URLs, each hit the first in the input with its URL |
| WebSearch.UniqueStep | auto-3d-agent/src/retriever/web_search.py:135-138 | one more input hit adds itself exactly when its URL is non-empty and new |
| WebSearch.BreakAtLimit | auto-3d-agent/src/retriever/web_search.py:139-140 | breaking when the limit is first reached gives `Deduplicated`'s answer |
| WebSearch.LimitReachedExactly | auto-3d-agent/src/retriever/web_search.py:139-140 | the loop breaks exactly at the limit, not past it |
| WebSearch.LimitPrefixIsAnswer | auto-3d-agent/src/retriever/web_search.py:139-142 | a prefix of exactly `limit` unique hits is the answer |
| WebSearch.BreakAtFirst | auto-3d-agent/src/retriever/web_search.py:139-140 | with `limit <= 0` the loop breaks after the first hit |
| WebSearch.DeduplicateAndTrim | auto-3d-agent/src/retriever/web_search.py:132-142 | the loop returns exactly `Deduplicated`, whose properties the lemmas above give |
| WebSearch.DeduplicatedKeepsWellFormed | auto-3d-agent/src/retriever/web_search.py:132-142 | de-duplication only drops hits, so well-formed hits stay well-formed |
| WebSearch.AbstractHit | auto-3d-agent/src/retriever/web_search.py:116-127 | one hit exactly when `AbstractText` and `AbstractURL` are truthy, well-formed and carrying that URL |
| WebSearch.SearchDuckDuckGo | auto-3d-agent/src/retriever/web_search.py:113-142 | raises exactly when the topic walk does; otherwise the de-duplicated abstract and topic hits, all well-formed |
| WebSearch.FetchResults | auto-3d-agent/src/retriever/web_search.py:171-173 | the hits come back unchanged, in order |
| CadProcessor.WallThreshold | auto-3d-agent/src/ingestion/cad_processor.py:125-133 | a listed material's own minimum, else 1.2 |
| CadProcessor.ClampWall | auto-3d-agent/src/ingestion/cad_processor.py:133-134 | raises exactly when `dimensions` is not a dictionary, the wall is missing or not a number, or an unlisted material has a wall under 1.2; otherwise only `wall_thickness` may change |
| CadProcessor.Constrained | auto-3d-agent/src/ingestion/cad_processor.py:121-144 | on an exception nothing changes; otherwise `print_features` is added and only `dimensions` may also change |
| CadProcessor.WallReachesMinimum | auto-3d-agent/src/ingestion/cad_processor.py:125-134 | for PLA, PETG, ABS and TPU the wall ends at the larger of itself and the material's minimum |
| CadProcessor.UnknownMaterial | auto-3d-agent/src/ingestion/cad_processor.py:133-134 | an unlisted material with a wall under 1.2 raises `KeyError` and changes nothing; with 1.2 or more only `print_features` is added |
| CadProcessor.ConstrainedIdempotent | auto-3d-agent/src/ingestion/cad_processor.py:121-144 | applying the constraints again changes nothing more |
| CadProcessor.AdapterWallKept | auto-3d-agent/src/ingestion/cad_processor.py:133 | a 2 mm PLA wall is kept |
| CadProcessor.ApplyPrintingConstraints | auto-3d-agent/src/ingestion/cad_processor.py:121-144 | the same dictionary is updated in place and returned, ending as `Constrained` says; otherwise `Constrained`'s exception is raised |
| Server.Extension | webapp/server.py:40 | none exactly when there is no dot; otherwise a dot-free text after the last dot |
| Server.AllowedFileIff | webapp/server.py:39-40 | accepted exactly when the name is a stem, a dot and a dot-free extension whose lower-case form is allowed |
| Server.SplitAtLastDot | webapp/server.py:40 | the extension of stem, dot, dot-free text is that text |
| Server.NoDotRejected | webapp/server.py:40 | a name without a dot is refused |
| Server.TrailingDotRejected | webapp/server.py:30-40 | a trailing dot leaves an empty extension, which is refused |
| Server.ExeNotAllowed | webapp/server.py:30 | "exe" is not an allowed extension |
| Server.LastExtensionRejects | webapp/server.py:30-40 | "a.stl.exe" is refused |
| Server.LastExtensionAccepts | webapp/server.py:30-40 | "a.exe.stl" is accepted |
| Server.UpperCaseAccepted | webapp/server.py:30-40 | "PART.STL" is accepted |

## Left out

- File and network I/O. This covers `open` and `write`, `os.path.getsize` and `file_size_kb`,
  and the JSON body of the metadata file. It also covers the HTTP requests and their failures, and
  `_search_serpapi`. Files are modelled as the bytes or lines a writer produces. `SearchWeb` takes
  each provider's hits as parameters.
- Write failures other than `struct` overflow: an ASCII write never fails in the model.
- Floating point. Coordinates are exact reals. `cos`, `sin`, the square root, float32 packing and
  the `:.6f` and `:.1f` formatting are parameters. The degeneracy test `|cross| / 2 < 1e-10` is
  stated as `|cross|^2 < 4e-20`, which is the same over the reals.
- numpy arrays are sequences of `Vec3` and `Face`. Face indices are integers with Python's
  negative indexing.
- The regular-expression number extraction in `extract_parameters`.
- Every Blender, FreeCAD and Flask call, and the rest of the pipeline.
- Lower-casing covers ASCII letters only.
- Gear `teeth` is an integer; a float count would make `range()` raise. The gear's pressure angle
  and base diameter and the thread's angle are computed but never used, so they are not modelled.
- `struct.pack('<f')` overflow to infinity is modelled as a failure, as Python raises it.
- WebSearch.TopicsOf: requires that the `FirstURL`, `Text` and `Result` fields the walk reads are
  strings when truthy; the code applies `str()` to other values, and `.split` on a non-string
  `Text` raises, which is not modelled.
- WebSearch.SearchDuckDuckGo: requires the abstract fields to be strings when truthy, for the same
  reason.
- WebSearch.Unique: URLs are strings; an unhashable URL, which would raise in the `set`, is not
  modelled.
- BlenderParams.UpdateParamsFromFeatures: requires the `type` of every detected shape to be a
  string; other hashable types are not modelled.
- BlenderParams.CountShapes: requires the same string types.
- StlExporter.ExportWithMetadata: writes the metadata to the corrected `SidecarPath`, not to
  `output_path.replace('.stl', '_metadata.json')` as line 299 does. For a path without a lower-case
  ".stl" (such as `a.STL`) the code overwrites the STL, and for a path with ".stl" elsewhere (such as
  `x.stl.d/a.stl`) it also rewrites the directory name. `MetadataPath` and
  `MetadataPathOverwritesStl` model the code as written (see Findings).
- StlExporter.ExportWithMetadata: requires `part_name`, when present, to be a string; a non-string
  name raising inside the exporter is not modelled.
- CadProcessor.ApplyPrintingConstraints: the nested `dimensions` dictionary is updated in place by
  the code, so other references to it see the new wall; the model replaces it by value and does not
  capture that aliasing.
- BlenderParams.UpdateParamsFromFeatures: the nested `modifiers` dictionary is likewise replaced by
  value rather than updated in place.

## Findings

| source | as written | input that shows it | evidently intended | confidence | as-written member | corrected member |
|---|---|---|---|---|---|---|
| auto-3d-agent/src/generator/parametric_shapes.py:76-78 | the back-face loop iterates over `vertices` while appending to it, so the list grows by one each time and the loop never ends | any gear with `teeth >= 1`, such as the default 20 | append one copy of each of the `front_count` front points at z = thickness | high (proved about the model; not executed) | ParametricShapes.GearAsWrittenNeverEnds | ParametricShapes.GenerateGear |
| auto-3d-agent/src/cad_export/stl_exporter.py:299 | `output_path.replace('.stl', '_metadata.json')` leaves a path without a lower-case ".stl" unchanged, so the metadata JSON overwrites the STL file just written | `a.STL` | a metadata path distinct from the STL path | high (proved about the model; not executed) | StlExporter.MetadataPathOverwritesStl | StlExporter.SidecarPath |
