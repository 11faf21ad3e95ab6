/** `STLExporter`: validates a mesh, then writes it as binary or ASCII STL, and derives
    printing recommendations from its bounding box. */
module StlExporter {

  import opened PyCore
  import opened PyStrings
  import opened Mesh
  import opened StlGeometry
  import opened StlFormat

  /** The dictionary an export returns. `file_size_kb` is left out: it reads the file system. */
  datatype ExportResult =
    | Exported(filePath: string, format: string, triangleCount: nat,
               validation: ValidationReport, recommendations: seq<Recommendation>)
    | Rejected(errors: seq<ValidationError>)
    | WriteFailed(message: string)

  const DefaultPartName: string := "adapter"
  const BinaryFormat: string := "Binary STL"
  const AsciiFormat: string := "ASCII STL"
  const BinaryWriteFailure: string := "Failed to write binary STL file: "

  // ---------------------------------------------------------------- recommendations

  /** The remarks `_generate_print_recommendations` can make. */
  datatype Recommendation =
    | FineLayers | MediumLayers | CoarseLayers
    | SparseInfill | SolidInfill
    | Supports
    | ThinWallWarning

  /** The text of each remark. */
  function RecommendationText(r: Recommendation): string {
    match r
    case FineLayers => "Use 0.1mm layer height for fine details"
    case MediumLayers => "Use 0.15-0.2mm layer height"
    case CoarseLayers => "Use 0.2-0.3mm layer height for faster printing"
    case SparseInfill => "Consider using 20-40% infill to save material"
    case SolidInfill => "Use 100% infill for mechanical parts"
    case Supports => "Tall part - consider printing supports"
    case ThinWallWarning => "Warning: Features thinner than 1mm may not print reliably"
  }

  predicate IsLayerLine(r: Recommendation) { r.FineLayers? || r.MediumLayers? || r.CoarseLayers? }
  predicate IsInfillLine(r: Recommendation) { r.SparseInfill? || r.SolidInfill? }

  /** `bbox_max - bbox_min`: the extents along x, y and z. */
  function Dimensions(vertices: seq<Vec3>): (d: Vec3)
    requires |vertices| > 0
    ensures d.x >= 0.0 && d.y >= 0.0 && d.z >= 0.0
  {
    Vec3(Extent(vertices, 0), Extent(vertices, 1), Extent(vertices, 2))
  }

  /** The z-extent is strictly larger than both the x- and the y-extent. */
  predicate IsTall(d: Vec3) {
    d.z > d.x && d.z > d.y
  }

  /** The rules over the bounding-box extents `d`. */
  function RecommendationsFor(d: Vec3): seq<Recommendation> {
    var minFeature := Min3(d.x, d.y, d.z);
    [if minFeature < 2.0 then FineLayers else if minFeature < 10.0 then MediumLayers else CoarseLayers]
    + [if Max3(d.x, d.y, d.z) > 50.0 then SparseInfill else SolidInfill]
    + (if IsTall(d) then [Supports] else [])
    + (if minFeature < 1.0 then [ThinWallWarning] else [])
  }

  /** `_generate_print_recommendations`: a layer-height line, an infill line, then the
      support and thin-wall remarks, all from the bounding box. */
  function PrintRecommendations(vertices: seq<Vec3>): seq<Recommendation> {
    if |vertices| == 0 then [] else RecommendationsFor(Dimensions(vertices))
  }

  /** The recommendation rules: exactly one layer-height line, first, chosen by the smallest
      extent; exactly one infill line, second, chosen by the largest extent; the support remark
      exactly for tall parts and the thin-wall warning exactly for a smallest extent under 1mm,
      in that order, each at most once. */
  lemma RecommendationRules(d: Vec3)
    ensures var r := RecommendationsFor(d);
      var minFeature := Min3(d.x, d.y, d.z);
      && |r| == 2 + (if IsTall(d) then 1 else 0) + (if minFeature < 1.0 then 1 else 0)
      && (r[0] == FineLayers <==> minFeature < 2.0)
      && (r[0] == MediumLayers <==> 2.0 <= minFeature < 10.0)
      && (r[0] == CoarseLayers <==> minFeature >= 10.0)
      && (r[1] == SparseInfill <==> Max3(d.x, d.y, d.z) > 50.0)
      && (r[1] == SolidInfill <==> Max3(d.x, d.y, d.z) <= 50.0)
      && (forall j :: 0 <= j < |r| ==> (IsLayerLine(r[j]) <==> j == 0))
      && (forall j :: 0 <= j < |r| ==> (IsInfillLine(r[j]) <==> j == 1))
      && (Supports in r <==> IsTall(d))
      && (ThinWallWarning in r <==> minFeature < 1.0)
      && (ThinWallWarning in r ==> r[|r| - 1] == ThinWallWarning && r[0] == FineLayers)
  {
    var r := RecommendationsFor(d);
    assert forall j :: 2 <= j < |r| ==> r[j] == Supports || r[j] == ThinWallWarning;
  }

  /** No vertices, no recommendations; otherwise at least the layer and infill lines. */
  lemma RecommendationsPresent(vertices: seq<Vec3>)
    ensures PrintRecommendations(vertices) == [] <==> |vertices| == 0
    ensures |vertices| > 0 ==> |PrintRecommendations(vertices)| >= 2
  {
  }

  /** Supports together with coarse layers happen only for parts at least 10mm in every direction. */
  lemma TallCoarseIsWide(d: Vec3)
    requires Supports in RecommendationsFor(d) && CoarseLayers in RecommendationsFor(d)
    ensures d.x >= 10.0 && d.y >= 10.0 && d.z > 10.0
  {
    RecommendationRules(d);
    var r := RecommendationsFor(d);
    var j :| 0 <= j < |r| && r[j] == CoarseLayers;
    assert IsLayerLine(r[j]);
  }

  /** A 0.5 x 0.5 x 20 part: fine layers, full infill, supports, and the thin-wall warning. */
  lemma ThinTallPartRecommendations()
    ensures PrintRecommendations([Vec3(0.0, 0.0, 0.0), Vec3(0.5, 0.5, 20.0)])
      == [FineLayers, SolidInfill, Supports, ThinWallWarning]
  {
    var vs := [Vec3(0.0, 0.0, 0.0), Vec3(0.5, 0.5, 20.0)];
    assert Dimensions(vs) == Vec3(0.5, 0.5, 20.0);
  }

  // ---------------------------------------------------------------- binary export

  /** What `export_binary_stl` returns: the validator's exception, the validation errors,
      a `struct` failure, or success. */
  function BinaryExport(vertices: seq<Vec3>, faces: seq<Face>, outputPath: string, partName: string,
                        pack: Packer, sqrt: Root): (r: Result<ExportResult>)
  {
    if !AllInPyRange(|vertices|, faces) then Raised(IndexError)
    else
      var report := Report(vertices, faces);
      if !report.isValid then Ok(Rejected(report.errors))
      else
        match BinaryStl(pack, partName, vertices, faces, FaceNormals(vertices, faces, sqrt))
        case PackFailed(message) => Ok(WriteFailed(BinaryWriteFailure + message))
        case Wrote(_) => Ok(Exported(outputPath, BinaryFormat, |faces|, report, PrintRecommendations(vertices)))
  }

  /** An export either raises on an index outside Python's range, or is rejected with the
      validator's (non-empty) errors, or runs the writer; success reports every face and a
      valid validation. */
  lemma BinaryExportOutcomes(vertices: seq<Vec3>, faces: seq<Face>, outputPath: string, partName: string,
                             pack: Packer, sqrt: Root)
    ensures var r := BinaryExport(vertices, faces, outputPath, partName, pack, sqrt);
      && (r.Raised? <==> !AllInPyRange(|vertices|, faces))
      && (r.Ok? ==> (r.value.Rejected? <==> !Report(vertices, faces).isValid))
      && (r.Ok? && r.value.Rejected? ==> r.value.errors == Report(vertices, faces).errors && r.value.errors != [])
      && (r.Ok? && r.value.Exported? ==>
            r.value.validation.isValid && r.value.validation.errors == []
            && r.value.triangleCount == |faces| && r.value.filePath == outputPath)
      && (r.Ok? && r.value.WriteFailed? ==>
            Report(vertices, faces).isValid
            && (|faces| >= U32Limit
                || exists i :: 0 <= i < |faces|
                     && FaceRecord(pack, vertices, faces[i], FaceNormals(vertices, faces, sqrt)[i]).None?))
  {
    if AllInPyRange(|vertices|, faces) {
      BinaryFailure(pack, partName, vertices, faces, FaceNormals(vertices, faces, sqrt));
    }
  }

  /** `export_binary_stl`: validates, computes the normals, then writes the header, the count
      and one record per face. `file` is the file's content, `None` when it is never opened. */
  method ExportBinary(vertices: seq<Vec3>, faces: seq<Face>, outputPath: string, partName: string,
                      pack: Packer, sqrt: Root)
    returns (r: Result<ExportResult>, file: Option<seq<byte>>)
    ensures r == BinaryExport(vertices, faces, outputPath, partName, pack, sqrt)
    ensures file.None? <==> !(r.Ok? && (r.value.Exported? || r.value.WriteFailed?))
    ensures r.Ok? && r.value.Exported? ==>
      file == Some(BinaryStl(pack, partName, vertices, faces, FaceNormals(vertices, faces, sqrt)).bytes)
  {
    var validation := ValidateGeometry(vertices, faces);
    if validation.Raised? {
      return Raised(validation.error), None;
    }
    var report := validation.value;
    if !report.isValid {
      return Ok(Rejected(report.errors)), None;
    }
    var normals := CalculateFaceNormals(vertices, faces, sqrt);
    var written, bytes := WriteBinary(pack, partName, vertices, faces, normals);
    file := Some(bytes);
    if written.PackFailed? {
      return Ok(WriteFailed(BinaryWriteFailure + written.message)), file;
    }
    r := Ok(Exported(outputPath, BinaryFormat, |faces|, report, PrintRecommendations(vertices)));
  }

  // ---------------------------------------------------------------- ASCII export

  /** What `export_ascii_stl` returns; writing text cannot fail in the model. */
  function AsciiExport(vertices: seq<Vec3>, faces: seq<Face>, outputPath: string): (r: Result<ExportResult>)
  {
    if !AllInPyRange(|vertices|, faces) then Raised(IndexError)
    else
      var report := Report(vertices, faces);
      if !report.isValid then Ok(Rejected(report.errors))
      else Ok(Exported(outputPath, AsciiFormat, |faces|, report, PrintRecommendations(vertices)))
  }

  /** Valid meshes always export as ASCII; invalid ones are rejected with their errors. */
  lemma AsciiExportOutcomes(vertices: seq<Vec3>, faces: seq<Face>, outputPath: string)
    ensures var r := AsciiExport(vertices, faces, outputPath);
      && (r.Raised? <==> !AllInPyRange(|vertices|, faces))
      && (r.Ok? ==> !r.value.WriteFailed?)
      && (r.Ok? ==> (r.value.Exported? <==> Report(vertices, faces).errors == []))
      && (r.Ok? && r.value.Rejected? ==> r.value.errors != [])
  {
  }

  /** `export_ascii_stl`: the `solid` line, seven lines per face, the `endsolid` line. */
  method ExportAscii(vertices: seq<Vec3>, faces: seq<Face>, outputPath: string, partName: string,
                     fmt: Fixed6, sqrt: Root)
    returns (r: Result<ExportResult>, file: Option<seq<string>>)
    ensures r == AsciiExport(vertices, faces, outputPath)
    ensures file.Some? <==> r.Ok? && r.value.Exported?
    ensures file.Some? ==> file.value == AsciiStl(fmt, partName, vertices, faces, FaceNormals(vertices, faces, sqrt))
  {
    var validation := ValidateGeometry(vertices, faces);
    if validation.Raised? {
      return Raised(validation.error), None;
    }
    var report := validation.value;
    if !report.isValid {
      return Ok(Rejected(report.errors)), None;
    }
    var normals := CalculateFaceNormals(vertices, faces, sqrt);
    var lines := WriteAscii(fmt, partName, vertices, faces, normals);
    r := Ok(Exported(outputPath, AsciiFormat, |faces|, report, PrintRecommendations(vertices)));
    file := Some(lines);
  }

  // ---------------------------------------------------------------- metadata

  const StlSuffix: string := ".stl"
  const MetadataSuffix: string := "_metadata.json"

  /** `output_path.replace('.stl', '_metadata.json')`, as written. */
  function MetadataPath(outputPath: string): string {
    ReplaceAll(outputPath, StlSuffix, MetadataSuffix)
  }

  /** A path without a lower-case ".stl" names the STL file itself, so the metadata overwrites it. */
  lemma MetadataPathOverwritesStl()
    ensures MetadataPath("a.STL") == "a.STL"
  {
    assert !Contains("a.STL", StlSuffix) by {
      forall i | 0 <= i <= |"a.STL"| - |StlSuffix|
        ensures !MatchAt("a.STL", StlSuffix, i)
      {
        assert "a.STL"[i + 1] != StlSuffix[1];
      }
    }
    ReplaceAllWithout("a.STL", StlSuffix, MetadataSuffix);
  }

  /** The metadata path: a trailing ".stl" replaced by "_metadata.json", or the suffix
      appended when there is none; it never names the STL file itself. */
  function SidecarPath(outputPath: string): (p: string)
    ensures p != outputPath
  {
    if |outputPath| >= |StlSuffix| && outputPath[|outputPath| - |StlSuffix|..] == StlSuffix
    then outputPath[..|outputPath| - |StlSuffix|] + MetadataSuffix
    else outputPath + MetadataSuffix
  }

  /** Where ".stl" occurs only as the extension, the corrected path is the one the source computes. */
  lemma SidecarPathAgrees(base: string)
    requires forall i :: MatchAt(base + StlSuffix, StlSuffix, i) ==> i == |base|
    ensures SidecarPath(base + StlSuffix) == MetadataPath(base + StlSuffix)
  {
    ReplaceAllSuffix(base, StlSuffix, MetadataSuffix);
    assert (base + StlSuffix)[..|base|] == base;
  }

  /** Replacing a pattern that occurs only at the very end of a string. */
  lemma {:induction false} ReplaceAllSuffix(a: string, pat: string, rep: string)
    requires pat != []
    requires forall i :: MatchAt(a + pat, pat, i) ==> i == |a|
    ensures ReplaceAll(a + pat, pat, rep) == a + rep
    decreases |a|
  {
    var s := a + pat;
    if a == [] {
      assert s == pat && pat <= s && s[|pat|..] == [];
    } else {
      assert !MatchAt(s, pat, 0);
      assert !(pat <= s) by {
        assert |pat| <= |s| ==> s[0..|pat|] == s[..|pat|];
      }
      assert s[1..] == a[1..] + pat;
      forall i | MatchAt(a[1..] + pat, pat, i)
        ensures i == |a[1..]|
      {
        assert s[i + 1..i + 1 + |pat|] == (a[1..] + pat)[i..i + |pat|];
        assert MatchAt(s, pat, i + 1);
      }
      ReplaceAllSuffix(a[1..], pat, rep);
      assert a + rep == [a[0]] + (a[1..] + rep);
    }
  }

  /** `metadata.get('part_name', 'adapter')`. */
  function PartName(metadata: map<string, Value>): string
    requires "part_name" in metadata ==> metadata["part_name"].Str?
  {
    if "part_name" in metadata then metadata["part_name"].s else DefaultPartName
  }

  /** `export_with_metadata`: a binary export under the metadata's part name, followed, on
      success, by the metadata file beside it. */
  method ExportWithMetadata(vertices: seq<Vec3>, faces: seq<Face>, outputPath: string,
                            metadata: map<string, Value>, pack: Packer, sqrt: Root)
    returns (r: Result<ExportResult>, file: Option<seq<byte>>, metadataFile: Option<string>)
    requires "part_name" in metadata ==> metadata["part_name"].Str?
    ensures r == BinaryExport(vertices, faces, outputPath, PartName(metadata), pack, sqrt)
    ensures r.Ok? && r.value.Exported? ==>
      file == Some(BinaryStl(pack, PartName(metadata), vertices, faces, FaceNormals(vertices, faces, sqrt)).bytes)
    ensures metadataFile.Some? <==> r.Ok? && r.value.Exported?
    ensures metadataFile.Some? ==> metadataFile.value == SidecarPath(outputPath) && metadataFile.value != outputPath
  {
    var partName := if "part_name" in metadata then metadata["part_name"].s else DefaultPartName;
    r, file := ExportBinary(vertices, faces, outputPath, partName, pack, sqrt);
    metadataFile := None;
    if r.Ok? && r.value.Exported? {
      metadataFile := Some(SidecarPath(outputPath));
    }
  }

  // ---------------------------------------------------------------- manifold examples

  /** The twelve triangles of the sample unit cube. */
  const CubeFaces: seq<Face> := [
    Face(0, 1, 2), Face(0, 2, 3), Face(4, 6, 5), Face(4, 7, 6), Face(0, 4, 5), Face(0, 5, 1),
    Face(2, 6, 7), Face(2, 7, 3), Face(0, 3, 7), Face(0, 7, 4), Face(1, 5, 6), Face(1, 6, 2)]

  lemma {:induction false} OccurrencesAppend(f: seq<Face>, g: seq<Face>, e: Edge)
    ensures Occurrences(f + g, e) == Occurrences(f, e) + Occurrences(g, e)
    decreases |g|
  {
    if g == [] {
      assert f + g == f;
    } else {
      var last := |g| - 1;
      assert (f + g)[..|f + g| - 1] == f + g[..last];
      OccurrencesAppend(f, g[..last], e);
    }
  }

  lemma CountInThree(edges: seq<Edge>, e: Edge)
    requires |edges| == 3
    ensures CountIn(edges, e) == (if edges[0] == e then 1 else 0) + (if edges[1] == e then 1 else 0)
      + (if edges[2] == e then 1 else 0)
  {
    var p2 := edges[..2];
    var p1 := p2[..1];
    assert p1 == [edges[0]] && p1[..0] == [];
    assert CountIn(p1, e) == (if edges[0] == e then 1 else 0);
    assert CountIn(p2, e) == CountIn(p1, e) + (if edges[1] == e then 1 else 0);
  }

  /** Taking away a triangle with three distinct corners from a manifold mesh leaves its first
      side on exactly one face, so the mesh is no longer manifold. */
  lemma RemovingFaceBreaksManifold(faces: seq<Face>, k: nat)
    requires IsManifold(faces) && k < |faces|
    requires faces[k].a != faces[k].b && faces[k].b != faces[k].c && faces[k].c != faces[k].a
    ensures !IsManifold(faces[..k] + faces[k + 1..])
  {
    var f := faces[k];
    var rest := faces[..k] + faces[k + 1..];
    var e := EdgeOf(f.a, f.b);
    ManifoldIff(faces);
    assert FaceEdges(faces[k])[0] == e;
    assert Occurrences(faces, e) == 2;
    assert faces == faces[..k] + [f] + faces[k + 1..];
    OccurrencesAppend(faces[..k] + [f], faces[k + 1..], e);
    OccurrencesAppend(faces[..k], [f], e);
    OccurrencesAppend(faces[..k], faces[k + 1..], e);
    assert [f][..0] == [];
    CountInThree(FaceEdges(f), e);
    assert CountIn(FaceEdges(f), e) == 1;
    assert Occurrences(rest, e) == 1;
    var m, j := OccurrenceWitness(rest, e);
    ManifoldIff(rest);
  }

  /** How many sides of `f` lie on `e`. */
  function Hits(f: Face, e: Edge): nat {
    (if EdgeOf(f.a, f.b) == e then 1 else 0) + (if EdgeOf(f.b, f.c) == e then 1 else 0)
    + (if EdgeOf(f.c, f.a) == e then 1 else 0)
  }

  lemma OccurrencesStep(faces: seq<Face>, k: nat, e: Edge)
    requires k < |faces|
    ensures Occurrences(faces[..k + 1], e) == Occurrences(faces[..k], e) + Hits(faces[k], e)
  {
    assert faces[..k + 1][..k] == faces[..k];
    CountInThree(FaceEdges(faces[k]), e);
  }

  /** The occurrences of an edge in the cube, face by face. */
  lemma CubeOccurrences(e: Edge)
    ensures Occurrences(CubeFaces, e) ==
      Hits(CubeFaces[0], e) + Hits(CubeFaces[1], e) + Hits(CubeFaces[2], e) + Hits(CubeFaces[3], e)
      + Hits(CubeFaces[4], e) + Hits(CubeFaces[5], e) + Hits(CubeFaces[6], e) + Hits(CubeFaces[7], e)
      + Hits(CubeFaces[8], e) + Hits(CubeFaces[9], e) + Hits(CubeFaces[10], e) + Hits(CubeFaces[11], e)
  {
    var c := CubeFaces;
    assert c[..0] == [];
    OccurrencesStep(c, 0, e);
    OccurrencesStep(c, 1, e);
    OccurrencesStep(c, 2, e);
    OccurrencesStep(c, 3, e);
    OccurrencesStep(c, 4, e);
    OccurrencesStep(c, 5, e);
    OccurrencesStep(c, 6, e);
    OccurrencesStep(c, 7, e);
    OccurrencesStep(c, 8, e);
    OccurrencesStep(c, 9, e);
    OccurrencesStep(c, 10, e);
    OccurrencesStep(c, 11, e);
    assert c[..12] == c;
  }

  /** Every side of every cube triangle is shared by exactly two triangles. */
  lemma CubeIsManifold()
    ensures IsManifold(CubeFaces)
  {
    forall k, j | 0 <= k < |CubeFaces| && 0 <= j < 3
      ensures Occurrences(CubeFaces, FaceEdges(CubeFaces[k])[j]) == 2
    {
      if k < 4 {
        CubeSideSharedFront(k, j);
      } else if k < 8 {
        CubeSideSharedMiddle(k, j);
      } else {
        CubeSideSharedBack(k, j);
      }
    }
    ManifoldIff(CubeFaces);
  }

  /** Each side of cube triangles 0 to 3 lies on exactly two triangles. */
  lemma CubeSideSharedFront(k: nat, j: nat)
    requires k < 4 && j < 3
    ensures Occurrences(CubeFaces, FaceEdges(CubeFaces[k])[j]) == 2
  {
    CubeOccurrences(FaceEdges(CubeFaces[k])[j]);
    assert k == 0 || k == 1 || k == 2 || k == 3;
    assert j == 0 || j == 1 || j == 2;
  }

  /** Each side of cube triangles 4 to 7 lies on exactly two triangles. */
  lemma CubeSideSharedMiddle(k: nat, j: nat)
    requires 4 <= k < 8 && j < 3
    ensures Occurrences(CubeFaces, FaceEdges(CubeFaces[k])[j]) == 2
  {
    CubeOccurrences(FaceEdges(CubeFaces[k])[j]);
    assert k == 4 || k == 5 || k == 6 || k == 7;
    assert j == 0 || j == 1 || j == 2;
  }

  /** Each side of cube triangles 8 to 11 lies on exactly two triangles. */
  lemma CubeSideSharedBack(k: nat, j: nat)
    requires 8 <= k < 12 && j < 3
    ensures Occurrences(CubeFaces, FaceEdges(CubeFaces[k])[j]) == 2
  {
    CubeOccurrences(FaceEdges(CubeFaces[k])[j]);
    assert k == 8 || k == 9 || k == 10 || k == 11;
    assert j == 0 || j == 1 || j == 2;
  }

  /** Removing any one triangle from the sample cube leaves a non-manifold mesh. */
  lemma CubeMinusFaceNotManifold(k: nat)
    requires k < |CubeFaces|
    ensures !IsManifold(CubeFaces[..k] + CubeFaces[k + 1..])
  {
    CubeIsManifold();
    RemovingFaceBreaksManifold(CubeFaces, k);
  }

  /** A single vertex and no faces: both structural errors, in order, and an invalid report. */
  lemma SingleVertexReport()
    ensures var report := Report([Vec3(0.0, 0.0, 0.0)], []);
      report.errors == [InsufficientVertices, NoFaces] && !report.isValid
      && report.degenerateTriangles == 0 && report.manifoldEdges
  {
  }
}
