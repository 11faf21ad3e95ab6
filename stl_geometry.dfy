/** The geometry checks of the STL exporter: structural and printability
    validation, the manifold-edge check and the per-face normals. */
module StlGeometry {

  import opened PyCore
  import opened PyStrings
  import opened Mesh

  /** `export_settings['minimum_feature_size']`, in millimetres. */
  const MinimumFeatureSize: real := 0.4
  /** The largest extent a typical print bed takes, in millimetres. */
  const BuildVolumeLimit: real := 300.0
  /** A face is degenerate when its area `|cross| / 2` is below 1e-10, that is when
      `|cross|^2` is below 4e-20. */
  const DegenerateCrossSq: real := 0.00000000000000000004
  /** A normal is scaled to unit length only when `|cross| > 1e-10`, that is `|cross|^2 > 1e-20`. */
  const NormalizeNormSq: real := 0.00000000000000000001

  // ---------------------------------------------------------------- report

  datatype ValidationError =
    | InsufficientVertices
    | NoFaces
    | NonExistentVertex(face: nat, index: int)

  function ErrorMessage(e: ValidationError): string {
    match e
    case InsufficientVertices => "Insufficient vertices (minimum 3 required)"
    case NoFaces => "No faces found"
    case NonExistentVertex(i, v) => "Face " + NatToString(i) + " references non-existent vertex " + IntToString(v)
  }

  datatype ValidationWarning =
    | DegenerateTriangles(count: nat)
    | SmallFeatures
    | ExceedsBuildVolume(dimension: real)

  /** The warning texts; `fmt1` is the `:.1f` rendering of a float. */
  function WarningMessage(w: ValidationWarning, fmt1: real -> string): string {
    match w
    case DegenerateTriangles(n) => "Found " + NatToString(n) + " degenerate triangles"
    case SmallFeatures => "Part has features smaller than 0.4mm"
    case ExceedsBuildVolume(d) => "Part dimension (" + fmt1(d) + "mm) exceeds typical printer build volume"
  }

  datatype ValidationReport = ValidationReport(
    isValid: bool,
    errors: seq<ValidationError>,
    warnings: seq<ValidationWarning>,
    degenerateTriangles: nat,
    manifoldEdges: bool)

  // ---------------------------------------------------------------- structural errors

  function StructuralErrors(vertexCount: nat, faceCount: nat): seq<ValidationError> {
    (if vertexCount < 3 then [InsufficientVertices] else [])
    + (if faceCount < 1 then [NoFaces] else [])
  }

  function Corners(f: Face): seq<int> {
    [f.a, f.b, f.c]
  }

  /** The errors for face number `i` whose corner indices are `corners`: one per index above `maxIndex`. */
  function CornerErrors(i: nat, corners: seq<int>, maxIndex: int): seq<ValidationError> {
    if corners == [] then []
    else
      var v := corners[|corners| - 1];
      CornerErrors(i, corners[..|corners| - 1], maxIndex)
      + (if v > maxIndex then [NonExistentVertex(i, v)] else [])
  }

  /** The index errors of all faces, in face order. */
  function IndexErrors(faces: seq<Face>, maxIndex: int): seq<ValidationError> {
    if faces == [] then []
    else
      var i := |faces| - 1;
      IndexErrors(faces[..i], maxIndex) + CornerErrors(i, Corners(faces[i]), maxIndex)
  }

  predicate IndicesAtMost(faces: seq<Face>, maxIndex: int) {
    forall k :: 0 <= k < |faces| ==> faces[k].a <= maxIndex && faces[k].b <= maxIndex && faces[k].c <= maxIndex
  }

  lemma {:induction false} CornerErrorsFacts(i: nat, corners: seq<int>, maxIndex: int)
    ensures CornerErrors(i, corners, maxIndex) == [] <==> forall j :: 0 <= j < |corners| ==> corners[j] <= maxIndex
    ensures forall e :: e in CornerErrors(i, corners, maxIndex) ==>
      e.NonExistentVertex? && e.face == i && e.index > maxIndex && e.index in corners
  {
    if corners != [] {
      var p := corners[..|corners| - 1];
      CornerErrorsFacts(i, p, maxIndex);
      assert forall j :: 0 <= j < |p| ==> p[j] == corners[j];
    }
  }

  /** The index check reports nothing exactly when every index is at most `maxIndex`, and
      each report names a face, one of its indices, and that index is too large. */
  lemma {:induction false} IndexErrorsFacts(faces: seq<Face>, maxIndex: int)
    ensures IndexErrors(faces, maxIndex) == [] <==> IndicesAtMost(faces, maxIndex)
    ensures forall e :: e in IndexErrors(faces, maxIndex) ==>
      e.NonExistentVertex? && e.face < |faces| && e.index > maxIndex && e.index in Corners(faces[e.face])
  {
    if faces != [] {
      var i := |faces| - 1;
      var p := faces[..i];
      IndexErrorsFacts(p, maxIndex);
      CornerErrorsFacts(i, Corners(faces[i]), maxIndex);
      assert forall k :: 0 <= k < i ==> p[k] == faces[k];
      var f := faces[i];
      assert (forall j :: 0 <= j < 3 ==> Corners(f)[j] <= maxIndex)
        <==> (f.a <= maxIndex && f.b <= maxIndex && f.c <= maxIndex) by {
        assert Corners(f)[0] == f.a && Corners(f)[1] == f.b && Corners(f)[2] == f.c;
      }
      assert IndicesAtMost(faces, maxIndex) <==>
        IndicesAtMost(p, maxIndex) && f.a <= maxIndex && f.b <= maxIndex && f.c <= maxIndex;
    }
  }

  /** Face numbers in the index errors never decrease: the errors come in face order. */
  lemma {:induction false} IndexErrorsInFaceOrder(faces: seq<Face>, maxIndex: int)
    ensures var errs := IndexErrors(faces, maxIndex);
      forall p, q :: 0 <= p < q < |errs| && errs[p].NonExistentVertex? && errs[q].NonExistentVertex? ==>
        errs[p].face <= errs[q].face
  {
    if faces != [] {
      var i := |faces| - 1;
      IndexErrorsInFaceOrder(faces[..i], maxIndex);
      IndexErrorsFacts(faces[..i], maxIndex);
      CornerErrorsFacts(i, Corners(faces[i]), maxIndex);
      var a := IndexErrors(faces[..i], maxIndex);
      var b := CornerErrors(i, Corners(faces[i]), maxIndex);
      assert forall p :: 0 <= p < |a| ==> a[p] in a;
      assert forall q :: 0 <= q < |b| ==> b[q] in b;
    }
  }

  // ---------------------------------------------------------------- degeneracy

  predicate IsDegenerate(vertices: seq<Vec3>, f: Face)
    requires FaceInPyRange(|vertices|, f)
  {
    NormSq(FaceCross(vertices, f)) < DegenerateCrossSq
  }

  /** The number of degenerate faces. */
  function DegenerateCount(vertices: seq<Vec3>, faces: seq<Face>): (n: nat)
    requires AllInPyRange(|vertices|, faces)
    ensures n <= |faces|
    ensures n == 0 <==> forall k :: 0 <= k < |faces| ==> !IsDegenerate(vertices, faces[k])
  {
    if faces == [] then 0
    else
      var i := |faces| - 1;
      assert forall k :: 0 <= k < i ==> faces[..i][k] == faces[k];
      DegenerateCount(vertices, faces[..i]) + (if IsDegenerate(vertices, faces[i]) then 1 else 0)
  }

  /** A face with two coincident corners has zero area and adds exactly one to the count. */
  lemma CoincidentCornersDegenerate(vertices: seq<Vec3>, faces: seq<Face>, f: Face)
    requires AllInPyRange(|vertices|, faces) && FaceInPyRange(|vertices|, f)
    requires PyIndex(vertices, f.a) == PyIndex(vertices, f.b)
    ensures AllInPyRange(|vertices|, faces + [f])
    ensures DegenerateCount(vertices, faces + [f]) == DegenerateCount(vertices, faces) + 1
  {
    var g := faces + [f];
    assert g[..|faces|] == faces;
    var v1 := PyIndex(vertices, f.a);
    assert Sub(PyIndex(vertices, f.b), v1) == Vec3(0.0, 0.0, 0.0);
    assert FaceCross(vertices, f) == Vec3(0.0, 0.0, 0.0);
  }

  // ---------------------------------------------------------------- bounding box

  function Coord(v: Vec3, axis: nat): real
    requires axis < 3
  {
    if axis == 0 then v.x else if axis == 1 then v.y else v.z
  }

  /** The position of a vertex with the smallest coordinate on `axis`. */
  function ArgMin(vertices: seq<Vec3>, axis: nat): (k: nat)
    requires |vertices| > 0 && axis < 3
    ensures k < |vertices|
    ensures forall j :: 0 <= j < |vertices| ==> Coord(vertices[k], axis) <= Coord(vertices[j], axis)
  {
    if |vertices| == 1 then 0
    else
      var r := 1 + ArgMin(vertices[1..], axis);
      assert forall j :: 1 <= j < |vertices| ==> vertices[j] == vertices[1..][j - 1];
      if Coord(vertices[0], axis) <= Coord(vertices[r], axis) then 0 else r
  }

  /** The position of a vertex with the largest coordinate on `axis`. */
  function ArgMax(vertices: seq<Vec3>, axis: nat): (k: nat)
    requires |vertices| > 0 && axis < 3
    ensures k < |vertices|
    ensures forall j :: 0 <= j < |vertices| ==> Coord(vertices[j], axis) <= Coord(vertices[k], axis)
  {
    if |vertices| == 1 then 0
    else
      var r := 1 + ArgMax(vertices[1..], axis);
      assert forall j :: 1 <= j < |vertices| ==> vertices[j] == vertices[1..][j - 1];
      if Coord(vertices[r], axis) <= Coord(vertices[0], axis) then 0 else r
  }

  /** `(bbox_max - bbox_min)[axis]`. */
  function Extent(vertices: seq<Vec3>, axis: nat): (d: real)
    requires |vertices| > 0 && axis < 3
    ensures d >= 0.0
  {
    Coord(vertices[ArgMax(vertices, axis)], axis) - Coord(vertices[ArgMin(vertices, axis)], axis)
  }

  /** The extent is the largest difference of two coordinates on its axis. */
  lemma ExtentIsSpread(vertices: seq<Vec3>, axis: nat)
    requires |vertices| > 0 && axis < 3
    ensures forall j, k :: 0 <= j < |vertices| && 0 <= k < |vertices| ==>
      Coord(vertices[j], axis) - Coord(vertices[k], axis) <= Extent(vertices, axis)
    ensures exists j, k ::
      (0 <= j < |vertices| && 0 <= k < |vertices| && Coord(vertices[j], axis) - Coord(vertices[k], axis) == Extent(vertices, axis))
  {
    var j, k := ArgMax(vertices, axis), ArgMin(vertices, axis);
    assert Coord(vertices[j], axis) - Coord(vertices[k], axis) == Extent(vertices, axis);
  }

  function Min3(a: real, b: real, c: real): (m: real)
    ensures m <= a && m <= b && m <= c && (m == a || m == b || m == c)
  {
    if a <= b && a <= c then a else if b <= c then b else c
  }

  function Max3(a: real, b: real, c: real): (m: real)
    ensures m >= a && m >= b && m >= c && (m == a || m == b || m == c)
  {
    if a >= b && a >= c then a else if b >= c then b else c
  }

  /** `np.min(dimensions)`: the smallest bounding-box extent. */
  function MinDimension(vertices: seq<Vec3>): real
    requires |vertices| > 0
  {
    Min3(Extent(vertices, 0), Extent(vertices, 1), Extent(vertices, 2))
  }

  /** `np.max(dimensions)`: the largest bounding-box extent. */
  function MaxDimension(vertices: seq<Vec3>): real
    requires |vertices| > 0
  {
    Max3(Extent(vertices, 0), Extent(vertices, 1), Extent(vertices, 2))
  }

  /** The warnings, in the order the validator adds them. */
  function GeometryWarnings(vertices: seq<Vec3>, degenerate: nat): seq<ValidationWarning> {
    (if degenerate > 0 then [DegenerateTriangles(degenerate)] else []) + SizeWarnings(vertices)
  }

  /** The bounding-box warnings: too thin, then too large; none without vertices. */
  function SizeWarnings(vertices: seq<Vec3>): seq<ValidationWarning> {
    if |vertices| == 0 then [] else DimensionWarnings(MinDimension(vertices), MaxDimension(vertices))
  }

  /** The warnings for the smallest and the largest extent. */
  function DimensionWarnings(minDimension: real, maxDimension: real): seq<ValidationWarning> {
    (if minDimension < MinimumFeatureSize then [SmallFeatures] else [])
    + (if maxDimension > BuildVolumeLimit then [ExceedsBuildVolume(maxDimension)] else [])
  }

  // ---------------------------------------------------------------- manifold edges

  /** An undirected edge: the sorted pair of its vertex indices. */
  datatype Edge = Edge(lo: int, hi: int)

  function EdgeOf(u: int, v: int): (e: Edge)
    ensures e.lo <= e.hi
    ensures (e.lo == u && e.hi == v) || (e.lo == v && e.hi == u)
  {
    if u <= v then Edge(u, v) else Edge(v, u)
  }

  /** The three edges of a face, in the order the check visits them. */
  function FaceEdges(f: Face): seq<Edge> {
    [EdgeOf(f.a, f.b), EdgeOf(f.b, f.c), EdgeOf(f.c, f.a)]
  }

  /** `edge_count[edge] = edge_count.get(edge, 0) + 1` for each edge in turn. */
  function AddEdges(counts: map<Edge, nat>, edges: seq<Edge>): map<Edge, nat> {
    if edges == [] then counts
    else
      var c := AddEdges(counts, edges[..|edges| - 1]);
      var e := edges[|edges| - 1];
      c[e := (if e in c then c[e] else 0) + 1]
  }

  /** The edge-count dictionary after all faces. */
  function EdgeCounts(faces: seq<Face>): map<Edge, nat> {
    if faces == [] then map[]
    else AddEdges(EdgeCounts(faces[..|faces| - 1]), FaceEdges(faces[|faces| - 1]))
  }

  /** The mesh is manifold when every counted edge was counted exactly twice. */
  predicate IsManifold(faces: seq<Face>) {
    var counts := EdgeCounts(faces);
    forall e :: e in counts ==> counts[e] == 2
  }

  /** How often `e` occurs in a list of edges. */
  function CountIn(edges: seq<Edge>, e: Edge): nat {
    if edges == [] then 0
    else CountIn(edges[..|edges| - 1], e) + (if edges[|edges| - 1] == e then 1 else 0)
  }

  /** How many face sides, over all faces, lie on `e`. */
  function Occurrences(faces: seq<Face>, e: Edge): nat {
    if faces == [] then 0
    else Occurrences(faces[..|faces| - 1], e) + CountIn(FaceEdges(faces[|faces| - 1]), e)
  }

  /** Reference reading of the manifold rule: every side of every face is shared by exactly two face sides. */
  predicate EverySideSharedTwice(faces: seq<Face>) {
    forall k, j :: 0 <= k < |faces| && 0 <= j < 3 ==> Occurrences(faces, FaceEdges(faces[k])[j]) == 2
  }

  lemma {:induction false} AddEdgesCounts(counts: map<Edge, nat>, edges: seq<Edge>, e: Edge)
    ensures var c := AddEdges(counts, edges);
      (e in c <==> (e in counts || CountIn(edges, e) > 0))
      && (e in c ==> c[e] == (if e in counts then counts[e] else 0) + CountIn(edges, e))
  {
    if edges != [] {
      AddEdgesCounts(counts, edges[..|edges| - 1], e);
    }
  }

  /** The dictionary the check fills holds exactly the occurring edges, each with its number of occurrences. */
  lemma {:induction false} EdgeCountsAreOccurrences(faces: seq<Face>, e: Edge)
    ensures e in EdgeCounts(faces) <==> Occurrences(faces, e) > 0
    ensures e in EdgeCounts(faces) ==> EdgeCounts(faces)[e] == Occurrences(faces, e)
  {
    if faces != [] {
      EdgeCountsAreOccurrences(faces[..|faces| - 1], e);
      AddEdgesCounts(EdgeCounts(faces[..|faces| - 1]), FaceEdges(faces[|faces| - 1]), e);
    }
  }

  lemma {:induction false} CountInPositive(edges: seq<Edge>, j: nat)
    requires j < |edges|
    ensures CountIn(edges, edges[j]) > 0
  {
    if j < |edges| - 1 {
      CountInPositive(edges[..|edges| - 1], j);
    }
  }

  /** Every side of face `k` occurs at least once. */
  lemma {:induction false} SideOccurs(faces: seq<Face>, k: nat, j: nat)
    requires k < |faces| && j < 3
    ensures Occurrences(faces, FaceEdges(faces[k])[j]) > 0
  {
    var i := |faces| - 1;
    if k == i {
      CountInPositive(FaceEdges(faces[k]), j);
    } else {
      assert faces[..i][k] == faces[k];
      SideOccurs(faces[..i], k, j);
    }
  }

  lemma {:induction false} CountInWitness(edges: seq<Edge>, e: Edge) returns (j: nat)
    requires CountIn(edges, e) > 0
    ensures j < |edges| && edges[j] == e
  {
    if edges[|edges| - 1] == e {
      j := |edges| - 1;
    } else {
      j := CountInWitness(edges[..|edges| - 1], e);
    }
  }

  /** An edge that occurs lies on some side of some face. */
  lemma {:induction false} OccurrenceWitness(faces: seq<Face>, e: Edge) returns (k: nat, j: nat)
    requires Occurrences(faces, e) > 0
    ensures k < |faces| && j < 3 && FaceEdges(faces[k])[j] == e
  {
    var i := |faces| - 1;
    if CountIn(FaceEdges(faces[i]), e) > 0 {
      k := i;
      j := CountInWitness(FaceEdges(faces[i]), e);
    } else {
      k, j := OccurrenceWitness(faces[..i], e);
      assert faces[..i][k] == faces[k];
    }
  }

  /** The dictionary-based check agrees with the reference reading. */
  lemma ManifoldIff(faces: seq<Face>)
    ensures IsManifold(faces) <==> EverySideSharedTwice(faces)
  {
    var counts := EdgeCounts(faces);
    if IsManifold(faces) {
      forall k, j | 0 <= k < |faces| && 0 <= j < 3
        ensures Occurrences(faces, FaceEdges(faces[k])[j]) == 2
      {
        var e := FaceEdges(faces[k])[j];
        SideOccurs(faces, k, j);
        EdgeCountsAreOccurrences(faces, e);
      }
    }
    if EverySideSharedTwice(faces) {
      forall e | e in counts
        ensures counts[e] == 2
      {
        EdgeCountsAreOccurrences(faces, e);
        var k, j := OccurrenceWitness(faces, e);
      }
    }
  }

  /** `_check_manifold`: counts the edges of every face in a dictionary, then looks for
      a count other than 2. */
  method CheckManifold(faces: seq<Face>) returns (manifold: bool)
    ensures manifold == IsManifold(faces)
    ensures manifold <==> EverySideSharedTwice(faces)
  {
    var edgeCount: map<Edge, nat> := map[];
    for i := 0 to |faces|
      invariant edgeCount == EdgeCounts(faces[..i])
    {
      var edges := FaceEdges(faces[i]);
      ghost var before := edgeCount;
      for j := 0 to 3
        invariant edgeCount == AddEdges(before, edges[..j])
      {
        var e := edges[j];
        assert edges[..j + 1][..j] == edges[..j];
        edgeCount := edgeCount[e := (if e in edgeCount then edgeCount[e] else 0) + 1];
      }
      assert edges[..3] == edges;
      assert faces[..i + 1][..i] == faces[..i];
    }
    assert faces[..|faces|] == faces;
    ManifoldIff(faces);
    var unchecked := edgeCount.Keys;
    while unchecked != {}
      invariant unchecked <= edgeCount.Keys
      invariant forall e :: e in edgeCount && e !in unchecked ==> edgeCount[e] == 2
      decreases |unchecked|
    {
      var e :| e in unchecked;
      if edgeCount[e] != 2 {
        return false;
      }
      unchecked := unchecked - {e};
    }
    return true;
  }

  // ---------------------------------------------------------------- normals

  /** `np.linalg.norm`'s square root. The type only promises positive results for positive
      arguments; `FaceNormalUnit` asks in addition that it be exact where it is used. */
  type Root = f: real -> real | forall x :: x > 0.0 ==> f(x) > 0.0 witness (x: real) => 1.0

  /** The normal written for a face: the cross product of its edge vectors, scaled to unit
      length only when its norm exceeds 1e-10; a tinier one is written as it is. */
  function FaceNormal(vertices: seq<Vec3>, f: Face, sqrt: Root): (n: Vec3)
    requires FaceInPyRange(|vertices|, f)
    ensures NormSq(FaceCross(vertices, f)) <= NormalizeNormSq ==> n == FaceCross(vertices, f)
    ensures NormSq(FaceCross(vertices, f)) > NormalizeNormSq ==>
      exists k: real :: k > 0.0 && n == Scale(FaceCross(vertices, f), k)
  {
    var c := FaceCross(vertices, f);
    var sq := NormSq(c);
    if sq > NormalizeNormSq then
      var k := 1.0 / sqrt(sq);
      assert k > 0.0;
      Scale(c, k)
    else c
  }

  lemma DotScale(c: Vec3, k: real, e: Vec3)
    ensures Dot(Scale(c, k), e) == k * Dot(c, e)
  {
  }

  /** Whether scaled or not, the normal is orthogonal to both edge vectors of the face. */
  lemma FaceNormalOrthogonal(vertices: seq<Vec3>, f: Face, sqrt: Root)
    requires FaceInPyRange(|vertices|, f)
    ensures var n := FaceNormal(vertices, f, sqrt);
      var v1 := PyIndex(vertices, f.a);
      Dot(n, Sub(PyIndex(vertices, f.b), v1)) == 0.0 && Dot(n, Sub(PyIndex(vertices, f.c), v1)) == 0.0
  {
    var v1 := PyIndex(vertices, f.a);
    var e1, e2 := Sub(PyIndex(vertices, f.b), v1), Sub(PyIndex(vertices, f.c), v1);
    var c := Cross(e1, e2);
    CrossOrthogonal(e1, e2);
    if NormSq(c) > NormalizeNormSq {
      var k := 1.0 / sqrt(NormSq(c));
      DotScale(c, k, e1);
      DotScale(c, k, e2);
    }
  }

  /** Scaling a vector by `k` scales its squared norm by `k * k`. */
  lemma NormSqScale(c: Vec3, k: real)
    ensures NormSq(Scale(c, k)) == k * k * NormSq(c)
  {
  }

  /** With an exact square root, a normal above the threshold has unit length: `normal / norm`
      is normalised. */
  lemma FaceNormalUnit(vertices: seq<Vec3>, f: Face, sqrt: Root)
    requires FaceInPyRange(|vertices|, f)
    requires sqrt(NormSq(FaceCross(vertices, f))) * sqrt(NormSq(FaceCross(vertices, f))) == NormSq(FaceCross(vertices, f))
    ensures NormSq(FaceCross(vertices, f)) > NormalizeNormSq ==> NormSq(FaceNormal(vertices, f, sqrt)) == 1.0
  {
    var c := FaceCross(vertices, f);
    if NormSq(c) > NormalizeNormSq {
      var r := sqrt(NormSq(c));
      assert FaceNormal(vertices, f, sqrt) == Scale(c, 1.0 / r);
      UnitScale(c, r);
    }
  }

  /** Dividing a vector by its norm gives a unit vector. */
  lemma UnitScale(c: Vec3, r: real)
    requires r > 0.0 && r * r == NormSq(c)
    ensures NormSq(Scale(c, 1.0 / r)) == 1.0
  {
    NormSqScale(c, 1.0 / r);
    InverseSquare(r);
  }

  lemma InverseSquare(r: real)
    requires r > 0.0
    ensures (1.0 / r) * (1.0 / r) * (r * r) == 1.0
  {
    var k := 1.0 / r;
    assert k * r == 1.0;
    assert k * k * (r * r) == (k * r) * (k * r);
  }

  /** The normals of all faces, in face order. */
  function FaceNormals(vertices: seq<Vec3>, faces: seq<Face>, sqrt: Root): (normals: seq<Vec3>)
    requires AllInPyRange(|vertices|, faces)
  {
    seq(|faces|, i requires 0 <= i < |faces| && AllInPyRange(|vertices|, faces) => FaceNormal(vertices, faces[i], sqrt))
  }

  /** `_calculate_face_normals`: one normal per face, in face order. */
  method CalculateFaceNormals(vertices: seq<Vec3>, faces: seq<Face>, sqrt: Root) returns (normals: seq<Vec3>)
    requires AllInPyRange(|vertices|, faces)
    ensures |normals| == |faces|
    ensures forall i :: 0 <= i < |faces| ==> normals[i] == FaceNormal(vertices, faces[i], sqrt)
    ensures normals == FaceNormals(vertices, faces, sqrt)
  {
    normals := [];
    for i := 0 to |faces|
      invariant |normals| == i
      invariant forall k :: 0 <= k < i ==> normals[k] == FaceNormal(vertices, faces[k], sqrt)
    {
      normals := normals + [FaceNormal(vertices, faces[i], sqrt)];
    }
  }

  // ---------------------------------------------------------------- validation

  /** The report `_validate_geometry` returns when no index raises. */
  function Report(vertices: seq<Vec3>, faces: seq<Face>): ValidationReport
    requires AllInPyRange(|vertices|, faces)
  {
    var errors := StructuralErrors(|vertices|, |faces|) + IndexErrors(faces, |vertices| - 1);
    var degenerate := DegenerateCount(vertices, faces);
    ValidationReport(
      errors == [],
      errors,
      GeometryWarnings(vertices, degenerate),
      if |faces| > 0 then degenerate else 0,
      if |faces| > 0 then IsManifold(faces) else true)
  }

  /** The index-check loop of `_validate_geometry`: appends one error per index above `maxVertexIdx`. */
  method CheckFaceIndices(faces: seq<Face>, maxVertexIdx: int, errors0: seq<ValidationError>)
    returns (errors: seq<ValidationError>)
    ensures errors == errors0 + IndexErrors(faces, maxVertexIdx)
  {
    errors := errors0;
    for i := 0 to |faces|
      invariant errors == errors0 + IndexErrors(faces[..i], maxVertexIdx)
    {
      var corners := Corners(faces[i]);
      ghost var before := errors;
      for j := 0 to 3
        invariant errors == before + CornerErrors(i, corners[..j], maxVertexIdx)
      {
        assert corners[..j + 1][..j] == corners[..j];
        if corners[j] > maxVertexIdx {
          errors := errors + [NonExistentVertex(i, corners[j])];
        }
      }
      assert corners[..3] == corners;
      assert faces[..i + 1][..i] == faces[..i];
    }
    assert faces[..|faces|] == faces;
  }

  /** The degeneracy loop of `_validate_geometry`: looks every corner up and counts the
      faces of tiny area; the first corner outside Python's index range raises. */
  method CountDegenerate(vertices: seq<Vec3>, faces: seq<Face>) returns (r: Result<nat>)
    ensures r.Raised? <==> !AllInPyRange(|vertices|, faces)
    ensures r.Raised? ==> r.error == IndexError
    ensures r.Ok? ==> r.value == DegenerateCount(vertices, faces)
  {
    var degenerateCount: nat := 0;
    for i := 0 to |faces|
      invariant AllInPyRange(|vertices|, faces[..i])
      invariant degenerateCount == DegenerateCount(vertices, faces[..i])
    {
      assert faces[..i + 1][..i] == faces[..i];
      if !FaceInPyRange(|vertices|, faces[i]) {
        return Raised(IndexError);
      }
      if IsDegenerate(vertices, faces[i]) {
        degenerateCount := degenerateCount + 1;
      }
    }
    assert faces[..|faces|] == faces;
    return Ok(degenerateCount);
  }

  /** The warning checks of `_validate_geometry`: degenerate faces, then a bounding box
      thinner than the minimum feature size, then one larger than the build volume. */
  method CollectWarnings(vertices: seq<Vec3>, degenerateCount: nat) returns (warnings: seq<ValidationWarning>)
    ensures warnings == GeometryWarnings(vertices, degenerateCount)
  {
    warnings := [];
    if degenerateCount > 0 {
      warnings := warnings + [DegenerateTriangles(degenerateCount)];
    }
    if |vertices| > 0 {
      var minDimension := MinDimension(vertices);
      var maxDimension := MaxDimension(vertices);
      var sizeWarnings := CheckDimensions(minDimension, maxDimension);
      warnings := warnings + sizeWarnings;
    }
  }

  /** The two bounding-box checks of `_validate_geometry`, in order. */
  method CheckDimensions(minDimension: real, maxDimension: real) returns (warnings: seq<ValidationWarning>)
    ensures warnings == DimensionWarnings(minDimension, maxDimension)
  {
    warnings := [];
    if minDimension < MinimumFeatureSize {
      warnings := warnings + [SmallFeatures];
    }
    if maxDimension > BuildVolumeLimit {
      warnings := warnings + [ExceedsBuildVolume(maxDimension)];
    }
  }

  /** `_validate_geometry`. The index check records an error per index above the last
      vertex, but the degeneracy pass then looks every corner up, so an index outside
      Python's range raises IndexError instead of returning a report. */
  method ValidateGeometry(vertices: seq<Vec3>, faces: seq<Face>) returns (v: Result<ValidationReport>)
    ensures v.Raised? <==> !AllInPyRange(|vertices|, faces)
    ensures v.Raised? ==> v.error == IndexError
    ensures v.Ok? ==> v.value == Report(vertices, faces)
    ensures v.Ok? ==> (v.value.isValid <==> v.value.errors == [])
  {
    var errors: seq<ValidationError> := [];
    if |vertices| < 3 {
      errors := errors + [InsufficientVertices];
    }
    if |faces| < 1 {
      errors := errors + [NoFaces];
    }
    assert errors == StructuralErrors(|vertices|, |faces|);
    errors := CheckFaceIndices(faces, |vertices| - 1, errors);

    var counted := CountDegenerate(vertices, faces);
    if counted.Raised? {
      return Raised(counted.error);
    }
    var degenerateCount := counted.value;
    var warnings := CollectWarnings(vertices, degenerateCount);
    var manifold := true;
    if |faces| > 0 {
      manifold := CheckManifold(faces);
    }
    v := Ok(ValidationReport(
      |errors| == 0,
      errors,
      warnings,
      if |faces| > 0 then degenerateCount else 0,
      manifold));
  }
}
