/** The gear, spring and thread generators. Each grows a vertex list and a face list in
    nested loops; the model proves the topology they build (counts, index ranges, which
    vertex a face uses) and keeps the trigonometry as parameters. */
module ParametricShapes {

  import opened PyCore
  import opened PyStrings
  import opened Mesh

  /** `math.cos` and `math.sin`. */
  datatype Trig = Trig(cos: real -> real, sin: real -> real)

  const Pi: real := 3.141592653589793

  /** `math.radians`. */
  function Radians(degrees: real): real {
    degrees * Pi / 180.0
  }

  /** `int(x)` for a float: truncation toward zero. */
  function Trunc(x: real): (n: int)
    ensures x >= 0.0 ==> n >= 0 && n as real <= x < n as real + 1.0
    ensures x < 0.0 ==> n <= 0 && n as real - 1.0 < x <= n as real
  {
    if x >= 0.0 then x.Floor else -((-x).Floor)
  }

  /** `params.get(key, default)` for a parameter that is present or absent. */
  function GetOr<T>(o: Option<T>, default: T): T {
    if o.Some? then o.value else default
  }

  function Max0(n: int): (m: nat)
    ensures m >= n
    ensures n >= 0 ==> m == n
  {
    if n < 0 then 0 else n
  }

  // ---------------------------------------------------------------- tubes

  /** The two triangles joining point `i` of ring `seg` to ring `seg + 1`, for rings of `width` points. */
  function QuadFaces(width: nat, seg: int, i: nat): seq<Face>
    requires width > 0
  {
    var next := (i + 1) % width;
    var v1 := seg * width + i;
    var v2 := seg * width + next;
    var v3 := (seg + 1) * width + i;
    var v4 := (seg + 1) * width + next;
    [Face(v1, v2, v4), Face(v1, v4, v3)]
  }

  /** The quads of one ring, point by point. */
  function Band(width: nat, seg: int, n: nat): (faces: seq<Face>)
    requires width > 0 && n <= width
    ensures |faces| == 2 * n
  {
    if n == 0 then [] else Band(width, seg, n - 1) + QuadFaces(width, seg, n - 1)
  }

  /** The faces between `segs + 1` rings of `width` points; `range(segs)` is empty for `segs <= 0`. */
  function TubeFaces(width: nat, segs: int): (faces: seq<Face>)
    requires width > 0
    ensures |faces| == 2 * width * Max0(segs)
    decreases Max0(segs)
  {
    if segs <= 0 then [] else TubeFaces(width, segs - 1) + Band(width, segs - 1, width)
  }

  lemma {:induction false} MulAtLeast(d: int, w: nat)
    requires d >= 1
    ensures d * w >= w
  {
    if w > 0 {
      MulAtLeast(d, w - 1);
      assert d * w == d * (w - 1) + d;
    }
  }

  lemma MulLess(a: int, b: int, w: nat)
    requires a < b
    ensures a * w + w <= b * w
  {
    MulAtLeast(b - a, w);
    assert b * w == a * w + (b - a) * w;
  }

  /** Every quad between rings `seg` and `seg + 1` uses points of those two rings only. */
  lemma {:induction false} BandIndices(width: nat, seg: int, n: nat)
    requires width > 0 && n <= width
    ensures forall k :: 0 <= k < |Band(width, seg, n)| ==>
      var f := Band(width, seg, n)[k];
      seg * width <= f.a < (seg + 2) * width && seg * width <= f.b < (seg + 2) * width
      && seg * width <= f.c < (seg + 2) * width
  {
    if n > 0 {
      BandIndices(width, seg, n - 1);
      MulLess(seg, seg + 1, width);
      MulLess(seg + 1, seg + 2, width);
    }
  }

  /** A tube over `segs + 1` rings only uses its `(segs + 1) * width` points. */
  lemma {:induction false} TubeIndices(width: nat, segs: int)
    requires width > 0
    ensures IndicesIn((Max0(segs) + 1) * width, TubeFaces(width, segs))
    decreases Max0(segs)
  {
    if segs > 0 {
      TubeIndices(width, segs - 1);
      BandIndices(width, segs - 1, width);
      var whole := TubeFaces(width, segs);
      var prev := TubeFaces(width, segs - 1);
      var band := Band(width, segs - 1, width);
      assert whole == prev + band;
      MulLess(segs, segs + 1, width);
      forall k | 0 <= k < |whole|
        ensures 0 <= whole[k].a < (segs + 1) * width && 0 <= whole[k].b < (segs + 1) * width
          && 0 <= whole[k].c < (segs + 1) * width
      {
        if k < |prev| {
          assert whole[k] == prev[k];
        } else {
          assert whole[k] == band[k - |prev|];
          assert 0 <= (segs - 1) * width;
        }
      }
    }
  }

  /** The loop that appends the quads between ring `seg` and ring `seg + 1`. */
  method AppendBand(faces0: seq<Face>, width: nat, seg: int) returns (faces: seq<Face>)
    requires width > 0
    ensures faces == faces0 + Band(width, seg, width)
  {
    faces := faces0;
    for i := 0 to width
      invariant faces == faces0 + Band(width, seg, i)
    {
      var next := (i + 1) % width;
      var v1 := seg * width + i;
      var v2 := seg * width + next;
      var v3 := (seg + 1) * width + i;
      var v4 := (seg + 1) * width + next;
      faces := faces + [Face(v1, v2, v4)];
      faces := faces + [Face(v1, v4, v3)];
    }
  }

  // ---------------------------------------------------------------- gear

  datatype GearParams = GearParams(toothModule: Option<real>, teeth: Option<int>,
                                   pressureAngle: Option<real>, thickness: Option<real>)

  const DefaultModule: real := 1.0
  const DefaultTeeth: int := 20
  const DefaultPressureAngle: real := 20.0
  const DefaultThickness: real := 0.5

  const Resolution: nat := 10
  const PointsPerTooth: nat := 30

  /** The gear's radii and angular pitch. */
  datatype GearDims = GearDims(toothAngle: real, outerDiameter: real, rootDiameter: real)

  function Dims(toothModule: real, teeth: int): GearDims
    requires teeth != 0
  {
    var pitchDiameter := toothModule * teeth as real;
    GearDims(2.0 * Pi / teeth as real, pitchDiameter + 2.0 * toothModule, pitchDiameter - 2.5 * toothModule)
  }

  function Polar(trig: Trig, r: real, angle: real): Vec3 {
    Vec3(r * trig.cos(angle), r * trig.sin(angle), 0.0)
  }

  /** Point `i` of the root arc of `tooth`. */
  function RootPoint(g: GearDims, trig: Trig, tooth: int, i: int): Vec3 {
    var t := i as real / Resolution as real;
    var angle := tooth as real * g.toothAngle + t * g.toothAngle * 0.4;
    Polar(trig, g.rootDiameter / 2.0, angle)
  }

  /** Point `i` of the rising flank of `tooth`. */
  function FlankPoint(g: GearDims, trig: Trig, tooth: int, i: int): Vec3 {
    var t := i as real / Resolution as real;
    var angle := tooth as real * g.toothAngle + g.toothAngle * 0.4 + t * g.toothAngle * 0.2;
    var r := g.rootDiameter / 2.0 + (g.outerDiameter / 2.0 - g.rootDiameter / 2.0) * t;
    Polar(trig, r, angle)
  }

  /** Point `i` of the top of `tooth`. */
  function TopPoint(g: GearDims, trig: Trig, tooth: int, i: int): Vec3 {
    var t := i as real / Resolution as real;
    var angle := tooth as real * g.toothAngle + g.toothAngle * 0.6 + t * g.toothAngle * 0.2;
    var r := g.outerDiameter / 2.0 - (g.outerDiameter / 2.0 - g.rootDiameter / 2.0) * t;
    Polar(trig, r, angle)
  }

  /** The 30 front points of one tooth: root arc, flank, top. */
  function ToothPoints(g: GearDims, trig: Trig, tooth: int): (points: seq<Vec3>)
    ensures |points| == PointsPerTooth
  {
    seq(Resolution, i => RootPoint(g, trig, tooth, i))
    + seq(Resolution, i => FlankPoint(g, trig, tooth, i))
    + seq(Resolution, i => TopPoint(g, trig, tooth, i))
  }

  /** The front points of the first `n` teeth. */
  function GearFront(g: GearDims, trig: Trig, n: nat): (points: seq<Vec3>)
    ensures |points| == PointsPerTooth * n
  {
    if n == 0 then [] else GearFront(g, trig, n - 1) + ToothPoints(g, trig, n - 1)
  }

  /** Every front point lies in the plane z = 0. */
  lemma {:induction false} GearFrontFlat(g: GearDims, trig: Trig, n: nat)
    ensures forall k :: 0 <= k < |GearFront(g, trig, n)| ==> GearFront(g, trig, n)[k].z == 0.0
  {
    if n > 0 {
      GearFrontFlat(g, trig, n - 1);
      var prev := GearFront(g, trig, n - 1);
      var tooth := ToothPoints(g, trig, n - 1);
      var whole: seq<Vec3> := prev + tooth;
      forall k | 0 <= k < |whole|
        ensures whole[k].z == 0.0
      {
        if k >= |prev| {
          var j := k - |prev|;
          assert tooth[j].z == 0.0;
        }
      }
    }
  }

  /** The back face as intended: each front point again, at z = thickness. */
  function BackCopy(front: seq<Vec3>, thickness: real): (back: seq<Vec3>)
    ensures |back| == |front|
    ensures forall k :: 0 <= k < |front| ==> back[k] == Vec3(front[k].x, front[k].y, thickness)
  {
    seq(|front|, k requires 0 <= k < |front| => Vec3(front[k].x, front[k].y, thickness))
  }

  /** The front fan of a tooth: consecutive points joined to the first point of the next tooth. */
  function FrontFan(base: int, next: int): (faces: seq<Face>)
    ensures |faces| == PointsPerTooth - 1
  {
    seq(PointsPerTooth - 1, i => Face(base + i, base + i + 1, next))
  }

  /** The back fan of a tooth, wound the other way. */
  function BackFan(base: int, next: int): (faces: seq<Face>)
    ensures |faces| == PointsPerTooth - 1
  {
    seq(PointsPerTooth - 1, i => Face(base + i + 1, base + i, next))
  }

  /** The two side triangles at point `i` of a tooth starting at `base`; the next point wraps
      within the tooth. */
  function SidePair(base: int, frontCount: int, i: nat): seq<Face> {
    var v1 := base + i;
    var v2 := base + (i + 1) % PointsPerTooth;
    [Face(v1, v2, v1 + frontCount), Face(v2, v2 + frontCount, v1 + frontCount)]
  }

  function SideWall(base: int, frontCount: int, n: nat): (faces: seq<Face>)
    requires n <= PointsPerTooth
    ensures |faces| == 2 * n
  {
    if n == 0 then [] else SideWall(base, frontCount, n - 1) + SidePair(base, frontCount, n - 1)
  }

  /** The front fans and side walls of the first `n` of `teeth` teeth, in loop order. */
  function FrontAndSides(teeth: nat, n: nat): (faces: seq<Face>)
    requires 0 < teeth && n <= teeth
    ensures |faces| == 89 * n
  {
    if n == 0 then []
    else
      var base := (n - 1) * PointsPerTooth;
      FrontAndSides(teeth, n - 1) + FrontFan(base, (n % teeth) * PointsPerTooth)
      + SideWall(base, teeth * PointsPerTooth, PointsPerTooth)
  }

  /** The back fans of the first `n` of `teeth` teeth. */
  function Backs(teeth: nat, n: nat): (faces: seq<Face>)
    requires 0 < teeth && n <= teeth
    ensures |faces| == 29 * n
  {
    if n == 0 then []
    else
      var frontCount := teeth * PointsPerTooth;
      Backs(teeth, n - 1) + BackFan((n - 1) * PointsPerTooth + frontCount, (n % teeth) * PointsPerTooth + frontCount)
  }

  /** One more back fan extends the back faces by one tooth. */
  lemma BacksStep(faces: seq<Face>, front: seq<Face>, teeth: nat, n: nat, baseIdx: int, nextTooth: int)
    requires 0 < teeth && n < teeth && faces == front + Backs(teeth, n)
    requires baseIdx == n * PointsPerTooth + teeth * PointsPerTooth
    requires nextTooth == ((n + 1) % teeth) * PointsPerTooth + teeth * PointsPerTooth
    ensures faces + BackFan(baseIdx, nextTooth) == front + Backs(teeth, n + 1)
  {
    assert Backs(teeth, n + 1) == Backs(teeth, n) + BackFan(baseIdx, nextTooth);
  }

  /** All gear faces: front fans with side walls tooth by tooth, then the back fans. */
  function GearFaces(teeth: nat): (faces: seq<Face>)
    requires teeth > 0
    ensures |faces| == 118 * teeth
  {
    FrontAndSides(teeth, teeth) + Backs(teeth, teeth)
  }

  /** The side walls of a tooth use only its own ring and the matching back ring. */
  lemma {:induction false} SideWallWithinTooth(base: int, frontCount: int, n: nat)
    requires n <= PointsPerTooth && frontCount >= 0
    ensures forall k :: 0 <= k < |SideWall(base, frontCount, n)| ==>
      var f := SideWall(base, frontCount, n)[k];
      && base <= f.a < base + PointsPerTooth + frontCount && base <= f.b < base + PointsPerTooth + frontCount
      && base <= f.c < base + PointsPerTooth + frontCount
      && (f.a < base + PointsPerTooth || f.a >= base + frontCount)
      && (f.b < base + PointsPerTooth || f.b >= base + frontCount)
      && (f.c < base + PointsPerTooth || f.c >= base + frontCount)
  {
    if n > 0 {
      SideWallWithinTooth(base, frontCount, n - 1);
      var prev := SideWall(base, frontCount, n - 1);
      var pair := SidePair(base, frontCount, n - 1);
      var whole := prev + pair;
      assert SideWall(base, frontCount, n) == whole;
      assert 0 <= n % PointsPerTooth < PointsPerTooth;
      forall k | 0 <= k < |whole|
        ensures var f := whole[k];
          && base <= f.a < base + PointsPerTooth + frontCount && base <= f.b < base + PointsPerTooth + frontCount
          && base <= f.c < base + PointsPerTooth + frontCount
          && (f.a < base + PointsPerTooth || f.a >= base + frontCount)
          && (f.b < base + PointsPerTooth || f.b >= base + frontCount)
          && (f.c < base + PointsPerTooth || f.c >= base + frontCount)
      {
        if k < |prev| {
          assert whole[k] == prev[k];
        } else {
          assert whole[k] == pair[k - |prev|];
        }
      }
    }
  }

  lemma {:induction false} FrontAndSidesIndices(teeth: nat, n: nat)
    requires 0 < teeth && n <= teeth
    ensures IndicesIn(2 * teeth * PointsPerTooth, FrontAndSides(teeth, n))
  {
    if n > 0 {
      FrontAndSidesIndices(teeth, n - 1);
      var base := (n - 1) * PointsPerTooth;
      var frontCount := teeth * PointsPerTooth;
      SideWallWithinTooth(base, frontCount, PointsPerTooth);
      MulLess(n - 1, teeth, PointsPerTooth);
      assert 0 <= n % teeth < teeth;
      MulLess(n % teeth, teeth, PointsPerTooth);
      IndicesInAppend(2 * frontCount, FrontAndSides(teeth, n - 1), FrontFan(base, (n % teeth) * PointsPerTooth));
      IndicesInAppend(2 * frontCount, FrontAndSides(teeth, n - 1) + FrontFan(base, (n % teeth) * PointsPerTooth),
        SideWall(base, frontCount, PointsPerTooth));
    }
  }

  lemma {:induction false} BacksIndices(teeth: nat, n: nat)
    requires 0 < teeth && n <= teeth
    ensures IndicesIn(2 * teeth * PointsPerTooth, Backs(teeth, n))
  {
    if n > 0 {
      BacksIndices(teeth, n - 1);
      var frontCount := teeth * PointsPerTooth;
      MulLess(n - 1, teeth, PointsPerTooth);
      assert 0 <= n % teeth < teeth;
      MulLess(n % teeth, teeth, PointsPerTooth);
      IndicesInAppend(2 * frontCount, Backs(teeth, n - 1),
        BackFan((n - 1) * PointsPerTooth + frontCount, (n % teeth) * PointsPerTooth + frontCount));
    }
  }

  /** Every gear face indexes one of the `60 * teeth` vertices. */
  lemma GearIndicesInRange(teeth: nat)
    requires teeth > 0
    ensures IndicesIn(60 * teeth, GearFaces(teeth))
  {
    FrontAndSidesIndices(teeth, teeth);
    BacksIndices(teeth, teeth);
    IndicesInAppend(60 * teeth, FrontAndSides(teeth, teeth), Backs(teeth, teeth));
  }

  /** The state of `for x, y, z in vertices: vertices.append((x, y, thickness))` after some
      iterations: the list, and the position of the list iterator. */
  datatype CopyState = CopyState(vertices: seq<Vec3>, position: nat)

  /** One iteration, as Python runs it: the iterator stops only once its position reaches the
      current length of the list, which each iteration has just grown. */
  function CopyStep(s: CopyState, thickness: real): CopyState {
    if s.position < |s.vertices| then
      var p := s.vertices[s.position];
      CopyState(s.vertices + [Vec3(p.x, p.y, thickness)], s.position + 1)
    else s
  }

  /** The back-face loop as written, after `k` iterations. */
  function CopyLoopAsWritten(front: seq<Vec3>, thickness: real, k: nat): CopyState {
    if k == 0 then CopyState(front, 0) else CopyStep(CopyLoopAsWritten(front, thickness, k - 1), thickness)
  }

  /** From a non-empty front, the loop as written still has an element to visit after any
      number of iterations: it never ends. */
  lemma {:induction false} CopyLoopNeverEnds(front: seq<Vec3>, thickness: real, k: nat)
    requires |front| > 0
    ensures var s := CopyLoopAsWritten(front, thickness, k);
      s.position == k && |s.vertices| == |front| + k && s.position < |s.vertices|
  {
    if k > 0 {
      CopyLoopNeverEnds(front, thickness, k - 1);
    }
  }

  /** With at least one tooth, the generator as written never leaves its back-face loop. */
  lemma GearAsWrittenNeverEnds(toothModule: real, teeth: int, trig: Trig, thickness: real, k: nat)
    requires teeth > 0
    ensures CopyLoopAsWritten(GearFront(Dims(toothModule, teeth), trig, teeth), thickness, k).position
      < |CopyLoopAsWritten(GearFront(Dims(toothModule, teeth), trig, teeth), thickness, k).vertices|
  {
    CopyLoopNeverEnds(GearFront(Dims(toothModule, teeth), trig, teeth), thickness, k);
  }

  /** The three loops that place one tooth's root arc, flank and top. */
  method AppendTooth(vertices0: seq<Vec3>, g: GearDims, trig: Trig, tooth: int) returns (vertices: seq<Vec3>)
    ensures vertices == vertices0 + ToothPoints(g, trig, tooth)
  {
    vertices := AppendRoot(vertices0, g, trig, tooth);
    vertices := AppendFlank(vertices, g, trig, tooth);
    vertices := AppendTop(vertices, g, trig, tooth);
  }

  /** The root-arc loop of one tooth. */
  method AppendRoot(vertices0: seq<Vec3>, g: GearDims, trig: Trig, tooth: int) returns (vertices: seq<Vec3>)
    ensures vertices == vertices0 + seq(Resolution, i => RootPoint(g, trig, tooth, i))
  {
    ghost var root := seq(Resolution, i => RootPoint(g, trig, tooth, i));
    vertices := vertices0;
    for i := 0 to Resolution
      invariant vertices == vertices0 + root[..i]
    {
      PrefixStep(vertices0, root, i);
      vertices := vertices + [RootPoint(g, trig, tooth, i)];
    }
    assert root[..Resolution] == root;
  }

  /** The flank loop of one tooth. */
  method AppendFlank(vertices0: seq<Vec3>, g: GearDims, trig: Trig, tooth: int) returns (vertices: seq<Vec3>)
    ensures vertices == vertices0 + seq(Resolution, i => FlankPoint(g, trig, tooth, i))
  {
    ghost var flank := seq(Resolution, i => FlankPoint(g, trig, tooth, i));
    vertices := vertices0;
    for i := 0 to Resolution
      invariant vertices == vertices0 + flank[..i]
    {
      PrefixStep(vertices0, flank, i);
      vertices := vertices + [FlankPoint(g, trig, tooth, i)];
    }
    assert flank[..Resolution] == flank;
  }

  /** The tooth-top loop of one tooth. */
  method AppendTop(vertices0: seq<Vec3>, g: GearDims, trig: Trig, tooth: int) returns (vertices: seq<Vec3>)
    ensures vertices == vertices0 + seq(Resolution, i => TopPoint(g, trig, tooth, i))
  {
    ghost var top := seq(Resolution, i => TopPoint(g, trig, tooth, i));
    vertices := vertices0;
    for i := 0 to Resolution
      invariant vertices == vertices0 + top[..i]
    {
      PrefixStep(vertices0, top, i);
      vertices := vertices + [TopPoint(g, trig, tooth, i)];
    }
    assert top[..Resolution] == top;
  }

  /** The back-face loop, bounded by the number of front points. */
  method AppendBackCopy(front: seq<Vec3>, thickness: real) returns (vertices: seq<Vec3>)
    ensures vertices == front + BackCopy(front, thickness)
  {
    vertices := front;
    var frontCount := |front|;
    for k := 0 to frontCount
      invariant vertices == front + BackCopy(front, thickness)[..k]
    {
      var p := vertices[k];
      vertices := vertices + [Vec3(p.x, p.y, thickness)];
    }
  }

  /** One tooth's front fan and side wall. */
  method AppendToothFaces(faces0: seq<Face>, baseIdx: int, nextTooth: int, frontCount: int) returns (faces: seq<Face>)
    ensures faces == faces0 + FrontFan(baseIdx, nextTooth) + SideWall(baseIdx, frontCount, PointsPerTooth)
  {
    faces := faces0;
    for i := 0 to PointsPerTooth - 1
      invariant faces == faces0 + FrontFan(baseIdx, nextTooth)[..i]
    {
      faces := faces + [Face(baseIdx + i, baseIdx + i + 1, nextTooth)];
    }
    for i := 0 to PointsPerTooth
      invariant faces == faces0 + FrontFan(baseIdx, nextTooth) + SideWall(baseIdx, frontCount, i)
    {
      var nextI := (i + 1) % PointsPerTooth;
      var v1 := baseIdx + i;
      var v2 := baseIdx + nextI;
      var v3 := v1 + frontCount;
      var v4 := v2 + frontCount;
      faces := faces + [Face(v1, v2, v3)];
      faces := faces + [Face(v2, v4, v3)];
    }
  }

  /** One tooth's back fan. */
  method AppendBackFan(faces0: seq<Face>, baseIdx: int, nextTooth: int) returns (faces: seq<Face>)
    ensures faces == faces0 + BackFan(baseIdx, nextTooth)
  {
    faces := faces0;
    for i := 0 to PointsPerTooth - 1
      invariant faces == faces0 + BackFan(baseIdx, nextTooth)[..i]
    {
      faces := faces + [Face(baseIdx + i + 1, baseIdx + i, nextTooth)];
    }
  }

  /** `GearShape.generate_mesh_data`, with the back-face loop copying only the `front_count`
      front points. Zero teeth fails at `2 * pi / teeth`; fewer produce an empty mesh. */
  method GenerateGear(params: GearParams, trig: Trig) returns (r: Result<MeshData>)
    ensures r.Raised? <==> GetOr(params.teeth, DefaultTeeth) == 0
    ensures r.Raised? ==> r.error == ZeroDivisionError
    ensures r.Ok? && GetOr(params.teeth, DefaultTeeth) < 0 ==> r.value == MeshData([], [])
    ensures r.Ok? && GetOr(params.teeth, DefaultTeeth) > 0 ==>
      var teeth := GetOr(params.teeth, DefaultTeeth);
      var front := GearFront(Dims(GetOr(params.toothModule, DefaultModule), teeth), trig, teeth);
      && r.value.vertices == front + BackCopy(front, GetOr(params.thickness, DefaultThickness))
      && r.value.faces == GearFaces(teeth)
  {
    var toothModule := GetOr(params.toothModule, DefaultModule);
    var teeth := GetOr(params.teeth, DefaultTeeth);
    var pressureAngle := Radians(GetOr(params.pressureAngle, DefaultPressureAngle));
    var thickness := GetOr(params.thickness, DefaultThickness);
    if teeth == 0 {
      return Raised(ZeroDivisionError);
    }
    if teeth < 0 {
      return Ok(MeshData([], []));
    }
    var g := Dims(toothModule, teeth);

    var vertices: seq<Vec3> := [];
    for tooth := 0 to teeth
      invariant vertices == GearFront(g, trig, tooth)
    {
      vertices := AppendTooth(vertices, g, trig, tooth);
    }
    var frontCount := |vertices|;
    vertices := AppendBackCopy(vertices, thickness);

    var faces: seq<Face> := [];
    for tooth := 0 to teeth
      invariant faces == FrontAndSides(teeth, tooth)
    {
      faces := AppendToothFaces(faces, tooth * PointsPerTooth, ((tooth + 1) % teeth) * PointsPerTooth, frontCount);
    }
    assert frontCount == teeth * PointsPerTooth;
    ghost var frontAndSides := faces;
    for tooth := 0 to teeth
      invariant faces == frontAndSides + Backs(teeth, tooth)
    {
      var baseIdx := tooth * PointsPerTooth + frontCount;
      var nextTooth := ((tooth + 1) % teeth) * PointsPerTooth + frontCount;
      BacksStep(faces, frontAndSides, teeth, tooth, baseIdx, nextTooth);
      faces := AppendBackFan(faces, baseIdx, nextTooth);
    }
    return Ok(MeshData(vertices, faces));
  }

  // ---------------------------------------------------------------- spring

  datatype SpringParams = SpringParams(coils: Option<real>, radius: Option<real>,
                                       wireRadius: Option<real>, pitch: Option<real>)

  const DefaultCoils: real := 5.0
  const DefaultRadius: real := 1.0
  const DefaultWireRadius: real := 0.1
  const DefaultPitch: real := 0.3

  const SegmentsPerCoil: nat := 32
  const CrossSectionPoints: nat := 8

  /** `int(coils * segments_per_coil)`. */
  function SpringSegments(coils: real): int {
    Trunc(coils * SegmentsPerCoil as real)
  }

  /** A point of the wire's cross-section, relative to the wire's centre line. */
  datatype Point2 = Point2(x: real, y: real)

  /** The wire's cross-section circle. */
  function CrossSection(wireRadius: real, trig: Trig): (points: seq<Point2>)
    ensures |points| == CrossSectionPoints
  {
    seq(CrossSectionPoints, i => SectionPoint(wireRadius, trig, i))
  }

  /** Point `i` of the cross-section circle. */
  function SectionPoint(wireRadius: real, trig: Trig, i: int): Point2 {
    var angle := SectionAngle(i);
    Point2(wireRadius * trig.cos(angle), wireRadius * trig.sin(angle))
  }

  function SectionAngle(i: int): real {
    2.0 * Pi * i as real / CrossSectionPoints as real
  }

  /** Point `c` of the cross-section placed at helix segment `seg`. */
  function HelixPoint(radius: real, pitch: real, trig: Trig, seg: int, c: Point2): Vec3
    requires radius != 0.0
  {
    var t := seg as real / SegmentsPerCoil as real;
    var theta := 2.0 * Pi * t;
    var z := t * pitch;
    var centerX := radius * trig.cos(theta);
    var centerY := radius * trig.sin(theta);
    var tangentX := -trig.sin(theta);
    var tangentY := trig.cos(theta);
    Vec3(centerX + c.x * trig.cos(theta) - c.y * tangentX,
         centerY + c.x * trig.sin(theta) - c.y * tangentY,
         z + c.y * pitch / (2.0 * Pi * radius))
  }

  function HelixRing(radius: real, pitch: real, section: seq<Point2>, trig: Trig, seg: int): (ring: seq<Vec3>)
    requires radius != 0.0
    ensures |ring| == |section|
  {
    seq(|section|, i requires 0 <= i < |section| => HelixPoint(radius, pitch, trig, seg, section[i]))
  }

  /** The rings of the first `n` segments. */
  function HelixRings(radius: real, pitch: real, section: seq<Point2>, trig: Trig, n: nat): (points: seq<Vec3>)
    requires radius != 0.0
    ensures |points| == |section| * n
  {
    if n == 0 then [] else HelixRings(radius, pitch, section, trig, n - 1) + HelixRing(radius, pitch, section, trig, n - 1)
  }

  /** The spring's topology: `8 * (n + 1)` points in rings of 8, joined by `16 * n` triangles that
      use only those points. */
  lemma SpringTopology(n: nat)
    ensures |TubeFaces(CrossSectionPoints, n)| == 16 * n
    ensures IndicesIn(CrossSectionPoints * (n + 1), TubeFaces(CrossSectionPoints, n))
  {
    TubeIndices(CrossSectionPoints, n);
  }

  /** The loop that builds the cross-section circle. */
  method MakeCrossSection(wireRadius: real, trig: Trig) returns (crossSection: seq<Point2>)
    ensures crossSection == CrossSection(wireRadius, trig)
  {
    crossSection := [];
    for i := 0 to CrossSectionPoints
      invariant crossSection == CrossSection(wireRadius, trig)[..i]
    {
      var angle := SectionAngle(i);
      assert CrossSection(wireRadius, trig)[..i + 1] == CrossSection(wireRadius, trig)[..i] + [SectionPoint(wireRadius, trig, i)];
      assert SectionPoint(wireRadius, trig, i) == Point2(wireRadius * trig.cos(angle), wireRadius * trig.sin(angle));
      crossSection := crossSection + [Point2(wireRadius * trig.cos(angle), wireRadius * trig.sin(angle))];
      assert crossSection == CrossSection(wireRadius, trig)[..i + 1];
    }
  }

  /** The loop that places the cross-section at one helix segment. */
  method AppendHelixRing(vertices0: seq<Vec3>, radius: real, pitch: real, section: seq<Point2>, trig: Trig, seg: int)
    returns (vertices: seq<Vec3>)
    requires radius != 0.0
    ensures vertices == vertices0 + HelixRing(radius, pitch, section, trig, seg)
  {
    vertices := vertices0;
    for c := 0 to |section|
      invariant vertices == vertices0 + HelixRing(radius, pitch, section, trig, seg)[..c]
    {
      vertices := vertices + [HelixPoint(radius, pitch, trig, seg, section[c])];
    }
  }

  /** `SpringShape.generate_mesh_data`. With `n = int(coils * 32)`, it places `n + 1` rings of
      8 points; each point divides by `2 * pi * radius`, so a zero radius fails once a ring is built. */
  method GenerateSpring(params: SpringParams, trig: Trig) returns (r: Result<MeshData>)
    ensures var n := SpringSegments(GetOr(params.coils, DefaultCoils));
      r.Raised? <==> GetOr(params.radius, DefaultRadius) == 0.0 && n >= 0
    ensures r.Raised? ==> r.error == ZeroDivisionError
    ensures r.Ok? ==>
      var n := SpringSegments(GetOr(params.coils, DefaultCoils));
      var radius := GetOr(params.radius, DefaultRadius);
      && |r.value.vertices| == CrossSectionPoints * Max0(n + 1)
      && (n >= 0 ==> r.value.vertices == HelixRings(radius, GetOr(params.pitch, DefaultPitch),
            CrossSection(GetOr(params.wireRadius, DefaultWireRadius), trig), trig, n + 1))
      && r.value.faces == TubeFaces(CrossSectionPoints, n)
  {
    var coils := GetOr(params.coils, DefaultCoils);
    var radius := GetOr(params.radius, DefaultRadius);
    var wireRadius := GetOr(params.wireRadius, DefaultWireRadius);
    var pitch := GetOr(params.pitch, DefaultPitch);
    var totalSegments := SpringSegments(coils);

    var crossSection := MakeCrossSection(wireRadius, trig);

    var vertices: seq<Vec3> := [];
    if totalSegments >= 0 && radius == 0.0 {
      return Raised(ZeroDivisionError);
    }
    if totalSegments >= 0 {
      for seg := 0 to totalSegments + 1
        invariant vertices == HelixRings(radius, pitch, crossSection, trig, seg)
      {
        vertices := AppendHelixRing(vertices, radius, pitch, crossSection, trig, seg);
      }
    }

    var faces: seq<Face> := [];
    for seg := 0 to Max0(totalSegments)
      invariant faces == TubeFaces(CrossSectionPoints, seg)
    {
      faces := AppendBand(faces, CrossSectionPoints, seg);
    }
    return Ok(MeshData(vertices, faces));
  }

  // ---------------------------------------------------------------- thread

  datatype ThreadParams = ThreadParams(majorDiameter: Option<real>, minorDiameter: Option<real>,
                                       pitch: Option<real>, length: Option<real>, threadAngle: Option<real>)

  const DefaultMajorDiameter: real := 1.0
  const DefaultMinorDiameter: real := 0.8
  const DefaultThreadPitch: real := 0.2
  const DefaultLength: real := 2.0
  const DefaultThreadAngle: real := 60.0

  const SegmentsPerThread: nat := 32

  /** Point `seg` of thread ring `thread`; its radius swings between the minor and major diameter. */
  function ThreadPoint(major: real, minor: real, pitch: real, turns: int, trig: Trig, thread: int, seg: int): Vec3 {
    var angle := 2.0 * Pi * seg as real / SegmentsPerThread as real;
    var t := seg as real / SegmentsPerThread as real;
    var z := thread as real * pitch + t * pitch;
    var depth := (major - minor) / 2.0;
    var r := minor / 2.0 + depth * (1.0 + trig.sin(angle * turns as real)) / 2.0;
    Vec3(r * trig.cos(angle), r * trig.sin(angle), z)
  }

  function ThreadRing(major: real, minor: real, pitch: real, turns: int, trig: Trig, thread: int): (ring: seq<Vec3>)
    ensures |ring| == SegmentsPerThread
  {
    seq(SegmentsPerThread, seg => ThreadPoint(major, minor, pitch, turns, trig, thread, seg))
  }

  function ThreadRings(major: real, minor: real, pitch: real, turns: int, trig: Trig, n: nat): (points: seq<Vec3>)
    ensures |points| == SegmentsPerThread * n
  {
    if n == 0 then [] else ThreadRings(major, minor, pitch, turns, trig, n - 1) + ThreadRing(major, minor, pitch, turns, trig, n - 1)
  }

  /** The bottom cap: a fan around `centerBottom` over ring 0. */
  function BottomCap(centerBottom: int): (faces: seq<Face>)
    ensures |faces| == SegmentsPerThread
  {
    seq(SegmentsPerThread, seg => Face(centerBottom, (seg + 1) % SegmentsPerThread, seg))
  }

  /** The top cap: a fan around `centerTop` over the ring starting at `topRingStart`. */
  function TopCap(centerTop: int, topRingStart: int): (faces: seq<Face>)
    ensures |faces| == SegmentsPerThread
  {
    seq(SegmentsPerThread, seg => Face(centerTop, topRingStart + seg, topRingStart + (seg + 1) % SegmentsPerThread))
  }

  /** The faces of a thread with `turns` turns: the tube, then the two caps. */
  function ThreadFaces(turns: int): (faces: seq<Face>)
    ensures |faces| == 64 * Max0(turns) + 64
  {
    var ringPoints := SegmentsPerThread * Max0(turns + 1);
    TubeFaces(SegmentsPerThread, turns) + BottomCap(ringPoints) + TopCap(ringPoints + 1, turns * SegmentsPerThread)
  }

  /** The thread's faces index its `32 * (turns + 1) + 2` vertices exactly when `turns >= 0`; with
      fewer turns there are only the two cap centres, and the bottom cap points past them. */
  lemma ThreadIndicesInRange(turns: int)
    ensures IndicesIn(SegmentsPerThread * Max0(turns + 1) + 2, ThreadFaces(turns)) <==> turns >= 0
  {
    var n := SegmentsPerThread * Max0(turns + 1) + 2;
    var tube := TubeFaces(SegmentsPerThread, turns);
    var bottom := BottomCap(n - 2);
    var top := TopCap(n - 1, turns * SegmentsPerThread);
    assert ThreadFaces(turns) == tube + bottom + top;
    if turns >= 0 {
      TubeIndices(SegmentsPerThread, turns);
      assert IndicesIn(n, bottom);
      MulLess(turns, turns + 1, SegmentsPerThread);
      assert IndicesIn(n, top);
      IndicesInAppend(n, tube, bottom);
      IndicesInAppend(n, tube + bottom, top);
    } else {
      assert n == 2;
      assert ThreadFaces(turns)[|tube| + 2] == bottom[2];
    }
  }

  /** The inner loop over the segments of one turn: the turn's 32 points. */
  method AppendRing(vertices0: seq<Vec3>, major: real, minor: real, pitch: real, turns: int, trig: Trig, thread: int)
    returns (vertices: seq<Vec3>)
    ensures vertices == vertices0 + ThreadRing(major, minor, pitch, turns, trig, thread)
  {
    ghost var ring := ThreadRing(major, minor, pitch, turns, trig, thread);
    vertices := vertices0;
    for seg := 0 to SegmentsPerThread
      invariant vertices == vertices0 + ring[..seg]
    {
      PrefixStep(vertices0, ring, seg);
      vertices := vertices + [ThreadPoint(major, minor, pitch, turns, trig, thread, seg)];
    }
    assert ring[..SegmentsPerThread] == ring;
  }

  /** The bottom-cap loop. */
  method AppendBottomCap(faces0: seq<Face>, centerBottom: int) returns (faces: seq<Face>)
    ensures faces == faces0 + BottomCap(centerBottom)
  {
    ghost var cap := BottomCap(centerBottom);
    faces := faces0;
    for seg := 0 to SegmentsPerThread
      invariant faces == faces0 + cap[..seg]
    {
      var nextSeg := (seg + 1) % SegmentsPerThread;
      PrefixStep(faces0, cap, seg);
      faces := faces + [Face(centerBottom, nextSeg, seg)];
    }
    assert cap[..SegmentsPerThread] == cap;
  }

  /** The top-cap loop. */
  method AppendTopCap(faces0: seq<Face>, centerTop: int, topRingStart: int) returns (faces: seq<Face>)
    ensures faces == faces0 + TopCap(centerTop, topRingStart)
  {
    ghost var cap := TopCap(centerTop, topRingStart);
    faces := faces0;
    for seg := 0 to SegmentsPerThread
      invariant faces == faces0 + cap[..seg]
    {
      var nextSeg := (seg + 1) % SegmentsPerThread;
      PrefixStep(faces0, cap, seg);
      faces := faces + [Face(centerTop, topRingStart + seg, topRingStart + nextSeg)];
    }
    assert cap[..SegmentsPerThread] == cap;
  }

  /** `ThreadShape.generate_mesh_data`. `int(length / pitch)` turns, one ring of 32 points per
      turn and one more, then the two cap centres (0, 0, 0) and (0, 0, length). */
  method GenerateThread(params: ThreadParams, trig: Trig) returns (r: Result<MeshData>)
    ensures r.Raised? <==> GetOr(params.pitch, DefaultThreadPitch) == 0.0
    ensures r.Raised? ==> r.error == ZeroDivisionError
    ensures r.Ok? ==>
      var pitch := GetOr(params.pitch, DefaultThreadPitch);
      var length := GetOr(params.length, DefaultLength);
      var turns := Trunc(length / pitch);
      var v := r.value.vertices;
      && v == ThreadRings(GetOr(params.majorDiameter, DefaultMajorDiameter),
                          GetOr(params.minorDiameter, DefaultMinorDiameter), pitch, turns, trig, Max0(turns + 1))
              + [Vec3(0.0, 0.0, 0.0), Vec3(0.0, 0.0, length)]
      && |v| == SegmentsPerThread * Max0(turns + 1) + 2
      && v[|v| - 2] == Vec3(0.0, 0.0, 0.0) && v[|v| - 1] == Vec3(0.0, 0.0, length)
      && r.value.faces == ThreadFaces(turns)
  {
    var major := GetOr(params.majorDiameter, DefaultMajorDiameter);
    var minor := GetOr(params.minorDiameter, DefaultMinorDiameter);
    var pitch := GetOr(params.pitch, DefaultThreadPitch);
    var length := GetOr(params.length, DefaultLength);
    var threadAngle := Radians(GetOr(params.threadAngle, DefaultThreadAngle));
    if pitch == 0.0 {
      return Raised(ZeroDivisionError);
    }
    var numThreads := Trunc(length / pitch);
    var vertices := ThreadVertices(major, minor, pitch, length, numThreads, trig);
    var faces := ThreadFaceList(numThreads);
    return Ok(MeshData(vertices, faces));
  }

  /** The vertex loop of `ThreadShape.generate_mesh_data`, then the two cap centres. */
  method ThreadVertices(major: real, minor: real, pitch: real, length: real, numThreads: int, trig: Trig)
    returns (vertices: seq<Vec3>)
    ensures vertices == ThreadRings(major, minor, pitch, numThreads, trig, Max0(numThreads + 1))
                        + [Vec3(0.0, 0.0, 0.0), Vec3(0.0, 0.0, length)]
    ensures |vertices| == SegmentsPerThread * Max0(numThreads + 1) + 2
    ensures vertices[|vertices| - 2] == Vec3(0.0, 0.0, 0.0) && vertices[|vertices| - 1] == Vec3(0.0, 0.0, length)
  {
    vertices := [];
    for thread := 0 to Max0(numThreads + 1)
      invariant vertices == ThreadRings(major, minor, pitch, numThreads, trig, thread)
    {
      vertices := AppendRing(vertices, major, minor, pitch, numThreads, trig, thread);
    }
    AppendTwo(vertices, Vec3(0.0, 0.0, 0.0), Vec3(0.0, 0.0, length));
    vertices := vertices + [Vec3(0.0, 0.0, 0.0)];
    vertices := vertices + [Vec3(0.0, 0.0, length)];
  }

  /** The face loop of `ThreadShape.generate_mesh_data`, then the two cap fans. */
  method ThreadFaceList(numThreads: int) returns (faces: seq<Face>)
    ensures faces == ThreadFaces(numThreads)
  {
    faces := [];
    for thread := 0 to Max0(numThreads)
      invariant faces == TubeFaces(SegmentsPerThread, thread)
    {
      faces := AppendBand(faces, SegmentsPerThread, thread);
    }
    assert faces == TubeFaces(SegmentsPerThread, numThreads);
    var centerBottom := SegmentsPerThread * Max0(numThreads + 1);
    var centerTop := centerBottom + 1;
    faces := AppendBottomCap(faces, centerBottom);
    faces := AppendTopCap(faces, centerTop, numThreads * SegmentsPerThread);
  }

  // ---------------------------------------------------------------- factory

  datatype ShapeKind = GearKind | SpringKind | ThreadKind

  /** `ParametricGenerator.create_shape`: the class registered under the lower-cased name. */
  function CreateShape(shapeType: string): (r: Result<ShapeKind>)
    ensures r.Ok? <==> Lower(shapeType) in ["gear", "spring", "thread"]
    ensures r == Ok(GearKind) <==> Lower(shapeType) == "gear"
    ensures r == Ok(SpringKind) <==> Lower(shapeType) == "spring"
    ensures r == Ok(ThreadKind) <==> Lower(shapeType) == "thread"
    ensures r.Raised? ==> r.error == ValueError("Unknown parametric shape type: " + shapeType)
  {
    var key := Lower(shapeType);
    if key == "gear" then Ok(GearKind)
    else if key == "spring" then Ok(SpringKind)
    else if key == "thread" then Ok(ThreadKind)
    else Raised(ValueError("Unknown parametric shape type: " + shapeType))
  }

  /** The lookup ignores case: a name and its lower-cased form select the same class. */
  lemma CreateShapeIgnoresCase(shapeType: string)
    ensures CreateShape(shapeType).Ok? <==> CreateShape(Lower(shapeType)).Ok?
    ensures CreateShape(shapeType).Ok? ==> CreateShape(shapeType) == CreateShape(Lower(shapeType))
  {
    LowerOfLowerCase(Lower(shapeType));
  }

  lemma CreateShapeExamples()
    ensures CreateShape("Gear") == Ok(GearKind)
    ensures CreateShape("SPRING") == Ok(SpringKind)
    ensures CreateShape("bolt").Raised?
  {
    assert Lower("Gear") == "gear";
    assert Lower("SPRING") == "spring";
    assert Lower("bolt") == "bolt";
  }
}
