/** The dictionary-only helpers of the Blender pipeline: choosing a parametric shape from a
    description, the description heuristics, the per-shape parameter tables and the update
    from detected image features. */
module BlenderParams {

  import opened PyCore
  import opened PyStrings
  import ParametricShapes

  /** Some word of `words` occurs in `lowered` (`any(w in lowered for w in words)`). */
  predicate AnyIn(lowered: string, words: seq<string>) {
    exists k :: 0 <= k < |words| && Contains(lowered, words[k])
  }

  // ---------------------------------------------------------------- parametric shapes

  /** A shape type and the words, English and German, that indicate it. */
  datatype Indicator = Indicator(shapeType: string, keywords: seq<string>)

  const ParametricIndicators: seq<Indicator> := [
    Indicator("gear", ["gear", "zahnrad", "getriebe"]),
    Indicator("spring", ["spring", "feder", "sprungfeder"]),
    Indicator("thread", ["thread", "gewinde", "schraube"])
  ]

  /** Indicator `k` is the first one, in table order, one of whose words occurs in `lowered`. */
  predicate FirstMatch(lowered: string, indicators: seq<Indicator>, k: int) {
    && 0 <= k < |indicators|
    && AnyIn(lowered, indicators[k].keywords)
    && forall j :: 0 <= j < k ==> !AnyIn(lowered, indicators[j].keywords)
  }

  /** The type of the first indicator that matches `lowered`. */
  function FirstIndicated(lowered: string, indicators: seq<Indicator>): (r: Option<string>)
    ensures r.None? <==> forall k :: 0 <= k < |indicators| ==> !AnyIn(lowered, indicators[k].keywords)
    ensures r.Some? ==> exists k :: FirstMatch(lowered, indicators, k) && indicators[k].shapeType == r.value
  {
    if indicators == [] then None
    else if AnyIn(lowered, indicators[0].keywords) then
      assert FirstMatch(lowered, indicators, 0);
      Some(indicators[0].shapeType)
    else
      var r := FirstIndicated(lowered, indicators[1..]);
      assert r.Some? ==> exists k :: FirstMatch(lowered, indicators, k) && indicators[k].shapeType == r.value by {
        if r.Some? {
          var k :| FirstMatch(lowered, indicators[1..], k) && indicators[1..][k].shapeType == r.value;
          assert forall j :: 0 < j < k + 1 ==> indicators[j] == indicators[1..][j - 1];
          assert FirstMatch(lowered, indicators, k + 1);
        }
      }
      r
  }

  /** The parametric type a description asks for, if any. */
  function ParametricType(description: string): Option<string> {
    FirstIndicated(Lower(description), ParametricIndicators)
  }

  /** One step of the search: indicator `i` if it matches, else the search from `i + 1`. */
  lemma FirstIndicatedStep(lowered: string, indicators: seq<Indicator>, i: nat)
    requires i < |indicators|
    ensures FirstIndicated(lowered, indicators[i..]) ==
      if AnyIn(lowered, indicators[i].keywords) then Some(indicators[i].shapeType)
      else FirstIndicated(lowered, indicators[i + 1..])
  {
    assert indicators[i..][1..] == indicators[i + 1..];
  }

  /** `_is_parametric_shape`: on a match, records the type under `parametric_type` and answers
      true; otherwise leaves `params` alone. */
  method IsParametricShape(description: string, params: PyDict) returns (found: bool)
    modifies params
    ensures found <==> ParametricType(description).Some?
    ensures found ==> params.entries == old(params.entries)["parametric_type" := Str(ParametricType(description).value)]
    ensures !found ==> params.entries == old(params.entries)
  {
    var lowered := Lower(description);
    var i := 0;
    while i < |ParametricIndicators|
      invariant 0 <= i <= |ParametricIndicators|
      invariant FirstIndicated(lowered, ParametricIndicators) == FirstIndicated(lowered, ParametricIndicators[i..])
      invariant params.entries == old(params.entries)
      decreases |ParametricIndicators| - i
    {
      FirstIndicatedStep(lowered, ParametricIndicators, i);
      if AnyIn(lowered, ParametricIndicators[i].keywords) {
        params.entries := params.entries["parametric_type" := Str(ParametricIndicators[i].shapeType)];
        return true;
      }
      i := i + 1;
    }
    return false;
  }

  /** Every type the check can record is one the shape factory accepts. */
  lemma ParametricTypeIsCreatable(description: string)
    ensures ParametricType(description).Some? ==>
      ParametricShapes.CreateShape(ParametricType(description).value).Ok?
  {
    assert Lower("gear") == "gear";
    assert Lower("spring") == "spring";
    assert Lower("thread") == "thread";
  }

  /** A description with a spring word and no gear word asks for a spring, whatever thread
      words it also holds. */
  lemma SpringBeforeThread(description: string)
    requires !AnyIn(Lower(description), ["gear", "zahnrad", "getriebe"])
    requires AnyIn(Lower(description), ["spring", "feder", "sprungfeder"])
    ensures ParametricType(description) == Some("spring")
  {
    assert FirstMatch(Lower(description), ParametricIndicators, 1);
  }

  /** "gewinde mit feder" holds no gear word. */
  lemma NoGearWordInGewindeMitFeder()
    ensures !AnyIn("gewinde mit feder", ["gear", "zahnrad", "getriebe"])
  {
    var words := ["gear", "zahnrad", "getriebe"];
    MissingCharNotContained("gewinde mit feder", words[0], 'a');
    MissingCharNotContained("gewinde mit feder", words[1], 'z');
    MissingCharNotContained("gewinde mit feder", words[2], 'b');
  }

  /** "gewinde mit feder" holds the spring word "feder". */
  lemma FederInGewindeMitFeder()
    ensures AnyIn("gewinde mit feder", ["spring", "feder", "sprungfeder"])
  {
    var words := ["spring", "feder", "sprungfeder"];
    assert MatchAt("gewinde mit feder", words[1], 12);
  }

  /** The table order decides, not the order in the text: a thread ("Gewinde") with a spring
      ("Feder") is a spring. */
  lemma GewindeMitFederIsSpring()
    ensures ParametricType("Gewinde mit Feder") == Some("spring")
  {
    assert Lower("Gewinde mit Feder") == "gewinde mit feder";
    NoGearWordInGewindeMitFeder();
    FederInGewindeMitFeder();
    SpringBeforeThread("Gewinde mit Feder");
  }

  // ---------------------------------------------------------------- description heuristics

  const SphereWords: seq<string> := ["sphere", "ball", "round"]
  const CylinderWords: seq<string> := ["cylinder", "tube", "pipe"]

  const Subdivision: Value := Dict(map["levels" := Int(2)])
  const Bevel: Value := Dict(map["width" := Float(0.05)])

  /** `_extract_params_from_description`: a cube of size 1 with no modifiers, changed by the
      words of the description. */
  method ExtractParamsFromDescription(description: string) returns (params: map<string, Value>)
    ensures params.Keys == {"type", "size", "modifiers"}
    ensures var d := Lower(description);
      && (AnyIn(d, SphereWords) ==> params["type"] == Str("sphere"))
      && (!AnyIn(d, SphereWords) && AnyIn(d, CylinderWords) ==> params["type"] == Str("cylinder"))
      && (!AnyIn(d, SphereWords) && !AnyIn(d, CylinderWords) ==> params["type"] == Str("cube"))
    ensures var d := Lower(description);
      && (Contains(d, "small") ==> params["size"] == Float(0.5))
      && (!Contains(d, "small") && Contains(d, "large") ==> params["size"] == Float(2.0))
      && (!Contains(d, "small") && !Contains(d, "large") ==> params["size"] == Float(1.0))
    ensures var d := Lower(description);
      && params["modifiers"].Dict?
      && params["modifiers"].entries.Keys <= {"subdivision", "bevel"}
      && ("subdivision" in params["modifiers"].entries <==> Contains(d, "smooth"))
      && ("bevel" in params["modifiers"].entries <==> Contains(d, "rounded"))
      && ("subdivision" in params["modifiers"].entries ==> params["modifiers"].entries["subdivision"] == Subdivision)
      && ("bevel" in params["modifiers"].entries ==> params["modifiers"].entries["bevel"] == Bevel)
  {
    var modifiers: map<string, Value> := map[];
    params := map["type" := Str("cube"), "size" := Float(1.0)];
    var d := Lower(description);
    if AnyIn(d, SphereWords) {
      params := params["type" := Str("sphere")];
    } else if AnyIn(d, CylinderWords) {
      params := params["type" := Str("cylinder")];
    }
    if Contains(d, "small") {
      params := params["size" := Float(0.5)];
    } else if Contains(d, "large") {
      params := params["size" := Float(2.0)];
    }
    if Contains(d, "smooth") {
      modifiers := modifiers["subdivision" := Subdivision];
    }
    if Contains(d, "rounded") {
      modifiers := modifiers["bevel" := Bevel];
    }
    params := params["modifiers" := Dict(modifiers)];
  }

  // ---------------------------------------------------------------- shape parameter tables

  /** `_extract_shape_params`: the generator parameters for a shape type, read from the
      pipeline's parameters with fixed defaults. The thread's minor diameter is 0.8 times the
      major one, so a non-numeric `thread_diameter` makes the multiplication raise. */
  function ExtractShapeParams(shapeType: string, params: map<string, Value>): (r: Result<map<string, Value>>)
    ensures r.Raised? <==> shapeType == "thread" && AsNumber(Get(params, "thread_diameter", Float(1.0))).None?
    ensures r.Raised? ==> r.error == TypeError
    ensures shapeType !in {"gear", "spring", "thread"} ==> r == Ok(map[])
    ensures r.Ok? && shapeType == "gear" ==> r.value.Keys == {"module", "teeth", "pressure_angle", "thickness"}
    ensures r.Ok? && shapeType == "spring" ==> r.value.Keys == {"coils", "radius", "wire_radius", "pitch"}
    ensures r.Ok? && shapeType == "thread" ==>
      && r.value.Keys == {"major_diameter", "minor_diameter", "pitch", "length", "thread_angle"}
      && AsNumber(r.value["major_diameter"]).Some?
      && r.value["minor_diameter"] == Float(AsNumber(r.value["major_diameter"]).value * 0.8)
  {
    if shapeType == "gear" then
      Ok(map[
        "module" := Get(params, "gear_module", Float(1.0)),
        "teeth" := Get(params, "gear_teeth", Int(20)),
        "pressure_angle" := Get(params, "pressure_angle", Float(20.0)),
        "thickness" := Get(params, "thickness", Float(0.5))])
    else if shapeType == "spring" then
      Ok(map[
        "coils" := Get(params, "spring_coils", Float(5.0)),
        "radius" := Get(params, "spring_radius", Float(1.0)),
        "wire_radius" := Get(params, "wire_radius", Float(0.1)),
        "pitch" := Get(params, "spring_pitch", Float(0.3))])
    else if shapeType == "thread" then
      var diameter := Get(params, "thread_diameter", Float(1.0));
      match AsNumber(diameter)
      case None => Raised(TypeError)
      case Some(x) =>
        Ok(map[
          "major_diameter" := diameter,
          "minor_diameter" := Float(x * 0.8),
          "pitch" := Get(params, "thread_pitch", Float(0.2)),
          "length" := Get(params, "thread_length", Float(2.0)),
          "thread_angle" := Get(params, "thread_angle", Float(60.0))])
    else Ok(map[])
  }

  /** With nothing set, the tables hand every generator its own defaults. */
  lemma DefaultTablesMatchGenerators()
    ensures ExtractShapeParams("gear", map[]) == Ok(map[
      "module" := Float(ParametricShapes.DefaultModule), "teeth" := Int(ParametricShapes.DefaultTeeth),
      "pressure_angle" := Float(ParametricShapes.DefaultPressureAngle),
      "thickness" := Float(ParametricShapes.DefaultThickness)])
    ensures ExtractShapeParams("spring", map[]) == Ok(map[
      "coils" := Float(ParametricShapes.DefaultCoils), "radius" := Float(ParametricShapes.DefaultRadius),
      "wire_radius" := Float(ParametricShapes.DefaultWireRadius), "pitch" := Float(ParametricShapes.DefaultPitch)])
    ensures ExtractShapeParams("thread", map[]) == Ok(map[
      "major_diameter" := Float(ParametricShapes.DefaultMajorDiameter),
      "minor_diameter" := Float(ParametricShapes.DefaultMinorDiameter),
      "pitch" := Float(ParametricShapes.DefaultThreadPitch), "length" := Float(ParametricShapes.DefaultLength),
      "thread_angle" := Float(ParametricShapes.DefaultThreadAngle)])
  {
  }

  // ---------------------------------------------------------------- image features

  /** The type of one detected shape, `shape.get('type', 'unknown')`. */
  function ShapeTypeOf(shape: map<string, Value>): string
    requires "type" in shape ==> shape["type"].Str?
  {
    if "type" in shape then shape["type"].s else "unknown"
  }

  /** Every detected shape that is a dictionary names its type with a string. */
  predicate StringTypes(items: seq<Value>) {
    forall k :: 0 <= k < |items| ==> items[k].Dict? ==> ("type" in items[k].entries ==> items[k].entries["type"].Str?)
  }

  /** The first `n` detected shapes are dictionaries. */
  predicate DictsUpTo(items: seq<Value>, n: int) {
    forall k :: 0 <= k < n && k < |items| ==> items[k].Dict?
  }

  predicate AllDicts(items: seq<Value>) {
    DictsUpTo(items, |items|)
  }

  /** The types of the first `n` detected shapes, in order. */
  function TypesUpTo(items: seq<Value>, n: nat): (types: seq<string>)
    requires n <= |items| && DictsUpTo(items, n) && StringTypes(items)
    ensures |types| == n
  {
    if n == 0 then [] else TypesUpTo(items, n - 1) + [ShapeTypeOf(items[n - 1].entries)]
  }

  /** The types of the detected shapes, in order. */
  function TypesOf(items: seq<Value>): (types: seq<string>)
    requires AllDicts(items) && StringTypes(items)
    ensures |types| == |items|
  {
    TypesUpTo(items, |items|)
  }

  /** How often `t` occurs in `types`. */
  function CountOf(types: seq<string>, t: string): (n: nat)
    ensures n > 0 <==> t in types
  {
    if types == [] then 0
    else CountOf(types[..|types| - 1], t) + (if types[|types| - 1] == t then 1 else 0)
  }

  /** The distinct types in order of first occurrence: the key order of the count dictionary. */
  function FirstSeen(types: seq<string>): (order: seq<string>)
    ensures forall t :: t in order <==> t in types
    ensures forall i, j :: 0 <= i < j < |order| ==> order[i] != order[j]
  {
    if types == [] then []
    else
      var prefix := FirstSeen(types[..|types| - 1]);
      var t := types[|types| - 1];
      assert forall u :: u in types <==> u in types[..|types| - 1] || u == t;
      if t in prefix then prefix else prefix + [t]
  }

  /** `max(order, key=counts.get)`: the first key of greatest count. */
  function MostFrequent(order: seq<string>, types: seq<string>): (best: string)
    requires order != []
    ensures best in order
    ensures forall k :: 0 <= k < |order| ==> CountOf(types, order[k]) <= CountOf(types, best)
  {
    if |order| == 1 then order[0]
    else
      var b := MostFrequent(order[..|order| - 1], types);
      var last := order[|order| - 1];
      if CountOf(types, last) > CountOf(types, b) then last else b
  }

  /** Ties go to the key seen first: every key before the winner counts strictly less. */
  lemma {:induction false} MostFrequentIsFirst(order: seq<string>, types: seq<string>)
    requires order != []
    requires forall i, j :: 0 <= i < j < |order| ==> order[i] != order[j]
    ensures exists w :: (0 <= w < |order| && order[w] == MostFrequent(order, types)
      && forall k :: 0 <= k < w ==> CountOf(types, order[k]) < CountOf(types, order[w]))
  {
    if |order| == 1 {
      assert order[0] == MostFrequent(order, types);
    } else {
      var prefix := order[..|order| - 1];
      MostFrequentIsFirst(prefix, types);
      var b := MostFrequent(prefix, types);
      var w :| 0 <= w < |prefix| && prefix[w] == b
        && forall k :: 0 <= k < w ==> CountOf(types, prefix[k]) < CountOf(types, prefix[w]);
      var last := order[|order| - 1];
      if CountOf(types, last) > CountOf(types, b) {
        forall k | 0 <= k < |order| - 1
          ensures CountOf(types, order[k]) < CountOf(types, last)
        {
          assert order[k] == prefix[k];
        }
        assert order[|order| - 1] == MostFrequent(order, types);
      } else {
        assert order[w] == prefix[w];
        assert forall k :: 0 <= k < w ==> order[k] == prefix[k];
      }
    }
  }

  /** The dominant type of the detected shapes. */
  function Dominant(types: seq<string>): (d: string)
    requires types != []
    ensures d in types
    ensures forall t :: t in types ==> CountOf(types, t) <= CountOf(types, d)
  {
    var order := FirstSeen(types);
    assert types[0] in order;
    var d := MostFrequent(order, types);
    assert forall t :: t in types ==> t in order;
    d
  }

  /** Appending one type: it joins the order if it is new. */
  lemma FirstSeenSnoc(types: seq<string>, t: string)
    ensures FirstSeen(types + [t]) == if t in FirstSeen(types) then FirstSeen(types) else FirstSeen(types) + [t]
  {
    assert (types + [t])[..|types|] == types;
  }

  /** Appending one type: its count grows by one, every other count stays. */
  lemma CountOfSnoc(types: seq<string>, t: string, u: string)
    ensures CountOf(types + [t], u) == CountOf(types, u) + (if u == t then 1 else 0)
  {
    assert (types + [t])[..|types|] == types;
  }

  /** The dominant type is the first-seen type of greatest count: every type seen before it
      occurs strictly less often. */
  lemma DominantIsFirstOfMost(types: seq<string>)
    requires types != []
    ensures exists w :: (0 <= w < |FirstSeen(types)| && FirstSeen(types)[w] == Dominant(types)
      && forall k :: 0 <= k < w ==> CountOf(types, FirstSeen(types)[k]) < CountOf(types, Dominant(types)))
  {
    assert types[0] in FirstSeen(types);
    MostFrequentIsFirst(FirstSeen(types), types);
  }

  /** On a tie between two types the one seen first wins. */
  lemma TieGoesToFirstSeen(types: seq<string>, a: string, b: string)
    requires types != [] && FirstSeen(types) == [a, b] && CountOf(types, a) == CountOf(types, b)
    ensures Dominant(types) == a
  {
    assert [a, b][..1] == [a];
  }

  /** The type the dominant detected shape selects, if it selects one. */
  function TypeForShape(dominant: string): Option<string> {
    if dominant == "circle" || dominant == "sphere" then Some("sphere")
    else if dominant == "rectangle" || dominant == "square" then Some("cube")
    else None
  }

  /** The first half of the update: the dominant detected shape, or the exception iterating the
      detected shapes raises. */
  function ShapesStep(entries: map<string, Value>, shapes: Value): DictOutcome
    requires shapes.List? ==> StringTypes(shapes.items)
  {
    if !IsTruthy(shapes) then DictOutcome(entries, None)
    else match shapes
      case List(items) =>
        if !AllDicts(items) then DictOutcome(entries, Some(AttributeError))
        else
          var t := TypeForShape(Dominant(TypesOf(items)));
          DictOutcome(if t.Some? then entries["type" := Str(t.value)] else entries, None)
      case Str(_) => DictOutcome(entries, Some(AttributeError))
      case Dict(_) => DictOutcome(entries, Some(AttributeError))
      case _ => DictOutcome(entries, Some(TypeError))
  }

  /** The second half: more than 50 features asks for a subdivision modifier. */
  function FeatureCountStep(entries: map<string, Value>, count: Value): DictOutcome {
    match AsNumber(count)
    case None => DictOutcome(entries, Some(TypeError))
    case Some(n) =>
      if n <= 50.0 then DictOutcome(entries, None)
      else if "modifiers" !in entries then DictOutcome(entries, Some(KeyError("modifiers")))
      else if !entries["modifiers"].Dict? then DictOutcome(entries, Some(TypeError))
      else DictOutcome(entries["modifiers" := Dict(entries["modifiers"].entries["subdivision" := Subdivision])], None)
  }

  predicate FeaturesWellTyped(features: map<string, Value>) {
    "shapes_detected" in features && features["shapes_detected"].List? ==> StringTypes(features["shapes_detected"].items)
  }

  /** `_update_params_from_features` on the parameters `entries`. */
  function FeatureUpdate(entries: map<string, Value>, features: map<string, Value>): (u: DictOutcome)
    requires FeaturesWellTyped(features)
  {
    if features == map[] then DictOutcome(entries, None)
    else
      var afterShapes := if "shapes_detected" in features then ShapesStep(entries, features["shapes_detected"])
                         else DictOutcome(entries, None);
      if afterShapes.error.Some? || "total_features" !in features then afterShapes
      else FeatureCountStep(afterShapes.entries, features["total_features"])
  }

  /** No features, no change. */
  lemma EmptyFeaturesChangeNothing(entries: map<string, Value>)
    ensures FeatureUpdate(entries, map[]) == DictOutcome(entries, None)
  {
  }

  /** The shape step changes at most `type`, and only to sphere or cube. */
  lemma ShapesStepFrame(entries: map<string, Value>, shapes: Value)
    requires shapes.List? ==> StringTypes(shapes.items)
    ensures var u := ShapesStep(entries, shapes);
      && entries.Keys <= u.entries.Keys <= entries.Keys + {"type"}
      && (forall k :: k in entries && k != "type" ==> u.entries[k] == entries[k])
      && (u.entries != entries ==>
            u.entries == entries["type" := u.entries["type"]] && u.entries["type"] in {Str("sphere"), Str("cube")})
  {
  }

  /** The count step changes at most `modifiers`, and only by adding `subdivision`. */
  lemma FeatureCountStepFrame(entries: map<string, Value>, count: Value)
    ensures var u := FeatureCountStep(entries, count);
      && u.entries.Keys == entries.Keys
      && (forall k :: k in entries && k != "modifiers" ==> u.entries[k] == entries[k])
      && (u.entries != entries ==>
            "modifiers" in entries && entries["modifiers"].Dict?
            && u.entries["modifiers"] == Dict(entries["modifiers"].entries["subdivision" := Subdivision]))
  {
  }

  /** The whole update touches at most `type` and `modifiers`. */
  lemma FeatureUpdateFrame(entries: map<string, Value>, features: map<string, Value>)
    requires FeaturesWellTyped(features)
    ensures var u := FeatureUpdate(entries, features);
      && entries.Keys <= u.entries.Keys <= entries.Keys + {"type"}
      && forall k :: k in entries && k != "type" && k != "modifiers" ==> u.entries[k] == entries[k]
  {
    if features != map[] && "shapes_detected" in features {
      ShapesStepFrame(entries, features["shapes_detected"]);
      var after := ShapesStep(entries, features["shapes_detected"]);
      if after.error.None? && "total_features" in features {
        FeatureCountStepFrame(after.entries, features["total_features"]);
      }
    } else if features != map[] && "total_features" in features {
      FeatureCountStepFrame(entries, features["total_features"]);
    }
  }

  /** Shapes mostly of kind `c`, a circle or a sphere, make the part a sphere. */
  lemma CirclesMakeSphere(entries: map<string, Value>, c: string)
    requires c == "circle" || c == "sphere"
    ensures var shape := Dict(map["type" := Str(c)]);
      ShapesStep(entries, List([shape, shape])) == DictOutcome(entries["type" := Str("sphere")], None)
  {
    TwoShapesOfType(c);
    assert Dominant([c, c]) == c;
    assert TypeForShape(c) == Some("sphere");
  }

  /** Two shapes of type `c` are dictionaries whose types are `c` and `c`. */
  lemma TwoShapesOfType(c: string)
    ensures var shape := Dict(map["type" := Str(c)]);
      AllDicts([shape, shape]) && StringTypes([shape, shape]) && TypesOf([shape, shape]) == [c, c]
  {
    var shape := Dict(map["type" := Str(c)]);
    var items := [shape, shape];
    assert AllDicts(items) && StringTypes(items);
    assert TypesUpTo(items, 1) == [c];
  }

  /** More than 50 features add the subdivision modifier to an existing modifier dictionary,
      and a missing one raises `KeyError`. */
  lemma ManyFeaturesSubdivide(entries: map<string, Value>, n: int)
    requires n > 50
    ensures "modifiers" in entries && entries["modifiers"].Dict? ==>
      FeatureCountStep(entries, Int(n))
        == DictOutcome(entries["modifiers" := Dict(entries["modifiers"].entries["subdivision" := Subdivision])], None)
    ensures "modifiers" !in entries ==> FeatureCountStep(entries, Int(n)) == DictOutcome(entries, Some(KeyError("modifiers")))
  {
  }

  /** The count dictionary the loop builds from `types`, one `get(t, 0) + 1` per type. */
  function CountsOf(types: seq<string>): map<string, nat> {
    if types == [] then map[]
    else
      var counts := CountsOf(types[..|types| - 1]);
      var t := types[|types| - 1];
      counts[t := (if t in counts then counts[t] else 0) + 1]
  }

  /** The count dictionary holds exactly the types that occur, each with how often it occurs. */
  lemma {:induction false} CountsOfCounts(types: seq<string>)
    ensures forall t :: t in CountsOf(types) <==> t in types
    ensures forall t :: t in CountsOf(types) ==> CountsOf(types)[t] == CountOf(types, t)
  {
    if types != [] {
      var prefix := types[..|types| - 1];
      CountsOfCounts(prefix);
      assert forall u :: u in types <==> u in prefix || u == types[|types| - 1];
    }
  }

  /** `order` and `counts` are the count dictionary of `types`: its keys in insertion order
      and its values. */
  predicate Tally(types: seq<string>, order: seq<string>, counts: map<string, nat>) {
    order == FirstSeen(types) && counts == CountsOf(types)
  }

  /** `shape_counts[t] = shape_counts.get(t, 0) + 1` keeps the tally. */
  lemma TallyStep(types: seq<string>, t: string, order: seq<string>, counts: map<string, nat>)
    requires Tally(types, order, counts)
    ensures Tally(types + [t], if t in order then order else order + [t],
                  counts[t := (if t in counts then counts[t] else 0) + 1])
  {
    FirstSeenSnoc(types, t);
    assert (types + [t])[..|types|] == types;
  }

  /** One turn of the counting loop keeps the tally of the shapes seen so far. */
  lemma CountNext(items: seq<Value>, i: nat, t: string, order: seq<string>, counts: map<string, nat>)
    requires i < |items| && items[i].Dict? && DictsUpTo(items, i) && StringTypes(items)
    requires t == ShapeTypeOf(items[i].entries)
    requires Tally(TypesUpTo(items, i), order, counts)
    ensures DictsUpTo(items, i + 1)
    ensures TypesUpTo(items, i + 1) == TypesUpTo(items, i) + [t]
    ensures Tally(TypesUpTo(items, i + 1), if t in order then order else order + [t],
                  counts[t := (if t in counts then counts[t] else 0) + 1])
  {
    assert DictsUpTo(items, i + 1);
    var types := TypesUpTo(items, i);
    assert TypesUpTo(items, i + 1) == types + [t];
    TallyStep(types, t, order, counts);
  }

  /** The counting loop: the type of each detected shape, or the exception a shape that is
      not a dictionary raises. */
  method CountShapes(items: seq<Value>) returns (error: Option<PyError>, order: seq<string>, counts: map<string, nat>)
    requires StringTypes(items)
    ensures error.Some? <==> !AllDicts(items)
    ensures error.Some? ==> error.value == AttributeError
    ensures error.None? ==> Tally(TypesOf(items), order, counts)
  {
    order := [];
    counts := map[];
    var i := 0;
    while i < |items|
      invariant 0 <= i <= |items|
      invariant DictsUpTo(items, i)
      invariant Tally(TypesUpTo(items, i), order, counts)
      decreases |items| - i
    {
      if !items[i].Dict? {
        NotAllDicts(items, i);
        return Some(AttributeError), order, counts;
      }
      var shapeType := ShapeTypeOf(items[i].entries);
      CountNext(items, i, shapeType, order, counts);
      counts := counts[shapeType := (if shapeType in counts then counts[shapeType] else 0) + 1];
      order := if shapeType in order then order else order + [shapeType];
      i := i + 1;
    }
    return None, order, counts;
  }

  /** A shape that is not a dictionary means not all of them are. */
  lemma NotAllDicts(items: seq<Value>, i: nat)
    requires i < |items| && !items[i].Dict?
    ensures !AllDicts(items)
  {
  }

  /** `max(shape_counts, key=shape_counts.get)`. */
  method MaxCount(order: seq<string>, counts: map<string, nat>, ghost types: seq<string>) returns (best: string)
    requires order != []
    requires Tally(types, order, counts)
    ensures best == MostFrequent(order, types)
  {
    CountsOfCounts(types);
    best := order[0];
    for j := 1 to |order|
      invariant best == MostFrequent(order[..j], types)
    {
      assert order[..j + 1][..j] == order[..j];
      if counts[order[j]] > counts[best] {
        best := order[j];
      }
    }
    assert order[..|order|] == order;
  }

  /** `_update_params_from_features`. The type is set before the feature count is examined, so
      an exception from the count leaves the new type in place. */
  method UpdateParamsFromFeatures(params: PyDict, features: map<string, Value>) returns (error: Option<PyError>)
    requires FeaturesWellTyped(features)
    modifies params
    ensures DictOutcome(params.entries, error) == FeatureUpdate(old(params.entries), features)
  {
    if features == map[] {
      return None;
    }
    if "shapes_detected" in features {
      var shapes := features["shapes_detected"];
      if IsTruthy(shapes) {
        match shapes
        case List(items) =>
          var order: seq<string>;
          var counts: map<string, nat>;
          error, order, counts := CountShapes(items);
          if error.Some? {
            return error;
          }
          assert TypesOf(items)[0] in order;
          var dominant := MaxCount(order, counts, TypesOf(items));
          if dominant == "circle" || dominant == "sphere" {
            params.entries := params.entries["type" := Str("sphere")];
          } else if dominant == "rectangle" || dominant == "square" {
            params.entries := params.entries["type" := Str("cube")];
          }
        case Str(_) => return Some(AttributeError);
        case Dict(_) => return Some(AttributeError);
        case PyNone => return Some(TypeError);
        case Bool(_) => return Some(TypeError);
        case Int(_) => return Some(TypeError);
        case Float(_) => return Some(TypeError);
      }
    }
    if "total_features" in features {
      var count := AsNumber(features["total_features"]);
      if count.None? {
        return Some(TypeError);
      }
      if count.value > 50.0 {
        if "modifiers" !in params.entries {
          return Some(KeyError("modifiers"));
        }
        var modifiers := params.entries["modifiers"];
        if !modifiers.Dict? {
          return Some(TypeError);
        }
        params.entries := params.entries["modifiers" := Dict(modifiers.entries["subdivision" := Subdivision])];
      }
    }
    return None;
  }
}
