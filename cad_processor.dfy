/** The 3D-printing constraints the CAD processor applies to an adapter geometry: the
    material's minimum wall thickness and the fixed print settings, written into the geometry
    dictionary in place. */
module CadProcessor {

  import opened PyCore

  /** The minimum wall thickness, in millimetres, of each material with an entry. */
  const MinWallThickness: map<string, real> := map["PLA" := 1.2, "PETG" := 1.0, "ABS" := 1.5, "TPU" := 2.0]

  /** The threshold a material is compared with: its own minimum, else 1.2. */
  function WallThreshold(material: string): (t: real)
    ensures material in MinWallThickness ==> t == MinWallThickness[material]
    ensures material !in MinWallThickness ==> t == 1.2
  {
    if material in MinWallThickness then MinWallThickness[material] else 1.2
  }

  /** The print settings every geometry receives. */
  const PrintFeatures: Value := Dict(map[
    "layer_height" := Float(0.2),
    "infill_percentage" := Int(100),
    "support_overhang_angle" := Int(45),
    "bridge_distance" := Int(5)])

  /** The wall-thickness step alone: the new `dimensions` dictionary, or the exception. The
      threshold is read with a default, the new value by indexing, so an unknown material
      with a thin wall raises `KeyError`. */
  function ClampWall(dimensions: Value, material: string): (r: Result<map<string, Value>>)
    ensures r.Ok? ==> dimensions.Dict? && r.value.Keys == dimensions.entries.Keys
    ensures r.Ok? ==> forall k :: k in dimensions.entries && k != "wall_thickness" ==> r.value[k] == dimensions.entries[k]
    ensures r.Raised? <==>
      || !dimensions.Dict?
      || "wall_thickness" !in dimensions.entries
      || AsNumber(dimensions.entries["wall_thickness"]).None?
      || (material !in MinWallThickness && AsNumber(dimensions.entries["wall_thickness"]).value < 1.2)
  {
    if !dimensions.Dict? then Raised(TypeError)
    else if "wall_thickness" !in dimensions.entries then Raised(KeyError("wall_thickness"))
    else
      match AsNumber(dimensions.entries["wall_thickness"])
      case None => Raised(TypeError)
      case Some(wall) =>
        if wall < WallThreshold(material) then
          if material in MinWallThickness then
            Ok(dimensions.entries["wall_thickness" := Float(MinWallThickness[material])])
          else Raised(KeyError(material))
        else Ok(dimensions.entries)
  }

  /** `apply_3d_printing_constraints` on the entries of `geometry`. */
  function Constrained(geometry: map<string, Value>, material: string): (o: DictOutcome)
    ensures o.error.Some? ==> o.entries == geometry
    ensures o.error.None? ==> o.entries.Keys == geometry.Keys + {"print_features"}
    ensures o.error.None? ==> o.entries["print_features"] == PrintFeatures
    ensures o.error.None? ==> forall k :: k in geometry && k != "dimensions" && k != "print_features" ==>
      o.entries[k] == geometry[k]
  {
    if "dimensions" !in geometry then DictOutcome(geometry, Some(KeyError("dimensions")))
    else
      match ClampWall(geometry["dimensions"], material)
      case Raised(e) => DictOutcome(geometry, Some(e))
      case Ok(dimensions) => DictOutcome(geometry["dimensions" := Dict(dimensions)]["print_features" := PrintFeatures], None)
  }

  /** The wall thickness a geometry holds. */
  function WallOf(geometry: map<string, Value>): Option<real> {
    if "dimensions" in geometry && geometry["dimensions"].Dict? && "wall_thickness" in geometry["dimensions"].entries
    then AsNumber(geometry["dimensions"].entries["wall_thickness"])
    else None
  }

  /** For a listed material the wall ends at least at the material's minimum: raised to it
      when thinner, left alone otherwise. */
  lemma WallReachesMinimum(geometry: map<string, Value>, material: string)
    requires material in MinWallThickness && WallOf(geometry).Some?
    ensures Constrained(geometry, material).error.None?
    ensures var wall := WallOf(geometry).value;
      var after := WallOf(Constrained(geometry, material).entries);
      && after.Some?
      && after.value >= MinWallThickness[material]
      && (wall < MinWallThickness[material] ==> after.value == MinWallThickness[material])
      && (wall >= MinWallThickness[material] ==>
            after.value == wall && Constrained(geometry, material).entries["dimensions"] == geometry["dimensions"])
  {
  }

  /** An unlisted material with a wall under 1.2 raises `KeyError` and changes nothing; with a
      wall of 1.2 or more the wall is kept. */
  lemma UnknownMaterial(geometry: map<string, Value>, material: string)
    requires material !in MinWallThickness && WallOf(geometry).Some?
    ensures WallOf(geometry).value < 1.2 ==>
      Constrained(geometry, material) == DictOutcome(geometry, Some(KeyError(material)))
    ensures WallOf(geometry).value >= 1.2 ==>
      Constrained(geometry, material).error.None?
      && Constrained(geometry, material).entries == geometry["print_features" := PrintFeatures]
  {
    if WallOf(geometry).value >= 1.2 {
      assert geometry["dimensions"] == Dict(geometry["dimensions"].entries);
    }
  }

  /** Applying the constraints a second time changes nothing more. */
  lemma ConstrainedIdempotent(geometry: map<string, Value>, material: string)
    requires Constrained(geometry, material).error.None?
    ensures Constrained(Constrained(geometry, material).entries, material) == Constrained(geometry, material)
  {
    var once := Constrained(geometry, material).entries;
    var dims := ClampWall(geometry["dimensions"], material).value;
    assert once["dimensions"] == Dict(dims);
    var wall := AsNumber(dims["wall_thickness"]).value;
    assert wall >= WallThreshold(material);
    assert ClampWall(once["dimensions"], material) == Ok(dims);
    assert once["dimensions" := Dict(dims)] == once;
    assert once["print_features" := PrintFeatures] == once;
  }

  /** The adapter geometry the processor produces: PLA leaves its 2 mm wall as it is. */
  lemma AdapterWallKept()
    ensures var geometry := map["dimensions" := Dict(map["length" := Int(20), "wall_thickness" := Int(2)])];
      Constrained(geometry, "PLA").entries["dimensions"] == geometry["dimensions"]
  {
  }

  /** `apply_3d_printing_constraints`: the same dictionary comes back, updated in place. */
  method ApplyPrintingConstraints(geometry: PyDict, material: string) returns (r: Result<PyDict>)
    modifies geometry
    ensures r.Ok? <==> Constrained(old(geometry.entries), material).error.None?
    ensures r.Ok? ==> r.value == geometry
    ensures r.Raised? ==> r.error == Constrained(old(geometry.entries), material).error.value
    ensures geometry.entries == Constrained(old(geometry.entries), material).entries
  {
    if "dimensions" !in geometry.entries {
      return Raised(KeyError("dimensions"));
    }
    var dimensions := geometry.entries["dimensions"];
    if !dimensions.Dict? {
      return Raised(TypeError);
    }
    if "wall_thickness" !in dimensions.entries {
      return Raised(KeyError("wall_thickness"));
    }
    var wall := AsNumber(dimensions.entries["wall_thickness"]);
    if wall.None? {
      return Raised(TypeError);
    }
    if wall.value < WallThreshold(material) {
      if material !in MinWallThickness {
        return Raised(KeyError(material));
      }
      var thicker := Dict(dimensions.entries["wall_thickness" := Float(MinWallThickness[material])]);
      geometry.entries := geometry.entries["dimensions" := thicker];
    }
    geometry.entries := geometry.entries["print_features" := PrintFeatures];
    return Ok(geometry);
  }
}
