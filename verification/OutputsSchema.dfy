/** The `outputs` namespace (crates/nkdhrd/src/namespaces/outputs.rs,
    crates/nkdhr-ipc/src/outputs.rs): one table a connector, with a position and
    a scale, every field of which may be left out. */
module OutputsSchema {
  import opened Wrappers
  import opened Geometry
  import opened DottedKeys
  import opened ConfigTree
  import opened ConfigStore

  const NAMESPACE := "outputs"

  /** Where one output sits and at what scale, before it is validated. */
  datatype OutputPlacement = OutputPlacement(x: int, y: int, scale: real)

  type OutputsSettings = map<string, OutputPlacement>

  const DEFAULT := OutputPlacement(0, 0, 1.0)

  // ---- Reading ---------------------------------------------------------------------

  /** An `i32`: no other kind of number will do. */
  function AsI32(value: Json): Option<int> {
    if value.Int? && InI32(value.n) then Some(value.n) else None
  }

  /** An `f64`, for which an integer will do as well. */
  function AsF64(value: Json): Option<real> {
    match value
    case Int(n) => Some(n as real)
    case Float(x) => Some(x)
    case _ => None
  }

  function Field<T>(entries: map<string, Json>, name: string, read: Json -> Option<T>, default: T): Option<T> {
    if name in entries then read(entries[name]) else Some(default)
  }

  /** One entry: unknown fields are refused, absent ones take their default. */
  function ReadPlacement(value: Json): Option<OutputPlacement> {
    if !value.Object? || !(value.entries.Keys <= {"x", "y", "scale"}) then None
    else
      var x := Field(value.entries, "x", AsI32, DEFAULT.x);
      var y := Field(value.entries, "y", AsI32, DEFAULT.y);
      var scale := Field(value.entries, "scale", AsF64, DEFAULT.scale);
      if x.None? || y.None? || scale.None? then None else Some(OutputPlacement(x.value, y.value, scale.value))
  }

  function ReadSettings(value: Json): Option<OutputsSettings> {
    if !value.Object? || exists name <- value.entries :: ReadPlacement(value.entries[name]).None? then None
    else Some(map name | name in value.entries :: ReadPlacement(value.entries[name]).value)
  }

  /** A character with Unicode's White_Space property, which `trim` removes. */
  predicate IsSpace(c: char) {
    var code := c as int;
    || 0x09 <= code <= 0x0d || code == 0x20 || code == 0x85 || code == 0xa0 || code == 0x1680
    || 0x2000 <= code <= 0x200a || code == 0x2028 || code == 0x2029 || code == 0x202f || code == 0x205f || code == 0x3000
  }

  predicate IsBlank(name: string) {
    forall c <- name :: IsSpace(c)
  }

  /** `validate`. */
  predicate Validates(settings: OutputsSettings) {
    forall connector <- settings :: !IsBlank(connector) && '.' !in connector && settings[connector].scale > 0.0
  }

  // ---- Writing ---------------------------------------------------------------------

  function PlacementTree(placement: OutputPlacement): Json {
    Object(map["x" := Int(placement.x), "y" := Int(placement.y), "scale" := Float(placement.scale)])
  }

  function SettingsTree(settings: OutputsSettings): Json {
    Object(map connector | connector in settings :: PlacementTree(settings[connector]))
  }

  /** `parse_and_validate`: the materialized form of a valid tree. */
  function ParseOutputs(value: Json): Result<Json, string> {
    match ReadSettings(value)
    case None => Err("malformed")
    case Some(settings) => if Validates(settings) then Ok(SettingsTree(settings)) else Err("invalid")
  }

  function Outputs(): Schema {
    Schema(NAMESPACE, ParseOutputs)
  }

  // ---- Materialized trees ------------------------------------------------------------

  ghost predicate InRange(settings: OutputsSettings) {
    forall connector <- settings :: InI32(settings[connector].x) && InI32(settings[connector].y)
  }

  lemma PlacementRoundTrip(placement: OutputPlacement)
    requires InI32(placement.x) && InI32(placement.y)
    ensures ReadPlacement(PlacementTree(placement)) == Some(placement)
  {
  }

  /** Reading what was written gives the settings back. */
  lemma SettingsRoundTrip(settings: OutputsSettings)
    requires InRange(settings)
    ensures ReadSettings(SettingsTree(settings)) == Some(settings)
  {
    forall connector <- settings ensures ReadPlacement(PlacementTree(settings[connector])) == Some(settings[connector]) {
      PlacementRoundTrip(settings[connector]);
    }
    var entries := SettingsTree(settings).entries;
    assert forall name <- entries :: ReadPlacement(entries[name]) == Some(settings[name]);
    assert (map name | name in entries :: ReadPlacement(entries[name]).value) == settings;
  }

  lemma ReadSettingsAreInRange(value: Json)
    requires ReadSettings(value).Some?
    ensures InRange(ReadSettings(value).value)
  {
    forall name <- value.entries ensures InI32(ReadPlacement(value.entries[name]).value.x) && InI32(ReadPlacement(value.entries[name]).value.y) {
      assert ReadPlacement(value.entries[name]).Some?;
    }
  }

  function FieldOf(placement: OutputPlacement, field: string): Option<Json> {
    if field == "x" then Some(Int(placement.x))
    else if field == "y" then Some(Int(placement.y))
    else if field == "scale" then Some(Float(placement.scale))
    else None
  }

  /** The values of an arrangement: three a connector, and no others. */
  lemma LeavesOfSettings(settings: OutputsSettings, path: seq<string>)
    ensures LeafAt(SettingsTree(settings), path)
         == if |path| == 2 && path[0] in settings then FieldOf(settings[path[0]], path[1]) else None
  {
    if path != [] && path[0] in settings {
      var entry := PlacementTree(settings[path[0]]);
      assert LeafAt(SettingsTree(settings), path) == LeafAt(entry, path[1..]);
      if |path| > 1 && path[1] in entry.entries {
        assert LeafAt(entry, path[1..]) == LeafAt(entry.entries[path[1]], path[1..][1..]);
      }
    }
  }

  lemma SettingsTreesAreAddressable(settings: OutputsSettings)
    requires Validates(settings)
    ensures Addressable(SettingsTree(settings))
  {
    forall connector <- settings ensures IsSegment(connector) && Addressable(PlacementTree(settings[connector])) {
      var entries := PlacementTree(settings[connector]).entries;
      forall name <- entries ensures IsSegment(name) && Addressable(entries[name]) {
        assert IsSegment("x") && IsSegment("y") && IsSegment("scale");
      }
    }
  }

  /** The schema keeps what the store asks of one. */
  lemma OutputsIsAGoodSchema()
    ensures GoodSchema(Outputs())
    ensures ParseOutputs(Object(map[])) == Ok(Object(map[]))
  {
    forall value | ParseOutputs(value).Ok? ensures IsMaterialized(Outputs(), ParseOutputs(value).value) {
      var settings := ReadSettings(value).value;
      ReadSettingsAreInRange(value);
      SettingsRoundTrip(settings);
      SettingsTreesAreAddressable(settings);
    }
    SettingsRoundTrip(map[]);
    assert SettingsTree(map[]) == Object(map[]);
  }

  // ---- Setting one value ----------------------------------------------------------------

  /** The placement with one field replaced, if the value will do for it. */
  function WithField(placement: OutputPlacement, field: string, value: Json): Option<OutputPlacement> {
    if field == "x" then if AsI32(value).Some? then Some(placement.(x := AsI32(value).value)) else None
    else if field == "y" then if AsI32(value).Some? then Some(placement.(y := AsI32(value).value)) else None
    else if field == "scale" then if AsF64(value).Some? then Some(placement.(scale := AsF64(value).value)) else None
    else None
  }

  /** What is stored for an accepted value. */
  function Stored(field: string, value: Json): Json {
    if field == "scale" && AsF64(value).Some? then Float(AsF64(value).value) else value
  }

  lemma ChangedPlacementReads(placement: OutputPlacement, field: string, value: Json)
    requires InI32(placement.x) && InI32(placement.y) && FieldOf(placement, field).Some?
    ensures ReadPlacement(Object(PlacementTree(placement).entries[field := value])) == WithField(placement, field, value)
  {
  }

  /** Replacing one value of a materialized tree parses to the arrangement with
      that field replaced, or not at all. */
  lemma ChangedTreeReads(settings: OutputsSettings, connector: string, field: string, value: Json)
    requires InRange(settings) && connector in settings && FieldOf(settings[connector], field).Some?
    ensures var changed := WithField(settings[connector], field, value);
      && SetLeaf(SettingsTree(settings), [connector, field], value).Some?
      && ReadSettings(SetLeaf(SettingsTree(settings), [connector, field], value).value)
         == if changed.None? then None else Some(settings[connector := changed.value])
  {
    var tree := SettingsTree(settings);
    var entry := Object(PlacementTree(settings[connector]).entries[field := value]);
    var candidate := Object(tree.entries[connector := entry]);
    assert [connector, field][1..] == [field];
    assert tree.entries[connector] == PlacementTree(settings[connector]);
    assert SetLeaf(tree.entries[connector], [field], value) == Some(entry);
    assert SetLeaf(tree, [connector, field], value) == Some(candidate);
    ChangedPlacementReads(settings[connector], field, value);
    forall name <- candidate.entries | name != connector
      ensures ReadPlacement(candidate.entries[name]) == Some(settings[name])
    {
      PlacementRoundTrip(settings[name]);
    }
    var changed := WithField(settings[connector], field, value);
    if changed.Some? {
      assert forall name <- candidate.entries :: ReadPlacement(candidate.entries[name]).Some?;
      assert (map name | name in candidate.entries :: ReadPlacement(candidate.entries[name]).value) == settings[connector := changed.value];
    } else {
      assert ReadPlacement(candidate.entries[connector]).None?;
    }
  }

  /** The cache holds a valid arrangement. */
  ghost predicate CachesSettings(cache: map<string, Json>, settings: OutputsSettings) {
    NAMESPACE in cache && cache[NAMESPACE] == SettingsTree(settings) && Validates(settings) && InRange(settings)
  }

  /** A good cache of a registry with this schema holds an arrangement. */
  lemma GoodCachesHoldSettings(schemas: seq<Schema>, cache: map<string, Json>)
    requires GoodCache(schemas, cache) && FindSchema(schemas, NAMESPACE).Some?
    requires forall value :: FindSchema(schemas, NAMESPACE).value.parse(value) == ParseOutputs(value)
    ensures NAMESPACE in cache && ReadSettings(cache[NAMESPACE]).Some?
    ensures CachesSettings(cache, ReadSettings(cache[NAMESPACE]).value)
  {
    var schema := FindSchema(schemas, NAMESPACE).value;
    assert IsMaterialized(schema, cache[NAMESPACE]);
    assert ParseOutputs(cache[NAMESPACE]) == Ok(cache[NAMESPACE]);
    ReadSettingsAreInRange(cache[NAMESPACE]);
  }

  /** The request names a value of the arrangement and carries one that will do
      for it. */
  predicate Settable(settings: OutputsSettings, key: string, value: Json) {
    var segments := Split(key);
    && |segments| == 3 && segments[0] == NAMESPACE && segments[1] in settings
    && FieldOf(settings[segments[1]], segments[2]).Some?
    && var changed := WithField(settings[segments[1]], segments[2], value);
       changed.Some? && changed.value.scale > 0.0
  }

  /** The arrangement after an accepted request. */
  function Adjusted(settings: OutputsSettings, key: string, value: Json): OutputsSettings
    requires Settable(settings, key, value)
  {
    var segments := Split(key);
    settings[segments[1] := WithField(settings[segments[1]], segments[2], value).value]
  }

  lemma SettableIsStored(schemas: seq<Schema>, s: Store, settings: OutputsSettings, key: string, value: Json)
    requires CachesSettings(s.cache, settings) && FindSchema(schemas, NAMESPACE).Some?
    requires forall v :: FindSchema(schemas, NAMESPACE).value.parse(v) == ParseOutputs(v)
    requires Settable(settings, key, value)
    ensures var tree := SettingsTree(Adjusted(settings, key, value));
      && CachesSettings(s.cache[NAMESPACE := tree], Adjusted(settings, key, value))
      && SetValue(schemas, s, key, value, true)
         == (Store(s.cache[NAMESPACE := tree], s.files[NAMESPACE := Tree(tree)]), Ok(Stored(Split(key)[2], value)))
      && SetValue(schemas, s, key, value, false) == (s, Err(Io))
  {
    SettableKeysSplit(settings, key, value);
    var path := Split(key)[1..];
    ChangedTreeReads(settings, path[0], path[1], value);
    StoredLeaf(settings, key, value);
    var tree := SettingsTree(Adjusted(settings, key, value));
    assert ParseOutputs(SetLeaf(s.cache[NAMESPACE], path, value).value) == Ok(tree);
  }

  lemma SettableKeysSplit(settings: OutputsSettings, key: string, value: Json)
    requires Settable(settings, key, value) && Validates(settings) && InRange(settings)
    ensures var path := Split(key)[1..];
      && SplitKey(key) == Ok((NAMESPACE, path)) && path == [path[0], path[1]]
      && Validates(Adjusted(settings, key, value)) && InRange(Adjusted(settings, key, value))
  {
    assert IsBlank("");
    ExtensionOfSplit(key);
    var segments := Split(key);
    assert segments == [segments[0], segments[1], segments[2]];
    assert FieldOf(settings[segments[1]], segments[2]).Some? ==> segments[2] != "";
  }

  lemma StoredLeaf(settings: OutputsSettings, key: string, value: Json)
    requires Settable(settings, key, value)
    ensures NavigateLeaf(SettingsTree(Adjusted(settings, key, value)), Split(key)[1..], key) == Ok(Stored(Split(key)[2], value))
  {
    LeavesOfSettings(Adjusted(settings, key, value), Split(key)[1..]);
  }

  lemma UnsettableIsRefused(schemas: seq<Schema>, s: Store, settings: OutputsSettings, key: string, value: Json, writes: bool)
    requires CachesSettings(s.cache, settings) && FindSchema(schemas, NAMESPACE).Some?
    requires forall v :: FindSchema(schemas, NAMESPACE).value.parse(v) == ParseOutputs(v)
    requires SplitKey(key).Ok? && SplitKey(key).value.0 == NAMESPACE && !Settable(settings, key, value)
    ensures SetValue(schemas, s, key, value, writes).0 == s && SetValue(schemas, s, key, value, writes).1.Err?
  {
    var path := SplitKey(key).value.1;
    if path != [] && SetLeaf(SettingsTree(settings), path, value).Some? {
      var parsed := ParseOutputs(SetLeaf(SettingsTree(settings), path, value).value);
      if |path| == 2 {
        UnsettableFieldIsInvalid(settings, key, path, value);
      } else if parsed.Ok? {
        OnlyFieldsAreLeaves(parsed.value, path);
      }
    }
  }

  lemma UnsettableFieldIsInvalid(settings: OutputsSettings, key: string, path: seq<string>, value: Json)
    requires Validates(settings) && InRange(settings) && SplitKey(key) == Ok((NAMESPACE, path)) && |path| == 2
    requires !Settable(settings, key, value) && SetLeaf(SettingsTree(settings), path, value).Some?
    ensures ParseOutputs(SetLeaf(SettingsTree(settings), path, value).value).Err?
  {
    assert path == [path[0], path[1]];
    SetLeafChangesOnePath(SettingsTree(settings), path, value, []);
    TwoSegmentsNameAField(settings, path[0], path[1]);
    ChangedTreeReads(settings, path[0], path[1], value);
  }

  lemma TwoSegmentsNameAField(settings: OutputsSettings, connector: string, field: string)
    requires Navigate(SettingsTree(settings), [connector, field]).Some?
    ensures connector in settings && FieldOf(settings[connector], field).Some?
  {
    assert [connector, field][1..] == [field];
    var entry := SettingsTree(settings).entries[connector];
    assert Navigate(entry, [field]).Some?;
  }

  lemma OnlyFieldsAreLeaves(tree: Json, path: seq<string>)
    requires |path| != 2 && exists value :: ParseOutputs(value) == Ok(tree)
    ensures LeafAt(tree, path).None?
  {
    var value :| ParseOutputs(value) == Ok(tree);
    LeavesOfSettings(ReadSettings(value).value, path);
  }

  /** What `set` owes its callers on this namespace: it succeeds exactly for a
      value that exists, given what will do for it; it then changes that value
      alone, in memory and in the file, and otherwise neither of them. */
  lemma SetChangesOneValue(
    schemas: seq<Schema>, s: Store, settings: OutputsSettings, key: string, value: Json, writes: bool, other: string)
    requires CachesSettings(s.cache, settings) && FindSchema(schemas, NAMESPACE).Some?
    requires forall v :: FindSchema(schemas, NAMESPACE).value.parse(v) == ParseOutputs(v)
    requires SplitKey(key).Ok? && SplitKey(key).value.0 == NAMESPACE
    ensures var (t, r) := SetValue(schemas, s, key, value, writes);
      && (r.Ok? <==> Settable(settings, key, value) && writes)
      && (r.Err? ==> t == s)
      && (r.Ok? ==> Get(t.cache, key) == r && t.files == s.files[NAMESPACE := Tree(t.cache[NAMESPACE])])
      && (other != key ==> forall v :: Get(t.cache, other) == Ok(v) <==> Get(s.cache, other) == Ok(v))
  {
    if !Settable(settings, key, value) {
      UnsettableIsRefused(schemas, s, settings, key, value, writes);
    } else {
      SettableIsStored(schemas, s, settings, key, value);
      SettableKeysSplit(settings, key, value);
      var adjusted := Adjusted(settings, key, value);
      if writes {
        OneValueDiffers(settings, adjusted, s.cache, key, value, key);
        OneValueDiffers(settings, adjusted, s.cache, key, value, other);
      }
    }
  }

  /** The value a dotted key of the namespace names, if any. */
  function ValueAt(settings: OutputsSettings, key: string): Option<Json> {
    var segments := Split(key);
    if |segments| == 3 && segments[1] in settings then FieldOf(settings[segments[1]], segments[2]) else None
  }

  lemma GetReadsTheArrangement(cache: map<string, Json>, settings: OutputsSettings, key: string, v: Json)
    requires CachesSettings(cache, settings) && Split(key)[0] == NAMESPACE
    ensures Get(cache, key) == Ok(v) <==> ValueAt(settings, key) == Some(v)
  {
    var path := Split(key)[1..];
    LeavesOfSettings(settings, path);
    assert IsBlank("");
  }

  lemma OneValueDiffers(
    settings: OutputsSettings, adjusted: OutputsSettings, cache: map<string, Json>, key: string, value: Json, other: string)
    requires CachesSettings(cache, settings) && Settable(settings, key, value) && adjusted == Adjusted(settings, key, value)
    requires Validates(adjusted) && InRange(adjusted)
    ensures var after := cache[NAMESPACE := SettingsTree(adjusted)];
      forall v :: Get(after, other) == Ok(v) <==> if other == key then v == Stored(Split(key)[2], value) else Get(cache, other) == Ok(v)
  {
    var after := cache[NAMESPACE := SettingsTree(adjusted)];
    if Split(other)[0] == NAMESPACE {
      OneFieldDiffers(settings, key, value, other);
      forall v ensures Get(after, other) == Ok(v) <==> ValueAt(adjusted, other) == Some(v) {
        GetReadsTheArrangement(after, adjusted, other, v);
      }
      forall v ensures Get(cache, other) == Ok(v) <==> ValueAt(settings, other) == Some(v) {
        GetReadsTheArrangement(cache, settings, other, v);
      }
    }
  }

  lemma OneFieldDiffers(settings: OutputsSettings, key: string, value: Json, other: string)
    requires Settable(settings, key, value) && Split(other)[0] == NAMESPACE
    ensures ValueAt(Adjusted(settings, key, value), other)
         == if other == key then Some(Stored(Split(key)[2], value)) else ValueAt(settings, other)
  {
    ExtensionOfSplit(key);
    ExtensionOfSplit(other);
    var mine, its := Split(key), Split(other);
    if |its| == 3 && its[1] == mine[1] && its[2] == mine[2] { assert its == mine; }
  }
}
