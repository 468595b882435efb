/** The arrangement on the wire: values as D-Bus variants
    (crates/nkdhrd/src/backends/config_store.rs) and the compositor's decoder of
    the flattened view (crates/nkdhr-compositor/src/outputs.rs, `decode_flat`). */
module Wire {
  import opened Wrappers
  import opened Geometry
  import opened DottedKeys
  import opened ConfigTree
  import opened ConfigStore
  import opened OutputsSchema
  import Outputs

  type u8 = n: int | 0 <= n < 0x100
  type i16 = n: int | -0x8000 <= n < 0x8000
  type u16 = n: int | 0 <= n < 0x1_0000
  type i32 = n: int | I32_MIN <= n <= I32_MAX
  type u32 = n: int | 0 <= n < 0x1_0000_0000
  type i64 = n: int | -0x8000_0000_0000_0000 <= n < 0x8000_0000_0000_0000
  type u64 = n: int | 0 <= n < 0x1_0000_0000_0000_0000

  /** A double: a number, or an infinity or NaN. */
  datatype Double = Finite(r: real) | NotFinite

  datatype Variant =
    | U8(u8: u8) | I16(i16: i16) | U16(u16: u16) | I32(i32: i32) | U32(u32: u32) | I64(i64: i64) | U64(u64: u64)
    | F64(f64: Double)
    | Truth(b: bool)
    | Str(s: string)
    | OtherValue

  // ---- The store's side --------------------------------------------------------------

  /** `json_to_variant`. */
  function JsonToVariant(value: Json): Result<Variant, ConfigError> {
    match value
    case Bool(b) => Ok(Truth(b))
    case Int(n) => if -0x8000_0000_0000_0000 <= n < 0x8000_0000_0000_0000 then Ok(I64(n)) else Ok(F64(Finite(n as real)))
    case Float(x) => Ok(F64(Finite(x)))
    case Text(s) => Ok(Str(s))
    case _ => Err(Invalid("unsupported"))
  }

  /** `variant_to_json`; a number that is not finite becomes null. */
  function VariantToJson(value: Variant): Result<Json, ConfigError> {
    match value
    case U8(n) => Ok(Int(n))
    case I16(n) => Ok(Int(n))
    case U16(n) => Ok(Int(n))
    case I32(n) => Ok(Int(n))
    case U32(n) => Ok(Int(n))
    case I64(n) => Ok(Int(n))
    case U64(n) => Ok(Int(n))
    case F64(x) => Ok(if x.Finite? then Float(x.r) else Null)
    case Truth(b) => Ok(Bool(b))
    case Str(s) => Ok(Text(s))
    case OtherValue => Err(Invalid("unsupported"))
  }

  /** Sending a value and setting what was received stores it again, as long as
      its integers fit 64 bits. */
  lemma VariantRoundTrip(value: Json)
    requires value.Bool? || value.Int? || value.Float? || value.Text?
    ensures JsonToVariant(value).Ok?
    ensures VariantToJson(JsonToVariant(value).value) == Ok(value)
            <==> (value.Int? ==> -0x8000_0000_0000_0000 <= value.n < 0x8000_0000_0000_0000)
  {
  }

  // ---- The compositor's side -------------------------------------------------------------

  /** `split_once('.')`. */
  function SplitOnce(s: string): Option<(string, string)> {
    if s == "" then None
    else if s[0] == '.' then Some(("", s[1..]))
    else match SplitOnce(s[1..])
      case None => None
      case Some((before, after)) => Some(([s[0]] + before, after))
  }

  /** The connector and field of a key `decode_flat` takes notice of. */
  function WireParts(key: string): Option<(string, string)> {
    if !(NAMESPACE + "." <= key) then None
    else match SplitOnce(key[|NAMESPACE| + 1..])
      case None => None
      case Some((connector, field)) => if connector == "" || '.' in field then None else Some((connector, field))
  }

  function WireKey(connector: string, field: string): string {
    NAMESPACE + "." + connector + "." + field
  }

  /** `assign_i32`'s conversion. */
  function ToI32(value: Variant): Option<int> {
    match value
    case U8(n) => Some(n)
    case I16(n) => Some(n)
    case U16(n) => Some(n)
    case I32(n) => Some(n)
    case U32(n) => if n <= I32_MAX then Some(n) else None
    case I64(n) => if InI32(n) then Some(n) else None
    case U64(n) => if n <= I32_MAX then Some(n) else None
    case _ => None
  }

  /** `as_f64`. */
  function ToDouble(value: Variant): Option<Double> {
    match value
    case F64(x) => Some(x)
    case U8(n) => Some(Finite(n as real))
    case I16(n) => Some(Finite(n as real))
    case U16(n) => Some(Finite(n as real))
    case I32(n) => Some(Finite(n as real))
    case U32(n) => Some(Finite(n as real))
    case I64(n) => Some(Finite(n as real))
    case U64(n) => Some(Finite(n as real))
    case _ => None
  }

  /** A usable scale: finite and positive. */
  function ToScale(value: Variant): Option<Outputs.Scale> {
    match ToDouble(value)
    case Some(Finite(r)) => if r > 0.0 then Some(r) else None
    case _ => None
  }

  /** One value assigned to its field, or ignored. */
  function Assign(placement: Outputs.Placement, field: string, value: Variant): Outputs.Placement {
    if field == "x" then placement.(x := if ToI32(value).Some? then ToI32(value).value else placement.x)
    else if field == "y" then placement.(y := if ToI32(value).Some? then ToI32(value).value else placement.y)
    else if field == "scale" then placement.(scale := if ToScale(value).Some? then ToScale(value).value else placement.scale)
    else placement
  }

  /** The value a connector's field has on the wire. */
  function FieldIn(values: map<string, Variant>, connector: string, field: string): Option<Variant> {
    if WireKey(connector, field) in values then Some(values[WireKey(connector, field)]) else None
  }

  function PositionOr(value: Option<Variant>, default: int): int {
    if value.Some? && ToI32(value.value).Some? then ToI32(value.value).value else default
  }

  function ScaleOr(value: Option<Variant>, default: Outputs.Scale): Outputs.Scale {
    if value.Some? && ToScale(value.value).Some? then ToScale(value.value).value else default
  }

  /** What the values say of one connector, each field on its own. */
  function PlacementFrom(values: map<string, Variant>, connector: string): Outputs.Placement {
    Outputs.Placement(
      PositionOr(FieldIn(values, connector, "x"), 0),
      PositionOr(FieldIn(values, connector, "y"), 0),
      ScaleOr(FieldIn(values, connector, "scale"), 1.0))
  }

  function Connectors(values: map<string, Variant>): set<string> {
    set key | key in values && WireParts(key).Some? :: WireParts(key).value.0
  }

  /** The arrangement the values describe, with no order to read them in. */
  function Described(values: map<string, Variant>): Outputs.Placements {
    map connector | connector in Connectors(values) :: PlacementFrom(values, connector)
  }

  lemma {:induction false} SplitOnceJoins(a: string, b: string)
    requires '.' !in a
    ensures SplitOnce(a + "." + b) == Some((a, b))
  {
    if a != "" {
      assert (a + "." + b)[1..] == a[1..] + "." + b;
      SplitOnceJoins(a[1..], b);
      assert [a[0]] + a[1..] == a;
    } else {
      assert a + "." + b == "." + b;
    }
  }

  lemma {:induction false} SplitOnceUndone(s: string)
    ensures SplitOnce(s).Some? ==> '.' !in SplitOnce(s).value.0 && s == SplitOnce(s).value.0 + "." + SplitOnce(s).value.1
  {
    if s != "" && s[0] != '.' { SplitOnceUndone(s[1..]); }
  }

  /** A key has these parts exactly when it is written from them. */
  lemma WirePartsAreTheKey(key: string, connector: string, field: string)
    ensures WireParts(key) == Some((connector, field)) <==>
              key == WireKey(connector, field) && IsSegment(connector) && '.' !in field
  {
    if WireParts(key).Some? {
      SplitOnceUndone(key[|NAMESPACE| + 1..]);
      assert key == NAMESPACE + "." + key[|NAMESPACE| + 1..];
    }
    if key == WireKey(connector, field) && IsSegment(connector) && '.' !in field {
      assert key[|NAMESPACE| + 1..] == connector + "." + field;
      SplitOnceJoins(connector, field);
    }
  }

  /** Reading one more value, whichever it is, describes one more. */
  lemma AssignedNext(values: map<string, Variant>, key: string, value: Variant)
    requires key !in values && WireParts(key).Some?
    ensures var (connector, field) := WireParts(key).value;
      var before := Described(values);
      var placement := if connector in before then before[connector] else Outputs.DEFAULT_PLACEMENT;
      Described(values[key := value]) == before[connector := Assign(placement, field, value)]
  {
    var (connector, field) := WireParts(key).value;
    WirePartsAreTheKey(key, connector, field);
    var after := values[key := value];
    assert Connectors(after) == Connectors(values) + {connector};
    if connector !in Connectors(values) { UnknownConnectorIsDefault(values, connector); }
    forall other | other in Connectors(after) && other != connector
      ensures PlacementFrom(after, other) == PlacementFrom(values, other)
    {
      ConnectorsAreSegments(after, other);
      KeysTellConnectorsApart(key, connector, other);
    }
    AssignsItsField(values, connector, field, value);
  }

  lemma AssignsItsField(values: map<string, Variant>, connector: string, field: string, value: Variant)
    requires IsSegment(connector) && '.' !in field && WireKey(connector, field) !in values
    ensures PlacementFrom(values[WireKey(connector, field) := value], connector)
         == Assign(PlacementFrom(values, connector), field, value)
  {
    var after := values[WireKey(connector, field) := value];
    forall name | name in {"x", "y", "scale"}
      ensures FieldIn(after, connector, name) == if name == field then Some(value) else FieldIn(values, connector, name)
    {
      OneFieldAtATime(values, connector, field, value, name);
    }
    assert FieldIn(values, connector, field).None?;
  }

  lemma OneFieldAtATime(values: map<string, Variant>, connector: string, field: string, value: Variant, name: string)
    requires IsSegment(connector) && '.' !in field && '.' !in name
    ensures FieldIn(values[WireKey(connector, field) := value], connector, name)
         == if name == field then Some(value) else FieldIn(values, connector, name)
  {
    WirePartsAreTheKey(WireKey(connector, field), connector, field);
    WirePartsAreTheKey(WireKey(connector, field), connector, name);
  }

  lemma ConnectorsAreSegments(values: map<string, Variant>, connector: string)
    requires connector in Connectors(values)
    ensures IsSegment(connector)
  {
    var key :| key in values && WireParts(key).Some? && WireParts(key).value.0 == connector;
    WirePartsAreTheKey(key, connector, WireParts(key).value.1);
  }

  lemma UnknownConnectorIsDefault(values: map<string, Variant>, connector: string)
    requires IsSegment(connector) && connector !in Connectors(values)
    ensures PlacementFrom(values, connector) == Outputs.DEFAULT_PLACEMENT
  {
    WirePartsAreTheKey(WireKey(connector, "x"), connector, "x");
    WirePartsAreTheKey(WireKey(connector, "y"), connector, "y");
    WirePartsAreTheKey(WireKey(connector, "scale"), connector, "scale");
  }

  lemma KeysTellConnectorsApart(key: string, connector: string, other: string)
    requires WireParts(key).Some? && WireParts(key).value.0 == connector
    ensures other != connector && IsSegment(other) ==>
              key != WireKey(other, "x") && key != WireKey(other, "y") && key != WireKey(other, "scale")
  {
    WirePartsAreTheKey(key, other, "x");
    WirePartsAreTheKey(key, other, "y");
    WirePartsAreTheKey(key, other, "scale");
  }

  /** What one key and its value make of the placements read so far. */
  function ReadOne(placements: Outputs.Placements, key: string, value: Variant): Outputs.Placements {
    match WireParts(key)
    case None => placements
    case Some((connector, field)) =>
      var placement := if connector in placements then placements[connector] else Outputs.DEFAULT_PLACEMENT;
      placements[connector := Assign(placement, field, value)]
  }

  lemma ReadOneDescribesOneMore(values: map<string, Variant>, key: string, value: Variant)
    requires key !in values
    ensures Described(values[key := value]) == ReadOne(Described(values), key, value)
  {
    if WireParts(key).Some? { AssignedNext(values, key, value); } else { IgnoredKeysDescribeNothing(values, key, value); }
  }

  /** `decode_flat`, over the values in whatever order they come. */
  method DecodeFlat(values: map<string, Variant>) returns (placements: Outputs.Placements)
    ensures placements == Described(values)
  {
    placements := map[];
    ghost var read: map<string, Variant> := map[];
    var todo := values.Keys;
    while todo != {}
      invariant read.Keys !! todo && read.Keys + todo == values.Keys
      invariant forall key <- read :: read[key] == values[key]
      invariant placements == Described(read)
    {
      var key :| key in todo;
      ReadOneDescribesOneMore(read, key, values[key]);
      placements := ReadOne(placements, key, values[key]);
      read := read[key := values[key]];
      todo := todo - {key};
    }
    assert read == values;
  }

  lemma IgnoredKeysDescribeNothing(values: map<string, Variant>, key: string, value: Variant)
    requires WireParts(key).None?
    ensures Described(values[key := value]) == Described(values)
  {
    forall connector | connector in Connectors(values)
      ensures PlacementFrom(values[key := value], connector) == PlacementFrom(values, connector)
    {
      var other :| other in values && WireParts(other).Some? && WireParts(other).value.0 == connector;
      WirePartsAreTheKey(other, connector, WireParts(other).value.1);
      WirePartsAreTheKey(key, connector, "x");
      WirePartsAreTheKey(key, connector, "y");
      WirePartsAreTheKey(key, connector, "scale");
    }
  }

  // ---- The round trip ----------------------------------------------------------------------

  /** The flattened view as `GetAll` sends it. */
  function ToWire(view: map<string, Json>): map<string, Variant> {
    map key | key in view && JsonToVariant(view[key]).Ok? :: JsonToVariant(view[key]).value
  }

  /** A valid arrangement as the compositor knows it. */
  function Arrangement(settings: OutputsSettings): Outputs.Placements
    requires Validates(settings)
  {
    map connector | connector in settings ::
      Outputs.Placement(settings[connector].x, settings[connector].y, settings[connector].scale)
  }

  lemma WireKeySplits(connector: string, field: string)
    requires IsSegment(connector) && '.' !in field
    ensures Split(WireKey(connector, field)) == [NAMESPACE, connector, field]
  {
    SplitOfSegment(NAMESPACE);
    SplitOfConcatenation(NAMESPACE + "." + connector, field);
    SplitOfConcatenation(NAMESPACE, connector);
    SplitOfSegment(connector);
    SplitOfSegment(field);
  }

  lemma ViewOfTheArrangement(cache: map<string, Json>, settings: OutputsSettings, view: map<string, Json>, connector: string, field: string)
    requires CachesSettings(cache, settings) && IsViewOf(view, cache, NAMESPACE)
    requires IsSegment(connector) && '.' !in field
    ensures var key := WireKey(connector, field);
      var sent := if connector in settings then FieldOf(settings[connector], field) else None;
      (key in view <==> sent.Some?) && (key in view ==> Some(view[key]) == sent)
  {
    var key := WireKey(connector, field);
    WireKeySplits(connector, field);
    SplitOfSegment(NAMESPACE);
    AtOrUnderIsAPrefix(NAMESPACE, key);
    forall v ensures Holds(view, key, v) <==> ValueAt(settings, key) == Some(v) {
      GetReadsTheArrangement(cache, settings, key, v);
    }
    assert key in view ==> Holds(view, key, view[key]);
  }

  lemma ExtendByTwo(prefix: string, first: string, second: string)
    ensures Extend(prefix, [first, second]) == prefix + "." + first + "." + second
  {
    assert [first, second][1..] == [second];
    assert Extend(prefix + "." + first, [second]) == prefix + "." + first + "." + second;
  }

  lemma ViewKeysAreFields(cache: map<string, Json>, settings: OutputsSettings, view: map<string, Json>, key: string)
    requires CachesSettings(cache, settings) && IsViewOf(view, cache, NAMESPACE) && key in view
    ensures exists connector, field ::
              connector in settings && key == WireKey(connector, field) && IsSegment(connector) && '.' !in field
              && FieldOf(settings[connector], field) == Some(view[key])
  {
    assert Holds(view, key, view[key]);
    AtOrUnderIsAPrefix(NAMESPACE, key);
    SplitOfSegment(NAMESPACE);
    assert Split(key)[0] == NAMESPACE;
    GetReadsTheArrangement(cache, settings, key, view[key]);
    ThreeSegmentsAreAWireKey(key);
    assert IsBlank("");
    assert FieldOf(settings[Split(key)[1]], Split(key)[2]) == Some(view[key]);
  }

  lemma ThreeSegmentsAreAWireKey(key: string)
    ensures |Split(key)| == 3 && Split(key)[0] == NAMESPACE ==>
              key == WireKey(Split(key)[1], Split(key)[2]) && '.' !in Split(key)[1] && '.' !in Split(key)[2]
  {
    ExtensionOfSplit(key);
    if |Split(key)| == 3 {
      ExtendByTwo(Split(key)[0], Split(key)[1], Split(key)[2]);
      assert Split(key)[1..] == [Split(key)[1], Split(key)[2]];
    }
  }

  /** For every arrangement `validate` accepts, what the compositor decodes of
      the store's flattened view is that arrangement. */
  lemma WireRoundTrip(cache: map<string, Json>, settings: OutputsSettings, view: map<string, Json>)
    requires CachesSettings(cache, settings) && IsViewOf(view, cache, NAMESPACE)
    ensures forall key <- view :: JsonToVariant(view[key]).Ok?
    ensures Described(ToWire(view)) == Arrangement(settings)
  {
    forall key <- view ensures JsonToVariant(view[key]).Ok? && WireParts(key).Some? && WireParts(key).value.0 in settings {
      ViewKeysAreFields(cache, settings, view, key);
      var connector, field :| connector in settings && key == WireKey(connector, field) && IsSegment(connector) && '.' !in field
        && FieldOf(settings[connector], field) == Some(view[key]);
      WirePartsAreTheKey(key, connector, field);
    }
    forall connector <- settings
      ensures connector in Connectors(ToWire(view))
      ensures PlacementFrom(ToWire(view), connector) == Arrangement(settings)[connector]
    {
      OneConnectorRoundTrip(cache, settings, view, connector);
    }
  }

  /** What is sent for a field of the arrangement. */
  function SentFor(placement: OutputPlacement, field: string): Option<Variant> {
    if FieldOf(placement, field).Some? && JsonToVariant(FieldOf(placement, field).value).Ok?
    then Some(JsonToVariant(FieldOf(placement, field).value).value)
    else None
  }

  lemma SentField(cache: map<string, Json>, settings: OutputsSettings, view: map<string, Json>, connector: string, field: string)
    requires CachesSettings(cache, settings) && IsViewOf(view, cache, NAMESPACE) && connector in settings && IsSegment(connector)
    requires '.' !in field
    ensures FieldIn(ToWire(view), connector, field) == SentFor(settings[connector], field)
  {
    ViewOfTheArrangement(cache, settings, view, connector, field);
  }

  lemma SentPlacementReads(placement: OutputPlacement, values: map<string, Variant>, connector: string)
    requires InI32(placement.x) && InI32(placement.y) && placement.scale > 0.0
    requires FieldIn(values, connector, "x") == SentFor(placement, "x")
    requires FieldIn(values, connector, "y") == SentFor(placement, "y")
    requires FieldIn(values, connector, "scale") == SentFor(placement, "scale")
    ensures PlacementFrom(values, connector) == Outputs.Placement(placement.x, placement.y, placement.scale)
  {
  }

  lemma OneConnectorRoundTrip(cache: map<string, Json>, settings: OutputsSettings, view: map<string, Json>, connector: string)
    requires CachesSettings(cache, settings) && IsViewOf(view, cache, NAMESPACE) && connector in settings
    ensures connector in Connectors(ToWire(view))
    ensures PlacementFrom(ToWire(view), connector) == Arrangement(settings)[connector]
  {
    assert IsBlank("");
    SentField(cache, settings, view, connector, "x");
    SentField(cache, settings, view, connector, "y");
    SentField(cache, settings, view, connector, "scale");
    SentPlacementReads(settings[connector], ToWire(view), connector);
    NamedConnectorsAreKnown(ToWire(view), connector, "x");
  }

  lemma NamedConnectorsAreKnown(values: map<string, Variant>, connector: string, field: string)
    requires IsSegment(connector) && '.' !in field && FieldIn(values, connector, field).Some?
    ensures connector in Connectors(values)
  {
    WirePartsAreTheKey(WireKey(connector, field), connector, field);
  }
}
