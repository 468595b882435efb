/** The output layout (crates/nkdhr-compositor/src/outputs.rs): resolving the
    connected outputs against the configured placements, and keeping the
    pointer inside the result. */
module Outputs {
  import opened Wrappers
  import opened Geometry

  /** A scale as `decode_flat` delivers it: finite and positive. */
  type Scale = s: real | s > 0.0 witness 1.0

  datatype Placement = Placement(x: int, y: int, scale: Scale)

  const DEFAULT_PLACEMENT := Placement(0, 0, 1.0)

  type Placements = map<string, Placement>

  datatype ConnectedOutput = ConnectedOutput(name: string, physicalSize: Size)

  datatype ResolvedOutput = ResolvedOutput(
    name: string, physicalSize: Size, logicalSize: Size, scale: Scale, location: Point)
  {
    function Area(): Rect {
      Rect(location, logicalSize)
    }

    /** Nearest reachable point: the last one is a pixel before the far edges. */
    function Clamp(p: RealPoint): RealPoint {
      RealPoint(
        ClampReal(p.x, location.x as real, LastReachable(location.x, logicalSize.w)),
        ClampReal(p.y, location.y as real, LastReachable(location.y, logicalSize.h)))
    }

    /** Whether `p` lies in the box `Clamp` clamps into. */
    predicate Reaches(p: RealPoint) {
      && location.x as real <= p.x <= LastReachable(location.x, logicalSize.w)
      && location.y as real <= p.y <= LastReachable(location.y, logicalSize.h)
    }
  }

  function LastReachable(start: int, extent: int): real {
    var last := (start + extent - 1) as real;
    if last < start as real then start as real else last
  }

  function ClampReal(v: real, low: real, high: real): real {
    if v < low then low else if v > high then high else v
  }

  /** Outputs in layout order. */
  type Layout = seq<ResolvedOutput>

  // ---- Sorting by connector name -------------------------------------------

  /** Rust's `str` order; UTF-8 orders strings as their code points do. */
  predicate StringLeq(a: string, b: string) {
    a == [] || (b != [] && (a[0] < b[0] || (a[0] == b[0] && StringLeq(a[1..], b[1..]))))
  }

  function Insert(output: ConnectedOutput, sorted: seq<ConnectedOutput>): seq<ConnectedOutput> {
    if sorted == [] || StringLeq(output.name, sorted[0].name)
    then [output] + sorted
    else [sorted[0]] + Insert(output, sorted[1..])
  }

  /** The library's stable `sort_by` on connector names. */
  function SortByName(outputs: seq<ConnectedOutput>): seq<ConnectedOutput> {
    if outputs == [] then [] else Insert(outputs[0], SortByName(outputs[1..]))
  }

  // ---- Resolution, as a function -------------------------------------------

  /** The outputs that are (or are not) named by the configuration, in order. */
  function Select(config: Placements, connected: seq<ConnectedOutput>, named: bool): seq<ConnectedOutput> {
    if connected == [] then []
    else if (connected[0].name in config) == named
    then [connected[0]] + Select(config, connected[1..], named)
    else Select(config, connected[1..], named)
  }

  /** Rounds half away from zero, as `f64::round` does. */
  function Round(x: real): int {
    if x >= 0.0 then (x + 0.5).Floor else -((0.5 - x).Floor)
  }

  function LogicalExtent(pixels: int, scale: Scale): int {
    Max(Saturate(Round(pixels as real / scale)), 1)
  }

  function LogicalSize(physical: Size, scale: Scale): Size {
    Size(LogicalExtent(physical.w, scale), LogicalExtent(physical.h, scale))
  }

  function Resolved(output: ConnectedOutput, scale: Scale, location: Point): ResolvedOutput {
    ResolvedOutput(output.name, output.physicalSize, LogicalSize(output.physicalSize, scale), scale, location)
  }

  function PlaceConfigured(config: Placements, outputs: seq<ConnectedOutput>): Layout
    requires forall output <- outputs :: output.name in config
  {
    seq(|outputs|, i requires 0 <= i < |outputs| =>
      var placement := config[outputs[i].name];
      Resolved(outputs[i], placement.scale, Point(placement.x, placement.y)))
  }

  /** Packs left to right from `next`. */
  function Pack(outputs: seq<ConnectedOutput>, next: Point): Layout {
    if outputs == [] then []
    else
      var first := Resolved(outputs[0], DEFAULT_PLACEMENT.scale, next);
      [first] + Pack(outputs[1..], Point(SatAdd(next.x, first.logicalSize.w), next.y))
  }

  /** `bounding_rect`: the outputs' areas merged from the first to the last. */
  function BoundingRect(outputs: Layout): Option<Rect> {
    if outputs == [] then None
    else match BoundingRect(outputs[..|outputs| - 1])
      case None => Some(outputs[|outputs| - 1].Area())
      case Some(bounds) => Some(bounds.Merge(outputs[|outputs| - 1].Area()))
  }

  /** Where packing starts: the right edge of the configured area, level with
      its top, or the origin when nothing is configured. */
  function PackingStart(configured: Layout): Point {
    match BoundingRect(configured)
    case None => Point(0, 0)
    case Some(bounds) => Point(SatAdd(bounds.loc.x, bounds.size.w), bounds.loc.y)
  }

  function ConfiguredOutputs(config: Placements, connected: seq<ConnectedOutput>): Layout {
    SelectedAreNamed(config, connected, true);
    SortKeepsElements(Select(config, connected, true));
    PlaceConfigured(config, SortByName(Select(config, connected, true)))
  }

  /** The layout before it is translated to start at the origin. */
  function RawLayout(config: Placements, connected: seq<ConnectedOutput>): Layout {
    var configured := ConfiguredOutputs(config, connected);
    configured + Pack(SortByName(Select(config, connected, false)), PackingStart(configured))
  }

  function Translate(outputs: Layout, origin: Point): Layout {
    seq(|outputs|, i requires 0 <= i < |outputs| =>
      outputs[i].(location := outputs[i].location.Minus(origin)))
  }

  function Normalize(outputs: Layout): Layout {
    match BoundingRect(outputs)
    case None => outputs
    case Some(bounds) => Translate(outputs, bounds.loc)
  }

  function ResolvedLayout(config: Placements, connected: seq<ConnectedOutput>): Layout {
    Normalize(RawLayout(config, connected))
  }

  lemma SelectedAreNamed(config: Placements, connected: seq<ConnectedOutput>, named: bool)
    ensures forall output <- Select(config, connected, named) :: output in connected && (output.name in config) == named
    ensures forall output <- connected :: (output.name in config) == named ==> output in Select(config, connected, named)
  {
  }

  lemma InsertKeepsElements(output: ConnectedOutput, sorted: seq<ConnectedOutput>)
    ensures multiset(Insert(output, sorted)) == multiset{output} + multiset(sorted)
  {
    if sorted != [] && !StringLeq(output.name, sorted[0].name) {
      InsertKeepsElements(output, sorted[1..]);
      assert sorted == [sorted[0]] + sorted[1..];
    }
  }

  lemma SortKeepsElements(outputs: seq<ConnectedOutput>)
    ensures multiset(SortByName(outputs)) == multiset(outputs)
    ensures forall output :: output in SortByName(outputs) <==> output in outputs
  {
    if outputs != [] {
      SortKeepsElements(outputs[1..]);
      InsertKeepsElements(outputs[0], SortByName(outputs[1..]));
      assert outputs == [outputs[0]] + outputs[1..];
    }
    assert forall output :: output in SortByName(outputs) <==> output in multiset(SortByName(outputs));
  }

  // ---- Resolution, as the source runs it ------------------------------------

  lemma SelectAppend(config: Placements, connected: seq<ConnectedOutput>, output: ConnectedOutput, named: bool)
    ensures Select(config, connected + [output], named)
         == Select(config, connected, named) + (if (output.name in config) == named then [output] else [])
  {
    if connected != [] {
      SelectAppend(config, connected[1..], output, named);
      assert (connected + [output])[1..] == connected[1..] + [output];
    }
  }

  /** The partition loop of `OutputLayout::resolve`. */
  method Partition(config: Placements, connected: seq<ConnectedOutput>)
      returns (configured: seq<ConnectedOutput>, unconfigured: seq<ConnectedOutput>)
    ensures configured == Select(config, connected, true)
    ensures unconfigured == Select(config, connected, false)
  {
    configured, unconfigured := [], [];
    for i := 0 to |connected|
      invariant configured == Select(config, connected[..i], true)
      invariant unconfigured == Select(config, connected[..i], false)
    {
      SelectAppend(config, connected[..i], connected[i], true);
      SelectAppend(config, connected[..i], connected[i], false);
      assert connected[..i + 1] == connected[..i] + [connected[i]];
      if connected[i].name in config {
        configured := configured + [connected[i]];
      } else {
        unconfigured := unconfigured + [connected[i]];
      }
    }
    assert connected[..|connected|] == connected;
  }

  /** The packing loop: appends each unconfigured output at `next`. */
  method PackAll(unconfigured: seq<ConnectedOutput>, configured: Layout, start: Point) returns (outputs: Layout)
    ensures outputs == configured + Pack(unconfigured, start)
  {
    outputs := configured;
    var next := start;
    for i := 0 to |unconfigured|
      invariant outputs + Pack(unconfigured[i..], next) == configured + Pack(unconfigured, start)
    {
      var output := Resolved(unconfigured[i], DEFAULT_PLACEMENT.scale, next);
      next := Point(SatAdd(next.x, output.logicalSize.w), next.y);
      assert outputs + Pack(unconfigured[i..], output.location) == (outputs + [output]) + Pack(unconfigured[i + 1..], next);
      outputs := outputs + [output];
    }
  }

  /** The translation loop: moves every output in place. */
  method TranslateAll(raw: Layout) returns (outputs: Layout)
    ensures outputs == Normalize(raw)
  {
    outputs := raw;
    var bounds := BoundingRect(raw);
    if bounds.Some? {
      for i := 0 to |outputs|
        invariant |outputs| == |raw|
        invariant forall k :: 0 <= k < i ==> outputs[k] == Translate(raw, bounds.value.loc)[k]
        invariant forall k :: i <= k < |raw| ==> outputs[k] == raw[k]
      {
        outputs := outputs[i := outputs[i].(location := outputs[i].location.Minus(bounds.value.loc))];
      }
    }
  }

  /** `OutputLayout::resolve`: partitions, sorts, packs and normalizes. */
  method Resolve(config: Placements, connected: seq<ConnectedOutput>) returns (outputs: Layout)
    ensures outputs == ResolvedLayout(config, connected)
  {
    var configured, unconfigured := Partition(config, connected);
    SelectedAreNamed(config, connected, true);
    SortKeepsElements(configured);
    outputs := PlaceConfigured(config, SortByName(configured));
    var start := PackingStart(outputs);
    outputs := PackAll(SortByName(unconfigured), outputs, start);
    outputs := TranslateAll(outputs);
  }

  // ---- Lookups and the pointer ----------------------------------------------

  function Names(layout: Layout): set<string> {
    set output <- layout :: output.name
  }

  /** The first output, in layout order, whose area contains `p`. */
  function OutputAt(layout: Layout, p: RealPoint): (r: Option<ResolvedOutput>)
    ensures r.Some? <==> exists i :: 0 <= i < |layout| && layout[i].Area().Contains(p)
    ensures r.Some? ==> r.value in layout && r.value.Area().Contains(p)
    ensures r.Some? ==> exists i :: 0 <= i < |layout| && layout[i] == r.value && forall j :: 0 <= j < i ==> !layout[j].Area().Contains(p)
  {
    if layout == [] then None
    else if layout[0].Area().Contains(p) then Some(layout[0])
    else OutputAt(layout[1..], p)
  }

  function DistanceSquared(a: RealPoint, b: RealPoint): real {
    (a.x - b.x) * (a.x - b.x) + (a.y - b.y) * (a.y - b.y)
  }

  /** The first of the clamped points nearest to `p`. */
  function NearestClamp(layout: Layout, p: RealPoint): RealPoint
    requires layout != []
  {
    var first := layout[0].Clamp(p);
    if |layout| == 1 then first
    else
      var rest := NearestClamp(layout[1..], p);
      if DistanceSquared(rest, p) < DistanceSquared(first, p) then rest else first
  }

  /** `OutputLayout::clamp`. */
  function Clamp(layout: Layout, p: RealPoint): RealPoint {
    if OutputAt(layout, p).Some? || layout == [] then p else NearestClamp(layout, p)
  }
}
