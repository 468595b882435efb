/** Where the outputs of a resolved layout lie: the layout starts at the origin
    for every configuration, and packed outputs form a row beside the
    configured ones. */
module LayoutGeometry {
  import opened Wrappers
  import opened Geometry
  import opened Outputs
  import opened LayoutCanonicity
  import Windows

  /** Every `i32` position is a legal configuration. */
  ghost predicate ValidConfig(config: Placements) {
    forall name <- config :: InI32(config[name].x) && InI32(config[name].y)
  }

  ghost predicate WellFormed(outputs: Layout) {
    forall output <- outputs ::
      && InI32(output.location.x) && InI32(output.location.y)
      && 1 <= output.logicalSize.w <= I32_MAX && 1 <= output.logicalSize.h <= I32_MAX
  }

  // The exact extremes of a nonempty list of outputs.

  function Left(outputs: Layout): int
    requires outputs != []
  {
    var last := outputs[|outputs| - 1].location.x;
    if |outputs| == 1 then last else Min(Left(outputs[..|outputs| - 1]), last)
  }

  function Top(outputs: Layout): int
    requires outputs != []
  {
    var last := outputs[|outputs| - 1].location.y;
    if |outputs| == 1 then last else Min(Top(outputs[..|outputs| - 1]), last)
  }

  function Right(outputs: Layout): int
    requires outputs != []
  {
    var last := outputs[|outputs| - 1].location.x + outputs[|outputs| - 1].logicalSize.w;
    if |outputs| == 1 then last else Max(Right(outputs[..|outputs| - 1]), last)
  }

  function Bottom(outputs: Layout): int
    requires outputs != []
  {
    var last := outputs[|outputs| - 1].location.y + outputs[|outputs| - 1].logicalSize.h;
    if |outputs| == 1 then last else Max(Bottom(outputs[..|outputs| - 1]), last)
  }

  /** No far edge and no extent of the untranslated layout leaves the `i32`
      range. */
  ghost predicate NothingSaturates(raw: Layout) {
    raw != [] ==>
      && Right(raw) <= I32_MAX && Right(raw) - Left(raw) <= I32_MAX
      && Bottom(raw) <= I32_MAX && Bottom(raw) - Top(raw) <= I32_MAX
  }

  lemma {:induction false} ExtremesBound(outputs: Layout)
    requires outputs != []
    ensures forall i :: 0 <= i < |outputs| ==>
      && Left(outputs) <= outputs[i].location.x && outputs[i].location.x + outputs[i].logicalSize.w <= Right(outputs)
      && Top(outputs) <= outputs[i].location.y && outputs[i].location.y + outputs[i].logicalSize.h <= Bottom(outputs)
  {
    if |outputs| > 1 {
      var init := outputs[..|outputs| - 1];
      ExtremesBound(init);
      forall i | 0 <= i < |outputs| - 1 ensures outputs[i] == init[i] {}
    }
  }

  /** The corner is reached by some output on each axis. */
  lemma {:induction false} CornerIsReached(outputs: Layout) returns (left: nat, top: nat)
    requires outputs != []
    ensures left < |outputs| && outputs[left].location.x == Left(outputs)
    ensures top < |outputs| && outputs[top].location.y == Top(outputs)
  {
    left, top := |outputs| - 1, |outputs| - 1;
    if |outputs| > 1 {
      var left', top' := CornerIsReached(outputs[..|outputs| - 1]);
      if Left(outputs) != outputs[left].location.x { left := left'; }
      if Top(outputs) != outputs[top].location.y { top := top'; }
    }
  }

  lemma {:induction false} PackedIsWellFormed(outputs: seq<ConnectedOutput>, next: Point)
    requires InI32(next.x) && InI32(next.y)
    ensures WellFormed(Pack(outputs, next))
  {
    if outputs != [] {
      var first := Resolved(outputs[0], DEFAULT_PLACEMENT.scale, next);
      PackedIsWellFormed(outputs[1..], Point(SatAdd(next.x, first.logicalSize.w), next.y));
    }
  }

  lemma ConfiguredIsWellFormed(config: Placements, connected: seq<ConnectedOutput>)
    requires ValidConfig(config)
    ensures WellFormed(ConfiguredOutputs(config, connected))
  {
    SelectedAreNamed(config, connected, true);
    SortKeepsElements(Select(config, connected, true));
  }

  // ---- The bounding rectangle --------------------------------------------------

  /** Its corner is the least coordinate on each axis, saturation or not. */
  lemma {:induction false} BoundsCorner(outputs: Layout)
    requires outputs != [] && WellFormed(outputs)
    ensures var bounds := BoundingRect(outputs);
      && bounds.Some? && bounds.value.loc == Point(Left(outputs), Top(outputs))
      && InI32(Left(outputs)) && InI32(Top(outputs))
      && 0 <= bounds.value.size.w <= I32_MAX && 0 <= bounds.value.size.h <= I32_MAX
  {
    var last := outputs[|outputs| - 1];
    assert last in outputs;
    if |outputs| > 1 {
      BoundsCorner(outputs[..|outputs| - 1]);
    }
  }

  /** Absent saturation its far edges are the greatest ones. */
  lemma {:induction false} BoundsFarEdges(outputs: Layout)
    requires outputs != [] && WellFormed(outputs) && NothingSaturates(outputs)
    ensures var bounds := BoundingRect(outputs);
      && bounds.Some? && bounds.value.loc == Point(Left(outputs), Top(outputs))
      && bounds.value.loc.x + bounds.value.size.w == Right(outputs)
      && bounds.value.loc.y + bounds.value.size.h == Bottom(outputs)
  {
    BoundsCorner(outputs);
    var last := outputs[|outputs| - 1];
    assert last in outputs;
    if |outputs| > 1 {
      BoundsFarEdges(outputs[..|outputs| - 1]);
      ExtremesBound(outputs);
    }
  }

  // ---- Normalization -------------------------------------------------------------

  lemma RawIsWellFormed(config: Placements, connected: seq<ConnectedOutput>)
    requires ValidConfig(config)
    ensures WellFormed(RawLayout(config, connected))
  {
    var configured := ConfiguredOutputs(config, connected);
    ConfiguredIsWellFormed(config, connected);
    if configured != [] { BoundsCorner(configured); }
    PackedIsWellFormed(SortByName(Select(config, connected, false)), PackingStart(configured));
  }

  /** For every configuration, saturating or not, no output lies left of or
      above the origin, and some output touches each axis. */
  lemma LayoutStartsAtTheOrigin(config: Placements, connected: seq<ConnectedOutput>)
    requires ValidConfig(config)
    ensures var layout := ResolvedLayout(config, connected);
      && WellFormed(layout)
      && (forall output <- layout :: output.location.x >= 0 && output.location.y >= 0)
      && (layout != [] ==> exists output <- layout :: output.location.x == 0)
      && (layout != [] ==> exists output <- layout :: output.location.y == 0)
  {
    RawIsWellFormed(config, connected);
    NormalizeStartsAtTheOrigin(RawLayout(config, connected));
  }

  lemma NormalizeSubtractsTheCorner(raw: Layout)
    requires raw != [] && WellFormed(raw)
    ensures Normalize(raw) == Translate(raw, Point(Left(raw), Top(raw)))
    ensures |Normalize(raw)| == |raw|
  {
    BoundsCorner(raw);
  }

  lemma NormalizeStartsAtTheOrigin(raw: Layout)
    requires WellFormed(raw)
    ensures var layout := Normalize(raw);
      && WellFormed(layout)
      && (forall output <- layout :: output.location.x >= 0 && output.location.y >= 0)
      && (layout != [] ==> exists output <- layout :: output.location.x == 0)
      && (layout != [] ==> exists output <- layout :: output.location.y == 0)
  {
    if raw != [] {
      BoundsCorner(raw);
      ExtremesBound(raw);
      var left, top := CornerIsReached(raw);
      var layout := Normalize(raw);
      assert layout[left] in layout && layout[left].location.x == 0;
      assert layout[top] in layout && layout[top].location.y == 0;
    }
  }

  /** Absent saturation, windows can be placed anywhere on a resolved layout. */
  lemma ResolvedLayoutIsUsable(config: Placements, connected: seq<ConnectedOutput>)
    requires ValidConfig(config) && connected != [] && NothingSaturates(RawLayout(config, connected))
    ensures Windows.UsableLayout(ResolvedLayout(config, connected))
  {
    var raw, layout := RawLayout(config, connected), ResolvedLayout(config, connected);
    RawIsWellFormed(config, connected);
    ConfiguredCount(config, connected);
    ExtremesBound(raw);
    NormalizeSubtractsTheCorner(raw);
    NormalizeStartsAtTheOrigin(raw);
    forall i | 0 <= i < |layout|
      ensures layout[i].location.x + layout[i].logicalSize.w <= I32_MAX && layout[i].location.y + layout[i].logicalSize.h <= I32_MAX
    {
      assert raw[i] in raw && layout[i] in layout;
      assert layout[i].location == raw[i].location.Minus(Point(Left(raw), Top(raw)));
    }
  }

  // ---- The packed row --------------------------------------------------------------

  lemma {:induction false} PackedRow(outputs: seq<ConnectedOutput>, next: Point)
    requires InI32(next.x) && InI32(next.y)
    ensures var row := Pack(outputs, next);
      && |row| == |outputs|
      && (forall output <- row :: output.location.y == next.y && output.location.x >= next.x)
      && (forall i, j :: 0 <= i < j < |row| ==> row[i].location.x <= row[j].location.x)
  {
    if outputs != [] {
      var first := Resolved(outputs[0], DEFAULT_PLACEMENT.scale, next);
      PackedRow(outputs[1..], Point(SatAdd(next.x, first.logicalSize.w), next.y));
    }
  }

  lemma {:induction false} PackedRowIsDisjoint(outputs: seq<ConnectedOutput>, next: Point)
    requires InI32(next.x) && InI32(next.y) && NothingSaturates(Pack(outputs, next))
    ensures var row := Pack(outputs, next);
      forall i, j :: 0 <= i < j < |row| ==> row[i].location.x + row[i].logicalSize.w <= row[j].location.x
  {
    if outputs != [] {
      var first := Resolved(outputs[0], DEFAULT_PLACEMENT.scale, next);
      var after := Point(SatAdd(next.x, first.logicalSize.w), next.y);
      assert Pack(outputs, next)[0] == first;
      ExtremesBound(Pack(outputs, next));
      SaturationFreeParts([first], Pack(outputs[1..], after));
      PackedRow(outputs[1..], after);
      PackedRowIsDisjoint(outputs[1..], after);
    }
  }

  lemma ConfiguredCount(config: Placements, connected: seq<ConnectedOutput>)
    ensures |ConfiguredOutputs(config, connected)| == |Select(config, connected, true)|
    ensures |RawLayout(config, connected)| == |ResolvedLayout(config, connected)| == |connected|
  {
    SelectedAreNamed(config, connected, true);
    SortKeepsElements(Select(config, connected, true));
    assert |multiset(SortByName(Select(config, connected, true)))| == |multiset(Select(config, connected, true))|;
    ResolveIsAPermutation(config, connected);
    assert |multiset(Unresolved(ResolvedLayout(config, connected)))| == |multiset(connected)|;
  }

  /** The packed row never extends the layout upwards. */
  lemma {:induction false} TopOfThePackedRow(configured: Layout, row: Layout, top: int)
    requires forall output <- row :: output.location.y == top
    requires configured != [] ==> Top(configured) == top
    requires configured + row != []
    ensures Top(configured + row) == top
  {
    if row != [] {
      var init := row[..|row| - 1];
      assert (configured + row)[..|configured + row| - 1] == configured + init;
      assert row[|row| - 1] in row;
      if configured + init != [] { TopOfThePackedRow(configured, init, top); }
    } else {
      assert configured + row == configured;
    }
  }

  lemma StartIsInRange(config: Placements, connected: seq<ConnectedOutput>)
    requires ValidConfig(config)
    ensures var configured, start := ConfiguredOutputs(config, connected), PackingStart(ConfiguredOutputs(config, connected));
      && InI32(start.x) && InI32(start.y)
      && (configured != [] ==> start.y == Top(configured))
  {
    ConfiguredIsWellFormed(config, connected);
    if ConfiguredOutputs(config, connected) != [] { BoundsCorner(ConfiguredOutputs(config, connected)); }
  }

  /** Packed outputs are level with the top of the layout and ordered left to
      right, for every configuration. */
  lemma PackedOutputsFormARow(config: Placements, connected: seq<ConnectedOutput>)
    requires ValidConfig(config)
    ensures var layout, first := ResolvedLayout(config, connected), |Select(config, connected, true)|;
      && |layout| == |connected| && first <= |layout|
      && (forall i :: first <= i < |layout| ==> layout[i].location.y == 0)
      && (forall i, j :: first <= i < j < |layout| ==> layout[i].location.x <= layout[j].location.x)
  {
    ConfiguredCount(config, connected);
    var configured := ConfiguredOutputs(config, connected);
    var start := PackingStart(configured);
    var row := Pack(SortByName(Select(config, connected, false)), start);
    StartIsInRange(config, connected);
    PackedRow(SortByName(Select(config, connected, false)), start);
    RawIsWellFormed(config, connected);
    if configured + row != [] {
      NormalizeSubtractsTheCorner(configured + row);
      TopOfThePackedRow(configured, row, start.y);
      TranslateKeepsRow(configured, row, Point(Left(configured + row), start.y));
    }
  }

  lemma TranslateKeepsRow(configured: Layout, row: Layout, origin: Point)
    requires forall output <- row :: output.location.y == origin.y
    requires forall i, j :: 0 <= i < j < |row| ==> row[i].location.x <= row[j].location.x
    ensures var moved := Translate(configured + row, origin);
      && (forall i :: |configured| <= i < |moved| ==> moved[i].location.y == 0)
      && (forall i, j :: |configured| <= i < j < |moved| ==> moved[i].location.x <= moved[j].location.x)
  {
    assert forall i :: 0 <= i < |row| ==> (configured + row)[|configured| + i] == row[i];
    forall i | |configured| <= i < |configured + row| ensures (configured + row)[i].location.y == origin.y {
      assert (configured + row)[i] == row[i - |configured|];
    }
  }

  lemma StartIsRightOfConfigured(configured: Layout)
    requires configured != [] && WellFormed(configured) && NothingSaturates(configured)
    ensures PackingStart(configured) == Point(Right(configured), Top(configured))
  {
    BoundsFarEdges(configured);
  }

  /** Absent saturation every packed output starts right of all before it. */
  lemma PackedOutputsStartRight(config: Placements, connected: seq<ConnectedOutput>)
    requires ValidConfig(config) && NothingSaturates(RawLayout(config, connected))
    ensures var raw := RawLayout(config, connected);
      forall i, j :: |ConfiguredOutputs(config, connected)| <= j < |raw| && 0 <= i < j
        ==> raw[i].location.x + raw[i].logicalSize.w <= raw[j].location.x
  {
    var configured := ConfiguredOutputs(config, connected);
    var unconfigured := SortByName(Select(config, connected, false));
    var start := PackingStart(configured);
    var row := Pack(unconfigured, start);
    SaturationFreeParts(configured, row);
    ConfiguredIsWellFormed(config, connected);
    StartIsInRange(config, connected);
    PackedRow(unconfigured, start);
    PackedRowIsDisjoint(unconfigured, start);
    if configured != [] {
      StartIsRightOfConfigured(configured);
      ExtremesBound(configured);
    }
  }

  /** Absent saturation a packed output overlaps no output before it,
      configured or packed. */
  lemma PackedOutputsAreDisjoint(config: Placements, connected: seq<ConnectedOutput>)
    requires ValidConfig(config) && NothingSaturates(RawLayout(config, connected))
    ensures var layout := ResolvedLayout(config, connected);
      && |layout| == |connected|
      && forall i, j :: |Select(config, connected, true)| <= j < |layout| && 0 <= i < j
           ==> !layout[i].Area().Overlaps(layout[j].Area())
  {
    ConfiguredCount(config, connected);
    RawIsWellFormed(config, connected);
    PackedOutputsStartRight(config, connected);
    var raw := RawLayout(config, connected);
    var layout := ResolvedLayout(config, connected);
    if raw != [] {
      BoundsCorner(raw);
      ExtremesBound(raw);
    }
    forall i, j | |Select(config, connected, true)| <= j < |layout| && 0 <= i < j
      ensures !layout[i].Area().Overlaps(layout[j].Area())
    {
      assert raw[i].location.x + raw[i].logicalSize.w <= raw[j].location.x;
    }
  }

  // ---- Only the relative arrangement matters -----------------------------------------

  function Shift(config: Placements, offset: Point): Placements {
    map name | name in config :: config[name].(x := config[name].x + offset.x, y := config[name].y + offset.y)
  }

  function Moved(outputs: Layout, offset: Point): (moved: Layout)
    ensures |moved| == |outputs|
  {
    seq(|outputs|, i requires 0 <= i < |outputs| =>
      outputs[i].(location := Point(outputs[i].location.x + offset.x, outputs[i].location.y + offset.y)))
  }

  lemma {:induction false} ShiftSelects(config: Placements, connected: seq<ConnectedOutput>, offset: Point, named: bool)
    ensures Select(Shift(config, offset), connected, named) == Select(config, connected, named)
  {
    if connected != [] { ShiftSelects(config, connected[1..], offset, named); }
  }

  lemma ShiftMovesConfigured(config: Placements, connected: seq<ConnectedOutput>, offset: Point)
    ensures ConfiguredOutputs(Shift(config, offset), connected) == Moved(ConfiguredOutputs(config, connected), offset)
  {
    ShiftSelects(config, connected, offset, true);
    SelectedAreNamed(config, connected, true);
    SortKeepsElements(Select(config, connected, true));
  }

  lemma {:induction false} ShiftMovesExtremes(outputs: Layout, offset: Point)
    requires outputs != []
    ensures Left(Moved(outputs, offset)) == Left(outputs) + offset.x
    ensures Right(Moved(outputs, offset)) == Right(outputs) + offset.x
    ensures Top(Moved(outputs, offset)) == Top(outputs) + offset.y
    ensures Bottom(Moved(outputs, offset)) == Bottom(outputs) + offset.y
  {
    if |outputs| > 1 {
      ShiftMovesExtremes(outputs[..|outputs| - 1], offset);
      assert Moved(outputs, offset)[..|outputs| - 1] == Moved(outputs[..|outputs| - 1], offset);
    }
  }

  function After(output: ConnectedOutput, next: Point): Point {
    Point(SatAdd(next.x, LogicalSize(output.physicalSize, DEFAULT_PLACEMENT.scale).w), next.y)
  }

  lemma {:induction false} ShiftMovesPacked(outputs: seq<ConnectedOutput>, next: Point, there: Point, offset: Point)
    requires InI32(next.x) && InI32(there.x) && there == Point(next.x + offset.x, next.y + offset.y)
    requires NothingSaturates(Pack(outputs, next)) && NothingSaturates(Pack(outputs, there))
    ensures Pack(outputs, there) == Moved(Pack(outputs, next), offset)
  {
    if outputs != [] {
      FirstPacked(outputs, next);
      FirstPacked(outputs, there);
      var first := Resolved(outputs[0], DEFAULT_PLACEMENT.scale, next);
      var rest := Pack(outputs[1..], After(outputs[0], next));
      assert Pack(outputs[1..], After(outputs[0], there)) == Moved(rest, offset) by {
        ShiftMovesPacked(outputs[1..], After(outputs[0], next), After(outputs[0], there), offset);
      }
      MovedConcat([first], rest, offset);
    }
  }

  lemma FirstPacked(outputs: seq<ConnectedOutput>, next: Point)
    requires outputs != [] && InI32(next.x) && NothingSaturates(Pack(outputs, next))
    ensures After(outputs[0], next).x == next.x + LogicalSize(outputs[0].physicalSize, DEFAULT_PLACEMENT.scale).w <= I32_MAX
    ensures NothingSaturates(Pack(outputs[1..], After(outputs[0], next)))
  {
    var first := Resolved(outputs[0], DEFAULT_PLACEMENT.scale, next);
    ExtremesBound(Pack(outputs, next));
    assert Pack(outputs, next)[0] == first;
    SaturationFreeParts([first], Pack(outputs[1..], After(outputs[0], next)));
  }

  lemma {:induction false} MovedConcat(a: Layout, b: Layout, offset: Point)
    ensures Moved(a + b, offset) == Moved(a, offset) + Moved(b, offset)
  {
  }

  lemma ShiftMovesRaw(config: Placements, connected: seq<ConnectedOutput>, offset: Point)
    requires ValidConfig(config) && ValidConfig(Shift(config, offset))
    requires NothingSaturates(RawLayout(config, connected)) && NothingSaturates(RawLayout(Shift(config, offset), connected))
    requires ConfiguredOutputs(config, connected) != []
    ensures RawLayout(Shift(config, offset), connected) == Moved(RawLayout(config, connected), offset)
  {
    var configured := ConfiguredOutputs(config, connected);
    var unconfigured := SortByName(Select(config, connected, false));
    ShiftSelects(config, connected, offset, false);
    ShiftMovesConfigured(config, connected, offset);
    ConfiguredIsWellFormed(config, connected);
    ConfiguredIsWellFormed(Shift(config, offset), connected);
    var configured' := Moved(configured, offset);
    var start, start' := PackingStart(configured), PackingStart(configured');
    SaturationFreeParts(configured, Pack(unconfigured, start));
    SaturationFreeParts(configured', Pack(unconfigured, start'));
    StartIsInRange(config, connected);
    StartIsInRange(Shift(config, offset), connected);
    StartIsRightOfConfigured(configured);
    StartIsRightOfConfigured(configured');
    ShiftMovesExtremes(configured, offset);
    ShiftMovesPacked(unconfigured, start, start', offset);
    MovedConcat(configured, Pack(unconfigured, start), offset);
  }

  lemma TranslateForgetsShift(raw: Layout, moved: Layout, offset: Point, x: int, y: int)
    requires moved == Moved(raw, offset)
    ensures Translate(moved, Point(x + offset.x, y + offset.y)) == Translate(raw, Point(x, y))
  {
  }

  lemma NormalizeMoved(raw: Layout, moved: Layout, offset: Point)
    requires raw != [] && WellFormed(moved) && moved == Moved(raw, offset)
    ensures Normalize(moved) == Translate(raw, Point(Left(raw), Top(raw)))
  {
    NormalizeSubtractsTheCorner(moved);
    ShiftMovesExtremes(raw, offset);
    TranslateForgetsShift(raw, moved, offset, Left(raw), Top(raw));
    assert Point(Left(moved), Top(moved)) == Point(Left(raw) + offset.x, Top(raw) + offset.y);
  }

  lemma NormalizeForgetsShift(raw: Layout, moved: Layout, offset: Point)
    requires raw != [] && WellFormed(raw) && WellFormed(moved) && moved == Moved(raw, offset)
    ensures Normalize(moved) == Normalize(raw)
  {
    NormalizeMoved(raw, moved, offset);
    NormalizeSubtractsTheCorner(raw);
  }

  /** Absent saturation, adding one offset to every configured position changes
      nothing. */
  lemma LayoutIsTranslationInvariant(config: Placements, connected: seq<ConnectedOutput>, offset: Point)
    requires ValidConfig(config) && ValidConfig(Shift(config, offset))
    requires NothingSaturates(RawLayout(config, connected)) && NothingSaturates(RawLayout(Shift(config, offset), connected))
    ensures ResolvedLayout(Shift(config, offset), connected) == ResolvedLayout(config, connected)
  {
    ShiftSelects(config, connected, offset, false);
    ShiftMovesConfigured(config, connected, offset);
    RawIsWellFormed(config, connected);
    RawIsWellFormed(Shift(config, offset), connected);
    if ConfiguredOutputs(config, connected) != [] {
      ShiftMovesRaw(config, connected, offset);
      NormalizeForgetsShift(RawLayout(config, connected), RawLayout(Shift(config, offset), connected), offset);
    }
  }

  lemma SaturationFreeParts(a: Layout, b: Layout)
    requires NothingSaturates(a + b)
    ensures NothingSaturates(a) && NothingSaturates(b)
  {
    if a + b != [] { ExtremesBound(a + b); }
    if a != [] { WithinExtremes(a, a + b, 0); }
    if b != [] { WithinExtremes(b, a + b, |a|); }
  }

  lemma {:induction false} WithinExtremes(part: Layout, whole: Layout, from: nat)
    requires part != [] && from + |part| <= |whole| && whole[from..from + |part|] == part
    ensures Left(whole) <= Left(part) && Right(part) <= Right(whole)
    ensures Top(whole) <= Top(part) && Bottom(part) <= Bottom(whole)
  {
    ExtremesBound(whole);
    assert whole[from + |part| - 1] == part[|part| - 1];
    if |part| > 1 {
      assert whole[from..from + |part| - 1] == part[..|part| - 1];
      WithinExtremes(part[..|part| - 1], whole, from);
    }
  }

  // ---- Keeping the pointer inside the layout ---------------------------------------------

  lemma AxisClampIsNearest(v: real, low: real, high: real, other: real)
    requires low <= other <= high
    ensures var d, e := ClampReal(v, low, high) - v, other - v; d * d <= e * e
  {
    var d, e := ClampReal(v, low, high) - v, other - v;
    if d >= 0.0 {
      SquareGrows(d, if e >= 0.0 then e else -e);
    } else {
      SquareGrows(-d, if e >= 0.0 then e else -e);
    }
  }

  lemma SquareGrows(a: real, b: real)
    requires 0.0 <= a <= b
    ensures a * a <= b * b
  {
    assert b * b - a * a == (b - a) * (b + a);
  }

  lemma BoxClampIsNearest(output: ResolvedOutput, p: RealPoint, q: RealPoint)
    requires output.Reaches(q)
    ensures DistanceSquared(output.Clamp(p), p) <= DistanceSquared(q, p)
  {
    AxisClampIsNearest(p.x, output.location.x as real, LastReachable(output.location.x, output.logicalSize.w), q.x);
    AxisClampIsNearest(p.y, output.location.y as real, LastReachable(output.location.y, output.logicalSize.h), q.y);
  }

  lemma {:induction false} NearestClampIsNearest(layout: Layout, p: RealPoint)
    requires layout != [] && WellFormed(layout)
    ensures exists output <- layout :: output.Area().Contains(NearestClamp(layout, p))
    ensures forall output, q :: output in layout && output.Reaches(q)
              ==> DistanceSquared(NearestClamp(layout, p), p) <= DistanceSquared(q, p)
  {
    var first := layout[0];
    assert first in layout;
    assert first.Area().Contains(first.Clamp(p));
    forall q | first.Reaches(q) ensures DistanceSquared(first.Clamp(p), p) <= DistanceSquared(q, p) {
      BoxClampIsNearest(first, p, q);
    }
    if |layout| > 1 {
      NearestClampIsNearest(layout[1..], p);
    }
  }

  /** On a nonempty layout the clamped point lies on some output, points on an
      output stay put, and clamping twice is clamping once. */
  lemma ClampStaysInside(layout: Layout, p: RealPoint)
    requires layout != [] && WellFormed(layout)
    ensures exists output <- layout :: output.Area().Contains(Clamp(layout, p))
    ensures (exists output <- layout :: output.Area().Contains(p)) ==> Clamp(layout, p) == p
    ensures Clamp(layout, Clamp(layout, p)) == Clamp(layout, p)
  {
    NearestClampIsNearest(layout, p);
  }

  /** A point outside the layout moves to a nearest reachable point of it. */
  lemma ClampIsNearest(layout: Layout, p: RealPoint)
    requires layout != [] && WellFormed(layout)
    requires forall output <- layout :: !output.Area().Contains(p)
    ensures forall output, q :: output in layout && output.Reaches(q)
              ==> DistanceSquared(Clamp(layout, p), p) <= DistanceSquared(q, p)
  {
    NearestClampIsNearest(layout, p);
  }
}
