/** The window store and the rules that decide where a window goes
    (crates/nkdhr-compositor/src/windows.rs). */
module Windows {
  import opened Wrappers
  import opened Geometry
  import opened Objects
  import opened Outputs
  import opened Resize

  /** An xdg toplevel or an X11 window. `geometry` is its visible frame in
      window-local coordinates. */
  datatype ManagedWindow = ManagedWindow(
    id: nat, surface: Surface, overrideRedirect: bool,
    location: Option<Point>, geometry: Rect, resize: ResizeState)
  {
    predicate IsOverrideRedirect() {
      surface.role.X11Role? && overrideRedirect
    }

    predicate IsFocusable() {
      location.Some? && !IsOverrideRedirect()
    }

    /** The visible frame; a window that has not drawn one still occupies its
        location. */
    function Frame(): Rect
      requires location.Some?
    {
      FrameAt(location.value, geometry)
    }
  }

  function FrameAt(location: Point, geometry: Rect): Rect {
    Rect(location.Plus(geometry.loc), Size(Max(geometry.size.w, 1), Max(geometry.size.h, 1)))
  }

  // ---- Placement rules -------------------------------------------------------

  function CentredStart(start: int, extent: int, size: int): int {
    if size <= extent then SatAdd(start, Half(SatSub(extent, size))) else start
  }

  /** `/ 2` on a nonnegative `i32`. */
  function Half(n: int): int {
    n / 2
  }

  /** The output a new window goes to. */
  function TargetOutput(layout: Layout, pointer: RealPoint): Option<ResolvedOutput> {
    var under := OutputAt(layout, pointer);
    if under.Some? then under else if layout == [] then None else Some(layout[0])
  }

  function FrameOrigin(geometry: Rect, layout: Layout, pointer: RealPoint): Point {
    match TargetOutput(layout, pointer)
    case None => Point(0, 0)
    case Some(output) =>
      Point(CentredStart(output.location.x, output.logicalSize.w, geometry.size.w),
            CentredStart(output.location.y, output.logicalSize.h, geometry.size.h))
  }

  /** `initial_location`. */
  function InitialLocation(geometry: Rect, layout: Layout, pointer: RealPoint): Point {
    FrameOrigin(geometry, layout, pointer).Minus(geometry.loc)
  }

  predicate OnSomeOutput(frame: Rect, layout: Layout) {
    exists i :: 0 <= i < |layout| && layout[i].Area().Overlaps(frame)
  }

  /** `location_to_keep_reachable`. */
  function LocationToKeepReachable(location: Point, geometry: Rect, layout: Layout, pointer: RealPoint): Option<Point> {
    if layout == [] || OnSomeOutput(FrameAt(location, geometry), layout) then None
    else Some(InitialLocation(geometry, layout, pointer))
  }

  // ---- The store, bottom to top ------------------------------------------------

  type Stack = seq<ManagedWindow>

  ghost predicate DistinctIds(stack: Stack) {
    forall i, j :: 0 <= i < j < |stack| ==> stack[i].id != stack[j].id
  }

  function IndexOf(stack: Stack, id: nat): (r: Option<nat>)
    ensures r.Some? ==> r.value < |stack| && stack[r.value].id == id
    ensures r.None? ==> forall i :: 0 <= i < |stack| ==> stack[i].id != id
  {
    if stack == [] then None
    else if stack[0].id == id then Some(0)
    else match IndexOf(stack[1..], id)
      case None => None
      case Some(i) => Some(i + 1)
  }

  function Get(stack: Stack, id: nat): Option<ManagedWindow> {
    match IndexOf(stack, id)
    case None => None
    case Some(i) => Some(stack[i])
  }

  function Update(stack: Stack, id: nat, location: Option<Point>, keepResize: bool): Stack {
    match IndexOf(stack, id)
    case None => stack
    case Some(i) =>
      stack[i := stack[i].(location := location, resize := if keepResize then stack[i].resize else Idle)]
  }

  function RemoveAt(stack: Stack, i: nat): Stack
    requires i < |stack|
  {
    stack[..i] + stack[i + 1..]
  }

  function Remove(stack: Stack, id: nat): Stack {
    match IndexOf(stack, id)
    case None => stack
    case Some(i) => RemoveAt(stack, i)
  }

  function Raise(stack: Stack, id: nat): Stack {
    match IndexOf(stack, id)
    case None => stack
    case Some(i) => RemoveAt(stack, i) + [stack[i]]
  }

  /** The windows whose root surface lives. */
  function Reap(stack: Stack, dead: set<Surface>): Stack {
    if stack == [] then []
    else if stack[0].surface !in dead then [stack[0]] + Reap(stack[1..], dead)
    else Reap(stack[1..], dead)
  }

  function FindRoot(stack: Stack, surface: Surface): (r: Option<ManagedWindow>)
    ensures r.Some? ==> r.value in stack && r.value.surface == surface
    ensures r.None? ==> forall window <- stack :: window.surface != surface
  {
    if stack == [] then None
    else if stack[0].surface == surface then Some(stack[0])
    else FindRoot(stack[1..], surface)
  }

  /** The topmost window the focus policy may focus. */
  function TopmostFocusable(stack: Stack): (r: Option<ManagedWindow>)
    ensures r.Some? ==> r.value in stack && r.value.IsFocusable()
    ensures r.Some? ==> exists i :: 0 <= i < |stack| && stack[i] == r.value && forall j :: i < j < |stack| ==> !stack[j].IsFocusable()
    ensures r.None? ==> forall window <- stack :: !window.IsFocusable()
  {
    if stack == [] then None
    else if stack[|stack| - 1].IsFocusable() then Some(stack[|stack| - 1])
    else TopmostFocusable(stack[..|stack| - 1])
  }

  /** The keep-reachable rule on one window; a dead one cannot be moved. */
  function KeptReachable(window: ManagedWindow, layout: Layout, pointer: RealPoint, dead: set<Surface>): ManagedWindow {
    if window.location.None? || window.IsOverrideRedirect() || window.surface in dead then window
    else match LocationToKeepReachable(window.location.value, window.geometry, layout, pointer)
      case None => window
      case Some(location) => window.(location := Some(location), resize := Idle)
  }

  /** The keep-reachable rule on every window, in stacking order. */
  function AllReachable(stack: Stack, layout: Layout, pointer: RealPoint, dead: set<Surface>): (r: Stack)
    ensures |r| == |stack|
  {
    seq(|stack|, i requires 0 <= i < |stack| => KeptReachable(stack[i], layout, pointer, dead))
  }

  /** `WindowStore`: the list is updated in place. Ids are never reused. */
  class WindowStore {
    var windows: Stack
    var nextId: nat

    ghost predicate Valid()
      reads this
    {
      && DistinctIds(windows)
      && forall i :: 0 <= i < |windows| ==> windows[i].id < nextId
    }

    constructor ()
      ensures Valid() && windows == [] && nextId == 0
    {
      windows, nextId := [], 0;
    }

    method Insert(surface: Surface, overrideRedirect: bool, location: Option<Point>, geometry: Rect)
        returns (id: nat)
      requires Valid()
      modifies this
      ensures Valid()
      ensures id == old(nextId) && nextId == old(nextId) + 1
      ensures windows == old(windows) + [ManagedWindow(id, surface, overrideRedirect, location, geometry, Idle)]
    {
      id := nextId;
      nextId := nextId + 1;
      windows := windows + [ManagedWindow(id, surface, overrideRedirect, location, geometry, Idle)];
    }

    method SetLocation(id: nat, location: Point) returns (found: bool)
      requires Valid()
      modifies this`windows
      ensures Valid()
      ensures found == IndexOf(old(windows), id).Some?
      ensures windows == Update(old(windows), id, Some(location), true)
    {
      match IndexOf(windows, id)
      case None => found := false;
      case Some(i) =>
        windows := windows[i := windows[i].(location := Some(location))];
        found := true;
    }

    /** Commits a new frame geometry for a window. */
    method SetGeometry(id: nat, geometry: Rect)
      requires Valid()
      modifies this`windows
      ensures Valid()
      ensures windows == match IndexOf(old(windows), id)
                         case None => old(windows)
                         case Some(i) => old(windows)[i := old(windows)[i].(geometry := geometry)]
    {
      match IndexOf(windows, id)
      case None =>
      case Some(i) => windows := windows[i := windows[i].(geometry := geometry)];
    }

    method RaiseWindow(id: nat)
      requires Valid()
      modifies this`windows
      ensures Valid() && windows == Raise(old(windows), id)
    {
      match IndexOf(windows, id)
      case None =>
      case Some(i) =>
        var window := windows[i];
        windows := RemoveAt(windows, i);
        windows := windows + [window];
    }

    method Place(id: nat, location: Point)
      requires Valid()
      modifies this`windows
      ensures Valid()
      ensures windows == Raise(Update(old(windows), id, Some(location), true), id)
    {
      var found := SetLocation(id, location);
      if found { RaiseWindow(id); }
    }

    method Unplace(id: nat)
      requires Valid()
      modifies this`windows
      ensures Valid() && windows == Update(old(windows), id, None, false)
    {
      match IndexOf(windows, id)
      case None =>
      case Some(i) => windows := windows[i := windows[i].(location := None, resize := Idle)];
    }

    method RemoveWindow(id: nat) returns (found: bool)
      requires Valid()
      modifies this`windows
      ensures Valid()
      ensures found == IndexOf(old(windows), id).Some?
      ensures windows == Remove(old(windows), id)
    {
      match IndexOf(windows, id)
      case None => found := false;
      case Some(i) =>
        windows := RemoveAt(windows, i);
        found := true;
    }

    method ReapDead(dead: set<Surface>) returns (reclaimed: nat)
      requires Valid()
      modifies this`windows
      ensures Valid()
      ensures windows == Reap(old(windows), dead) && reclaimed == |old(windows)| - |windows|
    {
      var before := windows;
      ReapKeepsOrder(windows, dead);
      forall i | 0 <= i < |Reap(windows, dead)| ensures Reap(windows, dead)[i].id < nextId {
        assert Reap(windows, dead)[i] in windows;
      }
      windows := Reap(windows, dead);
      reclaimed := |before| - |windows|;
    }

    /** `App::move_window`. */
    method MoveWindow(id: nat, location: Point, dead: set<Surface>) returns (moved: bool)
      requires Valid()
      modifies this`windows
      ensures Valid()
      ensures moved <==> Get(old(windows), id).Some? && Get(old(windows), id).value.location.Some?
                         && Get(old(windows), id).value.surface !in dead
      ensures windows == MoveOne(old(windows), id, location, dead)
    {
      match IndexOf(windows, id)
      case None => moved := false;
      case Some(i) =>
        moved := windows[i].location.Some? && windows[i].surface !in dead;
        if moved {
          windows := windows[i := windows[i].(location := Some(location), resize := Idle)];
        }
    }

    /** The first loop of `App::set_output_layout`: the stranded windows. */
    method CollectStranded(layout: Layout, pointer: RealPoint) returns (stranded: seq<(nat, Point)>)
      ensures forall s :: s in stranded <==> exists k :: 0 <= k < |windows| && Strands(windows[k], layout, pointer, s)
    {
      stranded := [];
      for i := 0 to |windows|
        invariant forall s :: s in stranded <==> exists k :: 0 <= k < i && Strands(windows[k], layout, pointer, s)
      {
        var window := windows[i];
        if window.location.Some? && !window.IsOverrideRedirect() {
          var location := LocationToKeepReachable(window.location.value, window.geometry, layout, pointer);
          if location.Some? {
            stranded := stranded + [(window.id, location.value)];
          }
        }
      }
    }

    /** Its second loop, and the whole rule: each stranded window is moved. */
    method KeepReachable(layout: Layout, pointer: RealPoint, dead: set<Surface>)
      requires Valid()
      modifies this`windows
      ensures Valid() && windows == AllReachable(old(windows), layout, pointer, dead)
    {
      var stranded := CollectStranded(layout, pointer);
      ghost var before := windows;
      for j := 0 to |stranded|
        invariant Valid() && windows == MoveEach(before, stranded[..j], dead)
      {
        assert stranded[..j + 1][..j] == stranded[..j];
        var _ := MoveWindow(stranded[j].0, stranded[j].1, dead);
      }
      assert stranded[..|stranded|] == stranded;
      MoveEachIsKeepReachable(before, stranded, layout, pointer, dead);
    }
  }

  /** `App::move_window` as a function. */
  function MoveOne(stack: Stack, id: nat, location: Point, dead: set<Surface>): Stack {
    match Get(stack, id)
    case None => stack
    case Some(window) =>
      if window.location.Some? && window.surface !in dead then Update(stack, id, Some(location), false) else stack
  }

  function MoveEach(stack: Stack, moves: seq<(nat, Point)>, dead: set<Surface>): Stack {
    if moves == [] then stack
    else
      var last := moves[|moves| - 1];
      MoveOne(MoveEach(stack, moves[..|moves| - 1], dead), last.0, last.1, dead)
  }

  /** A window once the stranded windows listed in `done` have been moved. */
  ghost predicate MovedSoFar(
    before: ManagedWindow, now: ManagedWindow, done: seq<(nat, Point)>, layout: Layout, pointer: RealPoint, dead: set<Surface>)
  {
    now == if before.id in Ids(done) then KeptReachable(before, layout, pointer, dead) else before
  }

  /** Every listed move is that of a stranded window. */
  ghost predicate AllStranded(stack: Stack, moves: seq<(nat, Point)>, layout: Layout, pointer: RealPoint) {
    forall s <- moves :: exists k :: 0 <= k < |stack| && Strands(stack[k], layout, pointer, s)
  }

  ghost predicate AllMovedSoFar(
    stack: Stack, now: Stack, done: seq<(nat, Point)>, layout: Layout, pointer: RealPoint, dead: set<Surface>)
  {
    && |now| == |stack|
    && forall k :: 0 <= k < |stack| ==> MovedSoFar(stack[k], now[k], done, layout, pointer, dead)
  }

  lemma {:induction false} MoveEachAt(
    stack: Stack, moves: seq<(nat, Point)>, layout: Layout, pointer: RealPoint, dead: set<Surface>)
    requires DistinctIds(stack) && AllStranded(stack, moves, layout, pointer)
    ensures AllMovedSoFar(stack, MoveEach(stack, moves, dead), moves, layout, pointer, dead)
  {
    if moves != [] {
      var earlier, last := moves[..|moves| - 1], moves[|moves| - 1];
      assert moves == earlier + [last];
      assert forall s <- earlier :: s in moves;
      MoveEachAt(stack, earlier, layout, pointer, dead);
      assert last in moves;
      var k :| 0 <= k < |stack| && Strands(stack[k], layout, pointer, last);
      MoveOneStep(stack, MoveEach(stack, earlier, dead), earlier, last, layout, pointer, dead, k);
    }
  }

  lemma MoveOneStep(
    stack: Stack, now: Stack, earlier: seq<(nat, Point)>, last: (nat, Point),
    layout: Layout, pointer: RealPoint, dead: set<Surface>, k: nat)
    requires DistinctIds(stack) && k < |stack| && Strands(stack[k], layout, pointer, last)
    requires AllMovedSoFar(stack, now, earlier, layout, pointer, dead)
    ensures AllMovedSoFar(stack, MoveOne(now, last.0, last.1, dead), earlier + [last], layout, pointer, dead)
  {
    assert forall m :: 0 <= m < |stack| ==> now[m].id == stack[m].id;
    assert now[k].id == last.0;
    var next := MoveOne(now, last.0, last.1, dead);
    forall m | 0 <= m < |stack| ensures MovedSoFar(stack[m], next[m], earlier + [last], layout, pointer, dead) {
      assert MovedSoFar(stack[m], now[m], earlier, layout, pointer, dead);
      if m != k {
        assert stack[m].id != stack[k].id;
        assert next[m] == now[m];
      }
      assert last in earlier + [last];
    }
  }

  lemma MoveEachIsKeepReachable(
    stack: Stack, stranded: seq<(nat, Point)>, layout: Layout, pointer: RealPoint, dead: set<Surface>)
    requires DistinctIds(stack)
    requires forall s :: s in stranded <==> exists k :: 0 <= k < |stack| && Strands(stack[k], layout, pointer, s)
    ensures MoveEach(stack, stranded, dead) == AllReachable(stack, layout, pointer, dead)
  {
    MoveEachAt(stack, stranded, layout, pointer, dead);
    forall k | 0 <= k < |stack|
      ensures MoveEach(stack, stranded, dead)[k] == AllReachable(stack, layout, pointer, dead)[k]
    {
      StrandedWindowsAreListed(stack, stranded, layout, pointer, k);
      assert MovedSoFar(stack[k], MoveEach(stack, stranded, dead)[k], stranded, layout, pointer, dead);
      if KeptReachable(stack[k], layout, pointer, dead) != stack[k] {
        var to := LocationToKeepReachable(stack[k].location.value, stack[k].geometry, layout, pointer);
        assert Strands(stack[k], layout, pointer, (stack[k].id, to.value));
      }
    }
  }

  lemma StrandedWindowsAreListed(
    stack: Stack, stranded: seq<(nat, Point)>, layout: Layout, pointer: RealPoint, k: nat)
    requires DistinctIds(stack) && k < |stack|
    requires forall s :: s in stranded <==> exists i :: 0 <= i < |stack| && Strands(stack[i], layout, pointer, s)
    ensures stack[k].id in Ids(stranded) <==> exists location :: Strands(stack[k], layout, pointer, (stack[k].id, location))
  {
    if stack[k].id in Ids(stranded) {
      var s :| s in stranded && s.0 == stack[k].id;
      var i :| 0 <= i < |stack| && Strands(stack[i], layout, pointer, s);
      assert i == k;
      assert Strands(stack[k], layout, pointer, (stack[k].id, s.1));
    }
    if location :| Strands(stack[k], layout, pointer, (stack[k].id, location)) {
      assert (stack[k].id, location) in stranded;
    }
  }

  ghost predicate Strands(window: ManagedWindow, layout: Layout, pointer: RealPoint, s: (nat, Point)) {
    && window.id == s.0 && window.location.Some? && !window.IsOverrideRedirect()
    && LocationToKeepReachable(window.location.value, window.geometry, layout, pointer) == Some(s.1)
  }

  ghost function Ids(stranded: seq<(nat, Point)>): set<nat> {
    set s <- stranded :: s.0
  }

  // ---- What the store keeps ------------------------------------------------------

  /** Reaping keeps exactly the live windows, in their order. */
  lemma {:induction false} ReapKeepsOrder(stack: Stack, dead: set<Surface>)
    ensures |Reap(stack, dead)| <= |stack|
    ensures forall window :: window in Reap(stack, dead) <==> window in stack && window.surface !in dead
    ensures DistinctIds(stack) ==> DistinctIds(Reap(stack, dead))
  {
    if stack != [] {
      ReapKeepsOrder(stack[1..], dead);
      assert stack == [stack[0]] + stack[1..];
      if DistinctIds(stack) {
        forall window <- Reap(stack[1..], dead) ensures window.id != stack[0].id {
          assert window in stack[1..];
        }
      }
    }
  }

  // ---- Reachability -----------------------------------------------------------------

  /** Outputs with room in them and far edges inside the `i32` range. */
  ghost predicate UsableLayout(layout: Layout) {
    && layout != []
    && forall i :: 0 <= i < |layout| ==>
         && InI32(layout[i].location.x) && InI32(layout[i].location.y)
         && 1 <= layout[i].logicalSize.w && layout[i].location.x + layout[i].logicalSize.w <= I32_MAX
         && 1 <= layout[i].logicalSize.h && layout[i].location.y + layout[i].logicalSize.h <= I32_MAX
  }

  /** Placing a window of this geometry computes exact coordinates. */
  ghost predicate PlacesExactly(geometry: Rect, layout: Layout, pointer: RealPoint) {
    var origin := FrameOrigin(geometry, layout, pointer);
    && 0 <= geometry.size.w <= I32_MAX && 0 <= geometry.size.h <= I32_MAX
    && InI32(origin.x - geometry.loc.x) && InI32(origin.y - geometry.loc.y)
  }

  /** A window the keep-reachable rule moves. */
  predicate IsStranded(window: ManagedWindow, layout: Layout, dead: set<Surface>) {
    window.IsFocusable() && window.surface !in dead && !OnSomeOutput(window.Frame(), layout)
  }

  lemma TargetIsInLayout(layout: Layout, pointer: RealPoint)
    requires layout != []
    ensures TargetOutput(layout, pointer).Some? && TargetOutput(layout, pointer).value in layout
  {
  }

  /** The initial-placement rule shows the window on its target output. */
  lemma InitialLocationIsReachable(geometry: Rect, layout: Layout, pointer: RealPoint)
    requires UsableLayout(layout) && PlacesExactly(geometry, layout, pointer)
    ensures OnSomeOutput(FrameAt(InitialLocation(geometry, layout, pointer), geometry), layout)
  {
    TargetIsInLayout(layout, pointer);
    var output := TargetOutput(layout, pointer).value;
    var i :| 0 <= i < |layout| && layout[i] == output;
    var frame := FrameAt(InitialLocation(geometry, layout, pointer), geometry);
    assert frame.loc == FrameOrigin(geometry, layout, pointer);
    assert layout[i].Area().Overlaps(frame);
  }

  /** A centred frame leaves margins that differ by at most one pixel; a frame
      larger than the output starts at its edge. */
  lemma FrameIsCentred(start: int, extent: int, size: int)
    requires InI32(start) && 0 <= size <= I32_MAX && 1 <= extent && start + extent <= I32_MAX && extent <= I32_MAX
    ensures var at := CentredStart(start, extent, size);
      && (size > extent ==> at == start)
      && (size <= extent ==> start <= at && at + size <= start + extent
                             && 0 <= (start + extent - (at + size)) - (at - start) <= 1)
  {
  }

  /** After a layout change every live, placed, managed window shows on some
      output. Windows that already did are unmoved, and so are the stacking
      order, override-redirect, unplaced and dead windows; applying the rule
      again moves nothing. */
  lemma EveryWindowStaysReachable(stack: Stack, layout: Layout, pointer: RealPoint, dead: set<Surface>)
    requires UsableLayout(layout)
    requires forall i :: 0 <= i < |stack| && IsStranded(stack[i], layout, dead) ==> PlacesExactly(stack[i].geometry, layout, pointer)
    ensures var after := AllReachable(stack, layout, pointer, dead);
      && (forall i :: 0 <= i < |stack| ==>
            && after[i].(location := stack[i].location, resize := stack[i].resize) == stack[i]
            && (after[i].location.Some? <==> stack[i].location.Some?)
            && (after[i].IsFocusable() && after[i].surface !in dead ==> OnSomeOutput(after[i].Frame(), layout))
            && (stack[i].location.Some? && OnSomeOutput(stack[i].Frame(), layout) ==> after[i] == stack[i])
            && (stack[i].IsOverrideRedirect() || stack[i].surface in dead ==> after[i] == stack[i]))
      && AllReachable(after, layout, pointer, dead) == after
  {
    var after := AllReachable(stack, layout, pointer, dead);
    forall i | 0 <= i < |stack|
      ensures after[i].IsFocusable() && after[i].surface !in dead ==> OnSomeOutput(after[i].Frame(), layout)
    {
      if IsStranded(stack[i], layout, dead) { InitialLocationIsReachable(stack[i].geometry, layout, pointer); }
    }
  }
}
