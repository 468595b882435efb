/** Window management with no lock, no popup grab and no seat: what windows,
    their clients, the outputs and the pointer do to stacking and focus
    (crates/nkdhr-compositor/src/state.rs). */
module Desks {
  import opened Wrappers
  import opened Geometry
  import opened Objects
  import opened Outputs
  import Resize
  import opened Windows
  import opened Session
  import opened SessionInvariant
  import opened SessionSafety

  /** The focus, and the window it is a popup of, if it is one. */
  datatype Desk = Desk(
    stack: Stack, nextId: nat, dead: set<Surface>, layout: Layout, pointer: RealPoint,
    focus: Option<Surface>, parent: Option<Surface>)
  {
    function WithFocus(target: Option<Surface>): Desk {
      this.(focus := target, parent := None)
    }

    function FocusTopmost(): Desk {
      WithFocus(Target(TopmostFocusable(stack)))
    }

    /** Raises and focuses a window that may be focused. */
    function Focus(id: nat): Desk {
      var window := Get(stack, id);
      if window.None? || !window.value.IsFocusable() then this
      else this.(stack := Raise(stack, id)).WithFocus(Target(window))
    }

    predicate Focused(id: nat) {
      var window := Get(stack, id);
      focus.Some? && window.Some? && (window.value.surface == focus.value || parent == Some(window.value.surface))
    }

    function Insert(surface: Surface, overrideRedirect: bool, location: Option<Point>, geometry: Rect): Desk {
      this.(stack := stack + [ManagedWindow(nextId, surface, overrideRedirect, location, geometry, Resize.Idle)], nextId := nextId + 1)
    }

    function Place(id: nat, geometry: Rect): Desk {
      this.(stack := Raise(Update(stack, id, Some(InitialLocation(geometry, layout, pointer)), true), id)).Focus(id)
    }

    function Unplace(id: nat): Desk {
      var unplaced := this.(stack := Update(stack, id, None, false));
      if Focused(id) then unplaced.FocusTopmost() else unplaced
    }

    function Commit(id: nat, frame: Option<Rect>): Desk {
      var window := Get(stack, id);
      if window.None? || window.value.surface.role.X11Role? then this
      else
        var drawn := if frame.Some? then this.(stack := WithGeometry(stack, id, frame.value)) else this;
        if window.value.location.None? && frame.Some? then drawn.Place(id, frame.value)
        else if window.value.location.Some? && frame.None? then drawn.Unplace(id)
        else drawn
    }

    function MapX11(surface: Surface, overrideRedirect: bool, geometry: Rect): Desk {
      var frame := Rect(Point(0, 0), geometry.size);
      if FindRoot(stack, surface).Some? then this
      else if overrideRedirect then Insert(surface, true, Some(geometry.loc), frame)
      else Insert(surface, false, Some(InitialLocation(frame, layout, pointer)), frame).Focus(nextId)
    }

    function RemoveWindow(id: nat): Desk {
      var removed := this.(stack := Remove(stack, id));
      if Focused(id) then removed.FocusTopmost() else removed
    }

    function Died(surfaces: set<Surface>): Desk {
      this.(dead := dead + surfaces, parent := if focus.Some? && focus.value in surfaces then None else parent)
    }

    function Reaped(): Desk {
      var reaped := this.(stack := Reap(stack, dead));
      if focus.Some? && focus.value in dead then reaped.FocusTopmost() else reaped
    }

    function Next(step: Step): Desk {
      match step
      case NewToplevel(surface) => Insert(surface, false, None, Rect(Point(0, 0), Size(0, 0)))
      case Commit(id, frame, _) => Commit(id, frame)
      case MapX11(surface, overrideRedirect, geometry, _) => MapX11(surface, overrideRedirect, geometry)
      case RemoveWindow(id, _) => RemoveWindow(id)
      case Die(surfaces) => Died(surfaces)
      case SetLayout(newLayout, _) => this.(layout := newLayout, stack := AllReachable(stack, newLayout, pointer, dead))
      case NewPopup(popup, root) => if focus == Some(popup) then this.(parent := Some(root)) else this
      case Motion(towards, _) => this.(pointer := Clamp(layout, towards))
      case Refresh(_) => Reaped()
      case _ => this
    }
  }

  /** What windows, their clients, the outputs and the pointer may do. */
  predicate IsWindowEvent(step: Step) {
    step.NewToplevel? || step.Commit? || step.MapX11? || step.RemoveWindow? || step.Die? || step.SetLayout?
    || step.NewPopup? || step.Motion? || step.Refresh?
  }

  function RunDesk(desk: Desk, steps: seq<Step>): Desk {
    if steps == [] then desk else RunDesk(desk, steps[..|steps| - 1]).Next(steps[|steps| - 1])
  }

  // ---- The topmost live window ---------------------------------------------------------

  /** The focus the fallback would give once the dead windows are reaped. */
  function Fallback(stack: Stack, dead: set<Surface>): Option<Surface> {
    Target(TopmostFocusable(Reap(stack, dead)))
  }

  predicate IsCandidate(window: ManagedWindow, dead: set<Surface>) {
    window.IsFocusable() && window.surface !in dead
  }

  /** The surface is that of the last live window that may be focused. */
  ghost predicate IsTop(stack: Stack, dead: set<Surface>, surface: Option<Surface>) {
    if surface.None? then forall window <- stack :: !IsCandidate(window, dead)
    else exists i :: 0 <= i < |stack| && IsLastCandidate(stack, dead, i) && stack[i].surface == surface.value
  }

  predicate IsLastCandidate(stack: Stack, dead: set<Surface>, i: int) {
    && 0 <= i < |stack| && IsCandidate(stack[i], dead)
    && forall j :: i < j < |stack| ==> !IsCandidate(stack[j], dead)
  }

  lemma {:induction false} FallbackIsTop(stack: Stack, dead: set<Surface>)
    ensures IsTop(stack, dead, Fallback(stack, dead))
  {
    if stack != [] {
      var below, top := stack[..|stack| - 1], stack[|stack| - 1];
      FallbackIsTop(below, dead);
      ReapAppends(below, top, dead);
      assert stack == below + [top];
      if IsCandidate(top, dead) {
        assert IsLastCandidate(stack, dead, |stack| - 1);
      } else {
        FallbackIgnores(below, top, dead);
        if Fallback(below, dead).Some? {
          var i :| 0 <= i < |below| && IsLastCandidate(below, dead, i) && below[i].surface == Fallback(below, dead).value;
          assert IsLastCandidate(stack, dead, i);
        }
      }
    }
  }

  lemma FallbackIgnores(below: Stack, top: ManagedWindow, dead: set<Surface>)
    requires !IsCandidate(top, dead)
    ensures Fallback(below + [top], dead) == Fallback(below, dead)
  {
    ReapAppends(below, top, dead);
    if top.surface !in dead {
      assert (Reap(below, dead) + [top])[..|Reap(below, dead)|] == Reap(below, dead);
    } else {
      assert Reap(below, dead) + [] == Reap(below, dead);
    }
  }

  lemma TopIsUnique(stack: Stack, dead: set<Surface>, surface: Option<Surface>)
    requires IsTop(stack, dead, surface)
    ensures Fallback(stack, dead) == surface
  {
    FallbackIsTop(stack, dead);
    var other := Fallback(stack, dead);
    if surface.Some? && other.Some? {
      var i :| 0 <= i < |stack| && IsLastCandidate(stack, dead, i) && stack[i].surface == surface.value;
      var j :| 0 <= j < |stack| && IsLastCandidate(stack, dead, j) && stack[j].surface == other.value;
      assert i == j;
    }
  }

  // ---- Focus that falls back ----------------------------------------------------------------

  /** The focus has died, or is already where the fallback would put it. */
  predicate FallsBack(desk: Desk) {
    desk.parent.None?
    && (desk.focus == Fallback(desk.stack, desk.dead) || (desk.focus.Some? && desk.focus.value in desk.dead))
  }

  /** Two desks that differ only in focus, and whose focus a refresh makes one. */
  predicate Alike(a: Desk, b: Desk) {
    && SameButFocus(a, b)
    && (a == b || (FallsBack(a) && FallsBack(b)))
  }

  lemma TopmostFallsBack(desk: Desk)
    ensures FallsBack(desk.FocusTopmost())
  {
    TopmostOfReaped(desk.stack, desk.dead);
  }

  lemma WindowOnTopFallsBack(desk: Desk, window: ManagedWindow)
    requires desk.stack != [] && desk.stack[|desk.stack| - 1] == window && window.IsFocusable()
    requires desk.focus == Some(window.surface) && desk.parent.None?
    ensures FallsBack(desk)
  {
    if window.surface !in desk.dead {
      assert IsLastCandidate(desk.stack, desk.dead, |desk.stack| - 1);
      TopIsUnique(desk.stack, desk.dead, desk.focus);
    }
  }

  /** The same windows in the same places, as far as focus is concerned. */
  ghost predicate LooksAlike(stack: Stack, now: Stack) {
    && |now| == |stack|
    && forall i :: 0 <= i < |stack| ==> now[i].surface == stack[i].surface && (now[i].IsFocusable() <==> stack[i].IsFocusable())
  }

  lemma LooksFallBackAlike(stack: Stack, now: Stack, dead: set<Surface>)
    requires LooksAlike(stack, now)
    ensures Fallback(now, dead) == Fallback(stack, dead)
  {
    FallbackIsTop(stack, dead);
    var top := Fallback(stack, dead);
    if top.Some? {
      var i :| 0 <= i < |stack| && IsLastCandidate(stack, dead, i) && stack[i].surface == top.value;
      assert IsLastCandidate(now, dead, i);
    } else {
      forall window <- now ensures !IsCandidate(window, dead) {
        var i :| 0 <= i < |now| && now[i] == window;
        assert stack[i] in stack;
      }
    }
    TopIsUnique(now, dead, top);
  }

  /** Losing one window as a candidate leaves any other one on top. */
  lemma OthersStayOnTop(stack: Stack, now: Stack, dead: set<Surface>, gone: ManagedWindow)
    requires Fallback(stack, dead) != Some(gone.surface)
    requires now == Update(stack, gone.id, None, false) || now == Remove(stack, gone.id)
    requires Get(stack, gone.id) == Some(gone)
    ensures Fallback(now, dead) == Fallback(stack, dead)
  {
    FallbackIsTop(stack, dead);
    var top, k := Fallback(stack, dead), IndexOf(stack, gone.id).value;
    if top.Some? {
      var i :| 0 <= i < |stack| && IsLastCandidate(stack, dead, i) && stack[i].surface == top.value;
      var at := if |now| == |stack| || i < k then i else i - 1;
      assert i != k && now[at] == stack[i];
      forall j | at < j < |now| ensures !IsCandidate(now[j], dead) {
        assert now[j] == stack[if |now| == |stack| || j < k then j else j + 1] || (|now| == |stack| && j == k);
      }
      assert IsLastCandidate(now, dead, at);
    } else {
      forall window <- now ensures !IsCandidate(window, dead) {
        assert window in stack || !window.IsFocusable();
      }
    }
    TopIsUnique(now, dead, top);
  }

  lemma DeathKeepsTheTop(stack: Stack, dead: set<Surface>, more: set<Surface>)
    requires Fallback(stack, dead).Some? ==> Fallback(stack, dead).value !in more
    ensures Fallback(stack, dead + more) == Fallback(stack, dead)
  {
    FallbackIsTop(stack, dead);
    var top := Fallback(stack, dead);
    if top.Some? {
      var i :| 0 <= i < |stack| && IsLastCandidate(stack, dead, i) && stack[i].surface == top.value;
      assert IsLastCandidate(stack, dead + more, i);
    }
    TopIsUnique(stack, dead + more, top);
  }

  lemma ReapedFallsBackAlike(stack: Stack, dead: set<Surface>)
    ensures Fallback(Reap(stack, dead), dead) == Fallback(stack, dead)
  {
    ReapTwice(stack, dead);
  }

  lemma {:induction false} ReapTwice(stack: Stack, dead: set<Surface>)
    ensures Reap(Reap(stack, dead), dead) == Reap(stack, dead)
  {
    if stack != [] { ReapTwice(stack[1..], dead); }
  }

  // ---- Every window event keeps it -----------------------------------------------------------

  /** Ids and surfaces are the windows' own, and only a live popup has a parent. */
  ghost predicate Sound(desk: Desk) {
    && GoodStack(desk.stack, desk.nextId)
    && (desk.parent.Some? ==> desk.focus.Some? && desk.focus.value.role == PopupRole && desk.focus.value !in desk.dead)
  }

  lemma FocusFallsBack(desk: Desk, id: nat)
    requires FallsBack(desk) || (Get(desk.stack, id).Some? && Get(desk.stack, id).value.IsFocusable())
    ensures FallsBack(desk.Focus(id))
  {
    var window := Get(desk.stack, id);
    if window.Some? && window.value.IsFocusable() { WindowOnTopFallsBack(desk.Focus(id), window.value); }
  }

  lemma InsertFallsBack(desk: Desk, surface: Surface, overrideRedirect: bool, location: Option<Point>, geometry: Rect)
    requires FallsBack(desk) && (location.None? || (surface.role == X11Role && overrideRedirect))
    ensures FallsBack(desk.Insert(surface, overrideRedirect, location, geometry))
  {
    FallbackIgnores(desk.stack, ManagedWindow(desk.nextId, surface, overrideRedirect, location, geometry, Resize.Idle), desk.dead);
  }

  lemma FoundAfterInsertion(desk: Desk, surface: Surface, overrideRedirect: bool, location: Option<Point>, geometry: Rect)
    requires GoodStack(desk.stack, desk.nextId)
    ensures var inserted := desk.Insert(surface, overrideRedirect, location, geometry);
      Get(inserted.stack, desk.nextId) == Some(inserted.stack[|desk.stack|])
  {
    var inserted := desk.Insert(surface, overrideRedirect, location, geometry);
    assert inserted.stack[|desk.stack|].id == desk.nextId;
  }

  lemma UnplaceFallsBack(desk: Desk, id: nat)
    requires FallsBack(desk)
    ensures FallsBack(desk.Unplace(id)) && FallsBack(desk.RemoveWindow(id))
  {
    TopmostFallsBack(desk.(stack := Update(desk.stack, id, None, false)));
    TopmostFallsBack(desk.(stack := Remove(desk.stack, id)));
    var window := Get(desk.stack, id);
    if window.Some? && !desk.Focused(id) && desk.focus == Fallback(desk.stack, desk.dead) {
      OthersStayOnTop(desk.stack, Update(desk.stack, id, None, false), desk.dead, window.value);
      OthersStayOnTop(desk.stack, Remove(desk.stack, id), desk.dead, window.value);
    }
  }

  lemma PlaceFallsBack(desk: Desk, id: nat, geometry: Rect)
    requires GoodStack(desk.stack, desk.nextId) && Get(desk.stack, id).Some? && !Get(desk.stack, id).value.surface.role.X11Role?
    ensures FallsBack(desk.Place(id, geometry))
  {
    var updated := Update(desk.stack, id, Some(InitialLocation(geometry, desk.layout, desk.pointer)), true);
    var k := IndexOf(desk.stack, id).value;
    IdsAreFound(updated, desk.nextId, k);
    RaiseKeepsGood(updated, desk.nextId, id);
    var raised := Raise(updated, id);
    IdsAreFound(raised, desk.nextId, |raised| - 1);
    FocusFallsBack(desk.(stack := raised), id);
  }

  lemma IdsAreFound(stack: Stack, nextId: nat, k: nat)
    requires GoodStack(stack, nextId) && k < |stack|
    ensures IndexOf(stack, stack[k].id) == Some(k)
  {
    assert IndexOf(stack, stack[k].id).Some?;
  }

  lemma CommitFallsBack(desk: Desk, id: nat, frame: Option<Rect>)
    requires Sound(desk) && FallsBack(desk)
    ensures FallsBack(desk.Commit(id, frame))
  {
    if frame.Some? {
      var drawn := desk.(stack := WithGeometry(desk.stack, id, frame.value));
      LooksFallBackAlike(desk.stack, drawn.stack, desk.dead);
      if Get(desk.stack, id).Some? && !Get(desk.stack, id).value.surface.role.X11Role? {
        DrawnWindowIsFound(desk, id, frame.value);
        PlaceFallsBack(drawn, id, frame.value);
      }
    } else {
      UnplaceFallsBack(desk, id);
    }
  }

  lemma DrawnWindowIsFound(desk: Desk, id: nat, geometry: Rect)
    requires GoodStack(desk.stack, desk.nextId) && Get(desk.stack, id).Some?
    ensures var drawn := WithGeometry(desk.stack, id, geometry);
      GoodStack(drawn, desk.nextId) && Get(drawn, id).Some? && Get(drawn, id).value.surface == Get(desk.stack, id).value.surface
  {
    var k := IndexOf(desk.stack, id).value;
    IdsAreFound(WithGeometry(desk.stack, id, geometry), desk.nextId, k);
  }

  lemma MapX11FallsBack(desk: Desk, surface: Surface, overrideRedirect: bool, geometry: Rect)
    requires Sound(desk) && FallsBack(desk) && surface.role == X11Role
    ensures FallsBack(desk.MapX11(surface, overrideRedirect, geometry))
  {
    if FindRoot(desk.stack, surface).None? {
      var frame := Rect(Point(0, 0), geometry.size);
      if overrideRedirect {
        InsertFallsBack(desk, surface, true, Some(geometry.loc), frame);
      } else {
        var location := Some(InitialLocation(frame, desk.layout, desk.pointer));
        FoundAfterInsertion(desk, surface, false, location, frame);
        FocusFallsBack(desk.Insert(surface, false, location, frame), desk.nextId);
      }
    }
  }

  lemma DeathFallsBack(desk: Desk, surfaces: set<Surface>)
    requires FallsBack(desk)
    ensures FallsBack(desk.Died(surfaces))
  {
    if desk.focus == Fallback(desk.stack, desk.dead) && (desk.focus.Some? ==> desk.focus.value !in surfaces) {
      DeathKeepsTheTop(desk.stack, desk.dead, surfaces);
    }
  }

  /** Focus that falls back keeps falling back. */
  lemma EventsKeepFallingBack(desk: Desk, step: Step)
    requires Sound(desk) && FallsBack(desk) && IsWindowEvent(step)
    requires step.MapX11? ==> step.surface.role == X11Role
    requires step.NewPopup? ==> step.popup.role == PopupRole && step.popup !in desk.dead
    ensures FallsBack(desk.Next(step))
  {
    match step
    case NewToplevel(surface) => InsertFallsBack(desk, surface, false, None, Rect(Point(0, 0), Size(0, 0)));
    case Commit(id, frame, _) => CommitFallsBack(desk, id, frame);
    case MapX11(surface, overrideRedirect, geometry, _) => MapX11FallsBack(desk, surface, overrideRedirect, geometry);
    case RemoveWindow(id, _) => UnplaceFallsBack(desk, id);
    case Die(surfaces) => DeathFallsBack(desk, surfaces);
    case SetLayout(layout, _) => LooksFallBackAlike(desk.stack, AllReachable(desk.stack, layout, desk.pointer, desk.dead), desk.dead);
    case NewPopup(popup, root) => FallbackIsAWindow(desk);
    case Motion(_, _) =>
    case Refresh(_) =>
      ReapedFallsBackAlike(desk.stack, desk.dead);
      TopmostFallsBack(desk.(stack := Reap(desk.stack, desk.dead)));
  }

  lemma FallbackIsAWindow(desk: Desk)
    requires GoodStack(desk.stack, desk.nextId)
    ensures Fallback(desk.stack, desk.dead).Some? ==> IsWindowRole(Fallback(desk.stack, desk.dead).value)
  {
    FallbackIsTop(desk.stack, desk.dead);
  }

  /** A window event keeps two desks alike. */
  lemma EventsKeepDesksAlike(a: Desk, b: Desk, step: Step)
    requires Alike(a, b) && Sound(a) && Sound(b) && IsWindowEvent(step)
    requires step.MapX11? ==> step.surface.role == X11Role
    requires step.NewPopup? ==> step.popup.role == PopupRole && step.popup !in a.dead
    ensures Alike(a.Next(step), b.Next(step))
  {
    if a != b {
      EventsKeepFallingBack(a, step);
      EventsKeepFallingBack(b, step);
      OnlyFocusDependsOnFocus(a, b, step);
    }
  }

  /** The desks differ in focus at most. */
  predicate SameButFocus(a: Desk, b: Desk) {
    a.(focus := b.focus, parent := b.parent) == b
  }

  lemma PlacingDependsOnNoFocus(a: Desk, b: Desk, id: nat, frame: Option<Rect>)
    requires SameButFocus(a, b)
    ensures SameButFocus(a.Commit(id, frame), b.Commit(id, frame))
  {
    if frame.Some? {
      var placed, other := a.(stack := WithGeometry(a.stack, id, frame.value)), b.(stack := WithGeometry(b.stack, id, frame.value));
      assert SameButFocus(placed.Place(id, frame.value), other.Place(id, frame.value));
    } else {
      assert SameButFocus(a.Unplace(id), b.Unplace(id));
    }
  }

  lemma MappingDependsOnNoFocus(a: Desk, b: Desk, surface: Surface, overrideRedirect: bool, geometry: Rect)
    requires SameButFocus(a, b)
    ensures SameButFocus(a.MapX11(surface, overrideRedirect, geometry), b.MapX11(surface, overrideRedirect, geometry))
  {
  }

  lemma OnlyFocusDependsOnFocus(a: Desk, b: Desk, step: Step)
    requires SameButFocus(a, b)
    ensures SameButFocus(a.Next(step), b.Next(step))
  {
    match step
    case Commit(id, frame, _) => PlacingDependsOnNoFocus(a, b, id, frame);
    case MapX11(surface, overrideRedirect, geometry, _) => MappingDependsOnNoFocus(a, b, surface, overrideRedirect, geometry);
    case _ =>
  }

  /** Alike desks have one focus after a refresh. */
  lemma AlikeDesksRefreshToOne(a: Desk, b: Desk)
    requires Alike(a, b)
    ensures a.Reaped().focus == b.Reaped().focus && a.Reaped().stack == b.Reaped().stack
  {
  }
}
