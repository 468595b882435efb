/** Who may hold the keyboard focus of an unlocked session, and exactly when it
    ends up where the policy never puts it
    (crates/nkdhr-compositor/src/state.rs). */
module FocusPolicy {
  import opened Wrappers
  import opened Geometry
  import opened Objects
  import opened Outputs
  import opened Windows
  import opened SessionLock
  import opened Session
  import opened SessionInvariant
  import opened SessionSafety
  import opened MenuGrabs

  // ---- Who may hold the focus ------------------------------------------------------------

  /** The surface is that of a window the policy may focus. */
  ghost predicate CanTakeFocus(stack: Stack, surface: Surface) {
    exists i :: 0 <= i < |stack| && stack[i].surface == surface && stack[i].IsFocusable()
  }

  /** No focus, a focusable window's, or one that has died since the last
      refresh, which the next one moves. */
  ghost predicate IsEarned(s: App, focus: Option<Surface>) {
    focus.Some? ==> focus.value in s.dead || CanTakeFocus(s.stack, focus.value)
  }

  /** The focus the policy acts on is earned, unless an open menu holds it. */
  ghost predicate FocusIsEarned(s: App) {
    (!s.lock.protected && s.keyboardGrab) || IsEarned(s, PolicyFocus(s))
  }

  /** A surface belongs to its own window, or to the one it is a popup of. */
  lemma OwnersOfFocus(s: App, focus: Surface)
    requires GoodStack(s.stack, s.nextId) && TracksLivePopups(s.popups, s.dead)
    ensures var owner := Owner(s, s.stack, focus);
      && (focus in s.popups ==> owner == FindRoot(s.stack, s.popups[focus]))
      && (focus !in s.popups && owner.Some? ==> owner.value.surface == focus)
      && (owner.Some? && focus in s.popups ==> owner.value.surface != focus)
  {
    if focus in s.popups {
      var owner, root := Owner(s, s.stack, focus), FindRoot(s.stack, s.popups[focus]);
      assert forall window <- s.stack :: window.surface != focus;
      if owner.Some? && root.Some? {
        var i :| 0 <= i < |s.stack| && s.stack[i] == owner.value;
        var j :| 0 <= j < |s.stack| && s.stack[j] == root.value;
        assert s.stack[i].surface == s.stack[j].surface;
      }
    }
  }

  /** The surface a lock remembers for a menu whose root cannot take the focus:
      the window that owns the focus, or the focus itself. */
  function RememberedOwner(s: App): Option<Surface> {
    var owner := if s.keyboardFocus.Some? then Owner(s, s.stack, s.keyboardFocus.value) else None;
    if owner.Some? then Target(owner) else s.keyboardFocus
  }

  /** The steps that put the focus where the policy never does: input that ends a
      menu, and a lock under an open menu, while the window it goes to cannot
      take it. */
  ghost predicate StraysFocus(s: App, step: Step) {
    if InputEndsTheMenu(s, step) then RootCannotTakeFocus(s, s.popupGrab.value)
    else
      && step.LockRequest? && !s.lock.protected && s.keyboardGrab && s.popupGrab.Some?
      && PopupRootTarget(s, s.popupGrab.value).None? && !IsEarned(s, RememberedOwner(s))
  }

  lemma TopmostIsEarned(s: App)
    ensures FocusIsEarned(FocusTopmost(s))
  {
    var top := TopmostFocusable(s.stack);
    if top.Some? {
      var i :| 0 <= i < |s.stack| && s.stack[i] == top.value;
      assert CanTakeFocus(s.stack, top.value.surface);
    }
  }

  lemma PointerKeepsEarned(s: App, focus: Option<Surface>, under: Option<Surface>)
    requires FocusIsEarned(s)
    ensures FocusIsEarned(MotionTo(s, focus)) && FocusIsEarned(RefreshPointerFocus(s, under))
  {
  }

  lemma FocusedWindowIsEarned(s: App, id: nat, under: Option<Surface>)
    requires Invariant(s) && FocusIsEarned(s)
    ensures FocusIsEarned(FocusWindow(s, id, under))
  {
    if Get(s.stack, id).Some? && Get(s.stack, id).value.IsFocusable() {
      FocusedWindowIsOnTop(s, id, under);
      var t := FocusWindow(s, id, under);
      assert t.stack[|t.stack| - 1].IsFocusable();
    }
  }

  // What changes of the stack leave a window focusable.

  lemma UpdatedCanTakeFocus(stack: Stack, id: nat, location: Option<Point>, keepResize: bool, surface: Surface)
    requires CanTakeFocus(stack, surface)
    requires location.Some? || (Get(stack, id).Some? ==> Get(stack, id).value.surface != surface)
    ensures CanTakeFocus(Update(stack, id, location, keepResize), surface)
  {
    var i :| 0 <= i < |stack| && stack[i].surface == surface && stack[i].IsFocusable();
    assert Update(stack, id, location, keepResize)[i].surface == surface;
  }

  lemma DrawnCanTakeFocus(stack: Stack, id: nat, geometry: Rect, surface: Surface)
    requires CanTakeFocus(stack, surface)
    ensures CanTakeFocus(WithGeometry(stack, id, geometry), surface)
  {
    var i :| 0 <= i < |stack| && stack[i].surface == surface && stack[i].IsFocusable();
    assert WithGeometry(stack, id, geometry)[i].surface == surface;
  }

  lemma StillCanTakeFocus(stack: Stack, now: Stack, surface: Surface)
    requires CanTakeFocus(stack, surface)
    requires forall window <- stack :: window.surface == surface ==> window in now
    ensures CanTakeFocus(now, surface)
  {
    var i :| 0 <= i < |stack| && stack[i].surface == surface && stack[i].IsFocusable();
    assert stack[i] in now;
    var j :| 0 <= j < |now| && now[j] == stack[i];
  }

  lemma ArrangedCanTakeFocus(stack: Stack, layout: Layout, pointer: RealPoint, dead: set<Surface>, surface: Surface)
    requires CanTakeFocus(stack, surface)
    ensures CanTakeFocus(AllReachable(stack, layout, pointer, dead), surface)
  {
    var i :| 0 <= i < |stack| && stack[i].surface == surface && stack[i].IsFocusable();
    assert AllReachable(stack, layout, pointer, dead)[i].surface == surface;
  }

  lemma PlacedIsEarned(s: App, id: nat, geometry: Rect, under: Option<Surface>)
    requires Invariant(s) && FocusIsEarned(s)
    ensures FocusIsEarned(PlaceToplevel(s, id, geometry, under))
  {
    var location := Some(InitialLocation(geometry, s.layout, s.pointer));
    var updated := Update(s.stack, id, location, true);
    RaiseKeepsGood(updated, s.nextId, id);
    var placed := s.(stack := Raise(updated, id));
    if PolicyFocus(s).Some? && CanTakeFocus(s.stack, PolicyFocus(s).value) {
      UpdatedCanTakeFocus(s.stack, id, location, true, PolicyFocus(s).value);
      StillCanTakeFocus(updated, placed.stack, PolicyFocus(s).value);
    }
    FocusedWindowIsEarned(placed, id, under);
    PointerKeepsEarned(FocusWindow(placed, id, under), None, under);
  }

  lemma UnplacedIsEarned(s: App, id: nat, under: Option<Surface>)
    requires FocusIsEarned(s)
    ensures FocusIsEarned(UnplaceToplevel(s, id, under))
  {
    var unplaced := s.(stack := Update(s.stack, id, None, false));
    if HoldsFocus(s, id) {
      TopmostIsEarned(unplaced);
    } else if PolicyFocus(s).Some? && CanTakeFocus(s.stack, PolicyFocus(s).value) {
      UpdatedCanTakeFocus(s.stack, id, None, false, PolicyFocus(s).value);
    }
    PointerKeepsEarned(if HoldsFocus(s, id) then FocusTopmost(unplaced) else unplaced, None, under);
  }

  lemma DrawnIsEarned(s: App, id: nat, geometry: Rect)
    requires Invariant(s) && FocusIsEarned(s)
    ensures Invariant(s.(stack := WithGeometry(s.stack, id, geometry)))
    ensures FocusIsEarned(s.(stack := WithGeometry(s.stack, id, geometry)))
  {
    assert GoodStack(WithGeometry(s.stack, id, geometry), s.nextId);
    if PolicyFocus(s).Some? && CanTakeFocus(s.stack, PolicyFocus(s).value) {
      DrawnCanTakeFocus(s.stack, id, geometry, PolicyFocus(s).value);
    }
  }

  lemma CommittedIsEarned(s: App, id: nat, frame: Option<Rect>, under: Option<Surface>)
    requires Invariant(s) && FocusIsEarned(s)
    ensures FocusIsEarned(CommitStep(s, id, frame, under))
  {
    if frame.Some? {
      DrawnIsEarned(s, id, frame.value);
      PlacedIsEarned(s.(stack := WithGeometry(s.stack, id, frame.value)), id, frame.value, under);
    } else {
      UnplacedIsEarned(s, id, under);
    }
  }

  lemma RemovedIsEarned(s: App, id: nat, under: Option<Surface>)
    requires Invariant(s) && FocusIsEarned(s)
    ensures FocusIsEarned(RemoveWindowStep(s, id, under))
  {
    var removed := s.(stack := Remove(s.stack, id));
    if HoldsFocus(s, id) {
      TopmostIsEarned(removed);
    } else if IndexOf(s.stack, id).Some? && PolicyFocus(s).Some? && CanTakeFocus(s.stack, PolicyFocus(s).value) {
      OthersRemain(s.stack, IndexOf(s.stack, id).value);
      StillCanTakeFocus(s.stack, removed.stack, PolicyFocus(s).value);
    }
    PointerKeepsEarned(if HoldsFocus(s, id) then FocusTopmost(removed) else removed, None, under);
  }

  lemma OthersRemain(stack: Stack, i: nat)
    requires i < |stack|
    ensures forall window <- stack :: window.surface != stack[i].surface ==> window in RemoveAt(stack, i)
  {
    assert stack == stack[..i] + [stack[i]] + stack[i + 1..];
  }

  lemma InsertedIsEarned(s: App, surface: Surface, overrideRedirect: bool, location: Option<Point>, geometry: Rect)
    requires FocusIsEarned(s)
    ensures FocusIsEarned(Inserted(s, surface, overrideRedirect, location, geometry))
  {
    var inserted := Inserted(s, surface, overrideRedirect, location, geometry);
    if PolicyFocus(s).Some? && CanTakeFocus(s.stack, PolicyFocus(s).value) {
      StillCanTakeFocus(s.stack, inserted.stack, PolicyFocus(s).value);
    }
  }

  lemma MappedX11IsEarned(s: App, surface: Surface, overrideRedirect: bool, geometry: Rect, under: Option<Surface>)
    requires Invariant(s) && FocusIsEarned(s) && surface.role == X11Role
    ensures FocusIsEarned(MapX11Step(s, surface, overrideRedirect, geometry, under))
  {
    if FindRoot(s.stack, surface).None? {
      var frame := Rect(Point(0, 0), geometry.size);
      var location := if overrideRedirect then geometry.loc else InitialLocation(frame, s.layout, s.pointer);
      InsertedKeeps(s, surface, overrideRedirect, Some(location), frame);
      InsertedIsEarned(s, surface, overrideRedirect, Some(location), frame);
      var inserted := Inserted(s, surface, overrideRedirect, Some(location), frame);
      FocusedWindowIsEarned(inserted, s.nextId, under);
      PointerKeepsEarned(if overrideRedirect then inserted else FocusWindow(inserted, s.nextId, under), None, under);
    }
  }

  /** Where a released chain's focus goes is earned. */
  lemma ReturnedFocusIsEarned(s: App, chain: Chain)
    ensures IsEarned(s, if PopupRootTarget(s, chain).Some? then PopupRootTarget(s, chain) else Target(TopmostFocusable(s.stack)))
  {
    TopmostIsEarned(s.(keyboardGrab := false, lock := NO_LOCK));
    var window := FindRoot(s.stack, chain.root);
    if PopupRootTarget(s, chain).Some? {
      var i :| 0 <= i < |s.stack| && s.stack[i] == window.value;
      assert CanTakeFocus(s.stack, chain.root);
    }
  }

  lemma DismissedIsEarned(s: App, under: Option<Surface>)
    requires FocusIsEarned(s) && !s.lock.protected
    ensures FocusIsEarned(DismissPopupGrab(s, under))
  {
    if s.popupGrab.Some? {
      var chain := s.popupGrab.value;
      ReleaseReturnsFocus(s.(popupGrab := None, popups := Untrack(s.popups, chain.popups)), chain, under);
      ReturnedFocusIsEarned(s, chain);
    }
  }

  lemma SettledIsEarned(s: App, under: Option<Surface>)
    requires Invariant(s) && FocusIsEarned(s)
    ensures FocusIsEarned(SettlePopupGrab(s, under))
  {
    if s.popupGrab.Some? {
      SettlingFocusesOrReleases(s, under);
      ReturnedFocusIsEarned(s, s.popupGrab.value);
    }
  }

  /** `settle_popup_grab` keeps an open chain's grabs and releases a finished
      one's. */
  lemma SettlingFocusesOrReleases(s: App, under: Option<Surface>)
    requires Invariant(s) && s.popupGrab.Some?
    ensures var chain, t := s.popupGrab.value, SettlePopupGrab(s, under);
      && !t.lock.protected
      && (if ChainIsOver(s) then !t.keyboardGrab else t.keyboardGrab == s.keyboardGrab)
      && (!s.keyboardGrab ==> t.keyboardFocus == s.keyboardFocus)
      && (s.keyboardGrab && ChainIsOver(s) ==>
            t.keyboardFocus == if PopupRootTarget(s, chain).Some? then PopupRootTarget(s, chain) else Target(TopmostFocusable(s.stack)))
  {
    if ChainIsOver(s) { ReleaseReturnsFocus(s.(popupGrab := None), s.popupGrab.value, under); }
  }

  lemma RefreshedIsEarned(s: App, under: Option<Surface>)
    requires Invariant(s) && FocusIsEarned(s)
    ensures FocusIsEarned(RefreshStep(s, under))
  {
    SettledIsEarned(s, under);
    ReapedIsEarned(SettlePopupGrab(s, under), under);
  }

  lemma ReapedIsEarned(s: App, under: Option<Surface>)
    requires FocusIsEarned(s)
    ensures FocusIsEarned(ReapDeadClients(s, under))
  {
    var reaped := s.(stack := Reap(s.stack, s.dead));
    ReapKeepsOrder(s.stack, s.dead);
    if PolicyFocus(s).Some? && PolicyFocus(s).value in s.dead {
      TopmostIsEarned(reaped);
    } else if PolicyFocus(s).Some? && CanTakeFocus(s.stack, PolicyFocus(s).value) {
      StillCanTakeFocus(s.stack, reaped.stack, PolicyFocus(s).value);
    }
    KeptKeyboardIsEarned(RefocusIfDead(reaped));
    PointerKeepsEarned(KeepKeyboardOnLockSurface(RefocusIfDead(reaped)), None, under);
  }

  lemma KeptKeyboardIsEarned(s: App)
    requires FocusIsEarned(s)
    ensures FocusIsEarned(KeepKeyboardOnLockSurface(s))
  {
  }

  // ---- Exactly when a step strays ----------------------------------------------------------

  lemma RootsTakeFocusExactly(s: App, chain: Chain)
    requires GoodStack(s.stack, s.nextId)
    ensures IsEarned(s, Some(chain.root)) <==> !RootCannotTakeFocus(s, chain)
  {
    var window := FindRoot(s.stack, chain.root);
    if window.Some? && window.value.IsFocusable() {
      var i :| 0 <= i < |s.stack| && s.stack[i] == window.value;
      assert CanTakeFocus(s.stack, chain.root);
    }
    if CanTakeFocus(s.stack, chain.root) {
      var i :| 0 <= i < |s.stack| && s.stack[i].surface == chain.root && s.stack[i].IsFocusable();
      WindowsAreFoundByRoot(s.stack, s.nextId, s.stack[i]);
    }
  }

  lemma InputStraysExactly(s: App, step: Step)
    requires Invariant(s) && MenuShape(s) && InputEndsTheMenu(s, step)
    ensures FocusIsEarned(Next(s, step)) <==> !StraysFocus(s, step)
  {
    InputFocusesTheRoot(s, step);
    RootsTakeFocusExactly(s, s.popupGrab.value);
  }

  lemma LockStraysExactly(s: App, sender: LockObject)
    requires Invariant(s) && MenuShape(s) && FocusIsEarned(s) && !s.lock.protected
    ensures FocusIsEarned(LockSession(s, sender)) <==> !StraysFocus(s, Step.LockRequest(sender))
  {
    var began := s.(lock := Begin(s.lock, sender));
    ProtectInputSealsInput(began);
    if s.keyboardFocus.Some? { OwnersOfFocus(s, s.keyboardFocus.value); }
    if s.popupGrab.Some? { ReturnedFocusIsEarned(s, s.popupGrab.value); }
    LockRemembers(s, sender);
    if !s.keyboardGrab && s.keyboardFocus.Some? { EarnedFocusIsItsOwner(s); }
  }

  /** What a lock remembers. */
  lemma LockRemembers(s: App, sender: LockObject)
    requires !s.lock.protected
    ensures var t := LockSession(s, sender);
      && t.lock.protected && t.stack == s.stack && t.dead == s.dead
      && t.focusBeforeLock == if s.popupGrab.Some? && s.keyboardGrab && PopupRootTarget(s, s.popupGrab.value).Some?
                              then PopupRootTarget(s, s.popupGrab.value) else RememberedOwner(s)
  {
    var began := s.(lock := Begin(s.lock, sender));
    ProtectInputSealsInput(began);
    assert s.keyboardFocus.Some? ==> Owner(began, s.stack, s.keyboardFocus.value) == Owner(s, s.stack, s.keyboardFocus.value) by {
      if s.keyboardFocus.Some? { OwnersIgnoreTheLock(s, began, s.stack, s.keyboardFocus.value); }
    }
  }

  lemma {:induction false} OwnersIgnoreTheLock(s: App, t: App, stack: Stack, surface: Surface)
    requires t.popups == s.popups
    ensures Owner(t, stack, surface) == Owner(s, stack, surface)
  {
    if stack != [] { OwnersIgnoreTheLock(s, t, stack[1..], surface); }
  }

  /** A focus that is earned without a menu belongs to the window it names. */
  lemma EarnedFocusIsItsOwner(s: App)
    requires Invariant(s) && s.keyboardFocus.Some? && IsEarned(s, s.keyboardFocus)
    ensures RememberedOwner(s) == s.keyboardFocus
  {
    OwnersOfFocus(s, s.keyboardFocus.value);
    if CanTakeFocus(s.stack, s.keyboardFocus.value) {
      var i :| 0 <= i < |s.stack| && s.stack[i].surface == s.keyboardFocus.value && s.stack[i].IsFocusable();
      assert IsWindowRole(s.stack[i].surface);
    }
  }

  lemma UnlockedIsEarned(s: App, sender: LockObject, under: Option<Surface>)
    requires Invariant(s) && FocusIsEarned(s)
    ensures FocusIsEarned(UnlockSession(s, sender, under))
  {
    if s.lock.protected {
      var taken := s.(lock := End(s.lock), focusBeforeLock := None);
      TopmostIsEarned(taken);
      var restored := RestoreFocusAfterUnlock(s.(lock := End(s.lock)));
      assert FocusIsEarned(restored);
      PointerKeepsEarned(restored, None, under);
    }
  }

  lemma ArrangedIsEarned(s: App, layout: Layout, under: Option<Surface>)
    requires FocusIsEarned(s)
    ensures FocusIsEarned(SetLayoutStep(s, layout, under))
  {
    var reconciled := s.(lock := ReconcileOutputs(s.lock, Outputs.Names(layout), s.dead), layout := layout);
    KeptKeyboardIsEarned(reconciled);
    var kept := KeepKeyboardOnLockSurface(reconciled);
    if PolicyFocus(s).Some? && CanTakeFocus(s.stack, PolicyFocus(s).value) {
      ArrangedCanTakeFocus(s.stack, layout, s.pointer, s.dead, PolicyFocus(s).value);
    }
    PointerKeepsEarned(kept.(stack := AllReachable(s.stack, layout, s.pointer, s.dead)), None, under);
  }

  lemma LockStepsStrayExactly(s: App, step: Step)
    requires Invariant(s) && MenuShape(s) && FocusIsEarned(s) && ConcernsTheLock(step)
    ensures FocusIsEarned(Next(s, step)) <==> !StraysFocus(s, step)
  {
    match step
    case LockRequest(sender) => if !s.lock.protected { LockStraysExactly(s, sender); }
    case UnlockRequest(sender, under) => UnlockedIsEarned(s, sender, under);
    case NewLockSurface(surface, output) =>
      if s.lock.protected && IsLocker(s.lock, surface.client) && output in Outputs.Names(s.layout) {
        KeptKeyboardIsEarned(
          s.(lock := s.lock.(surfaces := s.lock.surfaces[output := surface]),
             accepted := s.accepted + {(s.lock.inForce.value, surface)}));
      }
    case ProtectedFrame(output) =>
    case SetLayout(layout, under) => ArrangedIsEarned(s, layout, under);
    case _ =>
  }

  lemma WindowStepsStrayExactly(s: App, step: Step)
    requires Invariant(s) && MenuShape(s) && FocusIsEarned(s) && Enabled(s, step) && ConcernsWindows(step)
    ensures FocusIsEarned(Next(s, step)) && !StraysFocus(s, step)
  {
    match step
    case NewToplevel(surface) => InsertedIsEarned(s, surface, false, None, Rect(Point(0, 0), Size(0, 0)));
    case Commit(id, frame, under) => CommittedIsEarned(s, id, frame, under);
    case MapX11(surface, overrideRedirect, geometry, under) => MappedX11IsEarned(s, surface, overrideRedirect, geometry, under);
    case RemoveWindow(id, under) => RemovedIsEarned(s, id, under);
    case Die(surfaces) =>
    case NewPopup(popup, root) =>
    case GrabPopup(popup, onSeat, serial, accepts) =>
    case Refresh(under) => RefreshedIsEarned(s, under);
    case _ =>
  }

  lemma FreePressIsEarned(s: App, serial: Serial, under: Option<Surface>)
    requires Invariant(s) && FocusIsEarned(s) && !s.lock.protected && s.pointerGrab.Free?
    ensures FocusIsEarned(ButtonPressStep(s, serial, under))
  {
    var window := if under.Some? then Owner(s, s.stack, under.value) else None;
    if window.Some? {
      FocusedWindowIsEarned(s, window.value.id, under);
      DismissalKeepsThePointerFree(s, window.value.id, under);
    }
    var clicked := RefreshPointerFocus(ClickToFocus(s, under), under);
    PointerKeepsEarned(ClickToFocus(s, under), None, under);
    FreePressesAreRecorded(clicked, serial, under);
    assert FocusIsEarned(ForwardPress(clicked, serial, under));
  }

  lemma LockedPressIsEarned(s: App, serial: Serial, under: Option<Surface>)
    requires FocusIsEarned(s) && s.lock.protected && !s.pointerGrab.Menu?
    ensures FocusIsEarned(ButtonPressStep(s, serial, under))
  {
    var clicked := FocusClickedLockSurface(s);
    assert clicked.focusBeforeLock == s.focusBeforeLock;
  }

  lemma PressIsEarned(s: App, serial: Serial, under: Option<Surface>)
    requires Invariant(s) && MenuShape(s) && FocusIsEarned(s) && !InputEndsTheMenu(s, ButtonPressed(serial, under))
    ensures FocusIsEarned(ButtonPressStep(s, serial, under))
  {
    if s.lock.protected {
      LockedPressIsEarned(s, serial, under);
    } else if s.pointerGrab.Free? {
      FreePressIsEarned(s, serial, under);
    } else if s.pointerGrab.Menu? {
      PressThroughMenuFocusesItsRoot(s, under);
    }
  }

  lemma ReleaseIsEarned(s: App, last: bool, under: Option<Surface>)
    requires Invariant(s) && MenuShape(s) && FocusIsEarned(s) && !InputEndsTheMenu(s, ButtonReleased(last, under))
    ensures FocusIsEarned(ButtonReleaseStep(s, last, under))
  {
    UnsettingMenuFocusesItsRoot(s);
  }

  lemma MotionIsEarned(s: App, towards: RealPoint, under: Option<Surface>)
    requires Invariant(s) && MenuShape(s) && FocusIsEarned(s) && !InputEndsTheMenu(s, Motion(towards, under))
    ensures FocusIsEarned(MotionStep(s, towards, under))
  {
    UnsettingMenuFocusesItsRoot(s.(pointer := Clamp(s.layout, towards)));
  }

  lemma KeyIsEarned(s: App, pressed: bool, serial: Serial, intercepted: bool)
    requires Invariant(s) && MenuShape(s) && FocusIsEarned(s) && !InputEndsTheMenu(s, Key(pressed, serial, intercepted))
    ensures FocusIsEarned(KeyStep(s, pressed, serial, intercepted))
  {
  }

  lemma GrabsAreEarned(s: App, step: Step)
    requires Invariant(s) && MenuShape(s) && FocusIsEarned(s) && !InputEndsTheMenu(s, step)
    requires step.BeginMove? || step.BeginResize? || step.StartDrag? || step.FinishDispatch? || step.TouchedUp?
    ensures FocusIsEarned(Next(s, step))
  {
    EndingMenuFocusesItsRoot(s);
  }

  lemma TouchIsEarned(s: App, serial: Serial, at: RealPoint, touched: Option<Surface>, under: Option<Surface>)
    requires Invariant(s) && FocusIsEarned(s)
    ensures FocusIsEarned(TouchDownStep(s, serial, at, touched, under))
  {
    if !s.lock.protected { DismissedIsEarned(s, under); }
  }

  lemma InputStepsStrayExactly(s: App, step: Step)
    requires Invariant(s) && MenuShape(s) && FocusIsEarned(s) && !ConcernsTheLock(step) && !ConcernsWindows(step)
    ensures FocusIsEarned(Next(s, step)) <==> !StraysFocus(s, step)
  {
    if InputEndsTheMenu(s, step) {
      InputStraysExactly(s, step);
    } else if step.ButtonPressed? {
      PressIsEarned(s, step.serial, step.under);
    } else if step.TouchedDown? {
      TouchIsEarned(s, step.serial, step.at, step.touched, step.under);
    } else if step.ButtonReleased? {
      ReleaseIsEarned(s, step.last, step.under);
    } else if step.Motion? {
      MotionIsEarned(s, step.towards, step.under);
    } else if step.Key? {
      KeyIsEarned(s, step.pressed, step.serial, step.intercepted);
    } else {
      GrabsAreEarned(s, step);
    }
  }

  /** A focus that is earned stays so, exactly but for the steps that stray. */
  lemma FocusStraysExactlyWhen(s: App, step: Step)
    requires Invariant(s) && MenuShape(s) && FocusIsEarned(s) && Enabled(s, step)
    ensures FocusIsEarned(Next(s, step)) <==> !StraysFocus(s, step)
  {
    if ConcernsTheLock(step) {
      LockStepsStrayExactly(s, step);
    } else if ConcernsWindows(step) {
      WindowStepsStrayExactly(s, step);
    } else {
      InputStepsStrayExactly(s, step);
    }
  }

  /** A run without such a step. */
  ghost predicate NeverStrays(s: App, steps: seq<Step>) {
    forall n :: 0 <= n < |steps| ==> !StraysFocus(Run(s, steps[..n]), steps[n])
  }

  lemma NeverStraysPrefix(s: App, steps: seq<Step>)
    requires steps != [] && NeverStrays(s, steps)
    ensures NeverStrays(s, steps[..|steps| - 1]) && !StraysFocus(Run(s, steps[..|steps| - 1]), steps[|steps| - 1])
  {
    var earlier := steps[..|steps| - 1];
    forall n | 0 <= n < |earlier| ensures !StraysFocus(Run(s, earlier[..n]), earlier[n]) {
      assert earlier[..n] == steps[..n];
    }
  }

  /** In every reachable state a menu's grabs have their shape. */
  lemma {:induction false} ReachableMenusHaveTheirShape(steps: seq<Step>)
    requires Legal(START, steps)
    ensures Invariant(Run(START, steps)) && MenuShape(Run(START, steps))
  {
    if steps != [] {
      LegalPrefix(START, steps);
      ReachableMenusHaveTheirShape(steps[..|steps| - 1]);
      StepKeepsInvariant(Run(START, steps[..|steps| - 1]), steps[|steps| - 1]);
      StepKeepsMenu(Run(START, steps[..|steps| - 1]), steps[|steps| - 1]);
    }
  }

  /** In every state reachable without a step that strays the focus is earned. */
  lemma {:induction false} ReachableFocusIsEarned(steps: seq<Step>)
    requires Legal(START, steps) && NeverStrays(START, steps)
    ensures FocusIsEarned(Run(START, steps))
  {
    if steps != [] {
      LegalPrefix(START, steps);
      NeverStraysPrefix(START, steps);
      ReachableFocusIsEarned(steps[..|steps| - 1]);
      ReachableMenusHaveTheirShape(steps[..|steps| - 1]);
      FocusStraysExactlyWhen(Run(START, steps[..|steps| - 1]), steps[|steps| - 1]);
    }
  }

  /** After a refresh an earned focus is none, the topmost popup of the open menu
      that holds the keyboard, or a live window's that may be focused. */
  lemma RefreshedFocusHasItsPlace(s: App, under: Option<Surface>)
    requires Invariant(s) && MenuShape(s) && FocusIsEarned(s) && !s.lock.protected
    ensures var t := RefreshStep(s, under);
      if t.keyboardGrab then t.popupGrab.Some? && t.keyboardFocus == GrabbingPopup(t, t.popupGrab.value) && t.keyboardFocus.Some?
      else t.keyboardFocus.Some? ==> t.keyboardFocus.value !in t.dead && CanTakeFocus(t.stack, t.keyboardFocus.value)
  {
    RefreshedIsEarned(s, under);
    RefreshKeeps(s, under);
    RefreshLeavesNothingDead(s, under);
    if s.popupGrab.Some? { RefreshSettlesThePopupGrab(s, under); }
  }
}
