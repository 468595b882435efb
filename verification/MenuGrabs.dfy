/** An open menu's grabs, and where the focus goes when they end
    (crates/nkdhr-compositor/src/state.rs). */
module MenuGrabs {
  import opened Wrappers
  import opened Geometry
  import opened Objects
  import opened Outputs
  import opened Windows
  import opened SessionLock
  import opened Session
  import opened SessionInvariant
  import opened SessionSafety

  // ---- The shape of a menu's grabs -------------------------------------------------

  /** A menu's pointer grab is that of the chain, its keyboard grab comes with it
      and has the focus on the chain; a chain without the keyboard has no popup
      focused. */
  ghost predicate MenuShape(s: App) {
    && (s.pointerGrab.Menu? ==> s.popupGrab.Some? && s.pointerGrab.root == s.popupGrab.value.root)
    && (s.keyboardGrab ==> s.pointerGrab.Menu? && InChain(s, s.keyboardFocus))
    && (!s.lock.protected && s.popupGrab.Some? && !s.keyboardGrab && s.keyboardFocus.Some? ==> IsWindowRole(s.keyboardFocus.value))
  }

  /** One of the chain's popups, or its root. */
  predicate InChain(s: App, focus: Option<Surface>) {
    s.popupGrab.Some? && focus.Some?
    && (focus.value in s.popupGrab.value.popups || focus.value == s.popupGrab.value.root)
  }

  lemma NoChainNoMenu(s: App)
    requires Invariant(s) && (s.popupGrab.None? || s.lock.protected)
    ensures MenuShape(s)
  {
  }

  lemma TopmostKeepsMenu(s: App)
    requires Core(s) && MenuShape(s)
    ensures MenuShape(FocusTopmost(s))
  {
  }

  lemma SetFocusOnChain(s: App, target: Option<Surface>)
    requires GoodGrabs(s.popupGrab, s.pointerGrab) && s.keyboardGrab && s.popupGrab.Some? && s.pointerGrab == Menu(s.popupGrab.value.root)
    requires target == Some(CurrentGrab(s, s.popupGrab.value))
    ensures MenuShape(SetKeyboardFocus(s, target))
  {
  }

  lemma EndingMenuFocusesItsRoot(s: App)
    requires MenuShape(s) && Invariant(s)
    ensures var t := EndMenu(s);
      && !t.keyboardGrab && t.popupGrab == s.popupGrab && t.pointerGrab == s.pointerGrab && MenuShape(t)
      && t.keyboardFocus == if s.keyboardGrab then Some(s.popupGrab.value.root) else s.keyboardFocus
  {
  }

  lemma UnsettingMenuFocusesItsRoot(s: App)
    requires MenuShape(s) && Invariant(s)
    ensures var t := UnsetPointerGrab(s);
      && !t.keyboardGrab && t.popupGrab == s.popupGrab && MenuShape(t)
      && t.keyboardFocus == if s.keyboardGrab then Some(s.popupGrab.value.root) else s.keyboardFocus
  {
    EndingMenuFocusesItsRoot(s);
  }

  lemma PointerKeepsMenu(s: App, focus: Option<Surface>, under: Option<Surface>)
    requires MenuShape(s)
    ensures MenuShape(MotionTo(s, focus)) && MenuShape(RefreshPointerFocus(s, under))
  {
  }

  // ---- Every step keeps it -----------------------------------------------------------

  lemma FocusWindowKeepsMenu(s: App, id: nat, under: Option<Surface>)
    requires Invariant(s) && MenuShape(s) && !s.lock.protected
    ensures MenuShape(FocusWindow(s, id, under))
  {
    if Get(s.stack, id).Some? && Get(s.stack, id).value.IsFocusable() {
      FocusedWindowIsOnTop(s, id, under);
      FocusWindowKeeps(s, id, under);
      NoChainNoMenu(FocusWindow(s, id, under));
    }
  }

  lemma CommitKeepsMenu(s: App, id: nat, frame: Option<Rect>, under: Option<Surface>)
    requires Invariant(s) && MenuShape(s) && !s.lock.protected
    ensures MenuShape(CommitStep(s, id, frame, under))
  {
    var drawn := if frame.Some? then s.(stack := WithGeometry(s.stack, id, frame.value)) else s;
    assert GoodStack(drawn.stack, s.nextId) && Invariant(drawn) && MenuShape(drawn);
    if frame.Some? { PlaceKeepsMenu(drawn, id, frame.value, under); }
    UnplaceKeepsMenu(drawn, id, under);
  }

  lemma PlaceKeepsMenu(s: App, id: nat, geometry: Rect, under: Option<Surface>)
    requires Invariant(s) && MenuShape(s) && !s.lock.protected
    ensures MenuShape(PlaceToplevel(s, id, geometry, under))
  {
    var updated := Update(s.stack, id, Some(InitialLocation(geometry, s.layout, s.pointer)), true);
    RaiseKeepsGood(updated, s.nextId, id);
    var placed := s.(stack := Raise(updated, id));
    FocusWindowKeepsMenu(placed, id, under);
    PointerKeepsMenu(FocusWindow(placed, id, under), None, under);
  }

  lemma UnplaceKeepsMenu(s: App, id: nat, under: Option<Surface>)
    requires Invariant(s) && MenuShape(s)
    ensures MenuShape(UnplaceToplevel(s, id, under))
  {
    var unplaced := s.(stack := Update(s.stack, id, None, false));
    TopmostKeepsMenu(unplaced);
    PointerKeepsMenu(if HoldsFocus(s, id) then FocusTopmost(unplaced) else unplaced, None, under);
  }

  lemma RemoveKeepsMenu(s: App, id: nat, under: Option<Surface>)
    requires Invariant(s) && MenuShape(s)
    ensures MenuShape(RemoveWindowStep(s, id, under))
  {
    RemoveKeepsGood(s.stack, s.nextId, id);
    var removed := s.(stack := Remove(s.stack, id));
    TopmostKeepsMenu(removed);
    PointerKeepsMenu(if HoldsFocus(s, id) then FocusTopmost(removed) else removed, None, under);
  }

  lemma MapX11KeepsMenu(s: App, surface: Surface, overrideRedirect: bool, geometry: Rect, under: Option<Surface>)
    requires Invariant(s) && MenuShape(s) && !s.lock.protected && surface.role == X11Role
    ensures MenuShape(MapX11Step(s, surface, overrideRedirect, geometry, under))
  {
    if FindRoot(s.stack, surface).None? {
      var frame := Rect(Point(0, 0), geometry.size);
      var location := if overrideRedirect then geometry.loc else InitialLocation(frame, s.layout, s.pointer);
      InsertedKeepsMenu(s, surface, overrideRedirect, Some(location), frame);
      var inserted := Inserted(s, surface, overrideRedirect, Some(location), frame);
      if overrideRedirect {
        PointerKeepsMenu(inserted, None, under);
      } else {
        FocusWindowKeepsMenu(inserted, s.nextId, under);
        PointerKeepsMenu(FocusWindow(inserted, s.nextId, under), None, under);
      }
    }
  }

  lemma InsertedKeepsMenu(s: App, surface: Surface, overrideRedirect: bool, location: Option<Point>, geometry: Rect)
    requires Invariant(s) && MenuShape(s) && IsWindowRole(surface) && FindRoot(s.stack, surface).None?
    ensures var t := Inserted(s, surface, overrideRedirect, location, geometry);
      Invariant(t) && MenuShape(t) && t.lock == s.lock
  {
    InsertedKeeps(s, surface, overrideRedirect, location, geometry);
  }

  lemma GrantKeepsMenu(s: App, popup: Surface)
    requires Invariant(s) && MenuShape(s) && !s.lock.protected && popup in s.popups && Enabled(s, GrabPopup(popup, true, 0, true))
    ensures MenuShape(Granted(s, popup))
  {
    var window := FindRoot(s.stack, s.popups[popup]);
    var raised := if window.Some? then s.(stack := Raise(s.stack, window.value.id)) else s;
    var chain := ExtendedChain(s, popup);
    var grabbed := SetPointerGrab(raised, Menu(chain.root)).(keyboardGrab := true, popupGrab := Some(chain));
    SetFocusOnChain(grabbed, Some(CurrentGrab(grabbed, chain)));
  }

  lemma ReleasedKeepsMenu(s: App, chain: Chain, under: Option<Surface>)
    requires Invariant(s) && MenuShape(s) && !s.lock.protected && s.popupGrab == Some(chain)
    ensures MenuShape(SettlePopupGrab(s, under)) && MenuShape(DismissPopupGrab(s, under))
  {
    SettleKeeps(s, under);
    DismissKeeps(s, under);
    NoChainNoMenu(DismissPopupGrab(s, under));
    match GrabbingPopup(s, chain)
    case Some(popup) => if s.keyboardGrab { SetFocusOnChain(s, Some(popup)); }
    case None =>
      ReleaseReturnsFocus(s.(popupGrab := None), chain, under);
      NoChainNoMenu(SettlePopupGrab(s, under));
  }

  lemma ReapKeepsMenu(s: App, under: Option<Surface>)
    requires Invariant(s) && MenuShape(s) && !s.lock.protected
    ensures MenuShape(ReapDeadClients(s, under))
  {
    ReapKeepsGood(s.stack, s.nextId, s.dead);
    var reaped := s.(stack := Reap(s.stack, s.dead));
    TopmostKeepsMenu(reaped);
    PointerKeepsMenu(RefocusIfDead(reaped), None, under);
  }

  lemma RefreshKeepsMenu(s: App, under: Option<Surface>)
    requires Invariant(s) && MenuShape(s) && !s.lock.protected
    ensures MenuShape(RefreshStep(s, under))
  {
    SettleKeeps(s, under);
    if s.popupGrab.Some? { ReleasedKeepsMenu(s, s.popupGrab.value, under); }
    ReapKeepsMenu(SettlePopupGrab(s, under), under);
  }

  lemma KeyKeepsMenu(s: App, pressed: bool, serial: Serial, intercepted: bool)
    requires Invariant(s) && MenuShape(s) && !s.lock.protected
    ensures MenuShape(KeyStep(s, pressed, serial, intercepted))
  {
    if s.keyboardGrab {
      match GrabbingPopup(s, s.popupGrab.value)
      case Some(popup) => SetFocusOnChain(s, Some(popup));
      case None => assert MenuShape(PopupGrabSeesKey(s));
    }
  }

  lemma FreePressKeepsMenu(s: App, serial: Serial, under: Option<Surface>)
    requires Invariant(s) && MenuShape(s) && !s.lock.protected && s.pointerGrab.Free?
    ensures MenuShape(ButtonPressStep(s, serial, under))
  {
    var window := if under.Some? then Owner(s, s.stack, under.value) else None;
    if window.Some? {
      FocusWindowKeepsMenu(s, window.value.id, under);
      DismissalKeepsThePointerFree(s, window.value.id, under);
    }
    var clicked := ClickToFocus(s, under);
    PointerKeepsMenu(clicked, None, under);
    FreePressesAreRecorded(RefreshPointerFocus(clicked, under), serial, under);
    assert MenuShape(ForwardPress(RefreshPointerFocus(clicked, under), serial, under));
  }

  lemma PressKeepsMenu(s: App, serial: Serial, under: Option<Surface>)
    requires Invariant(s) && MenuShape(s) && !s.lock.protected
    ensures MenuShape(ButtonPressStep(s, serial, under))
  {
    if s.pointerGrab.Free? {
      FreePressKeepsMenu(s, serial, under);
    } else if s.pointerGrab.Menu? {
      PressThroughMenuFocusesItsRoot(s, under);
    }
  }

  lemma PressThroughMenuFocusesItsRoot(s: App, under: Option<Surface>)
    requires Invariant(s) && MenuShape(s) && !s.lock.protected && s.pointerGrab.Menu?
    ensures var t := PressThroughMenu(s, under);
      && MenuShape(t) && !t.keyboardGrab && t.popupGrab == Some(s.popupGrab.value.(popups := []))
      && t.keyboardFocus == if s.keyboardGrab then Some(s.popupGrab.value.root) else s.keyboardFocus
  {
    var gone := DismissChainInPlace(s);
    assert UnsetPointerGrab(gone).keyboardFocus == if s.keyboardGrab then Some(s.popupGrab.value.root) else s.keyboardFocus;
  }

  lemma BeginGrabKeepsMenu(s: App, id: nat, grab: PointerGrab)
    requires Invariant(s) && MenuShape(s) && !s.lock.protected && !grab.Menu?
    ensures MenuShape(BeginGrabStep(s, id, grab))
  {
    EndingMenuFocusesItsRoot(s);
  }

  lemma DragKeepsMenu(s: App, source: Option<Client>)
    requires Invariant(s) && MenuShape(s) && !s.lock.protected
    ensures MenuShape(StartDragStep(s, source)) && MenuShape(FinishDispatchStep(s))
  {
    EndingMenuFocusesItsRoot(s);
  }

  lemma ReleaseKeepsMenu(s: App, last: bool, under: Option<Surface>)
    requires Invariant(s) && MenuShape(s) && !s.lock.protected
    ensures MenuShape(ButtonReleaseStep(s, last, under))
  {
    UnsettingMenuFocusesItsRoot(s);
  }

  lemma MotionKeepsMenu(s: App, towards: RealPoint, under: Option<Surface>)
    requires Invariant(s) && MenuShape(s) && !s.lock.protected
    ensures MenuShape(MotionStep(s, towards, under))
  {
    var moved := s.(pointer := Clamp(s.layout, towards));
    UnsettingMenuFocusesItsRoot(moved);
    PointerKeepsMenu(if moved.pointerGrab.Menu? && ChainIsOver(moved) then UnsetPointerGrab(moved) else moved, under, None);
  }

  lemma TouchKeepsMenu(s: App, serial: Serial, at: RealPoint, touched: Option<Surface>, under: Option<Surface>)
    requires Invariant(s) && MenuShape(s) && !s.lock.protected
    ensures MenuShape(TouchDownStep(s, serial, at, touched, under))
  {
    if s.popupGrab.Some? { ReleasedKeepsMenu(s, s.popupGrab.value, under); }
  }

  lemma SetLayoutKeepsMenu(s: App, layout: Layout, under: Option<Surface>)
    requires Invariant(s) && MenuShape(s) && !s.lock.protected
    ensures MenuShape(SetLayoutStep(s, layout, under))
  {
    var arranged := s.(
      lock := ReconcileOutputs(s.lock, Outputs.Names(layout), s.dead), layout := layout,
      stack := AllReachable(s.stack, layout, s.pointer, s.dead));
    PointerKeepsMenu(arranged, None, under);
  }

  lemma UnlockedHasNoChain(s: App, sender: LockObject, under: Option<Surface>)
    requires Invariant(s) && s.lock.protected
    ensures UnlockSession(s, sender, under).popupGrab.None?
  {
  }

  lemma LockStepsKeepMenu(s: App, step: Step)
    requires Invariant(s) && MenuShape(s) && Enabled(s, step) && ConcernsTheLock(step) && !s.lock.protected
    ensures MenuShape(Next(s, step))
  {
    match step
    case LockRequest(sender) =>
      LockKeeps(s, sender);
      NoChainNoMenu(LockSession(s, sender));
    case SetLayout(layout, under) => SetLayoutKeepsMenu(s, layout, under);
    case _ =>
  }

  lemma WindowStepsKeepMenu(s: App, step: Step)
    requires Invariant(s) && MenuShape(s) && Enabled(s, step) && ConcernsWindows(step) && !s.lock.protected
    ensures MenuShape(Next(s, step))
  {
    match step
    case Commit(id, frame, under) => CommitKeepsMenu(s, id, frame, under);
    case MapX11(surface, overrideRedirect, geometry, under) => MapX11KeepsMenu(s, surface, overrideRedirect, geometry, under);
    case RemoveWindow(id, under) => RemoveKeepsMenu(s, id, under);
    case GrabPopup(popup, onSeat, serial, accepts) =>
      if Grants(s, popup, onSeat, serial, accepts) { GrantKeepsMenu(s, popup); }
    case Refresh(under) => RefreshKeepsMenu(s, under);
    case _ =>
  }

  lemma InputStepsKeepMenu(s: App, step: Step)
    requires Invariant(s) && MenuShape(s) && Enabled(s, step) && !ConcernsTheLock(step) && !ConcernsWindows(step) && !s.lock.protected
    ensures MenuShape(Next(s, step))
  {
    match step
    case Key(pressed, serial, intercepted) => KeyKeepsMenu(s, pressed, serial, intercepted);
    case ButtonPressed(serial, under) => PressKeepsMenu(s, serial, under);
    case ButtonReleased(last, under) => ReleaseKeepsMenu(s, last, under);
    case Motion(towards, under) => MotionKeepsMenu(s, towards, under);
    case TouchedDown(serial, at, touched, under) => TouchKeepsMenu(s, serial, at, touched, under);
    case BeginMove(id) => BeginGrabKeepsMenu(s, id, Moving);
    case BeginResize(id) => BeginGrabKeepsMenu(s, id, Resizing);
    case StartDrag(source) => DragKeepsMenu(s, source);
    case FinishDispatch => DragKeepsMenu(s, None);
    case _ =>
  }

  lemma StepKeepsMenu(s: App, step: Step)
    requires Invariant(s) && MenuShape(s) && Enabled(s, step)
    ensures MenuShape(Next(s, step))
  {
    if s.lock.protected {
      StepKeepsInvariant(s, step);
      OnlyItsUnlockEndsTheLock(s, step);
      if step.UnlockRequest? { UnlockedHasNoChain(s, step.sender, step.under); }
      NoChainNoMenu(Next(s, step));
    } else if ConcernsTheLock(step) {
      LockStepsKeepMenu(s, step);
    } else if ConcernsWindows(step) {
      WindowStepsKeepMenu(s, step);
    } else {
      InputStepsKeepMenu(s, step);
    }
  }

  // ---- A menu that ends gives the focus back ------------------------------------------

  /** Pointer input and keys by which a menu that holds the keyboard loses it: a
      press outside it, and any press, release, motion or key, once its chain is
      over, and a drag. Smithay then focuses the root, whatever its window is. */
  predicate InputEndsTheMenu(s: App, step: Step) {
    && !s.lock.protected && s.keyboardGrab && s.popupGrab.Some?
    && match step
       case ButtonPressed(_, under) => ChainIsOver(s) || under.None? || under.value.client != s.popupGrab.value.root.client
       case ButtonReleased(_, _) => ChainIsOver(s)
       case Motion(_, _) => ChainIsOver(s)
       case Key(_, _, intercepted) => !intercepted && ChainIsOver(s)
       case StartDrag(_) => true
       case _ => false
  }

  /** The compositor's own ways of ending it: a touch outside, a refresh. */
  predicate DismissalEndsTheMenu(s: App, step: Step) {
    && !s.lock.protected && s.keyboardGrab && s.popupGrab.Some?
    && match step
       case TouchedDown(_, _, touched, _) => s.touch.None? && TouchDismisses(ChainOwner(s), ClientOf(s, touched))
       case Refresh(_) => ChainIsOver(s)
       case _ => false
  }

  /** The keyboard is with the chain's root, and no menu grabs it any more. */
  ghost predicate HandsOverToTheRoot(s: App, t: App) {
    && s.popupGrab.Some? && !t.lock.protected && !t.keyboardGrab && t.keyboardFocus == Some(s.popupGrab.value.root)
    && t.stack == s.stack && t.dead == s.dead
  }

  lemma PressFocusesTheRoot(s: App, serial: Serial, under: Option<Surface>)
    requires Invariant(s) && MenuShape(s) && InputEndsTheMenu(s, ButtonPressed(serial, under))
    ensures HandsOverToTheRoot(s, ButtonPressStep(s, serial, under))
  {
    PressThroughMenuFocusesItsRoot(s, under);
  }

  lemma MotionFocusesTheRoot(s: App, towards: RealPoint, under: Option<Surface>)
    requires Invariant(s) && MenuShape(s) && InputEndsTheMenu(s, Motion(towards, under))
    ensures HandsOverToTheRoot(s, MotionStep(s, towards, under))
  {
    UnsettingMenuFocusesItsRoot(s.(pointer := Clamp(s.layout, towards)));
  }

  lemma KeyFocusesTheRoot(s: App, pressed: bool, serial: Serial, intercepted: bool)
    requires InputEndsTheMenu(s, Key(pressed, serial, intercepted))
    ensures HandsOverToTheRoot(s, KeyStep(s, pressed, serial, intercepted))
  {
    assert PopupGrabSeesKey(s) == SetKeyboardFocus(s.(keyboardGrab := false), Some(s.popupGrab.value.root));
  }

  lemma InputFocusesTheRoot(s: App, step: Step)
    requires Invariant(s) && MenuShape(s) && InputEndsTheMenu(s, step)
    ensures HandsOverToTheRoot(s, Next(s, step))
  {
    match step
    case ButtonPressed(serial, under) => PressFocusesTheRoot(s, serial, under);
    case ButtonReleased(last, under) => UnsettingMenuFocusesItsRoot(s);
    case Motion(towards, under) => MotionFocusesTheRoot(s, towards, under);
    case Key(pressed, serial, intercepted) => KeyFocusesTheRoot(s, pressed, serial, intercepted);
    case StartDrag(source) => EndingMenuFocusesItsRoot(s);
  }

  lemma RefreshWithoutAGrab(s: App, under: Option<Surface>)
    requires !s.lock.protected && !s.keyboardGrab
    ensures var t := RefreshStep(s, under);
      && !t.keyboardGrab && t.stack == Reap(s.stack, s.dead) && t.dead == s.dead
      && (s.popupGrab.None? ==> t.popupGrab.None?)
      && t.keyboardFocus == if s.keyboardFocus.Some? && s.keyboardFocus.value in s.dead
                            then Target(TopmostFocusable(t.stack)) else s.keyboardFocus
  {
    if s.popupGrab.Some? && ChainIsOver(s) { ReleaseReturnsFocus(s.(popupGrab := None), s.popupGrab.value, under); }
    ReapingMovesDeadFocus(SettlePopupGrab(s, under), under);
  }

  /** A root that is alive without a window that can take the focus: unmapped,
      or no window any more. */
  predicate RootCannotTakeFocus(s: App, chain: Chain) {
    chain.root !in s.dead && PopupRootTarget(s, chain).None?
  }

  lemma TopmostIsNoSuchRoot(s: App, chain: Chain)
    requires GoodStack(s.stack, s.nextId) && RootCannotTakeFocus(s, chain)
    ensures Target(TopmostFocusable(Reap(s.stack, s.dead))) != Some(chain.root)
  {
    ReapKeepsOrder(s.stack, s.dead);
    var top := TopmostFocusable(Reap(s.stack, s.dead));
    if top.Some? { WindowsAreFoundByRoot(s.stack, s.nextId, top.value); }
  }

  lemma WindowsAreFoundByRoot(stack: Stack, nextId: nat, window: ManagedWindow)
    requires GoodStack(stack, nextId) && window in stack
    ensures FindRoot(stack, window.surface) == Some(window)
  {
    var found := FindRoot(stack, window.surface);
    var i :| 0 <= i < |stack| && stack[i] == window;
    var j :| 0 <= j < |stack| && stack[j] == found.value;
    assert i == j;
  }

  /** When input ends a menu that holds the keyboard, the next refresh leaves the
      focus at its root, or at the topmost live window once the root has died.
      That is where a closed chain is to return it if and only if the root has
      died or its window can take the focus. */
  lemma MenusEndedByInputReturnFocus(s: App, step: Step, under: Option<Surface>)
    requires Invariant(s) && MenuShape(s) && InputEndsTheMenu(s, step)
    ensures var chain, t := s.popupGrab.value, RefreshStep(Next(s, step), under);
      && !t.keyboardGrab
      && t.keyboardFocus == (if chain.root in s.dead then Target(TopmostFocusable(t.stack)) else Some(chain.root))
      && (t.keyboardFocus == FocusAfterChain(s, chain) <==> !RootCannotTakeFocus(s, chain))
  {
    InputFocusesTheRoot(s, step);
    RefreshWithoutAGrab(Next(s, step), under);
    if RootCannotTakeFocus(s, s.popupGrab.value) { TopmostIsNoSuchRoot(s, s.popupGrab.value); }
  }

  lemma TouchDismissalReturnsFocus(s: App, step: Step)
    requires !s.lock.protected && step.TouchedDown? && DismissalEndsTheMenu(s, step)
    ensures var t := Next(s, step);
      && !t.lock.protected && !t.keyboardGrab && t.popupGrab.None? && t.stack == s.stack && t.dead == s.dead
      && t.keyboardFocus == if PopupRootTarget(s, s.popupGrab.value).Some? then PopupRootTarget(s, s.popupGrab.value)
                            else Target(TopmostFocusable(s.stack))
  {
    var chain := s.popupGrab.value;
    ReleaseReturnsFocus(s.(popupGrab := None, popups := Untrack(s.popups, chain.popups)), chain, step.under);
  }

  /** When the compositor ends it, the focus is always where it is to return. */
  lemma DismissedMenusReturnFocus(s: App, step: Step, under: Option<Surface>)
    requires Invariant(s) && DismissalEndsTheMenu(s, step)
    ensures var t := RefreshStep(Next(s, step), under);
      && !t.keyboardGrab && t.popupGrab.None? && t.keyboardFocus == FocusAfterChain(s, s.popupGrab.value)
  {
    if step.TouchedDown? {
      TopmostOfReaped(s.stack, s.dead);
      TouchDismissalReturnsFocus(s, step);
    } else {
      RefreshReleasesAFinishedChain(s, step.under);
      RefreshLeavesNothingDead(s, step.under);
    }
    RefreshWithoutAGrab(Next(s, step), under);
  }
}
