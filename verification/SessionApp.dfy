/** `App` as the source holds it: fields updated in place, with the window
    store, the lock runtime and the action records as parts
    (crates/nkdhr-compositor/src/state.rs, protocols/mod.rs, input.rs). Every
    method is proved against the function of the same name in `Session`. */
module SessionApp {
  import opened Wrappers
  import opened Geometry
  import opened Objects
  import Outputs
  import opened Windows
  import opened SessionLock
  import opened UserActions
  import opened Session

  class App {
    const windows: WindowStore
    const lock: SessionLockRuntime
    const userActions: UserActionRecords
    var dead: set<Surface>
    var popups: map<Surface, Surface>
    var outputLayout: Outputs.Layout
    var pointer: RealPoint
    var keyboardFocus: Option<Surface>
    var keyboardGrab: bool
    var pointerGrab: PointerGrab
    var pointerFocus: Option<Surface>
    var restoreFocus: Option<Surface>
    var touch: Option<Option<Surface>>
    var popupGrab: Option<Chain>
    var focusBeforeLock: Option<Surface>
    var cancelDrag: bool
    var selection: Option<Client>
    var history: seq<Entry>
    var entered: seq<Entered>
    var accepted: set<(LockObject, Surface)>

    function State(): Session.App
      reads this, windows, lock, userActions
    {
      Session.App(
        windows.windows, windows.nextId, dead, popups, lock.State(), outputLayout, pointer,
        keyboardFocus, keyboardGrab, pointerGrab, pointerFocus, restoreFocus, touch,
        popupGrab, focusBeforeLock, userActions.Records(), cancelDrag, selection, history, entered, accepted)
    }

    ghost predicate Valid()
      reads this, windows
    {
      windows.Valid()
    }

    constructor ()
      ensures Valid() && State() == START
      ensures fresh(windows) && fresh(lock) && fresh(userActions)
    {
      windows := new WindowStore();
      lock := new SessionLockRuntime();
      userActions := new UserActionRecords();
      dead, popups, outputLayout, pointer := {}, map[], [], RealPoint(0.0, 0.0);
      keyboardFocus, keyboardGrab, pointerGrab, pointerFocus, restoreFocus := None, false, Free, None, None;
      touch, popupGrab, focusBeforeLock, cancelDrag, selection := None, None, None, false, None;
      history, entered, accepted := [], [], {};
    }

    // ---- The seat ------------------------------------------------------------

    method SyncFocusState(focused: Option<Surface>)
      modifies this`selection
      ensures State() == old(State()).(selection := if lock.protected then None else ClientOf(old(State()), focused))
    {
      selection := if lock.protected then None else ClientOf(State(), focused);
    }

    method SetKeyboardFocus(target: Option<Surface>)
      modifies this`keyboardFocus, this`selection, this`entered
      ensures State() == Session.SetKeyboardFocus(old(State()), target)
    {
      if FocusChangePasses(State(), target) && keyboardFocus != target {
        keyboardFocus := target;
        if target.Some? {
          entered := entered + [Entered(target.value, LockInForce(State()))];
          SyncFocusState(target);
        }
      }
      if target.None? { SyncFocusState(None); }
    }

    method MovePointerFocus(focus: Option<Surface>)
      modifies this`pointerFocus, this`restoreFocus
      ensures State() == MotionTo(old(State()), focus)
    {
      restoreFocus := focus;
      match pointerGrab
      case Free => pointerFocus := focus;
      case Click(_) =>
      case Menu(root) =>
        pointerFocus := if focus.Some? && focus.value.client == root.client then focus else None;
      case _ => pointerFocus := None;
    }

    method EndMenu()
      modifies this`keyboardFocus, this`selection, this`entered, this`keyboardGrab
      ensures State() == Session.EndMenu(old(State()))
    {
      if pointerGrab.Menu? && keyboardGrab {
        keyboardGrab := false;
        SetKeyboardFocus(Some(pointerGrab.root));
      }
    }

    method UnsetPointerGrab()
      modifies this`keyboardFocus, this`selection, this`entered, this`keyboardGrab, this`pointerGrab, this`pointerFocus
      ensures State() == Session.UnsetPointerGrab(old(State()))
    {
      if pointerGrab.Free? { return; }
      EndMenu();
      pointerGrab := Free;
      pointerFocus := restoreFocus;
    }

    method SetPointerGrab(grab: PointerGrab)
      modifies this`keyboardFocus, this`selection, this`entered, this`keyboardGrab, this`pointerGrab
      ensures State() == Session.SetPointerGrab(old(State()), grab)
    {
      EndMenu();
      pointerGrab := grab;
    }

    method RefreshPointerFocus(under: Option<Surface>)
      modifies this`pointerFocus, this`restoreFocus
      ensures State() == Session.RefreshPointerFocus(old(State()), under)
    {
      if !lock.protected && pointerGrab.Free? { MovePointerFocus(under); }
    }

    // ---- Focus policy ----------------------------------------------------------

    method ApplyPolicyFocus(target: Option<Surface>)
      modifies this`keyboardFocus, this`selection, this`entered, this`focusBeforeLock
      ensures State() == Session.ApplyPolicyFocus(old(State()), target)
    {
      if lock.protected {
        focusBeforeLock := target;
      } else {
        SetKeyboardFocus(target);
      }
    }

    method FocusTopmost()
      modifies this`keyboardFocus, this`selection, this`entered, this`focusBeforeLock
      ensures State() == Session.FocusTopmost(old(State()))
    {
      ApplyPolicyFocus(Target(TopmostFocusable(windows.windows)));
    }

    method FocusPopupRoot(chain: Chain)
      modifies this`keyboardFocus, this`selection, this`entered, this`focusBeforeLock
      ensures State() == Session.FocusPopupRoot(old(State()), chain)
    {
      var target := PopupRootTarget(State(), chain);
      if target.Some? {
        ApplyPolicyFocus(target);
      } else {
        FocusTopmost();
      }
    }

    method ReleasePopupGrab(chain: Chain, under: Option<Surface>)
      modifies this
      ensures State() == Session.ReleasePopupGrab(old(State()), chain, under)
    {
      var held := keyboardGrab;
      if held { keyboardGrab := false; }
      if pointerGrab.Menu? { UnsetPointerGrab(); }
      if held { FocusPopupRoot(chain); }
      RefreshPointerFocus(under);
    }

    method DismissPopupGrab(under: Option<Surface>)
      modifies this
      ensures State() == Session.DismissPopupGrab(old(State()), under)
    {
      if popupGrab.Some? {
        var chain := popupGrab.value;
        popupGrab := None;
        popups := Untrack(popups, chain.popups);
        ReleasePopupGrab(chain, under);
      }
    }

    method FocusWindow(id: nat, under: Option<Surface>)
      requires Valid()
      modifies this, windows
      ensures Valid() && State() == Session.FocusWindow(old(State()), id, under)
    {
      var window := Get(windows.windows, id);
      if window.None? || !window.value.IsFocusable() { return; }
      if popupGrab.Some? { DismissPopupGrab(under); }
      windows.RaiseWindow(id);
      ApplyPolicyFocus(Target(window));
    }

    method RememberFocusForLock()
      modifies this`focusBeforeLock
      ensures State() == Session.RememberFocusForLock(old(State()))
    {
      var root := None;
      if popupGrab.Some? && keyboardGrab { root := PopupRootTarget(State(), popupGrab.value); }
      if root.Some? {
        focusBeforeLock := root;
      } else if keyboardFocus.Some? {
        var owner := Owner(State(), windows.windows, keyboardFocus.value);
        focusBeforeLock := if owner.Some? then Target(owner) else keyboardFocus;
      } else {
        focusBeforeLock := None;
      }
    }

    method RestoreFocusAfterUnlock()
      modifies this`keyboardFocus, this`selection, this`entered, this`focusBeforeLock
      ensures State() == Session.RestoreFocusAfterUnlock(old(State()))
    {
      var remembered := focusBeforeLock;
      focusBeforeLock := None;
      match remembered
      case Some(focus) =>
        if focus !in dead {
          SetKeyboardFocus(remembered);
        } else {
          FocusTopmost();
        }
      case None => SetKeyboardFocus(None);
    }

    method KeepKeyboardOnLockSurface()
      modifies this`keyboardFocus, this`selection, this`entered
      ensures State() == Session.KeepKeyboardOnLockSurface(old(State()))
    {
      if !lock.protected { return; }
      if keyboardFocus.Some? && keyboardFocus.value !in dead && IsLockSurface(lock.State(), keyboardFocus.value) { return; }
      var target := LockSurfaceAt(State(), pointer);
      if target.None? { target := FirstLockSurface(State(), 0); }
      if target.Some? || keyboardFocus.Some? { SetKeyboardFocus(target); }
    }

    // ---- The lock -----------------------------------------------------------------

    method DismissForLock()
      modifies this`popupGrab, this`popups
      ensures State() == Session.DismissForLock(old(State()))
    {
      if popupGrab.Some? {
        var chain := popupGrab.value;
        popupGrab := None;
        popups := map popup | popup in popups && popup !in chain.popups && popups[popup] != chain.root :: popups[popup];
      }
    }

    method EndGrabs()
      modifies this`keyboardFocus, this`selection, this`entered, this`keyboardGrab, this`pointerGrab, this`pointerFocus, this`restoreFocus
      ensures State() == Session.EndGrabs(old(State()))
    {
      keyboardGrab := false;
      MovePointerFocus(None);
      UnsetPointerGrab();
    }

    method LeaveAllSurfaces()
      modifies this`keyboardFocus, this`selection, this`entered, this`pointerFocus, this`restoreFocus, this`touch
      ensures State() == Session.LeaveAllSurfaces(old(State()))
    {
      touch := None;
      SetKeyboardFocus(None);
      MovePointerFocus(None);
    }

    method ProtectInputForLock()
      modifies this, userActions
      ensures State() == ProtectInput(old(State()))
    {
      RememberFocusForLock();
      DismissForLock();
      EndGrabs();
      LeaveAllSurfaces();
      userActions.Clear();
      history := history + [LockBegan];
    }

    method LockSession(sender: LockObject)
      modifies this, lock, userActions
      ensures State() == Session.LockSession(old(State()), sender)
    {
      var began := lock.BeginLock(sender);
      if !began { return; }
      ProtectInputForLock();
      lock.ConfirmLockIfReady();
    }

    method UnlockSession(sender: LockObject, under: Option<Surface>)
      modifies this, lock
      ensures State() == Session.UnlockSession(old(State()), sender, under)
    {
      var ended := lock.Unlock(sender);
      if !ended { return; }
      RestoreFocusAfterUnlock();
      RefreshPointerFocus(under);
    }

    method NewLockSurface(surface: Surface, output: string)
      modifies this, lock
      ensures State() == NewLockSurfaceStep(old(State()), surface, output)
    {
      if !lock.protected || !IsLocker(lock.State(), surface.client) { return; }
      if output !in Outputs.Names(outputLayout) { return; }
      accepted := accepted + {(lock.inForce.value, surface)};
      lock.InsertSurface(output, surface);
      KeepKeyboardOnLockSurface();
    }

    // ---- Windows --------------------------------------------------------------------

    method RemoveWindow(id: nat, under: Option<Surface>)
      requires Valid()
      modifies this, windows
      ensures Valid() && State() == RemoveWindowStep(old(State()), id, under)
    {
      var held := HoldsFocus(State(), id);
      var found := windows.RemoveWindow(id);
      if !found { return; }
      if held { FocusTopmost(); }
      RefreshPointerFocus(under);
    }

    method PlaceToplevel(id: nat, geometry: Rect, under: Option<Surface>)
      requires Valid()
      modifies this, windows
      ensures Valid() && State() == Session.PlaceToplevel(old(State()), id, geometry, under)
    {
      var location := InitialLocation(geometry, outputLayout, pointer);
      windows.Place(id, location);
      FocusWindow(id, under);
      RefreshPointerFocus(under);
    }

    method UnplaceToplevel(id: nat, under: Option<Surface>)
      requires Valid()
      modifies this, windows
      ensures Valid() && State() == Session.UnplaceToplevel(old(State()), id, under)
    {
      var held := HoldsFocus(State(), id);
      windows.Unplace(id);
      if held { FocusTopmost(); }
      RefreshPointerFocus(under);
    }

    method ToplevelCommitted(id: nat, frame: Option<Rect>, under: Option<Surface>)
      requires Valid()
      modifies this, windows
      ensures Valid() && State() == CommitStep(old(State()), id, frame, under)
    {
      var window := Get(windows.windows, id);
      if window.None? || window.value.surface.role.X11Role? { return; }
      if frame.Some? { windows.SetGeometry(id, frame.value); }
      match (window.value.location.Some?, frame.Some?)
      case (false, true) => PlaceToplevel(id, frame.value, under);
      case (true, false) => UnplaceToplevel(id, under);
      case _ =>
    }

    /** An X11 window is mapped, or an override-redirect one shows itself. */
    method MapX11(surface: Surface, overrideRedirect: bool, geometry: Rect, under: Option<Surface>)
      requires Valid()
      modifies this, windows
      ensures Valid() && State() == MapX11Step(old(State()), surface, overrideRedirect, geometry, under)
    {
      if FindRoot(windows.windows, surface).Some? { return; }
      if overrideRedirect {
        var _ := windows.Insert(surface, true, Some(geometry.loc), Rect(Point(0, 0), geometry.size));
        RefreshPointerFocus(under);
      } else {
        MapManagedX11(surface, Rect(Point(0, 0), geometry.size), under);
      }
    }

    method MapManagedX11(surface: Surface, frame: Rect, under: Option<Surface>)
      requires Valid()
      modifies this, windows
      ensures Valid()
      ensures State() == MapManaged(old(State()), surface, frame, under)
    {
      var location := InitialLocation(frame, outputLayout, pointer);
      var id := windows.Insert(surface, false, Some(location), frame);
      FocusWindow(id, under);
      RefreshPointerFocus(under);
    }

    method SetOutputLayout(layout: Outputs.Layout, under: Option<Surface>)
      requires Valid()
      modifies this, windows, lock
      ensures Valid() && State() == SetLayoutStep(old(State()), layout, under)
    {
      lock.Reconcile(Outputs.Names(layout), dead);
      outputLayout := layout;
      KeepKeyboardOnLockSurface();
      windows.KeepReachable(layout, pointer, dead);
      RefreshPointerFocus(under);
    }

    method RefocusIfDead()
      modifies this`keyboardFocus, this`selection, this`entered, this`focusBeforeLock
      ensures State() == Session.RefocusIfDead(old(State()))
    {
      var focus := if lock.protected then focusBeforeLock else keyboardFocus;
      if focus.Some? && focus.value in dead { FocusTopmost(); }
    }

    method ReapDeadClients(under: Option<Surface>)
      requires Valid()
      modifies this, windows
      ensures Valid() && State() == Session.ReapDeadClients(old(State()), under)
    {
      var reclaimed := windows.ReapDead(dead);
      RefocusIfDead();
      KeepKeyboardOnLockSurface();
      if reclaimed > 0 { RefreshPointerFocus(under); }
    }

    method Refresh(under: Option<Surface>)
      requires Valid()
      modifies this, windows
      ensures Valid() && State() == RefreshStep(old(State()), under)
    {
      SettlePopupGrab(under);
      ReapDeadClients(under);
    }

    // ---- Popup grabs ------------------------------------------------------------------

    method GrabPopup(popup: Surface, onSeat: bool, serial: Serial, accepts: bool) returns (granted: bool)
      requires Valid()
      modifies this, windows
      ensures Valid() && State() == GrabPopupStep(old(State()), popup, onSeat, serial, accepts)
      ensures granted == Grants(old(State()), popup, onSeat, serial, accepts)
    {
      granted := Grants(State(), popup, onSeat, serial, accepts);
      if granted {
        GrantPopupGrab(popup);
      } else {
        popups := Untrack(popups, [popup]);
      }
    }

    method GrantPopupGrab(popup: Surface)
      requires Valid() && popup in popups
      modifies this, windows
      ensures Valid() && State() == Granted(old(State()), popup)
    {
      var window := FindRoot(windows.windows, popups[popup]);
      var chain := ExtendedChain(State(), popup);
      if window.Some? { windows.RaiseWindow(window.value.id); }
      InstallGrabs(chain);
    }

    method InstallGrabs(chain: Chain)
      modifies this
      ensures State() == Session.InstallGrabs(old(State()), chain)
    {
      SetPointerGrab(Menu(chain.root));
      keyboardGrab := true;
      popupGrab := Some(chain);
      SetKeyboardFocus(Some(CurrentGrab(State(), chain)));
    }

    method SettlePopupGrab(under: Option<Surface>)
      modifies this
      ensures State() == Session.SettlePopupGrab(old(State()), under)
    {
      if popupGrab.None? { return; }
      var chain := popupGrab.value;
      match GrabbingPopup(State(), chain)
      case Some(popup) =>
        if keyboardGrab && keyboardFocus != Some(popup) { SetKeyboardFocus(Some(popup)); }
      case None =>
        popupGrab := None;
        ReleasePopupGrab(chain, under);
    }

    // ---- Input ---------------------------------------------------------------------------

    method RecordPress(serial: Serial, receiver: Option<Client>)
      modifies this`history, userActions
      ensures State() == Recorded(old(State()), ButtonPress, serial, receiver)
    {
      userActions.RecordButtonPress(serial, receiver);
      history := history + [Acted(Action(ButtonPress, serial, receiver))];
    }

    method PopupGrabSeesKey()
      modifies this`keyboardFocus, this`selection, this`entered, this`keyboardGrab
      ensures State() == Session.PopupGrabSeesKey(old(State()))
    {
      if !keyboardGrab || popupGrab.None? { return; }
      match GrabbingPopup(State(), popupGrab.value)
      case Some(popup) => SetKeyboardFocus(Some(popup));
      case None =>
        keyboardGrab := false;
        SetKeyboardFocus(Some(popupGrab.value.root));
    }

    method KeyInput(pressed: bool, serial: Serial, intercepted: bool)
      modifies this, userActions
      ensures State() == KeyStep(old(State()), pressed, serial, intercepted)
    {
      var receiver := None;
      if !intercepted {
        PopupGrabSeesKey();
        receiver := ClientOf(State(), keyboardFocus);
      }
      userActions.RecordKey(serial, pressed, receiver);
      history := history + [Acted(Action(if pressed then KeyPress else KeyRelease, serial, receiver))];
    }

    method DeliverPress(under: Option<Surface>)
      modifies this
      ensures State() == Session.DeliverPress(old(State()), under)
    {
      match pointerGrab
      case Free => pointerGrab := Click(pointerFocus);
      case Menu(root) =>
        if !ChainIsOver(State()) && under.Some? && under.value.client == root.client { return; }
        PressThroughMenu(under);
      case _ =>
    }

    method PressThroughMenu(under: Option<Surface>)
      modifies this
      ensures State() == Session.PressThroughMenu(old(State()), under)
    {
      DismissChainInPlace();
      UnsetPointerGrab();
      MovePointerFocus(under);
      pointerGrab := Click(pointerFocus);
    }

    method DismissChainInPlace()
      modifies this`popups, this`popupGrab
      ensures State() == Session.DismissChainInPlace(old(State()))
    {
      if popupGrab.Some? {
        popups := Untrack(popups, popupGrab.value.popups);
        popupGrab := Some(popupGrab.value.(popups := []));
      }
    }

    method PressButton(serial: Serial, under: Option<Surface>)
      requires Valid()
      modifies this, windows, userActions
      ensures Valid() && State() == ButtonPressStep(old(State()), serial, under)
    {
      if lock.protected {
        if pointerFocus.Some? && pointerFocus.value !in dead && IsLockSurface(lock.State(), pointerFocus.value) {
          SetKeyboardFocus(pointerFocus);
        }
        DeliverPress(LockSurfaceAt(State(), pointer));
      } else {
        if pointerGrab.Free? {
          ClickToFocus(under);
          RefreshPointerFocus(under);
        }
        DeliverPress(under);
      }
      RecordPress(serial, ClientOf(State(), pointerFocus));
    }

    method ClickToFocus(under: Option<Surface>)
      requires Valid()
      modifies this, windows
      ensures Valid() && State() == Session.ClickToFocus(old(State()), under)
    {
      if under.None? { return; }
      var window := Owner(State(), windows.windows, under.value);
      if window.Some? && window.value.IsFocusable() { FocusWindow(window.value.id, under); }
    }

    method TouchDown(serial: Serial, at: RealPoint, touched: Option<Surface>, under: Option<Surface>)
      modifies this, userActions
      ensures State() == TouchDownStep(old(State()), serial, at, touched, under)
    {
      var target := touched;
      if lock.protected {
        target := LockSurfaceAt(State(), at);
      } else if touch.None? && TouchDismisses(ChainOwner(State()), ClientOf(State(), touched)) {
        DismissPopupGrab(under);
      }
      DeliverTouch(serial, target);
    }

    method DeliverTouch(serial: Serial, touched: Option<Surface>)
      modifies this`touch, this`history, userActions
      ensures State() == Session.DeliverTouch(old(State()), serial, touched)
    {
      if touch.None? { touch := Some(touched); }
      var receiver := ClientOf(State(), touch.value);
      userActions.RecordTouchDown(serial, receiver);
      history := history + [Acted(Action(Kind.TouchDown, serial, receiver))];
    }

    method MovePointer(towards: RealPoint, under: Option<Surface>)
      modifies this
      ensures State() == MotionStep(old(State()), towards, under)
    {
      pointer := Outputs.Clamp(outputLayout, towards);
      if lock.protected {
        MovePointerFocus(LockSurfaceAt(State(), pointer));
      } else {
        if pointerGrab.Menu? && ChainIsOver(State()) { UnsetPointerGrab(); }
        MovePointerFocus(under);
      }
    }

    /** A move or resize asked for by its window takes over the press on it. */
    method BeginGrab(id: nat, grab: PointerGrab)
      requires grab.Moving? || grab.Resizing?
      modifies this
      ensures State() == BeginGrabStep(old(State()), id, grab)
    {
      if MayBeginGrab(State(), id) {
        SetPointerGrab(grab);
        MovePointerFocus(None);
      }
    }

    /** A drag-and-drop; during a lock only the locker's outlives the dispatch. */
    method StartDrag(source: Option<Client>)
      modifies this
      ensures State() == StartDragStep(old(State()), source)
    {
      if pointerGrab.Free? { return; }
      SetPointerGrab(Drag(source));
      pointerFocus := None;
      if lock.protected && !(source.Some? && IsLocker(lock.State(), source.value)) { cancelDrag := true; }
    }

    method FinishClientDispatch()
      modifies this
      ensures State() == FinishDispatchStep(old(State()))
    {
      var cancelled := cancelDrag;
      cancelDrag := false;
      if cancelled && pointerGrab.Drag? { UnsetPointerGrab(); }
    }
  }
}
