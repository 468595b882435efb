/** What every reachable state of the session keeps, and the fail-closed lock. */
module SessionInvariant {
  import opened Wrappers
  import opened Geometry
  import opened Objects
  import opened Outputs
  import opened Windows
  import opened SessionLock
  import opened UserActions
  import opened Session

  // ---- The parts of the invariant ------------------------------------------------

  /** Windows have their own ids and surfaces, in a window's role. */
  ghost predicate GoodStack(stack: Stack, nextId: nat) {
    && DistinctIds(stack)
    && (forall i, j :: 0 <= i < j < |stack| ==> stack[i].surface != stack[j].surface)
    && (forall i :: 0 <= i < |stack| ==> stack[i].id < nextId && IsWindowRole(stack[i].surface))
  }

  ghost predicate GoodChain(chain: Chain) {
    && chain.root.role == ToplevelRole
    && forall popup <- chain.popups :: popup.role == PopupRole && popup.client == chain.root.client
  }

  /** A live popup is tracked under its toplevel, which its client owns. */
  ghost predicate TracksLivePopups(popups: map<Surface, Surface>, dead: set<Surface>) {
    forall popup <- popups :: popup.role == PopupRole && popups[popup].role == ToplevelRole
      && popup.client == popups[popup].client && popup !in dead
  }

  ghost predicate GoodGrabs(popupGrab: Option<Chain>, pointerGrab: PointerGrab) {
    && (popupGrab.Some? ==> GoodChain(popupGrab.value))
    && (pointerGrab.Menu? ==> pointerGrab.root.role == ToplevelRole)
  }

  /** A popup grab on the keyboard or the pointer is accounted for. */
  ghost predicate GrabsAccounted(s: App) {
    s.keyboardGrab || s.pointerGrab.Menu? ==> s.popupGrab.Some?
  }

  predicate IsWindowRole(surface: Surface) {
    surface.role == ToplevelRole || surface.role == X11Role
  }

  /** A window or one of its popups. */
  predicate IsOrdinary(surface: Option<Surface>) {
    surface.Some? ==> IsWindowRole(surface.value) || surface.value.role == PopupRole
  }

  /** Unlocked, the keyboard focus is no lock surface. */
  ghost predicate FocusRole(s: App) {
    !s.lock.protected ==> IsOrdinary(s.keyboardFocus)
  }

  /** A surface that a lock has accepted, if any surface at all. */
  ghost predicate AcceptedBy(inForce: Option<LockObject>, accepted: set<(LockObject, Surface)>, surface: Option<Surface>) {
    surface.Some? ==> inForce.Some? && (inForce.value, surface.value) in accepted
  }

  ghost predicate Accepted(s: App, surface: Option<Surface>) {
    AcceptedBy(s.lock.inForce, s.accepted, surface)
  }

  ghost predicate HoldsAccepted(lock: Lock, accepted: set<(LockObject, Surface)>) {
    forall name <- lock.surfaces :: AcceptedBy(lock.inForce, accepted, Some(lock.surfaces[name]))
  }

  /** Input and selection while the session is locked. */
  ghost predicate FailClosed(s: App) {
    && s.popupGrab.None? && !s.keyboardGrab
    && !s.pointerGrab.Menu? && !s.pointerGrab.Moving? && !s.pointerGrab.Resizing?
    && (s.pointerGrab.Click? ==> Accepted(s, s.pointerGrab.pressed))
    && (s.pointerGrab.Drag? ==> s.cancelDrag || (s.pointerGrab.source.Some? && IsLocker(s.lock, s.pointerGrab.source.value)))
    && s.selection.None?
    && Accepted(s, s.keyboardFocus) && Accepted(s, s.pointerFocus) && Accepted(s, s.restoreFocus)
    && (s.touch.Some? ==> Accepted(s, s.touch.value))
    && HoldsAccepted(s.lock, s.accepted)
  }

  /** Every focus change made under a lock went to a surface accepted from its
      locker. */
  ghost predicate EnteredOnlyAccepted(entered: seq<Entered>, accepted: set<(LockObject, Surface)>) {
    forall e <- entered :: e.under.Some? ==> (e.under.value, e.target) in accepted
  }

  ghost predicate AcceptedFromLockers(accepted: set<(LockObject, Surface)>) {
    forall pair <- accepted :: pair.1.client == pair.0.client && pair.1.role == LockRole
  }

  /** All but the keyboard's part, which a grab that is being released breaks
      for a moment. */
  ghost predicate Core(s: App) {
    && GoodStack(s.stack, s.nextId) && TracksLivePopups(s.popups, s.dead) && GoodGrabs(s.popupGrab, s.pointerGrab)
    && IsOrdinary(s.focusBeforeLock)
    && LockInvariant(s.lock) && s.lock.connected == Outputs.Names(s.layout)
    && (s.lock.protected ==> FailClosed(s))
    && EnteredOnlyAccepted(s.entered, s.accepted) && AcceptedFromLockers(s.accepted)
    && s.actions == Summary(s.history)
  }

  ghost predicate Invariant(s: App) {
    Core(s) && GrabsAccounted(s) && FocusRole(s)
  }

  // ---- Stacks -------------------------------------------------------------------------

  lemma RaiseKeepsGood(stack: Stack, nextId: nat, id: nat)
    requires GoodStack(stack, nextId)
    ensures GoodStack(Raise(stack, id), nextId)
    ensures forall window :: window in Raise(stack, id) <==> window in stack
  {
    match IndexOf(stack, id)
    case None =>
    case Some(i) =>
      var raised := Raise(stack, id);
      forall window ensures window in raised <==> window in stack {
        assert stack == stack[..i] + [stack[i]] + stack[i + 1..];
      }
  }

  lemma RemoveKeepsGood(stack: Stack, nextId: nat, id: nat)
    requires GoodStack(stack, nextId)
    ensures GoodStack(Remove(stack, id), nextId)
  {
  }

  /** A window at the bottom of a good stack that clashes with none of it. */
  lemma BottomKeepsGood(bottom: ManagedWindow, rest: Stack, nextId: nat)
    requires GoodStack(rest, nextId) && bottom.id < nextId && IsWindowRole(bottom.surface)
    requires forall window <- rest :: window.id != bottom.id && window.surface != bottom.surface
    ensures GoodStack([bottom] + rest, nextId)
  {
  }

  lemma {:induction false} ReapKeepsGood(stack: Stack, nextId: nat, dead: set<Surface>)
    requires GoodStack(stack, nextId)
    ensures GoodStack(Reap(stack, dead), nextId)
  {
    if stack != [] {
      var above := stack[1..];
      ReapKeepsGood(above, nextId, dead);
      ReapKeepsOrder(above, dead);
      if stack[0].surface !in dead {
        forall window <- Reap(above, dead) ensures window.id != stack[0].id && window.surface != stack[0].surface {
          var i :| 0 <= i < |above| && above[i] == window;
          assert stack[i + 1] == window;
        }
        BottomKeepsGood(stack[0], Reap(above, dead), nextId);
      }
    }
  }

  // ---- Focus changes -------------------------------------------------------------------

  /** Only the keyboard focus and what follows from it may differ. */
  ghost predicate SameButFocus(s: App, t: App) {
    t == s.(keyboardFocus := t.keyboardFocus, selection := t.selection, entered := t.entered, focusBeforeLock := t.focusBeforeLock)
  }

  /** Any focus is legal for its role; during a lock only an accepted one. */
  ghost predicate MayFocus(s: App, target: Option<Surface>) {
    target.Some? ==> if s.lock.protected then Accepted(s, target) else IsOrdinary(target)
  }

  lemma SetFocusKeeps(s: App, target: Option<Surface>)
    requires Core(s) && MayFocus(s, target)
    ensures Core(SetKeyboardFocus(s, target)) && SameButFocus(s, SetKeyboardFocus(s, target))
    ensures FocusRole(s) ==> FocusRole(SetKeyboardFocus(s, target))
  {
  }

  lemma PolicyFocusKeeps(s: App, target: Option<Surface>)
    requires Core(s) && (target.Some? ==> IsWindowRole(target.value))
    ensures Core(ApplyPolicyFocus(s, target)) && SameButFocus(s, ApplyPolicyFocus(s, target))
    ensures FocusRole(s) ==> FocusRole(ApplyPolicyFocus(s, target))
  {
    if !s.lock.protected { SetFocusKeeps(s, target); }
  }

  lemma FocusTopmostKeeps(s: App)
    requires Core(s)
    ensures Core(FocusTopmost(s)) && SameButFocus(s, FocusTopmost(s))
    ensures FocusRole(s) ==> FocusRole(FocusTopmost(s))
  {
    PolicyFocusKeeps(s, Target(TopmostFocusable(s.stack)));
  }

  lemma FocusPopupRootKeeps(s: App, chain: Chain)
    requires Core(s)
    ensures Core(FocusPopupRoot(s, chain)) && SameButFocus(s, FocusPopupRoot(s, chain))
    ensures FocusRole(s) ==> FocusRole(FocusPopupRoot(s, chain))
  {
    PolicyFocusKeeps(s, PopupRootTarget(s, chain));
    FocusTopmostKeeps(s);
  }

  lemma MotionKeeps(s: App, focus: Option<Surface>)
    requires Core(s) && (s.lock.protected ==> Accepted(s, focus))
    ensures Core(MotionTo(s, focus))
    ensures MotionTo(s, focus) == s.(restoreFocus := focus, pointerFocus := MotionTo(s, focus).pointerFocus)
  {
  }

  lemma RefreshPointerKeeps(s: App, under: Option<Surface>)
    requires Core(s)
    ensures Core(RefreshPointerFocus(s, under))
    ensures Invariant(s) ==> Invariant(RefreshPointerFocus(s, under))
  {
    if !s.lock.protected { MotionKeeps(s, under); }
  }

  lemma KeepKeyboardKeeps(s: App)
    requires Invariant(s)
    ensures Invariant(KeepKeyboardOnLockSurface(s)) && SameButFocus(s, KeepKeyboardOnLockSurface(s))
  {
    if s.lock.protected {
      var under := LockSurfaceAt(s, s.pointer);
      var target := if under.Some? then under else FirstLockSurface(s, 0);
      assert target.Some? ==> Accepted(s, target);
      SetFocusKeeps(s, target);
    }
  }

  // ---- Popup grabs ------------------------------------------------------------------------

  lemma EndMenuKeeps(s: App)
    requires Core(s) && !s.lock.protected
    ensures Core(EndMenu(s))
    ensures SameButFocus(s.(keyboardGrab := EndMenu(s).keyboardGrab), EndMenu(s))
    ensures s.pointerGrab.Menu? ==> !EndMenu(s).keyboardGrab
    ensures FocusRole(s) ==> FocusRole(EndMenu(s))
  {
    if s.pointerGrab.Menu? && s.keyboardGrab { SetFocusKeeps(s.(keyboardGrab := false), Some(s.pointerGrab.root)); }
  }

  lemma UnsetPointerKeeps(s: App)
    requires Core(s)
    ensures Core(UnsetPointerGrab(s))
    ensures Invariant(s) ==> Invariant(UnsetPointerGrab(s))
    ensures var t := UnsetPointerGrab(s);
      && t.pointerGrab.Free? && t.lock == s.lock && t.stack == s.stack && t.popupGrab == s.popupGrab
      && (t.keyboardGrab ==> s.keyboardGrab) && (s.pointerGrab.Menu? ==> !t.keyboardGrab)
      && (!s.keyboardGrab ==> t.keyboardFocus == s.keyboardFocus)
  {
    if !s.lock.protected { EndMenuKeeps(s); }
  }

  lemma ReleaseKeeps(s: App, chain: Chain, under: Option<Surface>)
    requires Core(s) && !s.lock.protected && FocusRole(s)
    ensures var t := ReleasePopupGrab(s, chain, under);
      && Core(t) && FocusRole(t) && !t.keyboardGrab && !t.pointerGrab.Menu?
      && t.lock == s.lock && t.stack == s.stack && t.nextId == s.nextId && t.popupGrab == s.popupGrab
  {
    var ungrabbed := s.(keyboardGrab := false);
    var freed := if ungrabbed.pointerGrab.Menu? then UnsetPointerGrab(ungrabbed) else ungrabbed;
    UnsetPointerKeeps(ungrabbed);
    var focused := if s.keyboardGrab then FocusPopupRoot(freed, chain) else freed;
    FocusPopupRootKeeps(freed, chain);
    RefreshPointerKeeps(focused, under);
  }

  lemma DismissKeeps(s: App, under: Option<Surface>)
    requires Invariant(s) && !s.lock.protected
    ensures var t := DismissPopupGrab(s, under);
      && Invariant(t) && t.popupGrab.None? && t.lock == s.lock && t.stack == s.stack && t.nextId == s.nextId
  {
    if s.popupGrab.Some? {
      ReleaseKeeps(s.(popupGrab := None, popups := Untrack(s.popups, s.popupGrab.value.popups)), s.popupGrab.value, under);
    }
  }

  lemma FocusWindowKeeps(s: App, id: nat, under: Option<Surface>)
    requires Invariant(s) && (s.lock.protected ==> s.popupGrab.None?)
    ensures Invariant(FocusWindow(s, id, under))
  {
    var window := Get(s.stack, id);
    if window.Some? && window.value.IsFocusable() {
      var dismissed := DismissPopupGrab(s, under);
      if !s.lock.protected { DismissKeeps(s, under); }
      RaiseKeepsGood(dismissed.stack, dismissed.nextId, id);
      PolicyFocusKeeps(dismissed.(stack := Raise(dismissed.stack, id)), Target(window));
    }
  }

  // ---- The lock ----------------------------------------------------------------------------

  /** Leaving every surface and ending the pointer's grab, once no grab holds
      the keyboard. */
  lemma LeavingClearsThePointer(s: App)
    requires !s.keyboardGrab
    ensures EndGrabs(s) == s.(pointerGrab := Free, pointerFocus := None, restoreFocus := None)
  {
  }

  /** A lock takes every grab, touch sequence and focus away at once. */
  lemma ProtectInputSealsInput(s: App)
    requires s.lock.protected
    ensures ProtectInput(s) == DismissForLock(RememberFocusForLock(s)).(
      keyboardGrab := false, keyboardFocus := None, pointerGrab := Free, pointerFocus := None, restoreFocus := None,
      touch := None, selection := None, actions := NO_ACTIONS, history := s.history + [LockBegan])
  {
    var ungrabbed := DismissForLock(RememberFocusForLock(s)).(keyboardGrab := false);
    LeavingClearsThePointer(ungrabbed);
  }

  lemma RememberedIsOrdinary(s: App, sender: LockObject)
    requires Core(s) && FocusRole(s) && !s.lock.protected
    ensures IsOrdinary(RememberFocusForLock(s.(lock := Begin(s.lock, sender))).focusBeforeLock)
  {
  }

  lemma SealedStateKeepsInvariant(s: App, t: App)
    requires Core(s) && t == s.(
      lock := t.lock, popupGrab := None, popups := t.popups, keyboardGrab := false, keyboardFocus := None,
      pointerGrab := Free, pointerFocus := None, restoreFocus := None, touch := None, selection := None,
      focusBeforeLock := t.focusBeforeLock, actions := NO_ACTIONS, history := s.history + [LockBegan])
    requires IsOrdinary(t.focusBeforeLock) && LockInvariant(t.lock)
    requires t.lock.surfaces == map[] && t.lock.connected == s.lock.connected
    requires t.popups.Keys <= s.popups.Keys && forall popup <- t.popups :: t.popups[popup] == s.popups[popup]
    ensures Invariant(t)
  {
    assert t.history[..|s.history|] == s.history;
  }

  lemma LockKeeps(s: App, sender: LockObject)
    requires Invariant(s) && Enabled(s, Step.LockRequest(sender))
    ensures Invariant(LockSession(s, sender))
  {
    if !s.lock.protected {
      var began := s.(lock := Begin(s.lock, sender));
      ProtectInputSealsInput(began);
      RememberedIsOrdinary(s, sender);
      LockStepKeepsInvariant(s.lock, LockStep.LockRequest(sender));
      SealedStateKeepsInvariant(s, LockSession(s, sender));
    }
  }

  lemma EndedLockKeepsCore(s: App)
    requires Invariant(s) && s.lock.protected && LockInvariant(End(s.lock))
    ensures Core(s.(lock := End(s.lock), focusBeforeLock := None))
  {
  }

  lemma RestoringSetsFocus(s: App) returns (target: Option<Surface>)
    requires !s.lock.protected
    ensures RestoreFocusAfterUnlock(s) == SetKeyboardFocus(s.(focusBeforeLock := None), target)
    ensures target == s.focusBeforeLock || target == Target(TopmostFocusable(s.stack))
  {
    target := if s.focusBeforeLock.Some? && s.focusBeforeLock.value in s.dead then Target(TopmostFocusable(s.stack)) else s.focusBeforeLock;
  }

  lemma RestoreKeeps(s: App)
    requires Invariant(s) && s.lock.protected && LockInvariant(End(s.lock))
    ensures Invariant(RestoreFocusAfterUnlock(s.(lock := End(s.lock))))
  {
    var target := RestoringSetsFocus(s.(lock := End(s.lock)));
    EndedLockKeepsCore(s);
    FocusOnEndedLock(s.(lock := End(s.lock), focusBeforeLock := None), target);
  }

  lemma FocusOnEndedLock(s: App, target: Option<Surface>)
    requires Core(s) && !s.lock.protected && !s.keyboardGrab && !s.pointerGrab.Menu? && IsOrdinary(target)
    ensures Invariant(SetKeyboardFocus(s, target))
  {
    SetFocusKeeps(s, target);
  }

  lemma UnlockKeeps(s: App, sender: LockObject, under: Option<Surface>)
    requires Invariant(s)
    ensures Invariant(UnlockSession(s, sender, under))
  {
    if s.lock.protected && MayUnlock(s.lock.inForce, s.lock.confirmed, sender) {
      LockStepKeepsInvariant(s.lock, LockStep.UnlockRequest(sender));
      RestoreKeeps(s);
      RefreshPointerKeeps(RestoreFocusAfterUnlock(s.(lock := End(s.lock))), under);
    }
  }

  lemma NewLockSurfaceKeeps(s: App, surface: Surface, output: string)
    requires Invariant(s) && Enabled(s, NewLockSurface(surface, output))
    ensures Invariant(NewLockSurfaceStep(s, surface, output))
  {
    if s.lock.protected && IsLocker(s.lock, surface.client) && output in Outputs.Names(s.layout) {
      LockStepKeepsInvariant(s.lock, AddSurface(output, surface));
      KeepKeyboardKeeps(
        s.(lock := s.lock.(surfaces := s.lock.surfaces[output := surface]),
           accepted := s.accepted + {(s.lock.inForce.value, surface)}));
    }
  }

  lemma SetLayoutKeeps(s: App, layout: Layout, under: Option<Surface>)
    requires Invariant(s)
    ensures Invariant(SetLayoutStep(s, layout, under))
  {
    LockStepKeepsInvariant(s.lock, LockStep.Outputs(Outputs.Names(layout), s.dead));
    var reconciled := s.(lock := ReconcileOutputs(s.lock, Outputs.Names(layout), s.dead), layout := layout);
    assert Invariant(reconciled);
    KeepKeyboardKeeps(reconciled);
    RefreshPointerKeeps(
      KeepKeyboardOnLockSurface(reconciled).(stack := AllReachable(s.stack, layout, s.pointer, s.dead)), under);
  }

  // ---- Windows -----------------------------------------------------------------------------

  lemma PlaceKeeps(s: App, id: nat, geometry: Rect, under: Option<Surface>)
    requires Invariant(s)
    ensures Invariant(PlaceToplevel(s, id, geometry, under))
  {
    var updated := Update(s.stack, id, Some(InitialLocation(geometry, s.layout, s.pointer)), true);
    RaiseKeepsGood(updated, s.nextId, id);
    var placed := s.(stack := Raise(updated, id));
    FocusWindowKeeps(placed, id, under);
    RefreshPointerKeeps(FocusWindow(placed, id, under), under);
  }

  lemma UnplaceKeeps(s: App, id: nat, under: Option<Surface>)
    requires Invariant(s)
    ensures Invariant(UnplaceToplevel(s, id, under))
  {
    var unplaced := s.(stack := Update(s.stack, id, None, false));
    FocusTopmostKeeps(unplaced);
    RefreshPointerKeeps(if HoldsFocus(s, id) then FocusTopmost(unplaced) else unplaced, under);
  }

  lemma CommitKeeps(s: App, id: nat, frame: Option<Rect>, under: Option<Surface>)
    requires Invariant(s)
    ensures Invariant(CommitStep(s, id, frame, under))
  {
    var drawn := if frame.Some? then s.(stack := WithGeometry(s.stack, id, frame.value)) else s;
    assert GoodStack(drawn.stack, s.nextId);
    if frame.Some? { PlaceKeeps(drawn, id, frame.value, under); }
    UnplaceKeeps(drawn, id, under);
  }

  lemma InsertedKeeps(s: App, surface: Surface, overrideRedirect: bool, location: Option<Point>, geometry: Rect)
    requires Invariant(s) && IsWindowRole(surface) && FindRoot(s.stack, surface).None?
    ensures Invariant(Inserted(s, surface, overrideRedirect, location, geometry))
  {
  }

  lemma MapX11Keeps(s: App, surface: Surface, overrideRedirect: bool, geometry: Rect, under: Option<Surface>)
    requires Invariant(s) && Enabled(s, MapX11(surface, overrideRedirect, geometry, under))
    ensures Invariant(MapX11Step(s, surface, overrideRedirect, geometry, under))
  {
    if FindRoot(s.stack, surface).None? {
      if overrideRedirect {
        InsertedKeeps(s, surface, true, Some(geometry.loc), Rect(Point(0, 0), geometry.size));
        RefreshPointerKeeps(Inserted(s, surface, true, Some(geometry.loc), Rect(Point(0, 0), geometry.size)), under);
      } else {
        var frame := Rect(Point(0, 0), geometry.size);
        var location := InitialLocation(frame, s.layout, s.pointer);
        InsertedKeeps(s, surface, false, Some(location), frame);
        var inserted := Inserted(s, surface, false, Some(location), frame);
        FocusWindowKeeps(inserted, s.nextId, under);
        RefreshPointerKeeps(FocusWindow(inserted, s.nextId, under), under);
      }
    }
  }

  lemma RemoveWindowKeeps(s: App, id: nat, under: Option<Surface>)
    requires Invariant(s)
    ensures Invariant(RemoveWindowStep(s, id, under))
  {
    RemoveKeepsGood(s.stack, s.nextId, id);
    var removed := s.(stack := Remove(s.stack, id));
    FocusTopmostKeeps(removed);
    RefreshPointerKeeps(if HoldsFocus(s, id) then FocusTopmost(removed) else removed, under);
  }

  // ---- Popups and refresh ------------------------------------------------------------------

  lemma EndMenuInTurn(s: App, grab: PointerGrab)
    requires Core(s) && FocusRole(s) && !s.lock.protected && (grab.Menu? ==> grab.root.role == ToplevelRole)
    ensures Core(SetPointerGrab(s, grab)) && FocusRole(SetPointerGrab(s, grab))
  {
    EndMenuKeeps(s);
  }

  lemma InstallKeeps(s: App, chain: Chain)
    requires Core(s) && FocusRole(s) && !s.lock.protected && GoodChain(chain)
    ensures Invariant(InstallGrabs(s, chain))
  {
    EndMenuInTurn(s, Menu(chain.root));
    var grabbed := SetPointerGrab(s, Menu(chain.root)).(keyboardGrab := true, popupGrab := Some(chain));
    SetFocusKeeps(grabbed, Some(CurrentGrab(grabbed, chain)));
  }

  lemma GrantedKeeps(s: App, popup: Surface)
    requires Invariant(s) && !s.lock.protected && popup in s.popups && Enabled(s, GrabPopup(popup, true, 0, true))
    ensures Invariant(Granted(s, popup))
  {
    var window := FindRoot(s.stack, s.popups[popup]);
    var raised := if window.Some? then s.(stack := Raise(s.stack, window.value.id)) else s;
    if window.Some? { RaiseKeepsGood(s.stack, s.nextId, window.value.id); }
    InstallKeeps(raised, ExtendedChain(s, popup));
  }

  lemma PopupsComeAndGo(s: App, popup: Surface, root: Surface)
    requires Invariant(s)
    ensures Invariant(s.(popups := Untrack(s.popups, [popup])))
    ensures Enabled(s, NewPopup(popup, root)) ==> Invariant(s.(popups := s.popups[popup := root]))
  {
  }

  lemma GrabPopupKeeps(s: App, popup: Surface, onSeat: bool, serial: Serial, accepts: bool)
    requires Invariant(s) && Enabled(s, GrabPopup(popup, onSeat, serial, accepts))
    ensures Invariant(GrabPopupStep(s, popup, onSeat, serial, accepts))
  {
    if Grants(s, popup, onSeat, serial, accepts) { GrantedKeeps(s, popup); } else { PopupsComeAndGo(s, popup, popup); }
  }

  lemma DieKeeps(s: App, surfaces: set<Surface>)
    requires Invariant(s)
    ensures Invariant(DieStep(s, surfaces))
  {
  }

  lemma PresentedKeeps(s: App, output: string)
    requires Invariant(s)
    ensures Invariant(s.(lock := NotePresented(s.lock, output)))
  {
    LockStepKeepsInvariant(s.lock, Presented(output));
  }

  lemma SettleKeeps(s: App, under: Option<Surface>)
    requires Invariant(s)
    ensures Invariant(SettlePopupGrab(s, under))
  {
    if s.popupGrab.Some? {
      match GrabbingPopup(s, s.popupGrab.value)
      case Some(popup) => SetFocusKeeps(s, Some(popup));
      case None => ReleaseKeeps(s.(popupGrab := None), s.popupGrab.value, under);
    }
  }

  lemma RefocusKeeps(s: App)
    requires Invariant(s)
    ensures Invariant(RefocusIfDead(s))
  {
    FocusTopmostKeeps(s);
  }

  lemma ReapDeadKeeps(s: App, under: Option<Surface>)
    requires Invariant(s)
    ensures Invariant(ReapDeadClients(s, under))
  {
    ReapKeepsGood(s.stack, s.nextId, s.dead);
    var reaped := s.(stack := Reap(s.stack, s.dead));
    assert Invariant(reaped);
    RefocusKeeps(reaped);
    KeepKeyboardKeeps(RefocusIfDead(reaped));
    RefreshPointerKeeps(KeepKeyboardOnLockSurface(RefocusIfDead(reaped)), under);
  }

  lemma RefreshKeeps(s: App, under: Option<Surface>)
    requires Invariant(s)
    ensures Invariant(RefreshStep(s, under))
  {
    SettleKeeps(s, under);
    ReapDeadKeeps(SettlePopupGrab(s, under), under);
  }

  // ---- Input ---------------------------------------------------------------------------------

  lemma RecordedKeeps(s: App, kind: Kind, serial: Serial, receiver: Option<Client>)
    requires Invariant(s)
    ensures Invariant(Recorded(s, kind, serial, receiver))
  {
    var action := Action(kind, serial, receiver);
    assert (s.history + [Acted(action)])[..|s.history|] == s.history;
  }

  lemma KeyKeeps(s: App, pressed: bool, serial: Serial, intercepted: bool)
    requires Invariant(s)
    ensures Invariant(KeyStep(s, pressed, serial, intercepted))
  {
    if s.keyboardGrab {
      match GrabbingPopup(s, s.popupGrab.value)
      case Some(popup) => SetFocusKeeps(s, Some(popup));
      case None => SetFocusKeeps(s.(keyboardGrab := false), Some(s.popupGrab.value.root));
    }
    var forwarded := if intercepted then s else PopupGrabSeesKey(s);
    var receiver := if intercepted then None else ClientOf(forwarded, forwarded.keyboardFocus);
    RecordedKeeps(forwarded, if pressed then KeyPress else KeyRelease, serial, receiver);
  }

  lemma DeliverPressKeeps(s: App, under: Option<Surface>)
    requires Invariant(s) && (s.lock.protected ==> Accepted(s, under))
    ensures Invariant(DeliverPress(s, under))
  {
    if s.pointerGrab.Menu? {
      UnsetPointerKeeps(DismissChainInPlace(s));
      MotionKeeps(UnsetPointerGrab(DismissChainInPlace(s)), under);
    }
  }

  lemma ForwardPressKeeps(s: App, serial: Serial, under: Option<Surface>)
    requires Invariant(s) && (s.lock.protected ==> Accepted(s, under))
    ensures Invariant(ForwardPress(s, serial, under))
  {
    DeliverPressKeeps(s, under);
    var delivered := DeliverPress(s, under);
    RecordedKeeps(delivered, ButtonPress, serial, ClientOf(delivered, delivered.pointerFocus));
  }

  lemma ButtonPressKeeps(s: App, serial: Serial, under: Option<Surface>)
    requires Invariant(s)
    ensures Invariant(ButtonPressStep(s, serial, under))
  {
    if s.lock.protected {
      SetFocusKeeps(s, s.pointerFocus);
      ForwardPressKeeps(FocusClickedLockSurface(s), serial, LockSurfaceAt(s, s.pointer));
    } else {
      if s.pointerGrab.Free? {
        var window := if under.Some? then Owner(s, s.stack, under.value) else None;
        if window.Some? { FocusWindowKeeps(s, window.value.id, under); }
        RefreshPointerKeeps(ClickToFocus(s, under), under);
      }
      var clicked := if s.pointerGrab.Free? then RefreshPointerFocus(ClickToFocus(s, under), under) else s;
      UnlockedStays(s, under);
      ForwardPressKeeps(clicked, serial, under);
    }
  }

  lemma UnlockedStays(s: App, under: Option<Surface>)
    requires Invariant(s)
    ensures ClickToFocus(s, under).lock == s.lock && RefreshPointerFocus(s, under).lock == s.lock
  {
    if !s.lock.protected { DismissKeeps(s, under); }
  }

  lemma ButtonReleaseKeeps(s: App, last: bool, under: Option<Surface>)
    requires Invariant(s)
    ensures Invariant(ButtonReleaseStep(s, last, under))
  {
    UnsetPointerKeeps(s);
  }

  lemma MotionStepKeeps(s: App, towards: RealPoint, under: Option<Surface>)
    requires Invariant(s)
    ensures Invariant(MotionStep(s, towards, under))
  {
    var moved := s.(pointer := Clamp(s.layout, towards));
    if s.lock.protected {
      MotionKeeps(moved, LockSurfaceAt(s, moved.pointer));
    } else {
      UnsetPointerKeeps(moved);
      MotionKeeps(if moved.pointerGrab.Menu? && ChainIsOver(moved) then UnsetPointerGrab(moved) else moved, under);
    }
  }

  lemma TouchKeeps(s: App, serial: Serial, at: RealPoint, touched: Option<Surface>, under: Option<Surface>)
    requires Invariant(s)
    ensures Invariant(TouchDownStep(s, serial, at, touched, under))
  {
    var dismiss := !s.lock.protected && s.touch.None? && TouchDismisses(ChainOwner(s), ClientOf(s, touched));
    if dismiss { DismissKeeps(s, under); }
    var dismissed := if dismiss then DismissPopupGrab(s, under) else s;
    var target := if s.lock.protected then LockSurfaceAt(s, at) else touched;
    var started := if dismissed.touch.Some? then dismissed else dismissed.(touch := Some(target));
    RecordedKeeps(started, TouchDown, serial, ClientOf(started, started.touch.value));
  }

  lemma BeginGrabKeeps(s: App, id: nat, grab: PointerGrab)
    requires Invariant(s) && (grab.Moving? || grab.Resizing?)
    ensures Invariant(BeginGrabStep(s, id, grab))
  {
    if !s.lock.protected { EndMenuInTurn(s, grab); }
  }

  lemma StartDragKeeps(s: App, source: Option<Client>)
    requires Invariant(s)
    ensures Invariant(StartDragStep(s, source))
  {
    if !s.lock.protected { EndMenuInTurn(s, Drag(source)); }
  }

  lemma FinishDispatchKeeps(s: App)
    requires Invariant(s)
    ensures Invariant(FinishDispatchStep(s))
  {
    if s.pointerGrab.Drag? { UnsetDragKeeps(s); }
  }

  lemma UnsetDragKeeps(s: App)
    requires Invariant(s) && s.pointerGrab.Drag?
    ensures Invariant(UnsetPointerGrab(s.(cancelDrag := false)))
  {
  }

  // ---- Every step and every run -----------------------------------------------------------------

  /** The steps of the lock protocol. */
  predicate ConcernsTheLock(step: Step) {
    step.LockRequest? || step.UnlockRequest? || step.NewLockSurface? || step.ProtectedFrame? || step.SetLayout?
  }

  predicate ConcernsWindows(step: Step) {
    step.NewToplevel? || step.Commit? || step.MapX11? || step.RemoveWindow? || step.Die?
    || step.NewPopup? || step.GrabPopup? || step.Refresh?
  }

  lemma LockStepsKeepInvariant(s: App, step: Step)
    requires Invariant(s) && Enabled(s, step) && ConcernsTheLock(step)
    ensures Invariant(Next(s, step))
  {
    match step
    case LockRequest(sender) => LockKeeps(s, sender);
    case UnlockRequest(sender, under) => UnlockKeeps(s, sender, under);
    case NewLockSurface(surface, output) => NewLockSurfaceKeeps(s, surface, output);
    case ProtectedFrame(output) => PresentedKeeps(s, output);
    case SetLayout(layout, under) => SetLayoutKeeps(s, layout, under);
    case _ =>
  }

  lemma WindowStepsKeepInvariant(s: App, step: Step)
    requires Invariant(s) && Enabled(s, step) && ConcernsWindows(step)
    ensures Invariant(Next(s, step))
  {
    match step
    case NewToplevel(surface) => InsertedKeeps(s, surface, false, None, Rect(Point(0, 0), Size(0, 0)));
    case Commit(id, frame, under) => CommitKeeps(s, id, frame, under);
    case MapX11(surface, overrideRedirect, geometry, under) => MapX11Keeps(s, surface, overrideRedirect, geometry, under);
    case RemoveWindow(id, under) => RemoveWindowKeeps(s, id, under);
    case Die(surfaces) => DieKeeps(s, surfaces);
    case NewPopup(popup, root) => PopupsComeAndGo(s, popup, root);
    case GrabPopup(popup, onSeat, serial, accepts) => GrabPopupKeeps(s, popup, onSeat, serial, accepts);
    case Refresh(under) => RefreshKeeps(s, under);
    case _ =>
  }

  lemma InputStepsKeepInvariant(s: App, step: Step)
    requires Invariant(s) && Enabled(s, step) && !ConcernsTheLock(step) && !ConcernsWindows(step)
    ensures Invariant(Next(s, step))
  {
    match step
    case Key(pressed, serial, intercepted) => KeyKeeps(s, pressed, serial, intercepted);
    case ButtonPressed(serial, under) => ButtonPressKeeps(s, serial, under);
    case ButtonReleased(last, under) => ButtonReleaseKeeps(s, last, under);
    case Motion(towards, under) => MotionStepKeeps(s, towards, under);
    case TouchedDown(serial, at, touched, under) => TouchKeeps(s, serial, at, touched, under);
    case BeginMove(id) => BeginGrabKeeps(s, id, Moving);
    case BeginResize(id) => BeginGrabKeeps(s, id, Resizing);
    case StartDrag(source) => StartDragKeeps(s, source);
    case FinishDispatch => FinishDispatchKeeps(s);
    case _ =>
  }

  lemma StepKeepsInvariant(s: App, step: Step)
    requires Invariant(s) && Enabled(s, step)
    ensures Invariant(Next(s, step))
  {
    if ConcernsTheLock(step) {
      LockStepsKeepInvariant(s, step);
    } else if ConcernsWindows(step) {
      WindowStepsKeepInvariant(s, step);
    } else {
      InputStepsKeepInvariant(s, step);
    }
  }

  lemma {:induction false} ReachableStatesKeepInvariant(steps: seq<Step>)
    requires Legal(START, steps)
    ensures Invariant(Run(START, steps))
  {
    if steps != [] {
      var earlier := steps[..|steps| - 1];
      assert steps[..|steps| - 1] == earlier;
      forall n | 0 <= n < |earlier| ensures Enabled(Run(START, earlier[..n]), earlier[n]) {
        assert earlier[..n] == steps[..n] && earlier[n] == steps[n];
      }
      ReachableStatesKeepInvariant(earlier);
      StepKeepsInvariant(Run(START, earlier), steps[|steps| - 1]);
    }
  }
}
