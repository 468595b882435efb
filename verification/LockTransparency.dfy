/** A session lock is transparent to the windows: what they do while it is in
    force has the outcome it would have had without it. */
module LockTransparency {
  import opened Wrappers
  import opened Geometry
  import opened Objects
  import opened Outputs
  import opened Windows
  import opened SessionLock
  import opened Session
  import opened SessionInvariant
  import opened SessionSafety
  import opened MenuGrabs
  import opened FocusPolicy
  import opened Desks

  // ---- Sessions and desks ----------------------------------------------------------

  ghost predicate IsWindowFocus(focus: Option<Surface>) {
    focus.Some? ==> IsWindowRole(focus.value)
  }

  /** A session, locked or not, that shows this desk and has no popup grab. */
  ghost predicate Shows(s: App, desk: Desk) {
    && s.stack == desk.stack && s.nextId == desk.nextId && s.dead == desk.dead
    && s.layout == desk.layout && s.pointer == desk.pointer
    && PolicyFocus(s) == desk.focus && ParentOf(s, desk.focus) == desk.parent
    && s.popupGrab.None? && !s.keyboardGrab && !s.pointerGrab.Menu?
    && GoodStack(s.stack, s.nextId) && TracksLivePopups(s.popups, s.dead)
  }

  /** The window's surface that a focused popup belongs to. */
  function ParentOf(s: App, focus: Option<Surface>): Option<Surface> {
    if focus.Some? && focus.value in s.popups then Some(s.popups[focus.value]) else None
  }

  function DeskOf(s: App): Desk {
    Desk(s.stack, s.nextId, s.dead, s.layout, s.pointer, PolicyFocus(s), ParentOf(s, PolicyFocus(s)))
  }

  lemma ShownDesksAreSound(s: App, desk: Desk)
    requires Shows(s, desk)
    ensures Sound(desk)
  {
  }

  // ---- Every window event acts on the desk alone ------------------------------------

  lemma PolicyShows(s: App, desk: Desk, target: Option<Surface>)
    requires Shows(s, desk) && IsWindowFocus(target)
    ensures Shows(ApplyPolicyFocus(s, target), desk.WithFocus(target))
  {
  }

  lemma TopmostShows(s: App, desk: Desk)
    requires Shows(s, desk)
    ensures Shows(FocusTopmost(s), desk.FocusTopmost())
  {
    PolicyShows(s, desk, Target(TopmostFocusable(s.stack)));
  }

  lemma PointerShows(s: App, desk: Desk, under: Option<Surface>)
    requires Shows(s, desk)
    ensures Shows(RefreshPointerFocus(s, under), desk)
  {
  }

  lemma KeptKeyboardShows(s: App, desk: Desk)
    requires Shows(s, desk)
    ensures Shows(KeepKeyboardOnLockSurface(s), desk)
  {
  }

  lemma FocusShows(s: App, desk: Desk, id: nat, under: Option<Surface>)
    requires Shows(s, desk)
    ensures Shows(FocusWindow(s, id, under), desk.Focus(id))
  {
    var window := Get(s.stack, id);
    assert DismissPopupGrab(s, under) == s;
    if window.Some? && window.value.IsFocusable() {
      RaiseKeepsGood(s.stack, s.nextId, id);
      PolicyShows(s.(stack := Raise(s.stack, id)), desk.(stack := Raise(s.stack, id)), Target(window));
    }
  }

  lemma HoldingShows(s: App, desk: Desk, id: nat)
    requires Shows(s, desk)
    ensures HoldsFocus(s, id) <==> desk.Focused(id)
  {
  }

  lemma PlaceShows(s: App, desk: Desk, id: nat, geometry: Rect, under: Option<Surface>)
    requires Shows(s, desk)
    ensures Shows(PlaceToplevel(s, id, geometry, under), desk.Place(id, geometry))
  {
    var updated := Update(s.stack, id, Some(InitialLocation(geometry, s.layout, s.pointer)), true);
    RaiseKeepsGood(updated, s.nextId, id);
    var placed, shown := s.(stack := Raise(updated, id)), desk.(stack := Raise(updated, id));
    FocusShows(placed, shown, id, under);
    PointerShows(FocusWindow(placed, id, under), shown.Focus(id), under);
  }

  lemma UnplaceShows(s: App, desk: Desk, id: nat, under: Option<Surface>)
    requires Shows(s, desk)
    ensures Shows(UnplaceToplevel(s, id, under), desk.Unplace(id))
  {
    var updated := Update(s.stack, id, None, false);
    var unplaced, shown := s.(stack := updated), desk.(stack := updated);
    HoldingShows(s, desk, id);
    TopmostShows(unplaced, shown);
    PointerShows(if HoldsFocus(s, id) then FocusTopmost(unplaced) else unplaced, desk.Unplace(id), under);
  }

  lemma CommitShows(s: App, desk: Desk, id: nat, frame: Option<Rect>, under: Option<Surface>)
    requires Shows(s, desk)
    ensures Shows(CommitStep(s, id, frame, under), desk.Commit(id, frame))
  {
    var drawn := if frame.Some? then s.(stack := WithGeometry(s.stack, id, frame.value)) else s;
    var shown := desk.(stack := drawn.stack);
    assert Shows(drawn, shown);
    if frame.Some? { PlaceShows(drawn, shown, id, frame.value, under); }
    UnplaceShows(drawn, shown, id, under);
  }

  lemma InsertShows(s: App, desk: Desk, surface: Surface, overrideRedirect: bool, location: Option<Point>, geometry: Rect)
    requires Shows(s, desk) && IsWindowRole(surface) && FindRoot(s.stack, surface).None?
    ensures Shows(Inserted(s, surface, overrideRedirect, location, geometry), desk.Insert(surface, overrideRedirect, location, geometry))
  {
  }

  lemma MapX11Shows(s: App, desk: Desk, surface: Surface, overrideRedirect: bool, geometry: Rect, under: Option<Surface>)
    requires Shows(s, desk) && surface.role == X11Role
    ensures Shows(MapX11Step(s, surface, overrideRedirect, geometry, under), desk.MapX11(surface, overrideRedirect, geometry))
  {
    if FindRoot(s.stack, surface).None? {
      var frame := Rect(Point(0, 0), geometry.size);
      var location := if overrideRedirect then geometry.loc else InitialLocation(frame, s.layout, s.pointer);
      InsertShows(s, desk, surface, overrideRedirect, Some(location), frame);
      var inserted := Inserted(s, surface, overrideRedirect, Some(location), frame);
      var shown := desk.Insert(surface, overrideRedirect, Some(location), frame);
      if overrideRedirect {
        PointerShows(inserted, shown, under);
      } else {
        FocusShows(inserted, shown, s.nextId, under);
        PointerShows(FocusWindow(inserted, s.nextId, under), shown.Focus(s.nextId), under);
      }
    }
  }

  lemma RemoveShows(s: App, desk: Desk, id: nat, under: Option<Surface>)
    requires Shows(s, desk)
    ensures Shows(RemoveWindowStep(s, id, under), desk.RemoveWindow(id))
  {
    RemoveKeepsGood(s.stack, s.nextId, id);
    HoldingShows(s, desk, id);
    if IndexOf(s.stack, id).Some? {
      var removed, shown := s.(stack := Remove(s.stack, id)), desk.(stack := Remove(s.stack, id));
      TopmostShows(removed, shown);
      PointerShows(if HoldsFocus(s, id) then FocusTopmost(removed) else removed, desk.RemoveWindow(id), under);
    }
  }

  lemma SetLayoutShows(s: App, desk: Desk, layout: Layout, under: Option<Surface>)
    requires Shows(s, desk)
    ensures Shows(SetLayoutStep(s, layout, under), desk.Next(SetLayout(layout, under)))
  {
    var reconciled := s.(lock := ReconcileOutputs(s.lock, Outputs.Names(layout), s.dead), layout := layout);
    KeptKeyboardShows(reconciled, desk.(layout := layout));
    var arranged := AllReachable(s.stack, layout, s.pointer, s.dead);
    PointerShows(KeepKeyboardOnLockSurface(reconciled).(stack := arranged), desk.(layout := layout, stack := arranged), under);
  }

  lemma RefreshShows(s: App, desk: Desk, under: Option<Surface>)
    requires Shows(s, desk)
    ensures Shows(RefreshStep(s, under), desk.Reaped())
  {
    ReapKeepsGood(s.stack, s.nextId, s.dead);
    var reaped, shown := s.(stack := Reap(s.stack, s.dead)), desk.(stack := Reap(s.stack, s.dead));
    TopmostShows(reaped, shown);
    var focusDied := desk.focus.Some? && desk.focus.value in s.dead;
    var refocused := if focusDied then FocusTopmost(reaped) else reaped;
    KeptKeyboardShows(refocused, desk.Reaped());
    PointerShows(KeepKeyboardOnLockSurface(refocused), desk.Reaped(), under);
  }

  lemma MotionShows(s: App, desk: Desk, towards: RealPoint, under: Option<Surface>)
    requires Shows(s, desk)
    ensures Shows(MotionStep(s, towards, under), desk.Next(Motion(towards, under)))
  {
  }

  /** Locked or not, a window event does to the desk what it does without any
      lock. */
  lemma WindowEventsActOnTheDesk(s: App, desk: Desk, step: Step)
    requires Shows(s, desk) && Enabled(s, step) && IsWindowEvent(step)
    ensures Shows(Next(s, step), desk.Next(step))
  {
    match step
    case NewToplevel(surface) => InsertShows(s, desk, surface, false, None, Rect(Point(0, 0), Size(0, 0)));
    case Commit(id, frame, under) => CommitShows(s, desk, id, frame, under);
    case MapX11(surface, overrideRedirect, geometry, under) => MapX11Shows(s, desk, surface, overrideRedirect, geometry, under);
    case RemoveWindow(id, under) => RemoveShows(s, desk, id, under);
    case Die(surfaces) =>
    case SetLayout(layout, under) => SetLayoutShows(s, desk, layout, under);
    case NewPopup(popup, root) =>
    case Motion(towards, under) => MotionShows(s, desk, towards, under);
    case Refresh(under) => RefreshShows(s, desk, under);
  }

  // ---- Nothing else under a lock touches the desk --------------------------------------

  lemma RefusedGrabsShow(s: App, desk: Desk, popup: Surface, onSeat: bool, serial: Serial, accepts: bool)
    requires Shows(s, desk) && s.lock.protected && PolicyFocus(s) != Some(popup)
    ensures Shows(GrabPopupStep(s, popup, onSeat, serial, accepts), desk)
  {
  }

  lemma PressesShow(s: App, desk: Desk, serial: Serial, under: Option<Surface>)
    requires Shows(s, desk) && s.lock.protected
    ensures Shows(ButtonPressStep(s, serial, under), desk)
  {
    var clicked := FocusClickedLockSurface(s);
    assert Shows(clicked, desk);
  }

  lemma GrabsShow(s: App, desk: Desk, id: nat, source: Option<Client>, last: bool, under: Option<Surface>)
    requires Shows(s, desk) && s.lock.protected
    ensures Shows(StartDragStep(s, source), desk) && Shows(FinishDispatchStep(s), desk)
    ensures Shows(ButtonReleaseStep(s, last, under), desk)
  {
  }

  lemma LockRequestsShow(s: App, desk: Desk, step: Step)
    requires Shows(s, desk) && s.lock.protected && ConcernsTheLock(step) && !step.SetLayout? && !EndsTheLock(s, step)
    ensures Shows(Next(s, step), desk)
  {
    if step.NewLockSurface? && IsLocker(s.lock, step.surface.client) && step.output in Outputs.Names(s.layout) {
      KeptKeyboardShows(
        s.(lock := s.lock.(surfaces := s.lock.surfaces[step.output := step.surface]),
           accepted := s.accepted + {(s.lock.inForce.value, step.surface)}), desk);
    }
  }

  /** The surface to restore asks for a popup grab, which a lock refuses by
      dismissing it. */
  predicate DismissesTheFocus(s: App, step: Step) {
    step.GrabPopup? && PolicyFocus(s) == Some(step.popup)
  }

  /** Input, lock surfaces, refused locks and refused grabs under a lock leave
      the desk as it is. */
  lemma LockedStepsLeaveTheDesk(s: App, desk: Desk, step: Step)
    requires Shows(s, desk) && s.lock.protected && !IsWindowEvent(step) && !EndsTheLock(s, step) && !DismissesTheFocus(s, step)
    ensures Shows(Next(s, step), desk)
  {
    if ConcernsTheLock(step) {
      LockRequestsShow(s, desk, step);
    } else {
      match step
      case GrabPopup(popup, onSeat, serial, accepts) => RefusedGrabsShow(s, desk, popup, onSeat, serial, accepts);
      case ButtonPressed(serial, under) => PressesShow(s, desk, serial, under);
      case ButtonReleased(last, under) => GrabsShow(s, desk, 0, None, last, under);
      case StartDrag(source) => GrabsShow(s, desk, 0, source, false, None);
      case FinishDispatch => GrabsShow(s, desk, 0, None, false, None);
      case _ =>
    }
  }

  // ---- Two runs ------------------------------------------------------------------------

  /** The window events among the steps of a locked run. */
  function WindowEvents(steps: seq<Step>): (r: seq<Step>)
    ensures forall step <- r :: IsWindowEvent(step)
  {
    if steps == [] then []
    else WindowEvents(steps[..|steps| - 1]) + if IsWindowEvent(steps[|steps| - 1]) then [steps[|steps| - 1]] else []
  }

  /** A popup of a window in the store: its window, not the popup, gets the
      focus back after a lock. */
  predicate IsPopupOfAWindow(s: App, focus: Option<Surface>) {
    focus.Some? && focus.value in s.popups && FindRoot(s.stack, s.popups[focus.value]).Some?
  }

  /** What a lock remembers serves as well as what dismissing an open menu would
      leave. Under a menu that holds the keyboard, its root window can take the
      focus, or the focus's owner has died or is what the fallback finds; without
      one, the focus is no popup of a window. */
  predicate LockKeepsTheFocus(s: App) {
    if s.keyboardGrab && s.popupGrab.Some? then
      || PopupRootTarget(s, s.popupGrab.value).Some?
      || RememberedOwner(s) == Fallback(s.stack, s.dead)
      || (RememberedOwner(s).Some? && RememberedOwner(s).value in s.dead)
    else !IsPopupOfAWindow(s, s.keyboardFocus)
  }

  /** The focus a lock remembers is the very one that dismissing the menu gives
      exactly if the root window can take it, or its owner is the topmost window
      that may be focused, even one that has died. */
  lemma RememberedIsDismissedExactly(s: App, sender: LockObject, under: Option<Surface>)
    requires Invariant(s) && MenuShape(s) && !s.lock.protected && s.keyboardGrab
    ensures var owner := Owner(s, s.stack, s.keyboardFocus.value);
      LockSession(s, sender).focusBeforeLock == DismissPopupGrab(s, under).keyboardFocus
      <==> PopupRootTarget(s, s.popupGrab.value).Some? || (owner.Some? && owner == TopmostFocusable(s.stack))
  {
    LockRemembers(s, sender);
    DismissalGivesBackFocus(s, under);
    var owner, top := Owner(s, s.stack, s.keyboardFocus.value), TopmostFocusable(s.stack);
    if top.Some? { WindowsAreFoundByRoot(s.stack, s.nextId, top.value); }
    if owner.Some? { WindowsAreFoundByRoot(s.stack, s.nextId, owner.value); }
  }

  /** With no popup grab, a lock keeps the focus exactly unless a window's popup
      has it. */
  lemma LockKeepsTheFocusUnlessAPopupHasIt(s: App, sender: LockObject)
    requires Invariant(s) && !s.lock.protected && s.popupGrab.None?
    ensures PolicyFocus(LockSession(s, sender)) == PolicyFocus(s) <==> !IsPopupOfAWindow(s, s.keyboardFocus)
  {
    LockRemembers(s, sender);
    if s.keyboardFocus.Some? { OwnersOfFocus(s, s.keyboardFocus.value); }
  }

  lemma DismissalGivesBackFocus(s: App, under: Option<Surface>)
    requires Invariant(s) && MenuShape(s) && !s.lock.protected
    ensures var t := DismissPopupGrab(s, under);
      && KeepsWindows(s, t) && Invariant(t) && t.popupGrab.None? && !t.keyboardGrab
      && t.popups == (if s.popupGrab.Some? then Untrack(s.popups, s.popupGrab.value.popups) else s.popups)
      && t.keyboardFocus == if !s.keyboardGrab then s.keyboardFocus
                            else if PopupRootTarget(s, s.popupGrab.value).Some? then PopupRootTarget(s, s.popupGrab.value)
                            else Target(TopmostFocusable(s.stack))
  {
    DismissKeeps(s, under);
    if s.popupGrab.Some? {
      var taken := s.(popupGrab := None, popups := Untrack(s.popups, s.popupGrab.value.popups));
      ReleaseReturnsFocus(taken, s.popupGrab.value, under);
      ReleaseKeepsPopups(taken, s.popupGrab.value, under);
    }
  }

  lemma ReleaseKeepsPopups(s: App, chain: Chain, under: Option<Surface>)
    ensures ReleasePopupGrab(s, chain, under).popups == s.popups
  {
  }

  lemma LockKeepsPopups(s: App, sender: LockObject)
    requires !s.lock.protected
    ensures var t := LockSession(s, sender);
      && t.popups.Keys <= s.popups.Keys && (s.popupGrab.None? ==> t.popups == s.popups)
      && t.nextId == s.nextId && t.layout == s.layout && t.pointer == s.pointer
  {
    ProtectInputSealsInput(s.(lock := Begin(s.lock, sender)));
  }

  /** The session as a lock finds it, and with its menu dismissed instead. */
  lemma LockShowsADesk(s: App, sender: LockObject, under: Option<Surface>)
    requires Invariant(s) && MenuShape(s) && !s.lock.protected && Enabled(s, Step.LockRequest(sender))
    ensures Invariant(LockSession(s, sender)) && LockSession(s, sender).lock.protected
    ensures Shows(LockSession(s, sender), DeskOf(LockSession(s, sender)))
    ensures Shows(DismissPopupGrab(s, under), DeskOf(DismissPopupGrab(s, under)))
  {
    LockKeeps(s, sender);
    LockRemembers(s, sender);
    DismissalGivesBackFocus(s, under);
  }

  lemma MenusKeepDesksAlikeExactly(s: App, a: Desk, b: Desk)
    requires Invariant(s) && MenuShape(s) && !s.lock.protected && s.keyboardGrab
    requires Desks.SameButFocus(a, b) && a.stack == s.stack && a.nextId == s.nextId && a.dead == s.dead
    requires a.parent.Some? ==> a.focus.Some? && a.focus.value in s.popups
    requires b.parent.Some? ==> b.focus.Some? && b.focus.value in s.popups
    requires var root := PopupRootTarget(s, s.popupGrab.value);
      && a.focus == (if root.Some? then root else RememberedOwner(s))
      && b.focus == (if root.Some? then root else Target(TopmostFocusable(s.stack)))
    ensures Alike(a, b) <==> LockKeepsTheFocus(s)
  {
    FallbackIsAWindow(a);
    if PopupRootTarget(s, s.popupGrab.value).None? {
      var top := TopmostFocusable(s.stack);
      assert top.Some? ==> IsWindowRole(top.value.surface);
      assert b == b.FocusTopmost();
      TopmostFallsBack(b);
      assert a == b ==> FallsBack(a);
      assert Alike(a, b) <==> FallsBack(a);
    }
  }

  lemma PlainFocusKeepsDesksAlikeExactly(s: App, a: Desk, b: Desk)
    requires Invariant(s) && MenuShape(s) && !s.lock.protected && !s.keyboardGrab
    requires Desks.SameButFocus(a, b) && a.stack == s.stack && a.nextId == s.nextId && a.dead == s.dead
    requires a.focus == RememberedOwner(s) && b.focus == s.keyboardFocus
    requires a.parent.Some? ==> a.focus.Some? && a.focus.value in s.popups
    requires b.parent.Some? ==> b.focus.Some? && b.focus.value in s.popups
    requires s.popupGrab.None? ==> a.parent == ParentOf(s, a.focus) && b.parent == ParentOf(s, b.focus)
    ensures Alike(a, b) <==> LockKeepsTheFocus(s)
  {
    if s.keyboardFocus.Some? { OwnersOfFocus(s, s.keyboardFocus.value); }
  }

  /** The locked and the open session show alike desks exactly if the lock keeps
      the focus. */
  lemma LockShowsAlikeDesksExactly(s: App, sender: LockObject, under: Option<Surface>)
    requires Invariant(s) && MenuShape(s) && !s.lock.protected
    ensures Alike(DeskOf(LockSession(s, sender)), DeskOf(DismissPopupGrab(s, under))) <==> LockKeepsTheFocus(s)
  {
    LockRemembers(s, sender);
    LockKeepsPopups(s, sender);
    DismissalGivesBackFocus(s, under);
    var a, b := DeskOf(LockSession(s, sender)), DeskOf(DismissPopupGrab(s, under));
    if s.keyboardGrab {
      MenusKeepDesksAlikeExactly(s, a, b);
    } else {
      PlainFocusKeepsDesksAlikeExactly(s, a, b);
    }
  }

  /** The confirmed unlock and the next refresh leave the desk a refresh would
      leave without the lock, now with its focus live. */
  lemma UnlockShowsTheDesk(s: App, desk: Desk, sender: LockObject, under: Option<Surface>, refreshUnder: Option<Surface>)
    requires Shows(s, desk) && s.lock.protected && EndsTheLock(s, Step.UnlockRequest(sender, under))
    ensures var t := RefreshStep(UnlockSession(s, sender, under), refreshUnder);
      !t.lock.protected && Shows(t, desk.Reaped())
  {
    var restored := RestoreFocusAfterUnlock(s.(lock := End(s.lock)));
    var shown := if desk.focus.Some? && desk.focus.value in s.dead then desk.FocusTopmost() else desk;
    RestoredFocusIsLive(s, desk);
    PointerShows(restored, shown, under);
    TopmostOfReaped(desk.stack, desk.dead);
    RefreshShows(RefreshPointerFocus(restored, under), shown, refreshUnder);
    assert shown.Reaped() == desk.Reaped();
  }

  lemma RestoredFocusIsLive(s: App, desk: Desk)
    requires Shows(s, desk) && s.lock.protected
    ensures var t := RestoreFocusAfterUnlock(s.(lock := End(s.lock)));
      && !t.lock.protected
      && Shows(t, if desk.focus.Some? && desk.focus.value in s.dead then desk.FocusTopmost() else desk)
  {
  }

  /** A run in which the lock stays in force. */
  ghost predicate StaysLocked(s: App, steps: seq<Step>) {
    forall n :: 0 <= n < |steps| ==> !EndsTheLock(Run(s, steps[..n]), steps[n])
  }

  /** A run in which the focus to restore asks for no popup grab. A window never
      does; a popup does that holds the focus alone. */
  ghost predicate KeepsItsFocus(s: App, steps: seq<Step>) {
    forall n :: 0 <= n < |steps| ==> !DismissesTheFocus(Run(s, steps[..n]), steps[n])
  }

  lemma QuietPrefix(s: App, steps: seq<Step>)
    requires steps != [] && StaysLocked(s, steps) && KeepsItsFocus(s, steps)
    ensures StaysLocked(s, steps[..|steps| - 1]) && KeepsItsFocus(s, steps[..|steps| - 1])
    ensures var before := Run(s, steps[..|steps| - 1]);
      !EndsTheLock(before, steps[|steps| - 1]) && !DismissesTheFocus(before, steps[|steps| - 1])
  {
    var earlier := steps[..|steps| - 1];
    forall n | 0 <= n < |earlier|
      ensures !EndsTheLock(Run(s, earlier[..n]), earlier[n]) && !DismissesTheFocus(Run(s, earlier[..n]), earlier[n])
    {
      assert earlier[..n] == steps[..n];
    }
  }

  /** What a locked session and an open one show at the same point of a run. */
  ghost predicate ShowAlike(l: App, u: App, a: Desk, b: Desk) {
    Invariant(l) && l.lock.protected && !u.lock.protected && Shows(l, a) && Shows(u, b) && Alike(a, b)
  }

  lemma {:induction false} LockedRunShowsAlikeDesks(l: App, u: App, a: Desk, b: Desk, steps: seq<Step>)
    requires ShowAlike(l, u, a, b)
    requires Legal(l, steps) && StaysLocked(l, steps) && KeepsItsFocus(l, steps)
    ensures var events := WindowEvents(steps);
      ShowAlike(Run(l, steps), Run(u, events), RunDesk(a, events), RunDesk(b, events))
  {
    if steps != [] {
      var earlier, last := steps[..|steps| - 1], steps[|steps| - 1];
      LegalPrefix(l, steps);
      QuietPrefix(l, steps);
      LockedRunShowsAlikeDesks(l, u, a, b, earlier);
      var events := WindowEvents(earlier);
      EventsOfTheLast(steps);
      LockedStepShowsAlikeDesks(Run(l, earlier), Run(u, events), RunDesk(a, events), RunDesk(b, events), last);
    }
  }

  lemma EventsOfTheLast(steps: seq<Step>)
    requires steps != []
    ensures var events, earlier := WindowEvents(steps), WindowEvents(steps[..|steps| - 1]);
      if IsWindowEvent(steps[|steps| - 1])
      then events != [] && events[..|events| - 1] == earlier && events[|events| - 1] == steps[|steps| - 1]
      else events == earlier
  {
  }

  lemma LockedStepShowsAlikeDesks(l: App, u: App, a: Desk, b: Desk, step: Step)
    requires ShowAlike(l, u, a, b) && Enabled(l, step) && !EndsTheLock(l, step) && !DismissesTheFocus(l, step)
    ensures if IsWindowEvent(step) then ShowAlike(Next(l, step), Next(u, step), a.Next(step), b.Next(step))
            else ShowAlike(Next(l, step), u, a, b)
  {
    OnlyItsUnlockEndsTheLock(l, step);
    StepKeepsInvariant(l, step);
    if IsWindowEvent(step) {
      WindowEventsActOnTheDesk(l, a, step);
      assert Enabled(u, step);
      WindowEventsActOnTheDesk(u, b, step);
      WindowEventsNeverLock(u, step);
      ShownDesksAreSound(l, a);
      ShownDesksAreSound(u, b);
      EventsKeepDesksAlike(a, b, step);
    } else {
      LockedStepsLeaveTheDesk(l, a, step);
    }
  }

  lemma WindowEventsNeverLock(s: App, step: Step)
    requires !s.lock.protected && IsWindowEvent(step)
    ensures !Next(s, step).lock.protected
  {
    if !step.SetLayout? { OtherStepsKeepTheLock(s, step); }
  }

  /** A run under the lock, up to the point where it may be unlocked. */
  ghost predicate IsLockedRun(s: App, sender: LockObject, steps: seq<Step>) {
    var l := LockSession(s, sender);
    && Legal(l, steps) && StaysLocked(l, steps) && KeepsItsFocus(l, steps)
    && EndsTheLock(Run(l, steps), Step.UnlockRequest(sender, None))
  }

  /** Unlocked and refreshed, the session is as if it had only seen the window
      events of the run, an open menu apart, which the lock dismisses: the same
      stacking, windows' places and keyboard focus. */
  ghost predicate EndsAsIfUnlocked(s: App, sender: LockObject, steps: seq<Step>, under: Option<Surface>, refreshUnder: Option<Surface>) {
    var locked := RefreshStep(UnlockSession(Run(LockSession(s, sender), steps), sender, under), refreshUnder);
    var open := RefreshStep(Run(DismissPopupGrab(s, under), WindowEvents(steps)), refreshUnder);
    && !locked.lock.protected
    && locked.stack == open.stack && locked.nextId == open.nextId
    && locked.keyboardFocus == open.keyboardFocus
    && locked.layout == open.layout && locked.pointer == open.pointer
  }

  /** Lock the session, let anything happen, unlock and refresh: it ends as if it
      had not been locked. */
  lemma LockIsTransparent(
    s: App, sender: LockObject, steps: seq<Step>, under: Option<Surface>, refreshUnder: Option<Surface>)
    requires Invariant(s) && MenuShape(s) && !s.lock.protected && Enabled(s, Step.LockRequest(sender))
    requires LockKeepsTheFocus(s) && IsLockedRun(s, sender, steps)
    ensures EndsAsIfUnlocked(s, sender, steps, under, refreshUnder)
  {
    var l, u := LockSession(s, sender), DismissPopupGrab(s, under);
    LockShowsADesk(s, sender, under);
    LockShowsAlikeDesksExactly(s, sender, under);
    DismissalGivesBackFocus(s, under);
    LockedRunShowsAlikeDesks(l, u, DeskOf(l), DeskOf(u), steps);
    var events := WindowEvents(steps);
    LockEndsAlike(Run(l, steps), Run(u, events), RunDesk(DeskOf(l), events), RunDesk(DeskOf(u), events), sender, under, refreshUnder);
  }

  lemma LockEndsAlike(
    l: App, u: App, a: Desk, b: Desk, sender: LockObject, under: Option<Surface>, refreshUnder: Option<Surface>)
    requires ShowAlike(l, u, a, b) && EndsTheLock(l, Step.UnlockRequest(sender, under))
    ensures var locked, open := RefreshStep(UnlockSession(l, sender, under), refreshUnder), RefreshStep(u, refreshUnder);
      && !locked.lock.protected
      && locked.stack == open.stack && locked.nextId == open.nextId
      && locked.keyboardFocus == open.keyboardFocus
      && locked.layout == open.layout && locked.pointer == open.pointer
  {
    UnlockShowsTheDesk(l, a, sender, under, refreshUnder);
    RefreshShows(u, b, refreshUnder);
    AlikeDesksRefreshToOne(a, b);
  }

  // ---- And not otherwise -----------------------------------------------------------------

  /** Every output of the layout presents a protected frame. */
  function Presentations(layout: Layout): seq<Step> {
    if layout == [] then [] else Presentations(layout[..|layout| - 1]) + [ProtectedFrame(layout[|layout| - 1].name)]
  }

  function PresentAll(lock: Lock, layout: Layout): Lock {
    if layout == [] then lock else NotePresented(PresentAll(lock, layout[..|layout| - 1]), layout[|layout| - 1].name)
  }

  /** A lock is confirmed once all outputs have presented a protected frame. */
  lemma {:induction false} AllPresentedConfirms(lock: Lock, layout: Layout)
    requires LockInvariant(lock) && lock.protected && Outputs.Names(layout) <= lock.connected
    requires lock.connected <= lock.presented ==> lock.confirmed
    ensures var t := PresentAll(lock, layout);
      && LockInvariant(t) && t.protected && t.inForce == lock.inForce && t.connected == lock.connected
      && Outputs.Names(layout) <= t.presented
      && (t.connected <= t.presented ==> t.confirmed)
  {
    if layout != [] {
      var earlier, last := layout[..|layout| - 1], layout[|layout| - 1];
      assert layout == earlier + [last];
      assert Outputs.Names(layout) == Outputs.Names(earlier) + {last.name};
      AllPresentedConfirms(lock, earlier);
      LockStepKeepsInvariant(PresentAll(lock, earlier), Presented(last.name));
    }
  }

  /** Presenting frames changes nothing but the lock. */
  lemma {:induction false} PresentationsRun(l: App, layout: Layout)
    ensures Run(l, Presentations(layout)) == l.(lock := PresentAll(l.lock, layout))
    ensures forall n :: 0 <= n < |Presentations(layout)| ==> Presentations(layout)[n].ProtectedFrame?
  {
    if layout != [] {
      var earlier := layout[..|layout| - 1];
      PresentationsRun(l, earlier);
      assert Presentations(layout)[..|Presentations(layout)| - 1] == Presentations(earlier);
    }
  }

  lemma PresentationsAreLegal(l: App, steps: seq<Step>)
    requires forall n :: 0 <= n < |steps| ==> steps[n].ProtectedFrame?
    ensures Legal(l, steps) && StaysLocked(l, steps) && KeepsItsFocus(l, steps) && WindowEvents(steps) == []
  {
    if steps != [] {
      PresentationsAreLegal(l, steps[..|steps| - 1]);
      assert steps[|steps| - 1].ProtectedFrame?;
    }
  }

  /** The shortest run under a lock: its outputs present, nothing else happens. */
  lemma ShortestRunIsALockedRun(s: App, sender: LockObject, desk: Desk, under: Option<Surface>)
    requires Invariant(s) && !s.lock.protected && Enabled(s, Step.LockRequest(sender)) && Shows(LockSession(s, sender), desk)
    ensures IsLockedRun(s, sender, Presentations(s.layout)) && WindowEvents(Presentations(s.layout)) == []
    ensures var t := Run(LockSession(s, sender), Presentations(s.layout));
      t.lock.protected && Shows(t, desk) && EndsTheLock(t, Step.UnlockRequest(sender, under))
  {
    var l := LockSession(s, sender);
    LockKeeps(s, sender);
    LockKeepsPopups(s, sender);
    LockTakesForce(s, sender);
    AllPresentedConfirms(l.lock, s.layout);
    PresentationsRun(l, s.layout);
    PresentationsAreLegal(l, Presentations(s.layout));
  }

  lemma LockTakesForce(s: App, sender: LockObject)
    requires !s.lock.protected
    ensures var lock := LockSession(s, sender).lock;
      lock.protected && lock.inForce == Some(sender) && lock.connected == s.lock.connected
      && (lock.connected <= lock.presented ==> lock.confirmed)
  {
    ProtectInputSealsInput(s.(lock := Begin(s.lock, sender)));
  }

  /** Desks that a lock does not keep alike have different focus after a refresh. */
  lemma UnlikeDesksRefreshApart(s: App, a: Desk, b: Desk)
    requires Invariant(s) && MenuShape(s) && !s.lock.protected && !LockKeepsTheFocus(s)
    requires Desks.SameButFocus(a, b) && a.stack == s.stack && a.nextId == s.nextId && a.dead == s.dead
    requires if s.keyboardGrab
             then a.focus == RememberedOwner(s) && b.focus == Target(TopmostFocusable(s.stack))
             else a.focus == RememberedOwner(s) && b.focus == s.keyboardFocus
    ensures a.Reaped().focus != b.Reaped().focus
  {
    TopmostOfReaped(s.stack, s.dead);
    if s.keyboardFocus.Some? { OwnersOfFocus(s, s.keyboardFocus.value); }
    FallbackIsAWindow(a);
    if !s.keyboardGrab {
      var owner := Owner(s, s.stack, s.keyboardFocus.value);
      assert owner.Some? && IsWindowRole(owner.value.surface);
    }
  }

  /** Where the lock does not keep the focus, already the shortest run under it
      ends with another focus than if the session had not been locked. */
  lemma LockIsNotTransparent(s: App, sender: LockObject, under: Option<Surface>, refreshUnder: Option<Surface>)
    requires Invariant(s) && MenuShape(s) && !s.lock.protected && Enabled(s, Step.LockRequest(sender))
    requires !LockKeepsTheFocus(s)
    ensures IsLockedRun(s, sender, Presentations(s.layout))
    ensures !EndsAsIfUnlocked(s, sender, Presentations(s.layout), under, refreshUnder)
  {
    var l, u := LockSession(s, sender), DismissPopupGrab(s, under);
    var a, b := DeskOf(l), DeskOf(u);
    LockShowsADesk(s, sender, under);
    ShortestRunIsALockedRun(s, sender, a, under);
    LockRemembers(s, sender);
    LockKeepsPopups(s, sender);
    DismissalGivesBackFocus(s, under);
    UnlikeDesksRefreshApart(s, a, b);
    assert Run(u, WindowEvents(Presentations(s.layout))) == u;
    LocksEndApart(Run(l, Presentations(s.layout)), u, a, b, sender, under, refreshUnder);
  }

  lemma LocksEndApart(
    l: App, u: App, a: Desk, b: Desk, sender: LockObject, under: Option<Surface>, refreshUnder: Option<Surface>)
    requires l.lock.protected && !u.lock.protected && Shows(l, a) && Shows(u, b)
    requires EndsTheLock(l, Step.UnlockRequest(sender, under)) && a.Reaped().focus != b.Reaped().focus
    ensures RefreshStep(UnlockSession(l, sender, under), refreshUnder).keyboardFocus != RefreshStep(u, refreshUnder).keyboardFocus
  {
    UnlockShowsTheDesk(l, a, sender, under, refreshUnder);
    RefreshShows(u, b, refreshUnder);
  }

  /** A lock is transparent exactly if it keeps the focus. */
  lemma LockIsTransparentExactlyIfItKeepsTheFocus(s: App, sender: LockObject)
    requires Invariant(s) && MenuShape(s) && !s.lock.protected && Enabled(s, Step.LockRequest(sender))
    ensures LockKeepsTheFocus(s) <==>
              forall steps, under, refreshUnder :: IsLockedRun(s, sender, steps) ==> EndsAsIfUnlocked(s, sender, steps, under, refreshUnder)
  {
    if LockKeepsTheFocus(s) {
      forall steps, under, refreshUnder | IsLockedRun(s, sender, steps)
        ensures EndsAsIfUnlocked(s, sender, steps, under, refreshUnder)
      {
        LockIsTransparent(s, sender, steps, under, refreshUnder);
      }
    } else {
      LockIsNotTransparent(s, sender, None, None);
    }
  }

  // ---- A popup that holds the focus alone ----------------------------------------------------

  /** Why such a popup must ask for no grab under the lock: the lock refuses the
      grab by dismissing it, and a new window of its root's that comes and goes
      then no longer takes the focus from it, as it would have. */
  lemma ARefusedGrabCanKeepTheFocus(s: App, sender: LockObject, popup: Surface, serial: Serial)
    requires Invariant(s) && !s.lock.protected && s.popupGrab.None? && Enabled(s, Step.LockRequest(sender))
    requires s.keyboardFocus == Some(popup) && popup in s.popups && FindRoot(s.stack, s.popups[popup]).None?
    ensures var root, l := s.popups[popup], LockSession(s, sender);
      && LockKeepsTheFocus(s)
      && RemoveWindowStep(GrabPopupStep(Next(l, NewToplevel(root)), popup, true, serial, true), s.nextId, None).focusBeforeLock == Some(popup)
      && RemoveWindowStep(Next(s, NewToplevel(root)), s.nextId, None).keyboardFocus == Target(TopmostFocusable(s.stack))
  {
    var root, l := s.popups[popup], LockSession(s, sender);
    LockRemembers(s, sender);
    LockKeepsPopups(s, sender);
    OwnersOfFocus(s, popup);
    LockKeeps(s, sender);
    RefusedPopupsOwnNothing(l, popup, serial);
    NewWindowIsFound(s, root);
    RemovalFallsBack(Next(s, NewToplevel(root)), s.nextId);
  }

  lemma RefusedPopupsOwnNothing(l: App, popup: Surface, serial: Serial)
    requires Invariant(l) && l.lock.protected && l.focusBeforeLock == Some(popup) && popup in l.popups
    ensures RemoveWindowStep(GrabPopupStep(Next(l, NewToplevel(l.popups[popup])), popup, true, serial, true), l.nextId, None).focusBeforeLock
         == Some(popup)
  {
    var mapped := Next(l, NewToplevel(l.popups[popup]));
    var refused := mapped.(popups := Untrack(l.popups, [popup]));
    assert GrabPopupStep(mapped, popup, true, serial, true) == refused;
    NewWindowIsFound(l, l.popups[popup]);
    assert Get(refused.stack, l.nextId).value.surface == l.popups[popup];
    assert popup != l.popups[popup] && popup !in refused.popups;
    RemovalIsSilent(refused, l.nextId);
  }

  lemma RemovalIsSilent(s: App, id: nat)
    requires s.lock.protected && !HoldsFocus(s, id)
    ensures RemoveWindowStep(s, id, None).focusBeforeLock == s.focusBeforeLock
  {
  }

  lemma RemovalFallsBack(s: App, id: nat)
    requires !s.lock.protected && !s.keyboardGrab && HoldsFocus(s, id)
    ensures RemoveWindowStep(s, id, None).keyboardFocus == Target(TopmostFocusable(Remove(s.stack, id)))
  {
  }

  lemma NewWindowIsFound(s: App, surface: Surface)
    requires GoodStack(s.stack, s.nextId)
    ensures var t := Next(s, NewToplevel(surface));
      && t.nextId == s.nextId + 1 && Get(t.stack, s.nextId).Some? && Get(t.stack, s.nextId).value.surface == surface
      && Remove(t.stack, s.nextId) == s.stack
  {
    var t := Next(s, NewToplevel(surface));
    assert t.stack[|s.stack|].id == s.nextId;
    assert IndexOf(t.stack, s.nextId) == Some(|s.stack|);
    assert t.stack[..|s.stack|] + t.stack[|s.stack| + 1..] == s.stack;
  }
}
