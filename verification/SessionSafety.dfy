/** What clients may rely on over whole runs: the lock fails closed, popup grabs
    are granted for real user actions only, and every refresh settles them. */
module SessionSafety {
  import opened Wrappers
  import opened Geometry
  import opened Objects
  import opened Outputs
  import opened Windows
  import opened SessionLock
  import opened UserActions
  import opened Session
  import opened SessionInvariant

  // ---- The lock fails closed -----------------------------------------------------

  /** The request that may end the lock. */
  predicate EndsTheLock(s: App, step: Step) {
    step.UnlockRequest? && s.lock.confirmed && s.lock.inForce == Some(step.sender)
  }

  lemma OtherStepsKeepTheLock(s: App, step: Step)
    requires !ConcernsTheLock(step)
    ensures Next(s, step).lock == s.lock && Next(s, step).accepted == s.accepted
  {
  }

  /** Nothing but `unlock_and_destroy` on the confirmed lock in force ends or
      replaces a lock: not the locker's death, another lock object, a window,
      a change of outputs or any input. */
  lemma OnlyItsUnlockEndsTheLock(s: App, step: Step)
    requires Invariant(s) && s.lock.protected
    ensures !Next(s, step).lock.protected <==> EndsTheLock(s, step)
    ensures Next(s, step).lock.protected ==>
              Next(s, step).lock.inForce == s.lock.inForce && (s.lock.confirmed ==> Next(s, step).lock.confirmed)
  {
    if !ConcernsTheLock(step) { OtherStepsKeepTheLock(s, step); }
  }

  /** The step that ended the lock among the first ones ended it in all. */
  lemma EndedEarlier(s: App, steps: seq<Step>)
    requires steps != [] && Ended(s, steps[..|steps| - 1])
    ensures Ended(s, steps)
  {
    var earlier := steps[..|steps| - 1];
    var n :| 0 <= n < |earlier| && EndsTheLock(Run(s, earlier[..n]), earlier[n]) && Some(earlier[n].sender) == s.lock.inForce;
    assert steps[..n] == earlier[..n];
  }

  /** Some step of the run is the unlock of the lock the run started in. */
  ghost predicate Ended(s: App, steps: seq<Step>) {
    exists n :: 0 <= n < |steps| && EndsTheLock(Run(s, steps[..n]), steps[n]) && Some(steps[n].sender) == s.lock.inForce
  }

  /** A run either stays under the lock it started in or contains the request
      that ended it. */
  lemma {:induction false} LockOutlivesEveryRun(s: App, steps: seq<Step>)
    requires Invariant(s) && s.lock.protected && Legal(s, steps)
    ensures Ended(s, steps) || (Run(s, steps).lock.protected && Run(s, steps).lock.inForce == s.lock.inForce)
  {
    if steps != [] {
      var earlier, last := steps[..|steps| - 1], steps[|steps| - 1];
      LegalPrefix(s, steps);
      RunKeepsInvariant(s, earlier);
      LockOutlivesEveryRun(s, earlier);
      var before := Run(s, earlier);
      if Ended(s, earlier) {
        EndedEarlier(s, steps);
      } else {
        OnlyItsUnlockEndsTheLock(before, last);
        if EndsTheLock(before, last) {
          assert steps[..|steps| - 1] == earlier && last == steps[|steps| - 1];
          assert Ended(s, steps);
        }
      }
    }
  }

  lemma LegalPrefix(s: App, steps: seq<Step>)
    requires steps != [] && Legal(s, steps)
    ensures Legal(s, steps[..|steps| - 1]) && Enabled(Run(s, steps[..|steps| - 1]), steps[|steps| - 1])
  {
    var earlier := steps[..|steps| - 1];
    forall n | 0 <= n < |earlier| ensures Enabled(Run(s, earlier[..n]), earlier[n]) {
      assert earlier[..n] == steps[..n];
    }
  }

  lemma {:induction false} RunKeepsInvariant(s: App, steps: seq<Step>)
    requires Invariant(s) && Legal(s, steps)
    ensures Invariant(Run(s, steps))
  {
    if steps != [] {
      LegalPrefix(s, steps);
      RunKeepsInvariant(s, steps[..|steps| - 1]);
      StepKeepsInvariant(Run(s, steps[..|steps| - 1]), steps[|steps| - 1]);
    }
  }

  /** A surface of the client that holds the lock, made for locking. */
  predicate IsLockersSurface(s: App, surface: Option<Surface>) {
    surface.Some? ==> surface.value.role == LockRole && IsLocker(s.lock, surface.value.client)
  }

  /** In every reachable locked state the keyboard, the pointer and touch reach
      only the locker's surfaces, no interaction and no selection is left, the
      lock surfaces are the locker's and of outputs in the layout, and every
      focus ever given under a lock went to a surface accepted for it. */
  lemma LockedSessionsFailClosed(steps: seq<Step>)
    requires Legal(START, steps) && Run(START, steps).lock.protected
    ensures var s := Run(START, steps);
      && IsLockersSurface(s, s.keyboardFocus) && IsLockersSurface(s, s.pointerFocus)
      && (s.touch.Some? ==> IsLockersSurface(s, s.touch.value))
      && s.popupGrab.None? && !s.keyboardGrab && s.selection.None?
      && (s.pointerGrab.Free? || s.pointerGrab.Click? || s.pointerGrab.Drag?)
      && (forall name <- s.lock.surfaces :: name in Outputs.Names(s.layout) && IsLocker(s.lock, s.lock.surfaces[name].client))
      && (forall e <- s.entered :: e.under.Some? ==>
            e.target.role == LockRole && e.target.client == e.under.value.client && (e.under.value, e.target) in s.accepted)
  {
    ReachableStatesKeepInvariant(steps);
  }

  /** Once a client's requests are done, a drag under a lock is the locker's. */
  lemma ForeignDragsAreCancelled(s: App)
    requires Invariant(s) && s.lock.protected
    ensures var t := FinishDispatchStep(s);
      && (t.pointerGrab.Drag? ==> t.pointerGrab.source.Some? && IsLocker(t.lock, t.pointerGrab.source.value))
      && IsLockersSurface(t, t.pointerFocus)
  {
    FinishDispatchKeeps(s);
  }

  // ---- Popup grabs are granted for real actions --------------------------------------

  /** The history is the whole story: an accepted lock and each key, button
      press and touch leave one record, and nothing else does. */
  lemma HistoryIsComplete(s: App, step: Step)
    ensures match step
      case LockRequest(_) => Next(s, step).history == if s.lock.protected then s.history else s.history + [LockBegan]
      case Key(pressed, serial, _) => RecordsOne(s, Next(s, step), if pressed then KeyPress else KeyRelease, serial)
      case ButtonPressed(serial, _) => RecordsOne(s, Next(s, step), ButtonPress, serial)
      case TouchedDown(serial, _, _, _) => RecordsOne(s, Next(s, step), TouchDown, serial)
      case _ => Next(s, step).history == s.history
  {
  }

  /** A grab is granted only for the latest action of its kind, delivered to the
      popup's client since the last lock began, in an unlocked session where no
      other client's chain is open and its button does not hold the pointer. */
  lemma GrantsNameARealAction(steps: seq<Step>, popup: Surface, onSeat: bool, serial: Serial, accepts: bool)
    requires Legal(START, steps) && Grants(Run(START, steps), popup, onSeat, serial, accepts)
    ensures var s := Run(START, steps);
      && !s.lock.protected && onSeat
      && (exists i :: IsLatest(s.history, i) && s.history[i].action.serial == serial && s.history[i].action.client == Some(popup.client))
      && (ChainOwner(s).Some? ==> ChainOwner(s) == Some(popup.client))
      && (s.pointerGrab.Click? && ClientOf(s, s.pointerGrab.pressed).Some? ==> ClientOf(s, s.pointerGrab.pressed) == Some(popup.client))
  {
    ReachableStatesKeepInvariant(steps);
    var s := Run(START, steps);
    DeliveredToMatchesHistory(s.history, serial, popup.client);
  }

  // ---- Every refresh settles the popup grab -------------------------------------------

  /** Reaping drops dead windows only, so a live topmost window stays topmost. */
  lemma {:induction false} TopmostOfReaped(stack: Stack, dead: set<Surface>)
    ensures TopmostFocusable(stack).Some? && TopmostFocusable(stack).value.surface !in dead ==>
              TopmostFocusable(Reap(stack, dead)) == TopmostFocusable(stack)
    ensures TopmostFocusable(stack).None? ==> TopmostFocusable(Reap(stack, dead)).None?
  {
    if stack != [] {
      var below, top := stack[..|stack| - 1], stack[|stack| - 1];
      ReapAppends(below, top, dead);
      assert stack == below + [top];
      TopmostOfReaped(below, dead);
      if top.surface !in dead {
        assert Reap(stack, dead)[..|Reap(stack, dead)| - 1] == Reap(below, dead);
      } else {
        assert Reap(stack, dead) == Reap(below, dead);
      }
    }
  }

  lemma {:induction false} ReapAppends(below: Stack, top: ManagedWindow, dead: set<Surface>)
    ensures Reap(below + [top], dead) == Reap(below, dead) + if top.surface !in dead then [top] else []
  {
    if below == [] {
      assert below + [top] == [top];
    } else {
      assert (below + [top])[1..] == below[1..] + [top];
      ReapAppends(below[1..], top, dead);
    }
  }

  /** Where focus goes when a chain closes: back to its root window, or to the
      topmost focusable live window when the root is gone. */
  function FocusAfterChain(s: App, chain: Chain): Option<Surface> {
    var root := PopupRootTarget(s, chain);
    if root.Some? then root else Target(TopmostFocusable(Reap(s.stack, s.dead)))
  }

  /** Ending the keyboard's grab first keeps a menu's pointer grab from moving
      the focus when it ends. */
  lemma FreeingKeepsFocus(s: App)
    requires !s.keyboardGrab
    ensures var t := if s.pointerGrab.Menu? then UnsetPointerGrab(s) else s;
      && !t.pointerGrab.Menu? && !t.keyboardGrab && t.keyboardFocus == s.keyboardFocus && t.popupGrab == s.popupGrab
  {
  }

  lemma ReturnedFocus(s: App, chain: Chain)
    requires !s.lock.protected && !s.keyboardGrab
    ensures var t := FocusPopupRoot(s, chain);
      && t.popupGrab == s.popupGrab && !t.keyboardGrab && t.pointerGrab == s.pointerGrab
      && t.keyboardFocus == if PopupRootTarget(s, chain).Some? then PopupRootTarget(s, chain)
                            else Target(TopmostFocusable(s.stack))
  {
  }

  /** A chain that is let go keeps no grab, and returns the focus it held. */
  lemma ReleaseReturnsFocus(s: App, chain: Chain, under: Option<Surface>)
    requires !s.lock.protected
    ensures var t := ReleasePopupGrab(s, chain, under);
      && t.popupGrab == s.popupGrab && !t.keyboardGrab && !t.pointerGrab.Menu?
      && t.keyboardFocus == if !s.keyboardGrab then s.keyboardFocus
                            else if PopupRootTarget(s, chain).Some? then PopupRootTarget(s, chain)
                            else Target(TopmostFocusable(s.stack))
  {
    var ungrabbed := s.(keyboardGrab := false);
    FreeingKeepsFocus(ungrabbed);
    var freed := if ungrabbed.pointerGrab.Menu? then UnsetPointerGrab(ungrabbed) else ungrabbed;
    ReturnedFocus(freed, chain);
  }

  lemma RefocusingMovesDeadFocus(s: App)
    requires !s.lock.protected && (s.keyboardGrab ==> s.keyboardFocus.Some? && s.keyboardFocus.value !in s.dead)
    ensures var t := RefocusIfDead(s);
      && t.popupGrab == s.popupGrab && t.keyboardGrab == s.keyboardGrab && t.pointerGrab == s.pointerGrab
      && t.keyboardFocus == if s.keyboardFocus.Some? && s.keyboardFocus.value in s.dead
                            then Target(TopmostFocusable(s.stack)) else s.keyboardFocus
  {
  }

  /** Reaping moves a focus that died to the topmost live window, and keeps any
      other focus. */
  lemma ReapingMovesDeadFocus(s: App, under: Option<Surface>)
    requires !s.lock.protected && (s.keyboardGrab ==> s.keyboardFocus.Some? && s.keyboardFocus.value !in s.dead)
    ensures var t := ReapDeadClients(s, under);
      && t.popupGrab == s.popupGrab && t.keyboardGrab == s.keyboardGrab && t.pointerGrab == s.pointerGrab
      && t.stack == Reap(s.stack, s.dead)
      && t.keyboardFocus == if s.keyboardFocus.Some? && s.keyboardFocus.value in s.dead
                            then Target(TopmostFocusable(t.stack)) else s.keyboardFocus
  {
    RefocusingMovesDeadFocus(s.(stack := Reap(s.stack, s.dead)));
  }

  /** The focus, or what reaping makes of one that has died. */
  function LiveFocus(s: App): Option<Surface> {
    if s.keyboardFocus.Some? && s.keyboardFocus.value in s.dead then Target(TopmostFocusable(Reap(s.stack, s.dead))) else s.keyboardFocus
  }

  lemma RefreshReleasesAFinishedChain(s: App, under: Option<Surface>)
    requires Invariant(s) && s.popupGrab.Some? && ChainIsOver(s)
    ensures var t := RefreshStep(s, under);
      && t.popupGrab.None? && !t.keyboardGrab && !t.pointerGrab.Menu?
      && t.keyboardFocus == (if s.keyboardGrab then FocusAfterChain(s, s.popupGrab.value) else LiveFocus(s))
  {
    ReleaseReturnsFocus(s.(popupGrab := None), s.popupGrab.value, under);
    TopmostOfReaped(s.stack, s.dead);
    ReapingMovesDeadFocus(SettlePopupGrab(s, under), under);
  }

  lemma RefreshKeepsAnOpenChain(s: App, under: Option<Surface>)
    requires Invariant(s) && s.popupGrab.Some? && !ChainIsOver(s)
    ensures var t := RefreshStep(s, under);
      && t.popupGrab == s.popupGrab && !ChainIsOver(t) && t.keyboardGrab == s.keyboardGrab
      && t.keyboardFocus == (if s.keyboardGrab then GrabbingPopup(t, t.popupGrab.value) else LiveFocus(s))
  {
    ReapingMovesDeadFocus(SettlePopupGrab(s, under), under);
  }

  /** After every refresh a popup grab has an open chain, on whose topmost popup
      the focus is while the chain holds the keyboard. A chain that is over is
      gone with its grabs, and the focus it held is back at its root window, or
      at the topmost live window that may be focused. A chain without the keyboard
      has no say in the focus: `MenuGrabs` says where it left it. */
  lemma RefreshSettlesThePopupGrab(s: App, under: Option<Surface>)
    requires Invariant(s) && s.popupGrab.Some?
    ensures var t := RefreshStep(s, under);
      if ChainIsOver(s) then
        && t.popupGrab.None? && !t.keyboardGrab && !t.pointerGrab.Menu?
        && t.keyboardFocus == (if s.keyboardGrab then FocusAfterChain(s, s.popupGrab.value) else LiveFocus(s))
      else
        && t.popupGrab == s.popupGrab && !ChainIsOver(t) && t.keyboardGrab == s.keyboardGrab
        && t.keyboardFocus == (if s.keyboardGrab then GrabbingPopup(t, t.popupGrab.value) else LiveFocus(s))
  {
    if ChainIsOver(s) { RefreshReleasesAFinishedChain(s, under); } else { RefreshKeepsAnOpenChain(s, under); }
  }

  /** A locked keyboard stays on a live lock surface, and otherwise moves to that
      of the output under the pointer, or of the first output that has one, or
      to nothing. */
  lemma KeyboardStaysOnALockSurface(s: App)
    requires s.lock.protected && !s.keyboardGrab
    ensures var t := KeepKeyboardOnLockSurface(s);
      && t.focusBeforeLock == s.focusBeforeLock
      && (t.keyboardFocus.Some? ==> t.keyboardFocus.value !in s.dead && IsLockSurface(s.lock, t.keyboardFocus.value))
      && (t.keyboardFocus.None? ==> forall i :: 0 <= i < |s.layout| ==> LockSurface(s.lock, s.layout[i].name, s.dead).None?)
      && (t.keyboardFocus != s.keyboardFocus && t.keyboardFocus.Some? ==>
            t.keyboardFocus == LockSurfaceAt(s, s.pointer) || IsFirstWithSurface(s, 0, t.keyboardFocus))
      && (t.keyboardFocus != s.keyboardFocus && LockSurfaceAt(s, s.pointer).Some? ==> t.keyboardFocus == LockSurfaceAt(s, s.pointer))
  {
  }

  lemma ReapingUnderALock(s: App, under: Option<Surface>)
    requires s.lock.protected && !s.keyboardGrab
    ensures var t := ReapDeadClients(s, under);
      && t.stack == Reap(s.stack, s.dead)
      && (t.keyboardFocus.Some? ==> t.keyboardFocus.value !in s.dead && IsLockSurface(s.lock, t.keyboardFocus.value))
      && t.focusBeforeLock == if s.focusBeforeLock.Some? && s.focusBeforeLock.value in s.dead
                              then Target(TopmostFocusable(t.stack)) else s.focusBeforeLock
  {
    var reaped := s.(stack := Reap(s.stack, s.dead));
    var dead := s.focusBeforeLock.Some? && s.focusBeforeLock.value in s.dead;
    KeyboardStaysOnALockSurface(if dead then FocusTopmost(reaped) else reaped);
  }

  /** After every refresh all windows live, and so does the focus: the live one,
      and the one remembered for the unlock. */
  lemma RefreshLeavesNothingDead(s: App, under: Option<Surface>)
    requires Invariant(s)
    ensures var t := RefreshStep(s, under);
      && (forall window <- t.stack :: window.surface !in t.dead)
      && (t.keyboardFocus.Some? ==> t.keyboardFocus.value !in t.dead)
      && (t.lock.protected && t.focusBeforeLock.Some? ==> t.focusBeforeLock.value !in t.dead)
  {
    var settled := SettlePopupGrab(s, under);
    ReapKeepsOrder(settled.stack, settled.dead);
    if s.lock.protected {
      ReapingUnderALock(s, under);
    } else {
      if s.popupGrab.Some? { SettledGrabIsAlive(s, under); }
      ReapingMovesDeadFocus(settled, under);
    }
  }

  lemma SettledGrabIsAlive(s: App, under: Option<Surface>)
    requires Invariant(s) && s.popupGrab.Some?
    ensures var t := SettlePopupGrab(s, under);
      t.keyboardGrab ==> t.keyboardFocus.Some? && t.keyboardFocus.value !in t.dead
  {
    if ChainIsOver(s) { ReleaseReturnsFocus(s.(popupGrab := None), s.popupGrab.value, under); }
  }

  // ---- Focus follows the user --------------------------------------------------------

  /** A commit by which an unplaced toplevel first draws, or a placed one unmaps
      itself. */
  predicate MapsOrUnmaps(s: App, id: nat, frame: Option<Rect>) {
    var window := Get(s.stack, id);
    window.Some? && !window.value.surface.role.X11Role? && (window.value.location.Some? <==> frame.None?)
  }

  /** The steps that change what lies under a pointer that does not move. */
  predicate ChangesTheScene(s: App, step: Step) {
    match step
    case UnlockRequest(_, _) => s.lock.protected && EndsTheLock(s, step)
    case SetLayout(_, _) => true
    case RemoveWindow(id, _) => IndexOf(s.stack, id).Some?
    case Commit(id, frame, _) => MapsOrUnmaps(s, id, frame)
    case MapX11(surface, _, _, _) => FindRoot(s.stack, surface).None?
    case _ => false
  }

  lemma RefreshedPointerIsUnder(s: App, under: Option<Surface>)
    ensures var t := RefreshPointerFocus(s, under);
      !t.lock.protected && t.pointerGrab.Free? ==> t.pointerFocus == under
  {
  }

  /** After such a step a free pointer's focus is what now lies under it. */
  lemma PointerFocusFollowsTheScene(s: App, step: Step)
    requires ChangesTheScene(s, step)
    ensures var t := Next(s, step);
      !t.lock.protected && t.pointerGrab.Free? ==> t.pointerFocus == step.under
  {
  }

  /** Focusing a window that may be focused raises it above all others, lets go
      of any menu and gives it the keyboard, or the focus after the lock. */
  lemma FocusedWindowIsOnTop(s: App, id: nat, under: Option<Surface>)
    requires Invariant(s) && Get(s.stack, id).Some? && Get(s.stack, id).value.IsFocusable()
    ensures var t := FocusWindow(s, id, under);
      && t.stack != [] && t.stack[|t.stack| - 1] == Get(s.stack, id).value
      && t.popupGrab.None? && !t.keyboardGrab
      && (if t.lock.protected then t.focusBeforeLock else t.keyboardFocus) == Target(Get(s.stack, id))
  {
    if !s.lock.protected { DismissKeeps(s, under); }
  }

  lemma DismissalKeepsThePointerFree(s: App, id: nat, under: Option<Surface>)
    requires s.pointerGrab.Free?
    ensures FocusWindow(s, id, under).pointerGrab.Free?
  {
    var dismissed := DismissPopupGrab(s, under);
    assert dismissed.pointerGrab.Free?;
  }

  /** A press through a free pointer takes it and is recorded for its surface. */
  lemma FreePressesAreRecorded(s: App, serial: Serial, under: Option<Surface>)
    requires s.pointerGrab.Free?
    ensures var t := ForwardPress(s, serial, under);
      && t.keyboardFocus == s.keyboardFocus && t.stack == s.stack && t.dead == s.dead && t.pointerFocus == s.pointerFocus
      && t.pointerGrab == Click(s.pointerFocus) && t.popupGrab == s.popupGrab && t.keyboardGrab == s.keyboardGrab
      && t.actions.buttonPress == Some(Action(ButtonPress, serial, ClientOf(s, s.pointerFocus)))
  {
  }

  /** A press on a window through a free pointer focuses and raises that window,
      goes to the surface under the pointer and is recorded for its client. */
  lemma AClickFocusesItsWindow(s: App, serial: Serial, under: Option<Surface>)
    requires Invariant(s) && !s.lock.protected && s.pointerGrab.Free? && under.Some?
    requires Owner(s, s.stack, under.value).Some? && Owner(s, s.stack, under.value).value.IsFocusable()
    ensures var window, t := Owner(s, s.stack, under.value).value, ButtonPressStep(s, serial, under);
      && t.keyboardFocus == Some(window.surface) && t.stack != [] && t.stack[|t.stack| - 1] == window
      && t.pointerGrab == Click(under) && t.pointerFocus == under
      && t.actions.buttonPress == Some(Action(ButtonPress, serial, ClientOf(s, under)))
  {
    var window := Owner(s, s.stack, under.value).value;
    OwnersAreFoundById(s.stack, s.nextId, window);
    FocusedWindowIsOnTop(s, window.id, under);
    DismissalKeepsThePointerFree(s, window.id, under);
    var focused := FocusWindow(s, window.id, under);
    assert ClickToFocus(s, under) == focused;
    RefreshedPointerIsUnder(focused, under);
    FreePressesAreRecorded(RefreshPointerFocus(focused, under), serial, under);
  }

  lemma OwnersAreFoundById(stack: Stack, nextId: nat, window: ManagedWindow)
    requires GoodStack(stack, nextId) && window in stack
    ensures Get(stack, window.id) == Some(window)
  {
    var i :| 0 <= i < |stack| && stack[i] == window;
    var found := IndexOf(stack, window.id);
    assert found.Some? ==> stack[found.value].id == stack[i].id;
  }
}
