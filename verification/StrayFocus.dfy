/** The shortest runs in which the focus strays: a client opens a menu, and its
    window is unmapped or removed under it. */
module StrayFocus {
  import opened Wrappers
  import opened Geometry
  import opened Objects
  import opened Windows
  import opened SessionLock
  import opened UserActions
  import opened Session
  import opened SessionInvariant
  import opened SessionSafety
  import opened MenuGrabs
  import opened FocusPolicy
  import opened Desks
  import opened LockTransparency
  import Resize

  const ROOT := Surface(1, ToplevelRole, 0)
  const POPUP := Surface(1, PopupRole, 1)
  const LOCK := LockObject(2, 0)
  const FRAME := Rect(Point(0, 0), Size(1, 1))

  /** A window maps, gets a key and opens a menu for it. */
  const OPEN_MENU := [
    NewToplevel(ROOT), Commit(0, Some(FRAME), None), NewPopup(POPUP, ROOT), Key(true, 7, false), GrabPopup(POPUP, true, 7, true)]

  lemma Extended(steps: seq<Step>, s: App, step: Step)
    requires Legal(START, steps) && Run(START, steps) == s && Enabled(s, step)
    ensures Legal(START, steps + [step]) && Run(START, steps + [step]) == Next(s, step)
  {
    var all := steps + [step];
    assert all[..|steps|] == steps;
    forall n | 0 <= n < |all| ensures Enabled(Run(START, all[..n]), all[n]) {
      if n < |steps| { assert all[..n] == steps[..n]; }
    }
  }

  function Mapped(location: Option<Point>, geometry: Rect): ManagedWindow {
    ManagedWindow(0, ROOT, false, location, geometry, Resize.Idle)
  }

  /** The window is mapped and focused, and nothing else has happened. */
  lemma FirstWindowIsFocused()
    ensures Legal(START, OPEN_MENU[..2])
    ensures var s := Run(START, OPEN_MENU[..2]);
      && s.stack == [Mapped(Some(Point(0, 0)), FRAME)] && s.nextId == 1 && s.keyboardFocus == Some(ROOT) && !s.keyboardGrab
      && s.pointerGrab.Free? && s.popupGrab.None? && s.popups == map[] && s.dead == {} && s.layout == [] && s.lock == NO_LOCK
  {
    var s0, s1 := START, Next(START, NewToplevel(ROOT));
    Extended([], s0, NewToplevel(ROOT));
    assert [] + [NewToplevel(ROOT)] == [NewToplevel(ROOT)];
    Extended([NewToplevel(ROOT)], s1, Commit(0, Some(FRAME), None));
    assert OPEN_MENU[..2] == [NewToplevel(ROOT)] + [Commit(0, Some(FRAME), None)];
    assert s1.stack == [Mapped(None, Rect(Point(0, 0), Size(0, 0)))];
    var drawn := s1.(stack := WithGeometry(s1.stack, 0, FRAME));
    assert drawn.stack == [Mapped(None, FRAME)];
    PlacedAlone(drawn);
  }

  lemma PlacedAlone(s: App)
    requires s == START.(stack := [Mapped(None, FRAME)], nextId := 1)
    ensures var t := PlaceToplevel(s, 0, FRAME, None);
      && t.stack == [Mapped(Some(Point(0, 0)), FRAME)] && t.nextId == 1 && t.keyboardFocus == Some(ROOT) && !t.keyboardGrab
      && t.pointerGrab.Free? && t.popupGrab.None? && t.popups == map[] && t.dead == {} && t.layout == [] && t.lock == NO_LOCK
  {
    var placed := [Mapped(Some(Point(0, 0)), FRAME)];
    assert InitialLocation(FRAME, s.layout, s.pointer) == Point(0, 0);
    assert Update(s.stack, 0, Some(Point(0, 0)), true) == placed;
    assert Raise(placed, 0) == placed;
  }

  /** The menu is open and holds keyboard and pointer. */
  ghost predicate HasMenu(s: App) {
    && !s.lock.protected && s.lock.connected == {} && s.layout == [] && s.lock.sent == [] && s.lock.inForce.None?
    && s.keyboardGrab && s.popupGrab == Some(Chain(ROOT, [POPUP])) && s.pointerGrab == Menu(ROOT)
    && s.keyboardFocus == Some(POPUP) && s.popups == map[POPUP := ROOT] && s.dead == {}
  }

  lemma MenuIsReachable()
    ensures Legal(START, OPEN_MENU) && HasMenu(Run(START, OPEN_MENU))
    ensures Run(START, OPEN_MENU).stack == [Mapped(Some(Point(0, 0)), FRAME)]
  {
    KeyIsRecorded();
    var s := Run(START, OPEN_MENU[..4]);
    assert OPEN_MENU == OPEN_MENU[..4] + [OPEN_MENU[4]];
    Extended(OPEN_MENU[..4], s, OPEN_MENU[4]);
    MenuOpens(s);
  }

  /** The popup exists, and the window's client has had a key. */
  ghost predicate MayOpenMenu(s: App) {
    && s.stack == [Mapped(Some(Point(0, 0)), FRAME)] && s.keyboardFocus == Some(ROOT) && !s.keyboardGrab
    && s.pointerGrab.Free? && s.popupGrab.None? && s.popups == map[POPUP := ROOT] && s.dead == {}
    && s.layout == [] && s.lock == NO_LOCK && s.actions.keyPress == Some(Action(KeyPress, 7, Some(1)))
  }

  lemma KeyIsRecorded()
    ensures Legal(START, OPEN_MENU[..4]) && MayOpenMenu(Run(START, OPEN_MENU[..4]))
  {
    FirstWindowIsFocused();
    var s := Run(START, OPEN_MENU[..2]);
    var popped := Next(s, OPEN_MENU[2]);
    assert OPEN_MENU[..3] == OPEN_MENU[..2] + [OPEN_MENU[2]] && OPEN_MENU[..4] == OPEN_MENU[..3] + [OPEN_MENU[3]];
    Extended(OPEN_MENU[..2], s, OPEN_MENU[2]);
    Extended(OPEN_MENU[..3], popped, OPEN_MENU[3]);
    assert popped.popups == map[POPUP := ROOT];
    KeyReachesTheWindow(popped);
  }

  lemma KeyReachesTheWindow(s: App)
    requires s.stack == [Mapped(Some(Point(0, 0)), FRAME)] && s.keyboardFocus == Some(ROOT) && !s.keyboardGrab
    requires s.pointerGrab.Free? && s.popupGrab.None? && s.popups == map[POPUP := ROOT] && s.dead == {} && s.layout == [] && s.lock == NO_LOCK
    ensures MayOpenMenu(KeyStep(s, true, 7, false))
  {
  }

  lemma MenuOpens(s: App)
    requires MayOpenMenu(s)
    ensures var t := GrabPopupStep(s, POPUP, true, 7, true);
      HasMenu(t) && t.stack == s.stack
  {
    assert Grants(s, POPUP, true, 7, true);
    assert Raise(s.stack, 0) == s.stack;
    var chain := ExtendedChain(s, POPUP);
    assert chain == Chain(ROOT, [POPUP]);
    assert LastAlive([POPUP], {}) == Some(POPUP);
  }

  /** The window unmaps itself under its menu. */
  lemma UnmappedMenuIsReachable()
    ensures var steps := OPEN_MENU + [Commit(0, None, None)];
      && Legal(START, steps) && HasMenu(Run(START, steps)) && Run(START, steps).stack == [Mapped(None, FRAME)]
  {
    MenuIsReachable();
    var s := Run(START, OPEN_MENU);
    Extended(OPEN_MENU, s, Commit(0, None, None));
    assert Update(s.stack, 0, None, false) == [Mapped(None, FRAME)];
    UnplacedUnderItsMenu(s);
  }

  lemma UnplacedUnderItsMenu(s: App)
    requires HasMenu(s) && s.stack == [Mapped(Some(Point(0, 0)), FRAME)]
    ensures HasMenu(UnplaceToplevel(s, 0, None)) && UnplaceToplevel(s, 0, None).stack == Update(s.stack, 0, None, false)
  {
    assert TopmostFocusable(Update(s.stack, 0, None, false)).None?;
  }

  /** A click outside then leaves the keyboard with a toplevel that has no
      place, after any refresh. */
  lemma AClickCanFocusAnUnmappedWindow(under: Option<Surface>)
    ensures var steps := OPEN_MENU + [Commit(0, None, None)];
      var s := RefreshStep(Next(Run(START, steps), ButtonPressed(8, None)), under);
      && Legal(START, steps) && !s.keyboardGrab && s.keyboardFocus == Some(ROOT)
      && StraysFocus(Run(START, steps), ButtonPressed(8, None)) && FindRoot(Run(START, steps).stack, ROOT) == Some(Mapped(None, FRAME))
  {
    UnmappedMenuIsReachable();
    var steps := OPEN_MENU + [Commit(0, None, None)];
    ReachableMenusHaveTheirShape(steps);
    MenusEndedByInputReturnFocus(Run(START, steps), ButtonPressed(8, None), under);
  }

  /** A lock taken instead remembers that window, although dismissing the menu
      would focus nothing. */
  lemma ALockCanRememberAnUnmappedWindow(under: Option<Surface>)
    ensures var s := Run(START, OPEN_MENU + [Commit(0, None, None)]);
      && Legal(START, OPEN_MENU + [Commit(0, None, None)]) && Enabled(s, Step.LockRequest(LOCK))
      && LockSession(s, LOCK).focusBeforeLock == Some(ROOT) && DismissPopupGrab(s, under).keyboardFocus.None?
      && !LockKeepsTheFocus(s)
  {
    UnmappedMenuIsReachable();
    var s := Run(START, OPEN_MENU + [Commit(0, None, None)]);
    ReachableMenusHaveTheirShape(OPEN_MENU + [Commit(0, None, None)]);
    LockRemembers(s, LOCK);
    DismissalGivesBackFocus(s, under);
    UnmappedRootIsRemembered(s);
  }

  lemma UnmappedRootIsRemembered(s: App)
    requires Invariant(s) && HasMenu(s) && s.stack == [Mapped(None, FRAME)]
    ensures PopupRootTarget(s, s.popupGrab.value).None? && RememberedOwner(s) == Some(ROOT)
    ensures TopmostFocusable(s.stack).None? && !LockKeepsTheFocus(s)
  {
    OwnersOfFocus(s, POPUP);
    assert FindRoot(s.stack, ROOT) == Some(Mapped(None, FRAME));
    FallbackIsTop(s.stack, s.dead);
  }

  /** With the window removed under its menu, the lock remembers the popup, and
      the unlock leaves the focus on it with no grab at all. */
  lemma AnUnlockCanFocusALonePopup(under: Option<Surface>)
    ensures var s := Run(START, OPEN_MENU + [RemoveWindow(0, None)]);
      var t := UnlockSession(LockSession(s, LOCK), LOCK, under);
      && Legal(START, OPEN_MENU + [RemoveWindow(0, None)]) && Enabled(s, Step.LockRequest(LOCK))
      && !t.lock.protected && t.keyboardFocus == Some(POPUP) && POPUP !in t.dead && t.popupGrab.None? && !t.keyboardGrab
      && StraysFocus(s, Step.LockRequest(LOCK)) && !LockKeepsTheFocus(s) && LockKeepsTheFocus(t)
  {
    MenuIsReachable();
    var s5 := Run(START, OPEN_MENU);
    Extended(OPEN_MENU, s5, RemoveWindow(0, None));
    RemovedUnderItsMenu(s5);
    var s := Run(START, OPEN_MENU + [RemoveWindow(0, None)]);
    ReachableMenusHaveTheirShape(OPEN_MENU + [RemoveWindow(0, None)]);
    LockKeeps(s, LOCK);
    LockRemembers(s, LOCK);
    LockTakesForce(s, LOCK);
    UnlockRestores(LockSession(s, LOCK), under);
  }

  lemma RemovedUnderItsMenu(s: App)
    requires HasMenu(s) && s.stack == [Mapped(Some(Point(0, 0)), FRAME)]
    ensures HasMenu(RemoveWindowStep(s, 0, None)) && RemoveWindowStep(s, 0, None).stack == []
  {
    assert Remove(s.stack, 0) == [];
  }

  lemma UnlockRestores(s: App, under: Option<Surface>)
    requires Invariant(s) && s.lock.protected && s.lock.confirmed && s.lock.inForce == Some(LOCK)
    requires s.stack == [] && s.focusBeforeLock == Some(POPUP) && POPUP !in s.dead
    ensures var t := UnlockSession(s, LOCK, under);
      && !t.lock.protected && t.keyboardFocus == Some(POPUP) && t.popupGrab.None? && !t.keyboardGrab
      && t.stack == [] && t.dead == s.dead
  {
  }
}
