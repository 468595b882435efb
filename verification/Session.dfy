/** Session lock, focus policy and popup grabs as one step machine
    (crates/nkdhr-compositor/src/state.rs, protocols/mod.rs and input.rs).

    Smithay's seat is kept as small as the repository's comments describe it:
    a popup keyboard grab drops every focus change but the one to its chain's
    topmost popup; ending a popup pointer grab while the keyboard grab is active
    ends that too and moves focus to the chain's root; a click grab keeps pointer
    focus on the pressed surface; a move, a resize or a drag clears it; ending a
    grab restores the focus of the last motion. The surface the hit test finds
    under the pointer comes with each step. */
module Session {
  import opened Wrappers
  import opened Geometry
  import opened Objects
  import opened Outputs
  import Resize
  import opened Windows
  import opened SessionLock
  import opened UserActions

  /** A popup-grab chain: its root window's surface and the popups that hold the
      grab, oldest first. */
  datatype Chain = Chain(root: Surface, popups: seq<Surface>)

  datatype PointerGrab =
    | Free
    | Click(pressed: Option<Surface>)
    | Menu(root: Surface)
    | Moving
    | Resizing
    | Drag(source: Option<Client>)

  /** A keyboard focus change to a surface, and the lock then in force. */
  datatype Entered = Entered(target: Surface, under: Option<LockObject>)

  /** `App` with its seat, and what clients have been told. A keyboard focus
      target is its surface: the role says whether it is an X11 window's. */
  datatype App = App(
    stack: Stack, nextId: nat, dead: set<Surface>, popups: map<Surface, Surface>,
    lock: Lock, layout: Layout, pointer: RealPoint,
    keyboardFocus: Option<Surface>, keyboardGrab: bool,
    pointerGrab: PointerGrab, pointerFocus: Option<Surface>, restoreFocus: Option<Surface>,
    touch: Option<Option<Surface>>,
    popupGrab: Option<Chain>, focusBeforeLock: Option<Surface>,
    actions: UserActionSerials, cancelDrag: bool, selection: Option<Client>,
    history: seq<Entry>, entered: seq<Entered>, accepted: set<(LockObject, Surface)>)

  const START := App(
    [], 0, {}, map[], NO_LOCK, [], RealPoint(0.0, 0.0), None, false, Free, None, None, None,
    None, None, NO_ACTIONS, false, None, [], [], {})

  // ---- Windows and popups --------------------------------------------------------

  /** The client of a surface, while it is connected. */
  function ClientOf(s: App, surface: Option<Surface>): Option<Client> {
    if surface.Some? && surface.value !in s.dead then Some(surface.value.client) else None
  }

  /** `matches_surface`: the root surface or one of the window's popups. */
  predicate Matches(s: App, window: ManagedWindow, surface: Surface) {
    surface == window.surface || (surface in s.popups && s.popups[surface] == window.surface)
  }

  /** The first window a surface belongs to. */
  function Owner(s: App, stack: Stack, surface: Surface): (r: Option<ManagedWindow>)
    ensures r.Some? ==> r.value in stack && Matches(s, r.value, surface)
    ensures r.None? ==> forall window <- stack :: !Matches(s, window, surface)
  {
    if stack == [] then None
    else if Matches(s, stack[0], surface) then Some(stack[0])
    else Owner(s, stack[1..], surface)
  }

  /** The last element of `popups` that lives. */
  function LastAlive(popups: seq<Surface>, dead: set<Surface>): (r: Option<Surface>)
    ensures r.Some? ==> r.value in popups && r.value !in dead
    ensures r.None? ==> forall popup <- popups :: popup in dead
  {
    if popups == [] then None
    else if popups[|popups| - 1] !in dead then Some(popups[|popups| - 1])
    else LastAlive(popups[..|popups| - 1], dead)
  }

  /** `grabbing_popup`: the topmost popup that still holds the grab, or `None`
      once the chain is over. */
  function GrabbingPopup(s: App, chain: Chain): Option<Surface> {
    if chain.root in s.dead then None else LastAlive(chain.popups, s.dead)
  }

  /** With no grabbing popup left, Smithay reports the root instead. */
  function CurrentGrab(s: App, chain: Chain): Surface {
    match GrabbingPopup(s, chain)
    case None => chain.root
    case Some(popup) => popup
  }

  predicate ChainIsOver(s: App) {
    s.popupGrab.None? || GrabbingPopup(s, s.popupGrab.value).None?
  }

  /** `popup_chain_owner`. */
  function ChainOwner(s: App): Option<Client> {
    if ChainIsOver(s) then None else ClientOf(s, GrabbingPopup(s, s.popupGrab.value))
  }

  function Untrack(popups: map<Surface, Surface>, gone: seq<Surface>): map<Surface, Surface> {
    map popup | popup in popups && popup !in gone :: popups[popup]
  }

  // ---- What a change leaves alone ----------------------------------------------------

  /** Neither the lock and its records nor the outputs have changed. */
  predicate KeepsLock(s: App, t: App) {
    && t.lock == s.lock && t.accepted == s.accepted && t.history == s.history && t.actions == s.actions
    && t.dead == s.dead && t.layout == s.layout && t.pointer == s.pointer && t.nextId == s.nextId
  }

  /** Only focus, grabs and popups may have changed. */
  predicate KeepsWindows(s: App, t: App) {
    KeepsLock(s, t) && t.stack == s.stack
  }

  /** Only focus may have changed. */
  predicate KeepsGrabs(s: App, t: App) {
    && KeepsWindows(s, t)
    && t.popupGrab == s.popupGrab && t.keyboardGrab == s.keyboardGrab && t.pointerGrab == s.pointerGrab && t.popups == s.popups
  }

  /** Only pointer focus may have changed. */
  predicate KeepsKeyboard(s: App, t: App) {
    && KeepsWindows(s, t)
    && t.keyboardFocus == s.keyboardFocus && t.keyboardGrab == s.keyboardGrab && t.focusBeforeLock == s.focusBeforeLock
    && t.popupGrab == s.popupGrab && t.pointerGrab == s.pointerGrab && t.popups == s.popups
  }

  /** The step's one record is an action of this kind and serial. */
  predicate RecordsOne(s: App, t: App, kind: Kind, serial: Serial) {
    && t.lock == s.lock && t.accepted == s.accepted
    && |t.history| == |s.history| + 1 && t.history[..|s.history|] == s.history
    && t.history[|s.history|].Acted?
    && t.history[|s.history|].action.kind == kind && t.history[|s.history|].action.serial == serial
  }

  // ---- The seat ------------------------------------------------------------------

  predicate FocusChangePasses(s: App, target: Option<Surface>) {
    s.keyboardGrab ==> s.popupGrab.Some? && target == Some(CurrentGrab(s, s.popupGrab.value))
  }

  function LockInForce(s: App): Option<LockObject> {
    if s.lock.protected then s.lock.inForce else None
  }

  /** `set_keyboard_focus` with `sync_focus_state`: the selection follows the
      focused client and is withheld while locked. */
  function SetKeyboardFocus(s: App, target: Option<Surface>): (t: App)
    ensures KeepsGrabs(s, t)
  {
    match target
    case None => s.(keyboardFocus := if FocusChangePasses(s, None) then None else s.keyboardFocus, selection := None)
    case Some(surface) =>
      if !FocusChangePasses(s, target) || s.keyboardFocus == target then s
      else s.(keyboardFocus := target,
              selection := if s.lock.protected then None else ClientOf(s, target),
              entered := s.entered + [Entered(surface, LockInForce(s))])
  }

  /** A motion towards `focus`, as the pointer's grab lets it through. */
  function MotionTo(s: App, focus: Option<Surface>): (t: App)
    ensures KeepsKeyboard(s, t)
  {
    var noted := s.(restoreFocus := focus);
    match s.pointerGrab
    case Free => noted.(pointerFocus := focus)
    case Click(_) => noted
    case Menu(root) => noted.(pointerFocus := if focus.Some? && focus.value.client == root.client then focus else None)
    case _ => noted.(pointerFocus := None)
  }

  /** What a popup pointer grab does to the keyboard when it ends. */
  function EndMenu(s: App): (t: App)
    ensures KeepsWindows(s, t)
  {
    if s.pointerGrab.Menu? && s.keyboardGrab
    then SetKeyboardFocus(s.(keyboardGrab := false), Some(s.pointerGrab.root))
    else s
  }

  function UnsetPointerGrab(s: App): (t: App)
    ensures KeepsWindows(s, t)
  {
    if s.pointerGrab.Free? then s
    else EndMenu(s).(pointerGrab := Free, pointerFocus := s.restoreFocus)
  }

  function SetPointerGrab(s: App, grab: PointerGrab): (t: App)
    ensures KeepsWindows(s, t)
  {
    EndMenu(s).(pointerGrab := grab)
  }

  /** `refresh_pointer_focus`. */
  function RefreshPointerFocus(s: App, under: Option<Surface>): (t: App)
    ensures KeepsKeyboard(s, t)
  {
    if s.lock.protected || !s.pointerGrab.Free? then s else MotionTo(s, under)
  }

  // ---- Focus policy ----------------------------------------------------------------

  function ApplyPolicyFocus(s: App, target: Option<Surface>): (t: App)
    ensures KeepsGrabs(s, t)
  {
    if s.lock.protected then s.(focusBeforeLock := target) else SetKeyboardFocus(s, target)
  }

  function Target(window: Option<ManagedWindow>): Option<Surface> {
    if window.Some? then Some(window.value.surface) else None
  }

  function FocusTopmost(s: App): (t: App)
    ensures KeepsGrabs(s, t)
  {
    ApplyPolicyFocus(s, Target(TopmostFocusable(s.stack)))
  }

  /** The root window of a chain, while it is alive and may be focused. */
  function PopupRootTarget(s: App, chain: Chain): Option<Surface> {
    var window := FindRoot(s.stack, chain.root);
    if window.Some? && window.value.IsFocusable() && window.value.surface !in s.dead then Target(window) else None
  }

  function FocusPopupRoot(s: App, chain: Chain): (t: App)
    ensures KeepsGrabs(s, t)
  {
    var target := PopupRootTarget(s, chain);
    if target.Some? then ApplyPolicyFocus(s, target) else FocusTopmost(s)
  }

  /** `release_popup_grab`, for a chain already taken out of `popupGrab`. */
  function ReleasePopupGrab(s: App, chain: Chain, under: Option<Surface>): (t: App)
    ensures KeepsWindows(s, t)
  {
    var held := s.keyboardGrab;
    var ungrabbed := s.(keyboardGrab := false);
    var freed := if ungrabbed.pointerGrab.Menu? then UnsetPointerGrab(ungrabbed) else ungrabbed;
    var focused := if held then FocusPopupRoot(freed, chain) else freed;
    RefreshPointerFocus(focused, under)
  }

  function DismissPopupGrab(s: App, under: Option<Surface>): (t: App)
    ensures KeepsWindows(s, t)
  {
    match s.popupGrab
    case None => s
    case Some(chain) =>
      ReleasePopupGrab(s.(popupGrab := None, popups := Untrack(s.popups, chain.popups)), chain, under)
  }

  function FocusWindow(s: App, id: nat, under: Option<Surface>): (t: App)
    ensures KeepsLock(s, t)
  {
    var window := Get(s.stack, id);
    if window.None? || !window.value.IsFocusable() then s
    else
      var dismissed := DismissPopupGrab(s, under);
      ApplyPolicyFocus(dismissed.(stack := Raise(dismissed.stack, id)), Target(window))
  }

  /** The focus the policy acts on: the live one, or while locked the one to
      restore. */
  function PolicyFocus(s: App): Option<Surface> {
    if s.lock.protected then s.focusBeforeLock else s.keyboardFocus
  }

  predicate HoldsFocus(s: App, id: nat) {
    var window := Get(s.stack, id);
    PolicyFocus(s).Some? && window.Some? && Matches(s, window.value, PolicyFocus(s).value)
  }

  function RememberFocusForLock(s: App): (t: App)
    ensures KeepsGrabs(s, t)
  {
    var root := if s.popupGrab.Some? && s.keyboardGrab then PopupRootTarget(s, s.popupGrab.value) else None;
    var owner := if s.keyboardFocus.Some? then Owner(s, s.stack, s.keyboardFocus.value) else None;
    s.(focusBeforeLock := if root.Some? then root else if owner.Some? then Target(owner) else s.keyboardFocus)
  }

  function RestoreFocusAfterUnlock(s: App): (t: App)
    ensures KeepsGrabs(s, t)
  {
    var taken := s.(focusBeforeLock := None);
    match s.focusBeforeLock
    case Some(focus) => if focus !in s.dead then SetKeyboardFocus(taken, Some(focus)) else FocusTopmost(taken)
    case None => SetKeyboardFocus(taken, None)
  }

  /** The lock surface of the first output, in layout order from the `i`th on,
      that has one. */
  function FirstLockSurface(s: App, i: nat): (r: Option<Surface>)
    requires i <= |s.layout|
    ensures r.Some? ==> IsFirstWithSurface(s, i, r)
    ensures r.None? ==> forall k :: i <= k < |s.layout| ==> LockSurface(s.lock, s.layout[k].name, s.dead).None?
    decreases |s.layout| - i
  {
    if i == |s.layout| then None
    else if LockSurface(s.lock, s.layout[i].name, s.dead).Some? then LockSurface(s.lock, s.layout[i].name, s.dead)
    else FirstLockSurface(s, i + 1)
  }

  ghost predicate IsFirstWithSurface(s: App, i: nat, surface: Option<Surface>) {
    exists k ::
      && i <= k < |s.layout| && LockSurface(s.lock, s.layout[k].name, s.dead) == surface
      && forall j :: i <= j < k ==> LockSurface(s.lock, s.layout[j].name, s.dead).None?
  }

  function LockSurfaceAt(s: App, p: RealPoint): (r: Option<Surface>)
    ensures r.Some? ==> r.value in s.lock.surfaces.Values && r.value !in s.dead
  {
    var output := OutputAt(s.layout, p);
    if output.Some? then LockSurface(s.lock, output.value.name, s.dead) else None
  }

  function KeepKeyboardOnLockSurface(s: App): (t: App)
    ensures KeepsGrabs(s, t)
  {
    if !s.lock.protected then s
    else if s.keyboardFocus.Some? && s.keyboardFocus.value !in s.dead && IsLockSurface(s.lock, s.keyboardFocus.value) then s
    else
      var under := LockSurfaceAt(s, s.pointer);
      var target := if under.Some? then under else FirstLockSurface(s, 0);
      if target.Some? || s.keyboardFocus.Some? then SetKeyboardFocus(s, target) else s
  }

  // ---- The lock ----------------------------------------------------------------------

  /** The popups a lock dismisses: the chain's and the root window's others. */
  function DismissForLock(s: App): (t: App)
    ensures KeepsWindows(s, t)
  {
    match s.popupGrab
    case None => s
    case Some(chain) =>
      s.(popupGrab := None,
         popups := map popup | popup in s.popups && popup !in chain.popups && s.popups[popup] != chain.root :: s.popups[popup])
  }

  /** Every surface loses the pointer and every grab ends. */
  function EndGrabs(s: App): (t: App)
    ensures KeepsWindows(s, t)
  {
    UnsetPointerGrab(MotionTo(s.(keyboardGrab := false), None))
  }

  /** Nothing holds the focus of the keyboard or of the pointer. */
  function LeaveAllSurfaces(s: App): (t: App)
    ensures KeepsWindows(s, t)
  {
    MotionTo(SetKeyboardFocus(s.(touch := None), None), None)
  }

  /** `protect_input_for_lock`. */
  function ProtectInput(s: App): App {
    var left := LeaveAllSurfaces(EndGrabs(DismissForLock(RememberFocusForLock(s))));
    left.(actions := NO_ACTIONS, history := s.history + [LockBegan])
  }

  function LockSession(s: App, sender: LockObject): App {
    if s.lock.protected then s
    else
      var input := ProtectInput(s.(lock := Begin(s.lock, sender)));
      input.(lock := ConfirmIfReady(input.lock))
  }

  function UnlockSession(s: App, sender: LockObject, under: Option<Surface>): App {
    if !s.lock.protected || !MayUnlock(s.lock.inForce, s.lock.confirmed, sender) then s
    else RefreshPointerFocus(RestoreFocusAfterUnlock(s.(lock := End(s.lock))), under)
  }

  function NewLockSurfaceStep(s: App, surface: Surface, output: string): App {
    if !s.lock.protected || !IsLocker(s.lock, surface.client) || output !in Names(s.layout) then s
    else KeepKeyboardOnLockSurface(
      s.(lock := s.lock.(surfaces := s.lock.surfaces[output := surface]),
         accepted := s.accepted + {(s.lock.inForce.value, surface)}))
  }

  // ---- Windows come and go --------------------------------------------------------------

  function Inserted(s: App, surface: Surface, overrideRedirect: bool, location: Option<Point>, geometry: Rect): (t: App)
    ensures KeepsLock(s.(nextId := s.nextId + 1), t)
  {
    s.(stack := s.stack + [ManagedWindow(s.nextId, surface, overrideRedirect, location, geometry, Resize.Idle)], nextId := s.nextId + 1)
  }

  function WithGeometry(stack: Stack, id: nat, geometry: Rect): Stack {
    match IndexOf(stack, id)
    case None => stack
    case Some(i) => stack[i := stack[i].(geometry := geometry)]
  }

  function PlaceToplevel(s: App, id: nat, geometry: Rect, under: Option<Surface>): (t: App)
    ensures KeepsLock(s, t)
  {
    var location := InitialLocation(geometry, s.layout, s.pointer);
    RefreshPointerFocus(FocusWindow(s.(stack := Raise(Update(s.stack, id, Some(location), true), id)), id, under), under)
  }

  function UnplaceToplevel(s: App, id: nat, under: Option<Surface>): (t: App)
    ensures KeepsLock(s, t)
  {
    var unplaced := s.(stack := Update(s.stack, id, None, false));
    RefreshPointerFocus(if HoldsFocus(s, id) then FocusTopmost(unplaced) else unplaced, under)
  }

  /** A commit on a toplevel's root surface, with the frame it has drawn or
      `None` for a null buffer. */
  function CommitStep(s: App, id: nat, frame: Option<Rect>, under: Option<Surface>): (t: App)
    ensures KeepsLock(s, t)
  {
    var window := Get(s.stack, id);
    if window.None? || window.value.surface.role.X11Role? then s
    else
      var drawn := if frame.Some? then s.(stack := WithGeometry(s.stack, id, frame.value)) else s;
      if window.value.location.None? && frame.Some? then PlaceToplevel(drawn, id, frame.value, under)
      else if window.value.location.Some? && frame.None? then UnplaceToplevel(drawn, id, under)
      else drawn
  }

  /** A managed X11 window is placed by the initial rule, raised and focused. */
  function MapManaged(s: App, surface: Surface, frame: Rect, under: Option<Surface>): (t: App)
    ensures KeepsLock(s.(nextId := t.nextId), t)
  {
    var inserted := Inserted(s, surface, false, Some(InitialLocation(frame, s.layout, s.pointer)), frame);
    RefreshPointerFocus(FocusWindow(inserted, s.nextId, under), under)
  }

  function MapX11Step(s: App, surface: Surface, overrideRedirect: bool, geometry: Rect, under: Option<Surface>): (t: App)
    ensures KeepsLock(s.(nextId := t.nextId), t)
  {
    var frame := Rect(Point(0, 0), geometry.size);
    if FindRoot(s.stack, surface).Some? then s
    else if overrideRedirect then RefreshPointerFocus(Inserted(s, surface, true, Some(geometry.loc), frame), under)
    else MapManaged(s, surface, frame, under)
  }

  function RemoveWindowStep(s: App, id: nat, under: Option<Surface>): (t: App)
    ensures KeepsLock(s, t)
  {
    if IndexOf(s.stack, id).None? then s
    else
      var removed := s.(stack := Remove(s.stack, id));
      RefreshPointerFocus(if HoldsFocus(s, id) then FocusTopmost(removed) else removed, under)
  }

  /** Surfaces are destroyed, by their client or with it. */
  function DieStep(s: App, surfaces: set<Surface>): (t: App)
    ensures KeepsWindows(s.(dead := t.dead), t)
  {
    s.(dead := s.dead + surfaces, popups := map popup | popup in s.popups && popup !in surfaces :: s.popups[popup])
  }

  function SetLayoutStep(s: App, layout: Layout, under: Option<Surface>): App {
    var reconciled := s.(lock := ReconcileOutputs(s.lock, Names(layout), s.dead), layout := layout);
    var focused := KeepKeyboardOnLockSurface(reconciled);
    RefreshPointerFocus(focused.(stack := AllReachable(s.stack, layout, s.pointer, s.dead)), under)
  }

  // ---- Popup grabs ------------------------------------------------------------------------

  datatype PointerActivity = FreePointer | HeldButton(client: Option<Client>) | MenuHeld | Interaction

  function Activity(s: App): PointerActivity {
    match s.pointerGrab
    case Free => FreePointer
    case Click(pressed) => HeldButton(ClientOf(s, pressed))
    case Menu(_) => MenuHeld
    case _ => Interaction
  }

  /** `may_start_popup_grab`. */
  predicate MayStartPopupGrab(pointer: PointerActivity, chainOwner: Option<Client>, client: Client) {
    && (chainOwner.Some? ==> chainOwner.value == client)
    && match pointer
       case FreePointer => true
       case MenuHeld => true
       case HeldButton(pressed) => pressed.None? || pressed.value == client
       case Interaction => false
  }

  /** Whether a popup grab is granted; `accepts` is Smithay's own answer. */
  predicate Grants(s: App, popup: Surface, onSeat: bool, serial: Serial, accepts: bool) {
    && !s.lock.protected && onSeat && popup in s.popups
    && s.popups[popup] !in s.dead
    && s.actions.DeliveredTo(serial, s.popups[popup].client)
    && MayStartPopupGrab(Activity(s), ChainOwner(s), s.popups[popup].client)
    && accepts
  }

  /** Smithay extends an open chain and starts a new one otherwise. */
  function ExtendedChain(s: App, popup: Surface): Chain
    requires popup in s.popups
  {
    Chain(s.popups[popup], (if ChainIsOver(s) then [] else s.popupGrab.value.popups) + [popup])
  }

  /** The grabs and the focus of a chain that has just been extended. */
  function InstallGrabs(s: App, chain: Chain): (t: App)
    ensures KeepsWindows(s, t)
  {
    var grabbed := SetPointerGrab(s, Menu(chain.root)).(keyboardGrab := true, popupGrab := Some(chain));
    SetKeyboardFocus(grabbed, Some(CurrentGrab(grabbed, chain)))
  }

  function Granted(s: App, popup: Surface): (t: App)
    requires popup in s.popups
    ensures KeepsLock(s, t)
  {
    var window := FindRoot(s.stack, s.popups[popup]);
    var raised := if window.Some? then s.(stack := Raise(s.stack, window.value.id)) else s;
    InstallGrabs(raised, ExtendedChain(s, popup))
  }

  function GrabPopupStep(s: App, popup: Surface, onSeat: bool, serial: Serial, accepts: bool): (t: App)
    ensures KeepsLock(s, t)
  {
    if Grants(s, popup, onSeat, serial, accepts) then Granted(s, popup)
    else s.(popups := Untrack(s.popups, [popup]))
  }

  function SettlePopupGrab(s: App, under: Option<Surface>): (t: App)
    ensures KeepsWindows(s, t)
  {
    match s.popupGrab
    case None => s
    case Some(chain) =>
      match GrabbingPopup(s, chain)
      case Some(popup) => if s.keyboardGrab && s.keyboardFocus != Some(popup) then SetKeyboardFocus(s, Some(popup)) else s
      case None => ReleasePopupGrab(s.(popupGrab := None), chain, under)
  }

  /** The focus fallback, when the focus the policy acts on has died. */
  function RefocusIfDead(s: App): (t: App)
    ensures KeepsGrabs(s, t)
  {
    if PolicyFocus(s).Some? && PolicyFocus(s).value in s.dead then FocusTopmost(s) else s
  }

  function ReapDeadClients(s: App, under: Option<Surface>): (t: App)
    ensures KeepsLock(s, t)
  {
    var reaped := s.(stack := Reap(s.stack, s.dead));
    var kept := KeepKeyboardOnLockSurface(RefocusIfDead(reaped));
    if |reaped.stack| < |s.stack| then RefreshPointerFocus(kept, under) else kept
  }

  /** `render::refresh`. */
  function RefreshStep(s: App, under: Option<Surface>): (t: App)
    ensures KeepsLock(s, t)
  {
    ReapDeadClients(SettlePopupGrab(s, under), under)
  }

  // ---- Input ---------------------------------------------------------------------------------

  function Recorded(s: App, kind: Kind, serial: Serial, receiver: Option<Client>): (t: App)
    ensures RecordsOne(s, t, kind, serial)
  {
    var action := Action(kind, serial, receiver);
    s.(actions := Record(s.actions, action), history := s.history + [Acted(action)])
  }

  /** Smithay's popup keyboard grab before it forwards a key. */
  function PopupGrabSeesKey(s: App): (t: App)
    ensures KeepsWindows(s, t)
  {
    if !s.keyboardGrab || s.popupGrab.None? then s
    else match GrabbingPopup(s, s.popupGrab.value)
      case Some(popup) => SetKeyboardFocus(s, Some(popup))
      case None => SetKeyboardFocus(s.(keyboardGrab := false), Some(s.popupGrab.value.root))
  }

  function KeyStep(s: App, pressed: bool, serial: Serial, intercepted: bool): (t: App)
    ensures RecordsOne(s, t, if pressed then KeyPress else KeyRelease, serial)
  {
    var forwarded := if intercepted then s else PopupGrabSeesKey(s);
    var receiver := if intercepted then None else ClientOf(forwarded, forwarded.keyboardFocus);
    Recorded(forwarded, if pressed then KeyPress else KeyRelease, serial, receiver)
  }

  /** The click-to-focus rule. */
  function ClickToFocus(s: App, under: Option<Surface>): (t: App)
    ensures KeepsLock(s, t)
  {
    var window := if under.Some? then Owner(s, s.stack, under.value) else None;
    if window.Some? && window.value.IsFocusable() then FocusWindow(s, window.value.id, under) else s
  }

  /** A menu's chain is dismissed by Smithay; its grab ends with the next. */
  function DismissChainInPlace(s: App): (t: App)
    ensures KeepsWindows(s, t)
  {
    match s.popupGrab
    case None => s
    case Some(chain) => s.(popups := Untrack(s.popups, chain.popups), popupGrab := Some(chain.(popups := [])))
  }

  /** A press outside an open menu ends it and goes where the pointer is. */
  function PressThroughMenu(s: App, under: Option<Surface>): (t: App)
    ensures KeepsWindows(s, t)
  {
    var freed := MotionTo(UnsetPointerGrab(DismissChainInPlace(s)), under);
    freed.(pointerGrab := Click(freed.pointerFocus))
  }

  /** Smithay's handling of a press under the current grab. */
  function DeliverPress(s: App, under: Option<Surface>): (t: App)
    ensures KeepsWindows(s, t)
  {
    match s.pointerGrab
    case Free => s.(pointerGrab := Click(s.pointerFocus))
    case Menu(root) =>
      if !ChainIsOver(s) && under.Some? && under.value.client == root.client then s else PressThroughMenu(s, under)
    case _ => s
  }

  function ForwardPress(s: App, serial: Serial, under: Option<Surface>): (t: App)
    ensures RecordsOne(s, t, ButtonPress, serial)
  {
    var delivered := DeliverPress(s, under);
    Recorded(delivered, ButtonPress, serial, ClientOf(delivered, delivered.pointerFocus))
  }

  function FocusClickedLockSurface(s: App): (t: App)
    ensures KeepsGrabs(s, t)
  {
    if s.pointerFocus.Some? && s.pointerFocus.value !in s.dead && IsLockSurface(s.lock, s.pointerFocus.value)
    then SetKeyboardFocus(s, s.pointerFocus)
    else s
  }

  function ButtonPressStep(s: App, serial: Serial, under: Option<Surface>): (t: App)
    ensures RecordsOne(s, t, ButtonPress, serial)
  {
    if s.lock.protected then ForwardPress(FocusClickedLockSurface(s), serial, LockSurfaceAt(s, s.pointer))
    else
      var clicked := if s.pointerGrab.Free? then RefreshPointerFocus(ClickToFocus(s, under), under) else s;
      ForwardPress(clicked, serial, under)
  }

  /** A release. It lets go of a menu whose chain is over; the last one ends a
      click, move, resize or drag grab. */
  function ButtonReleaseStep(s: App, last: bool, under: Option<Surface>): (t: App)
    ensures KeepsWindows(s, t)
  {
    if s.pointerGrab.Menu? then if ChainIsOver(s) then UnsetPointerGrab(s) else s
    else if !last || s.pointerGrab.Free? then s
    else if s.pointerGrab.Moving? || s.pointerGrab.Resizing? then MotionTo(s.(pointerGrab := Free), under)
    else UnsetPointerGrab(s)
  }

  function MotionStep(s: App, towards: RealPoint, under: Option<Surface>): (t: App)
    ensures KeepsWindows(s, t.(pointer := s.pointer))
  {
    var moved := s.(pointer := Clamp(s.layout, towards));
    if s.lock.protected then MotionTo(moved, LockSurfaceAt(s, moved.pointer))
    else MotionTo(if moved.pointerGrab.Menu? && ChainIsOver(moved) then UnsetPointerGrab(moved) else moved, under)
  }

  /** `touch_dismisses_popup_chain`. */
  predicate TouchDismisses(chainOwner: Option<Client>, touched: Option<Client>) {
    chainOwner.Some? && touched != chainOwner
  }

  function DeliverTouch(s: App, serial: Serial, touched: Option<Surface>): (t: App)
    ensures RecordsOne(s, t, TouchDown, serial)
  {
    var started := if s.touch.Some? then s else s.(touch := Some(touched));
    Recorded(started, TouchDown, serial, ClientOf(started, started.touch.value))
  }

  function TouchDownStep(s: App, serial: Serial, at: RealPoint, touched: Option<Surface>, under: Option<Surface>): (t: App)
    ensures RecordsOne(s, t, TouchDown, serial)
  {
    if s.lock.protected then DeliverTouch(s, serial, LockSurfaceAt(s, at))
    else
      var dismissed := if s.touch.None? && TouchDismisses(ChainOwner(s), ClientOf(s, touched)) then DismissPopupGrab(s, under) else s;
      DeliverTouch(dismissed, serial, touched)
  }

  /** `grab_start`: a move or resize continues an implicit grab on the window. */
  predicate MayBeginGrab(s: App, id: nat) {
    var window := Get(s.stack, id);
    && !s.lock.protected && window.Some? && window.value.IsFocusable()
    && s.pointerGrab.Click? && s.pointerGrab.pressed.Some? && Matches(s, window.value, s.pointerGrab.pressed.value)
  }

  function BeginGrabStep(s: App, id: nat, grab: PointerGrab): (t: App)
    ensures KeepsWindows(s, t)
  {
    if MayBeginGrab(s, id) then MotionTo(SetPointerGrab(s, grab), None) else s
  }

  /** Smithay starts a drag for whoever names the grab's serial. */
  function StartDragStep(s: App, source: Option<Client>): (t: App)
    ensures KeepsWindows(s, t)
  {
    if s.pointerGrab.Free? then s
    else
      var foreign := s.lock.protected && !(source.Some? && IsLocker(s.lock, source.value));
      var dragging := SetPointerGrab(s, Drag(source)).(pointerFocus := None);
      dragging.(cancelDrag := s.cancelDrag || foreign)
  }

  /** `finish_client_dispatch`. */
  function FinishDispatchStep(s: App): (t: App)
    ensures KeepsWindows(s, t)
  {
    if !s.cancelDrag then s
    else if s.pointerGrab.Drag? then UnsetPointerGrab(s.(cancelDrag := false))
    else s.(cancelDrag := false)
  }

  // ---- Steps and runs ---------------------------------------------------------------------------

  datatype Step =
    | LockRequest(sender: LockObject)
    | UnlockRequest(sender: LockObject, under: Option<Surface>)
    | NewLockSurface(surface: Surface, output: string)
    | ProtectedFrame(output: string)
    | NewToplevel(surface: Surface)
    | Commit(id: nat, frame: Option<Rect>, under: Option<Surface>)
    | MapX11(surface: Surface, overrideRedirect: bool, geometry: Rect, under: Option<Surface>)
    | RemoveWindow(id: nat, under: Option<Surface>)
    | Die(surfaces: set<Surface>)
    | SetLayout(layout: Layout, under: Option<Surface>)
    | NewPopup(popup: Surface, root: Surface)
    | GrabPopup(popup: Surface, onSeat: bool, serial: Serial, accepts: bool)
    | Key(pressed: bool, serial: Serial, intercepted: bool)
    | ButtonPressed(serial: Serial, under: Option<Surface>)
    | ButtonReleased(last: bool, under: Option<Surface>)
    | Motion(towards: RealPoint, under: Option<Surface>)
    | TouchedDown(serial: Serial, at: RealPoint, touched: Option<Surface>, under: Option<Surface>)
    | TouchedUp(last: bool)
    | BeginMove(id: nat)
    | BeginResize(id: nat)
    | StartDrag(source: Option<Client>)
    | FinishDispatch
    | Refresh(under: Option<Surface>)

  function Next(s: App, step: Step): App {
    match step
    case LockRequest(sender) => LockSession(s, sender)
    case UnlockRequest(sender, under) => UnlockSession(s, sender, under)
    case NewLockSurface(surface, output) => NewLockSurfaceStep(s, surface, output)
    case ProtectedFrame(output) => s.(lock := NotePresented(s.lock, output))
    case NewToplevel(surface) => Inserted(s, surface, false, None, Rect(Point(0, 0), Size(0, 0)))
    case Commit(id, frame, under) => CommitStep(s, id, frame, under)
    case MapX11(surface, overrideRedirect, geometry, under) => MapX11Step(s, surface, overrideRedirect, geometry, under)
    case RemoveWindow(id, under) => RemoveWindowStep(s, id, under)
    case Die(surfaces) => DieStep(s, surfaces)
    case SetLayout(layout, under) => SetLayoutStep(s, layout, under)
    case NewPopup(popup, root) => s.(popups := s.popups[popup := root])
    case GrabPopup(popup, onSeat, serial, accepts) => GrabPopupStep(s, popup, onSeat, serial, accepts)
    case Key(pressed, serial, intercepted) => KeyStep(s, pressed, serial, intercepted)
    case ButtonPressed(serial, under) => ButtonPressStep(s, serial, under)
    case ButtonReleased(last, under) => ButtonReleaseStep(s, last, under)
    case Motion(towards, under) => MotionStep(s, towards, under)
    case TouchedDown(serial, at, touched, under) => TouchDownStep(s, serial, at, touched, under)
    case TouchedUp(last) => if last then s.(touch := None) else s
    case BeginMove(id) => BeginGrabStep(s, id, Moving)
    case BeginResize(id) => BeginGrabStep(s, id, Resizing)
    case StartDrag(source) => StartDragStep(s, source)
    case FinishDispatch => FinishDispatchStep(s)
    case Refresh(under) => RefreshStep(s, under)
  }

  /** The assumptions on clients and on Smithay: lock objects are new, roles are
      permanent, a surface carries one window, and Smithay nests a grab only
      inside the open chain's window. */
  ghost predicate Enabled(s: App, step: Step) {
    match step
    case LockRequest(sender) => LockStepEnabled(s.lock, SessionLock.LockRequest(sender))
    case NewLockSurface(surface, _) => surface.role == LockRole && surface !in s.dead
    case NewToplevel(surface) => surface.role == ToplevelRole && FindRoot(s.stack, surface).None?
    case MapX11(surface, _, _, _) => surface.role == X11Role
    case NewPopup(popup, root) => popup.role == PopupRole && root.role == ToplevelRole && popup.client == root.client && popup !in s.dead
    case GrabPopup(popup, _, _, accepts) =>
      && popup.role == PopupRole
      && (accepts && popup in s.popups && !ChainIsOver(s) ==>
            s.popups[popup] == s.popupGrab.value.root && popup !in s.popupGrab.value.popups)
    case _ => true
  }

  function Run(s: App, steps: seq<Step>): App {
    if steps == [] then s else Next(Run(s, steps[..|steps| - 1]), steps[|steps| - 1])
  }

  ghost predicate Legal(s: App, steps: seq<Step>) {
    forall n :: 0 <= n < |steps| ==> Enabled(Run(s, steps[..n]), steps[n])
  }
}
