# nkdhr: verified models of its protocol cores

nkdhr is a Wayland compositor (`nkdhr-compositor`) with a control-plane daemon
(`nkdhrd`). Most of its code moves bytes between libraries. This project models
the state machines and algorithms with obligations of their own, and proves what
they promise over every input, every run and every reachable state.

| File | What it models |
|---|---|
| `Wrappers.dfy`, `Geometry.dfy`, `Objects.dfy` | failures; `i32` geometry with explicit saturation; clients, surfaces, lock objects |
| `Outputs.dfy`, `LayoutCanonicity.dfy`, `LayoutGeometry.dfy` | the output layout: sorting, packing, normalization, pointer clamping |
| `Windows.dfy` | the window store, the placement rules and the keep-reachable rule |
| `Resize.dfy` | interactive resizes and their fixed edge |
| `SessionLock.dfy` | the session-lock runtime |
| `Tty.dfy`, `TtyBackend.dfy` | lock confirmation against frames in flight on the TTY backend |
| `UserActions.dfy` | the record of user actions a popup grab may name |
| `Session.dfy` | session lock, focus policy, popup grabs and input routing as one step machine |
| `SessionApp.dfy` | the same as the source holds it: an object whose methods update fields |
| `SessionInvariant.dfy`, `SessionSafety.dfy` | what every run of that machine keeps and promises |
| `MenuGrabs.dfy`, `FocusPolicy.dfy`, `StrayFocus.dfy` | where the focus goes when a menu ends, who may hold it, and the runs in which it strays |
| `Desks.dfy`, `LockTransparency.dfy` | the session refines a window manager without lock, menus or seat; a lock is transparent to windows, and exactly when |
| `DottedKeys.dfy`, `ConfigTree.dfy`, `ConfigStore.dfy`, `OutputsSchema.dfy` | the config store and the `outputs` namespace |
| `Wire.dfy` | the arrangement as D-Bus variants and the compositor's decoder of it |
| `ConfigSync.dfy` | the store under concurrent sets, reloads and external edits |
| `Shutdown.dfy`, `SignalOrder.dfy` | stop-signal handlers interleaved with each other and with registration; which orders of actions can lose a stop request |
| `Screencopy.dfy` | the screen-capture queue and the row copy |
| `PointerConstraints.dfy` | locked and confined pointers |

Code that updates state in place is a class whose methods are proved against
functions on values (`State() == F(old(State()), ...)`); the functions then make
up step machines, and the theorems are about their runs.

`i32` is `int` with saturation written out where the source saturates; `f64` is
`real`. Serials do not wrap.

## Assumptions

These are the things taken from outside the modelled code.

- Smithay's seat behaves as the repository's comments say. A popup keyboard grab
  drops every focus change but the one to its chain's topmost popup. Ending a
  popup pointer grab while the keyboard grab is active ends that one too and
  focuses the chain's root. A click grab keeps pointer focus; a move, a resize and
  a drag clear it; ending a grab restores the focus of the last motion.
- What lies under the pointer is given with each step (`under`); the hit test is
  not modelled, so the results hold for every answer it may give.
- A lock object is new when it is used, a surface's role is permanent, a surface
  carries one window, and Smithay nests a popup grab only in the open chain's
  window.
- A vblank comes only for the frame outstanding on an output; pausing the DRM
  devices and restoring modifiers discard the frame in flight; connector names
  are distinct; a newly connected output starts blank.
- TOML written and parsed again is the same tree. No inotify event is lost, though
  equal ones in a row may be merged.
- A signal handler runs the actions registered for its signal when it started.

## Where the code and its comments differ

The comment at `crates/nkdhr-compositor/src/shutdown.rs:103-107` lists the actions
of a forcing signal as conditional exit, arming, recording. The code at lines
136-142 registers recording, conditional exit, arming. The model follows the code.
`SignalOrder.RequestsAreLostExactlyIf` says which orders allow a forced exit with
no stop request recorded; the comment's is one.

The comments at `crates/nkdhr-compositor/src/state.rs:402` and 451-456 promise
that an unplaced toplevel is never focused and that a menu whose root window is
unmapped gives the focus to the fallback. The code keeps that promise where it
ends the menu itself. Where a click, a motion, a key or a drag ends it, Smithay
hands the focus to the root surface, as the comment at lines 988-990 of the same
file says, and nothing takes it away from an unmapped root; a lock under an open
menu can remember such a root too. `MenuGrabs.MenusEndedByInputReturnFocus` and
`FocusPolicy.FocusStraysExactlyWhen` give the exact condition,
`LockTransparency.LockIsTransparentExactlyIfItKeepsTheFocus` what it means for a
lock, and `StrayFocus` the shortest runs.

## Model

| member | source | states |
|---|---|---|
| Outputs.Partition | crates/nkdhr-compositor/src/outputs.rs:95-102 | the loop splits the connected outputs by whether the configuration names them, keeping each part's order |
| Outputs.PackAll | crates/nkdhr-compositor/src/outputs.rs:114-125 | unconfigured outputs go in a row to the right of the configured area, each starting where the last one ends, saturating |
| Outputs.TranslateAll | crates/nkdhr-compositor/src/outputs.rs:127-132 | every location loses the bounding box's corner, and only that changes |
| Outputs.Resolve | crates/nkdhr-compositor/src/outputs.rs:94-134 | the imperative resolution is the layout function whose properties the rows below prove |
| Outputs.OutputAt | crates/nkdhr-compositor/src/outputs.rs:150-153 | the first output that contains the point, and none only if no output does |
| LayoutCanonicity.SortedIsUnique | crates/nkdhr-compositor/src/outputs.rs:103-104 | there is one order by connector name of outputs with distinct names |
| LayoutCanonicity.ResolveIsCanonical | crates/nkdhr-compositor/src/outputs.rs:94-134 | every permutation of the connected list resolves to the same layout |
| LayoutCanonicity.ResolveDependsOnElements | crates/nkdhr-compositor/src/backends/tty.rs:979-988 | the layout depends only on which outputs are connected, so the order in which hash maps yield them does not matter |
| LayoutCanonicity.ResolveIsAPermutation | crates/nkdhr-compositor/src/outputs.rs:94-134 | the resolved outputs are exactly the connected ones, each as often as it was listed, saturation included |
| LayoutCanonicity.ResolvedNames | crates/nkdhr-compositor/src/outputs.rs:94-134 | the layout names exactly the connected connectors |
| LayoutGeometry.BoundsCorner | crates/nkdhr-compositor/src/outputs.rs:206-211 | the corner of the saturating bounding box is the least coordinate on each axis |
| LayoutGeometry.LayoutStartsAtTheOrigin | crates/nkdhr-compositor/src/outputs.rs:94-134 | for every `i32` configuration all locations are nonnegative, and a nonempty layout reaches 0 on each axis |
| LayoutGeometry.PackedOutputsFormARow | crates/nkdhr-compositor/src/outputs.rs:113-133 | packed outputs are level with the top of the layout, at 0, and never step back to the left, saturation included |
| LayoutGeometry.PackedOutputsAreDisjoint | crates/nkdhr-compositor/src/outputs.rs:94-134 | absent saturation a packed output overlaps no other output, packed or configured |
| LayoutGeometry.LayoutIsTranslationInvariant | crates/nkdhr-compositor/src/outputs.rs:94-134 | absent saturation, moving every configured position by one offset leaves the layout as it was |
| LayoutGeometry.ResolvedLayoutIsUsable | crates/nkdhr-compositor/src/outputs.rs:94-134 | absent saturation a resolved layout is one on which the placement rules below compute exactly |
| LayoutGeometry.ClampStaysInside | crates/nkdhr-compositor/src/outputs.rs:172-181 | a clamped point lies in some output, points of the union are fixed, and clamping twice is clamping once |
| LayoutGeometry.ClampIsNearest | crates/nkdhr-compositor/src/outputs.rs:172-181 | no point of any output's box, far edges pulled in by a pixel, is nearer than the clamped point |
| LayoutGeometry.BoxClampIsNearest | crates/nkdhr-compositor/src/outputs.rs:59-68 | one output's clamp is the nearest point of its box |
| Windows.WindowStore.Insert | crates/nkdhr-compositor/src/windows.rs:220-239 | a window goes on top under an id no window has had |
| Windows.WindowStore.Place | crates/nkdhr-compositor/src/windows.rs:242-246 | sets the location and raises the window, if it exists |
| Windows.WindowStore.Unplace | crates/nkdhr-compositor/src/windows.rs:249-254 | forgets the location and any resize, and keeps the stacking |
| Windows.WindowStore.RaiseWindow | crates/nkdhr-compositor/src/windows.rs:268-273 | moves one window to the top and keeps the others' order |
| Windows.WindowStore.RemoveWindow | crates/nkdhr-compositor/src/windows.rs:275-278 | removes one window and keeps the others' order |
| Windows.WindowStore.ReapDead | crates/nkdhr-compositor/src/windows.rs:343-349 | drops the windows whose surface has died and reports how many |
| Windows.ReapKeepsOrder | crates/nkdhr-compositor/src/windows.rs:343-349 | reaping keeps exactly the live windows |
| Windows.TopmostFocusable | crates/nkdhr-compositor/src/windows.rs:302-307 | a window the policy may focus, and none only if no window qualifies |
| Windows.FindRoot | crates/nkdhr-compositor/src/windows.rs:289-293 | the window whose root surface this is, if any window's is |
| Windows.WindowStore.MoveWindow | crates/nkdhr-compositor/src/state.rs:351-374 | moves a live, placed window and forgets its resize; refuses any other |
| Windows.WindowStore.CollectStranded | crates/nkdhr-compositor/src/state.rs:308-321 | the list holds exactly the placed, managed windows on no output, each with its new location |
| Windows.WindowStore.KeepReachable | crates/nkdhr-compositor/src/state.rs:308-329 | collecting and moving one after another does to each window what the rule says, whatever the order |
| Windows.InitialLocationIsReachable | crates/nkdhr-compositor/src/windows.rs:370-390 | a window placed by the initial rule shows on an output |
| Windows.FrameIsCentred | crates/nkdhr-compositor/src/windows.rs:394-400 | margins differ by at most one pixel, and a frame larger than the output starts at its edge |
| Windows.EveryWindowStaysReachable | crates/nkdhr-compositor/src/state.rs:300-330 | after a layout change every live, placed, managed window shows on an output, if the place of each stranded one is computed exactly; those that did are unmoved, and so are stacking, dead, unplaced and override-redirect windows; a second application moves nothing |
| Resize.ResizableWindow.BeginResize | crates/nkdhr-compositor/src/grabs.rs:300-332 | starts a resize from the window's present location and size |
| Resize.ResizableWindow.PointerMotion | crates/nkdhr-compositor/src/grabs.rs:540-583 | asks a client for the clamped size, or moves and sizes an X11 window at once |
| Resize.ResizableWindow.Unset | crates/nkdhr-compositor/src/grabs.rs:601-623 | the grab's end waits for the last configure, and only for its own resize |
| Resize.ResizableWindow.CommitBuffer | crates/nkdhr-compositor/src/grabs.rs:232-240 | a commit corrects the location while the resize is in progress, and ends a resize whose last configure was acknowledged |
| Resize.ResizableWindow.AckConfigure | crates/nkdhr-compositor/src/grabs.rs:196-202 | an acknowledgement at or after the last configure leaves one commit to wait for |
| Resize.ResizableWindow.MoveWindow | crates/nkdhr-compositor/src/state.rs:351-374 | a move from outside ends the correction |
| Resize.ClampAxisIsNearest | crates/nkdhr-compositor/src/grabs.rs:150-159 | a clamped extent is positive and respects the hints, and no such extent is nearer to the one asked for |
| Resize.FixedEdgeHolds | crates/nkdhr-compositor/src/grabs.rs:97-248 | over any run of motions, commits of arbitrary sizes, and acknowledgements, every corrected commit of a left or top resize keeps location plus size at its starting value; only sizes that set a location must not saturate |
| Resize.CorrectionEndsAtTheFinalCommit | crates/nkdhr-compositor/src/grabs.rs:182-202 | correction ends exactly at the first commit after an acknowledgement of the last configure or a later one |
| Resize.MovedWindowStaysPut | crates/nkdhr-compositor/src/grabs.rs:204-227 | after a move from outside, no commit, motion, acknowledgement or end of that resize changes the location |
| SessionLock.SessionLockRuntime.ConfirmLockIfReady | crates/nkdhr-compositor/src/protocols/mod.rs:273-286 | `locked` is sent for an unconfirmed lock once every connected output has presented |
| SessionLock.SessionLockRuntime.BeginLock | crates/nkdhr-compositor/src/protocols/mod.rs:471-486 | a lock is taken unless another one is in force, which then stays as it is |
| SessionLock.SessionLockRuntime.Unlock | crates/nkdhr-compositor/src/protocols/mod.rs:493-501 | ends the lock for the confirmed lock in force alone, and keeps the connected outputs |
| SessionLock.SessionLockRuntime.NoteProtectedFrame | crates/nkdhr-compositor/src/protocols/mod.rs:266-271 | notes a presented output, if connected, and may confirm |
| SessionLock.SessionLockRuntime.Reconcile | crates/nkdhr-compositor/src/protocols/mod.rs:208-219 | outputs that left are forgotten with their lock surfaces, and the lock may become ready |
| SessionLock.LockStepKeepsInvariant | crates/nkdhr-compositor/src/protocols/mod.rs:208-286 | every step keeps: `locked` at most once a lock, sent exactly for confirmed ones, lock surfaces of connected outputs and of the locker |
| SessionLock.OnlyItsUnlockEndsALock | crates/nkdhr-compositor/src/protocols/mod.rs:134-136 | a lock ends if and only if the confirmed lock in force asks |
| SessionLock.LockedIsSentOnceAllPresented | crates/nkdhr-compositor/src/protocols/mod.rs:273-286 | `locked` goes to the lock in force, for the first time, when all connected outputs have presented |
| TtyBackend.TtyState.PauseDrmDevices | crates/nkdhr-compositor/src/backends/tty.rs:578-598 | pausing clears every surface's frame markers, once |
| TtyBackend.TtyState.ActivateDrmDevices | crates/nkdhr-compositor/src/backends/tty.rs:600-617 | reactivation clears the markers of the devices it reached, and stays paused if one failed |
| TtyBackend.TtyState.RenderEach | crates/nkdhr-compositor/src/backends/tty.rs:1028-1040 | each surface without an outstanding frame queues one, marked with whether the session was locked, in whatever order |
| TtyBackend.TtyState.FrameFinish | crates/nkdhr-compositor/src/backends/tty.rs:1184-1207 | the vblank consumes the marker, and a protected frame is noted |
| TtyBackend.TtyState.ConnectorConnected | crates/nkdhr-compositor/src/backends/tty.rs:803-897 | a new output starts with no frame outstanding |
| TtyBackend.TtyState.ConnectorDisconnected | crates/nkdhr-compositor/src/backends/tty.rs:899-961 | the output goes, and restored modifiers discard the frames in flight on its device |
| TtyBackend.TtyState.ConnectedOutputs | crates/nkdhr-compositor/src/backends/tty.rs:979-988 | lists every connected output |
| TtyBackend.TtyState.ReconcileOutputLayout | crates/nkdhr-compositor/src/backends/tty.rs:994-1026 | layout and lock runtime follow the connected outputs |
| TtyBackend.TtyState.DeviceChanged | crates/nkdhr-compositor/src/backends/tty.rs:765-801 | a rescan applies its connector changes in turn and then reconciles, and does nothing while paused |
| TtyBackend.TtyState.RemoveDevice | crates/nkdhr-compositor/src/backends/tty.rs:963-977 | a device goes with all its outputs, and the layout follows |
| Tty.StepKeepsInvariant | crates/nkdhr-compositor/src/backends/tty.rs:1042-1207 | every step keeps the markers true of the frame in flight, and a presented output free of unlocked frames |
| Tty.ReachableStatesKeepInvariant | crates/nkdhr-compositor/src/backends/tty.rs:1028-1207 | the same over every run of locks, rendering, vblanks, pauses and hotplug |
| Tty.LockedSessionsShowNoUnlockedFrame | crates/nkdhr-compositor/src/backends/tty.rs:578-617 | from `locked` until the unlock no connected output scans out a frame composed while unlocked, even one in flight as the lock began; `locked` is sent at most once a lock; while paused no output has a marker |
| UserActions.UserActionRecords.RecordKey | crates/nkdhr-compositor/src/input.rs:106-112 | a key press or release replaces the one of its kind |
| UserActions.UserActionRecords.RecordButtonPress | crates/nkdhr-compositor/src/input.rs:114-116 | a button press replaces the last one, even if it reached nobody |
| UserActions.UserActionRecords.RecordTouchDown | crates/nkdhr-compositor/src/input.rs:118-120 | a touch-down replaces the last one |
| UserActions.SummaryHoldsTheLatest | crates/nkdhr-compositor/src/input.rs:60-120 | the four records hold exactly the latest action of each kind since the last lock |
| UserActions.DeliveredToMatchesHistory | crates/nkdhr-compositor/src/input.rs:122-135 | `delivered_to` on four records answers as the whole history since the last lock would |
| Session.Owner | crates/nkdhr-compositor/src/state.rs:566-571 | the first window the surface belongs to, and none only if it belongs to none |
| Session.FirstLockSurface | crates/nkdhr-compositor/src/state.rs:615-624 | the live lock surface of the first output in layout order that has one, and none only if no output has one |
| SessionApp.App.SetKeyboardFocus | crates/nkdhr-compositor/src/state.rs:508-545 | the seat takes the focus unless a menu drops it; the selection follows |
| SessionApp.App.ApplyPolicyFocus | crates/nkdhr-compositor/src/state.rs:478-484 | live focus, or the remembered one under a lock |
| SessionApp.App.FocusWindow | crates/nkdhr-compositor/src/state.rs:412-438 | dismisses a menu, raises and focuses |
| SessionApp.App.FocusTopmost | crates/nkdhr-compositor/src/state.rs:443-449 | the fallback |
| SessionApp.App.FocusPopupRoot | crates/nkdhr-compositor/src/state.rs:457-475 | a chain's root window, or the fallback |
| SessionApp.App.RememberFocusForLock | crates/nkdhr-compositor/src/state.rs:556-573 | the menu's root, else the owner, else the focus |
| SessionApp.App.RestoreFocusAfterUnlock | crates/nkdhr-compositor/src/state.rs:578-584 | the remembered focus, or the fallback if it died |
| SessionApp.App.KeepKeyboardOnLockSurface | crates/nkdhr-compositor/src/state.rs:598-629 | a locked keyboard moves to a live lock surface |
| SessionApp.App.ProtectInputForLock | crates/nkdhr-compositor/src/protocols/mod.rs:320-343 | ends every grab, touch and focus |
| SessionApp.App.LockSession | crates/nkdhr-compositor/src/protocols/mod.rs:471-488 | begins, protects input, may confirm |
| SessionApp.App.UnlockSession | crates/nkdhr-compositor/src/protocols/mod.rs:493-507 | ends the lock and restores focus |
| SessionApp.App.NewLockSurface | crates/nkdhr-compositor/src/protocols/mod.rs:519-537 | from the locker for a known output only |
| SessionApp.App.RemoveWindow | crates/nkdhr-compositor/src/state.rs:632-641 | falls back if the window held the focus |
| SessionApp.App.PlaceToplevel | crates/nkdhr-compositor/src/state.rs:645-658 | places, raises and focuses |
| SessionApp.App.UnplaceToplevel | crates/nkdhr-compositor/src/state.rs:663-670 | unmaps, with the fallback |
| SessionApp.App.ToplevelCommitted | crates/nkdhr-compositor/src/state.rs:673-703 | which of the two a commit does |
| SessionApp.App.MapX11 | crates/nkdhr-compositor/src/protocols/xwayland.rs:74-102 | places and focuses, or shows an override-redirect window |
| SessionApp.App.SetOutputLayout | crates/nkdhr-compositor/src/state.rs:300-330 | lock, layout, keyboard and windows in turn |
| SessionApp.App.ReapDeadClients | crates/nkdhr-compositor/src/state.rs:717-745 | drops dead windows, moves a dead focus |
| SessionApp.App.Refresh | crates/nkdhr-compositor/src/render.rs:311-318 | settles before it reaps |
| SessionApp.App.ReleasePopupGrab | crates/nkdhr-compositor/src/state.rs:991-1012 | keyboard grab first, then the pointer's, then the focus |
| SessionApp.App.DismissPopupGrab | crates/nkdhr-compositor/src/state.rs:970-975 | dismisses the chain and releases it |
| SessionApp.App.GrabPopup | crates/nkdhr-compositor/src/state.rs:844-886 | grants exactly under the grant rule |
| SessionApp.App.SettlePopupGrab | crates/nkdhr-compositor/src/state.rs:939-960 | keeps an open chain focused, releases a finished one |
| SessionApp.App.KeyInput | crates/nkdhr-compositor/src/input.rs:316-351 | the menu sees the key, the receiver is recorded |
| SessionApp.App.PressButton | crates/nkdhr-compositor/src/input.rs:655-677 | focuses, ends a missed menu, records the receiver |
| SessionApp.App.TouchDown | crates/nkdhr-compositor/src/input.rs:189-194 | a touch outside dismisses the menu; the receiver is recorded |
| SessionApp.App.MovePointer | crates/nkdhr-compositor/src/input.rs:613-632 | inside the layout; lock surfaces only while locked |
| SessionApp.App.FinishClientDispatch | crates/nkdhr-compositor/src/state.rs:756-760 | cancels a foreign drag under a lock |
| SessionApp.App.BeginGrab | crates/nkdhr-compositor/src/grabs.rs:262-296 | only from a press on the window, unlocked |
| SessionApp.App.StartDrag | crates/nkdhr-compositor/src/state.rs:1405-1426 | marks a foreign drag under a lock |
| SessionInvariant.LockKeeps | crates/nkdhr-compositor/src/protocols/mod.rs:320-343 | a lock reaches a state in which no input reaches a window |
| SessionInvariant.UnlockKeeps | crates/nkdhr-compositor/src/protocols/mod.rs:493-507 | an unlock restores a window's focus and no lock surface's |
| SessionInvariant.SetLayoutKeeps | crates/nkdhr-compositor/src/state.rs:300-330 | a layout change keeps lock surfaces on outputs in the layout and the invariant of locked input |
| SessionInvariant.RefreshKeeps | crates/nkdhr-compositor/src/render.rs:311-318 | so does a refresh |
| SessionInvariant.StepKeepsInvariant | crates/nkdhr-compositor/src/state.rs:412-1020 | so does every step |
| SessionInvariant.ReachableStatesKeepInvariant | crates/nkdhr-compositor/src/state.rs:844-1020 | in every reachable state a popup grab on keyboard or pointer implies `popup_grab` is set, locked input is sealed, and every focus under a lock went to a surface accepted for that lock |
| SessionSafety.OnlyItsUnlockEndsTheLock | crates/nkdhr-compositor/src/protocols/mod.rs:563-602 | no step but `unlock_and_destroy` on the confirmed lock in force leaves the locked state, and that one does; no step replaces the lock |
| SessionSafety.LockOutlivesEveryRun | crates/nkdhr-compositor/src/protocols/mod.rs:471-507 | a run either ends under the lock it started in or contains that request |
| SessionSafety.LockedSessionsFailClosed | crates/nkdhr-compositor/src/input.rs:255-296 | in every reachable locked state keyboard, pointer and touch reach the locker's surfaces only, there is no popup, move or resize grab and no selection, and lock surfaces are the locker's and of outputs in the layout |
| SessionSafety.ForeignDragsAreCancelled | crates/nkdhr-compositor/src/state.rs:747-760 | after a dispatch a drag under a lock is the locker's |
| SessionSafety.HistoryIsComplete | crates/nkdhr-compositor/src/input.rs:316-351 | the history holds one entry for each key, press and touch-down and for each accepted lock, and nothing else |
| SessionSafety.GrantsNameARealAction | crates/nkdhr-compositor/src/state.rs:844-918 | a granted grab names the latest action of its kind, delivered to that client after the last lock began, while unlocked, with no other client's chain open or button holding the pointer |
| SessionSafety.TopmostOfReaped | crates/nkdhr-compositor/src/windows.rs:302-349 | a live topmost window stays topmost when dead ones are reaped |
| SessionSafety.ReleaseReturnsFocus | crates/nkdhr-compositor/src/state.rs:983-1012 | a released chain keeps no grab, and the focus it held is at its root or at the topmost window |
| SessionSafety.RefreshSettlesThePopupGrab | crates/nkdhr-compositor/src/state.rs:920-960 | after a refresh a popup grab has an open chain; a finished one is gone with its grabs. A chain that holds the keyboard has it on its topmost popup, or gives it back to its root window or the topmost live one; a chain without it leaves the focus alone |
| SessionSafety.RefreshLeavesNothingDead | crates/nkdhr-compositor/src/state.rs:705-745 | after a refresh all windows live, and so do the live focus and the remembered one |
| MenuGrabs.StepKeepsMenu | crates/nkdhr-compositor/src/state.rs:844-1012 | every step keeps: a menu's pointer grab is its chain's, its keyboard grab comes with it and has the focus on the chain, and without it no popup is focused |
| MenuGrabs.MenusEndedByInputReturnFocus | crates/nkdhr-compositor/src/state.rs:981-1012 | a menu that holds the keyboard and is ended by a press, release, motion, key or drag has the focus at its root after the next refresh, or at the topmost live window once the root has died; that is where it belongs if and only if the root has died or its window can take the focus |
| MenuGrabs.DismissedMenusReturnFocus | crates/nkdhr-compositor/src/state.rs:451-475 | a menu ended by a touch outside or by a refresh always gives the focus to its root window, or to the topmost live one |
| FocusPolicy.ReachableMenusHaveTheirShape | crates/nkdhr-compositor/src/state.rs:844-1020 | the shape of a menu's grabs holds in every reachable state |
| FocusPolicy.FocusStraysExactlyWhen | crates/nkdhr-compositor/src/state.rs:397-484 | the focus stays none, dead, a focusable window's in the store or an open menu's, but for exactly two kinds of step: input that ends a menu whose live root cannot take the focus, and a lock under such a menu whose owner cannot either |
| FocusPolicy.ReachableFocusIsEarned | crates/nkdhr-compositor/src/state.rs:397-484 | over every run without such a step |
| FocusPolicy.RefreshedFocusHasItsPlace | crates/nkdhr-compositor/src/state.rs:705-745 | such a focus is, after a refresh, none, the topmost popup of the menu that holds the keyboard, or a live focusable window's |
| StrayFocus.AClickCanFocusAnUnmappedWindow | crates/nkdhr-compositor/src/state.rs:981-1012 | a menu is opened, its window unmaps, a click outside: the keyboard is with a toplevel that has no place |
| StrayFocus.ALockCanRememberAnUnmappedWindow | crates/nkdhr-compositor/src/state.rs:556-573 | a lock taken instead remembers that window, where dismissing the menu would focus nothing |
| StrayFocus.AnUnlockCanFocusALonePopup | crates/nkdhr-compositor/src/state.rs:547-584 | with the window removed under its menu, lock and unlock leave the focus on the popup with no grab |
| SessionSafety.KeyboardStaysOnALockSurface | crates/nkdhr-compositor/src/state.rs:586-629 | a locked keyboard stays on a live lock surface, and otherwise moves to that of the output under the pointer, else of the first output that has one, else to nothing |
| SessionSafety.FocusedWindowIsOnTop | crates/nkdhr-compositor/src/state.rs:412-438 | focusing a window that may be focused puts it on top, lets go of any menu and gives it the keyboard, or the focus after the lock |
| SessionSafety.AClickFocusesItsWindow | crates/nkdhr-compositor/src/input.rs:173-187 | a press on a window through a free pointer focuses and raises it, goes to the surface under the pointer and is recorded for its client |
| SessionSafety.PointerFocusFollowsTheScene | crates/nkdhr-compositor/src/input.rs:231-252 | after an unlock, a layout change, a removal, an X11 map, or a commit that maps or unmaps a toplevel, a free pointer's focus is what lies under it |
| LockTransparency.WindowEventsActOnTheDesk | crates/nkdhr-compositor/src/state.rs:412-501 | locked or not, a window event does what it does in a window manager with no lock, no popup grab and no seat, whoever has the focus |
| LockTransparency.LockedStepsLeaveTheDesk | crates/nkdhr-compositor/src/input.rs:255-296 | nothing else that happens under a lock touches windows or the focus to restore, unless that focus is a popup that asks for a grab |
| LockTransparency.LockKeepsTheFocusUnlessAPopupHasIt | crates/nkdhr-compositor/src/state.rs:556-573 | with no popup grab, the focus to restore is the live focus if and only if that is no popup of a window in the store, whose window is restored instead |
| LockTransparency.RememberedIsDismissedExactly | crates/nkdhr-compositor/src/state.rs:556-573 | under a menu that holds the keyboard a lock remembers what dismissing it would focus, if and only if its root window can take the focus or the focus's owner is the topmost window that may |
| LockTransparency.LockShowsAlikeDesksExactly | crates/nkdhr-compositor/src/protocols/mod.rs:320-343 | a lock begins on windows and a focus that serve as well as those after dismissing the menu, if and only if it keeps the focus |
| Desks.EventsKeepDesksAlike | crates/nkdhr-compositor/src/state.rs:412-501 | two desks whose focus differs only until dead windows are reaped stay so under every window event |
| LockTransparency.UnlockShowsTheDesk | crates/nkdhr-compositor/src/state.rs:578-584 | an unlock and a refresh leave what a refresh would leave without the lock |
| LockTransparency.LockIsTransparent | crates/nkdhr-compositor/src/state.rs:547-745 | lock, any run, unlock, refresh: stacking, places and keyboard focus are those of the run's window events with no lock, an open menu dismissed, whenever the lock keeps the focus |
| LockTransparency.LockIsNotTransparent | crates/nkdhr-compositor/src/state.rs:547-584 | where it does not, already the shortest run ends with another focus |
| LockTransparency.LockIsTransparentExactlyIfItKeepsTheFocus | crates/nkdhr-compositor/src/state.rs:547-745 | so transparency over all runs holds if and only if, before the lock, an open menu's root window can take the focus, or its owner has died or is topmost, and without a menu no popup of a window has the focus |
| LockTransparency.ARefusedGrabCanKeepTheFocus | crates/nkdhr-compositor/src/state.rs:850-853 | why a popup that holds the focus alone must ask for no grab under the lock |
| DottedKeys.SplitOfExtension | crates/nkdhrd/src/backends/config_store.rs:299-310 | splitting a key extended by segments gives the key's segments and then those |
| DottedKeys.ExtensionIsInjective | crates/nkdhrd/src/backends/config_store.rs:368-379 | two paths of nonempty, dot-free names never share a dotted key |
| DottedKeys.AtOrUnderIsAPrefix | crates/nkdhrd/src/backends/config_store.rs:181-203 | a key is at or under another exactly when its segments start with the other's |
| ConfigTree.SetLeafChangesOnePath | crates/nkdhrd/src/backends/config_store.rs:339-363 | setting succeeds exactly where something is, and changes no path that neither leads there nor goes on from it |
| ConfigStore.ConfigStore.constructor | crates/nkdhrd/src/backends/config_store.rs:122-165 | every namespace is opened from a valid file or from its defaults and written back; other files are untouched |
| ConfigStore.ConfigStore.NavigateTo | crates/nkdhrd/src/backends/config_store.rs:314-323 | the loop ends where the path leads, or nowhere |
| ConfigStore.ConfigStore.GetLeaf | crates/nkdhrd/src/backends/config_store.rs:172-179 | reads the cached value, with the source's errors |
| ConfigStore.Flatten | crates/nkdhrd/src/backends/config_store.rs:368-379 | collects every single value of the tree under its dotted key, in whatever order the table is walked, and loses nothing collected before |
| ConfigStore.GetReadsLeaves | crates/nkdhrd/src/backends/config_store.rs:172-179 | `get` succeeds with a value exactly on the dotted key of that value |
| ConfigStore.ConfigStore.GetAll | crates/nkdhrd/src/backends/config_store.rs:185-203 | the answer maps a key to a value exactly when `get` reads that value there and the key is at or under the prefix; it fails exactly where a prefix leads nowhere |
| ConfigStore.ConfigStore.Set | crates/nkdhrd/src/backends/config_store.rs:212-233 | cache and file change together or not at all |
| ConfigStore.ConfigStore.Reload | crates/nkdhrd/src/backends/config_store.rs:248-275 | a valid file replaces the tree and the answer is exactly the values that differ; any other file changes nothing |
| ConfigStore.ReplayedChangesAgree | crates/nkdhrd/src/backends/config_store.rs:236-275 | replaying that answer on the old view agrees with the new one on all surviving keys |
| OutputsSchema.SettingsRoundTrip | crates/nkdhr-ipc/src/outputs.rs:18-53 | a materialized arrangement reads back as itself |
| OutputsSchema.OutputsIsAGoodSchema | crates/nkdhrd/src/namespaces/outputs.rs:42-65 | whatever the schema accepts it materializes to a tree that dotted keys can address and that materializes to itself |
| OutputsSchema.GoodCachesHoldSettings | crates/nkdhrd/src/backends/config_store.rs:71-82 | whatever the store caches for the namespace is a valid arrangement |
| OutputsSchema.LeavesOfSettings | crates/nkdhrd/src/namespaces/outputs.rs:6-31 | a materialized arrangement has exactly three values a connector |
| OutputsSchema.SetChangesOneValue | crates/nkdhrd/src/backends/config_store.rs:205-233 | on `outputs` a set succeeds if and only if it names an existing value, carries one that will do and the file is written; then that one value changes, in cache and file, and otherwise nothing |
| Wire.VariantRoundTrip | crates/nkdhrd/src/backends/config_store.rs:387-428 | a value sent as a variant comes back as itself exactly when its integers fit 64 bits |
| Wire.WirePartsAreTheKey | crates/nkdhr-compositor/src/outputs.rs:305-315 | the decoder takes a key apart into connector and field exactly when it was written from them |
| Wire.DecodeFlat | crates/nkdhr-compositor/src/outputs.rs:303-332 | whatever order the values come in, the result is what they describe, with positive finite scales only |
| Wire.WireRoundTrip | crates/nkdhr-compositor/src/outputs.rs:297-332 | for every arrangement the schema accepts, flattening, converting and decoding gives that arrangement |
| ConfigSync.StepKeepsInvariant | crates/nkdhrd/src/modules/config.rs:89-129 | every step keeps: the cache agrees with a valid file, or an event, an open writer or a reload is still to come |
| ConfigSync.OpenedStoresAreInitial | crates/nkdhrd/src/backends/config_store.rs:122-165 | the store as it is opened is a start of these runs |
| ConfigSync.SetReplacesOneTree | crates/nkdhrd/src/backends/config_store.rs:212-233 | a successful set gives the namespace's cache and file one materialized tree, and a failed one changes neither |
| ConfigSync.QuiescentCachesAgree | crates/nkdhrd/src/modules/config.rs:89-129 | however sets, reloads and external edits interleave, with nothing outstanding and a valid file the cache is the materialized file |
| ConfigSync.InvalidFilesNeverChangeTheCache | crates/nkdhrd/src/backends/config_store.rs:244-275 | only an accepted set or a valid file ever changes the cache |
| ConfigSync.TheWatcherConverges | crates/nkdhrd/src/modules/config.rs:101-129 | left alone, the watcher brings any reachable state to agreement and leaves the file alone |
| Shutdown.Registry.InstallFor | crates/nkdhr-compositor/src/shutdown.rs:118-149 | registers for each signal that is not ignored: recording, conditional exit and arming, in this order, or recording alone |
| Shutdown.Registry.Install | crates/nkdhr-compositor/src/shutdown.rs:87-98 | registers the three stop signals, which have numbers of their own |
| Shutdown.PartialPlansAreBeginnings | crates/nkdhr-compositor/src/shutdown.rs:127-146 | however much is registered, a signal's actions are a beginning of its list |
| Shutdown.StepKeepsInvariant | crates/nkdhr-compositor/src/shutdown.rs:118-149 | every registration, delivery and action keeps: the exit is armed exactly by a finished forcing handler, and a forcing handler that has started to act has recorded the request |
| Shutdown.ForcedExitTakesTwoForcingDeliveries | crates/nkdhr-compositor/src/shutdown.rs:100-142 | a forced exit takes two deliveries of forcing signals and a recorded request, at any interleaving and any point of the registration |
| Shutdown.HangUpsOnlyRecord | crates/nkdhr-compositor/src/shutdown.rs:143-145 | the handler of a hang-up changes only its own record |
| Shutdown.AForcingSignalStaysNamed | crates/nkdhr-compositor/src/shutdown.rs:151-169 | once a forcing signal is recorded, `received` names a forcing signal for ever |
| Shutdown.ASecondForcingDeliveryExits | crates/nkdhr-compositor/src/shutdown.rs:118-149 | a fully registered forcing delivery that starts after another has finished cannot get past the conditional exit |
| SignalOrder.RequestsAreLostExactlyIf | crates/nkdhr-compositor/src/shutdown.rs:128-142 | for actions registered in any order, some run forces the exit with no request recorded if and only if one handler arms the exit, and one tests it, before any record of its own |
| SignalOrder.TheRegisteredOrderKeepsTheRequest | crates/nkdhr-compositor/src/shutdown.rs:136-142 | the order the code registers never does |
| SignalOrder.TheDocumentedOrderLosesTheRequest | crates/nkdhr-compositor/src/shutdown.rs:103-107 | the order of the comment can |
| Screencopy.ScreencopyState.TakePending | crates/nkdhr-compositor/src/protocols/screencopy.rs:39-56 | the one-pass split gives the requests of the output's first cursor policy, and leaves the others |
| Screencopy.ScreencopyState.ReconcileOutputs | crates/nkdhr-compositor/src/protocols/screencopy.rs:58-71 | requests of outputs that are gone fail, the others stay in order |
| Screencopy.ScreencopyState.Copy | crates/nkdhr-compositor/src/protocols/screencopy.rs:303-339 | a frame is used once, and queued only with a buffer that will do |
| Screencopy.ScreencopyState.FrameDestroyed | crates/nkdhr-compositor/src/protocols/screencopy.rs:341-359 | a destroyed frame's request goes, the others stay in order |
| Screencopy.TakingSplitsTheQueue | crates/nkdhr-compositor/src/protocols/screencopy.rs:39-56 | both parts keep the queue's order, nothing is lost or duplicated, and what is taken has one output and one cursor policy |
| Screencopy.TwoTakesDrainAnOutput | crates/nkdhr-compositor/src/protocols/screencopy.rs:39-56 | two takes with no request in between leave the output none and take no other's |
| Screencopy.Complete | crates/nkdhr-compositor/src/protocols/screencopy.rs:89-149 | succeeds exactly when frame and buffer fit, then has copied the rows, and otherwise leaves the pool alone |
| Screencopy.RowsAreCopied | crates/nkdhr-compositor/src/protocols/screencopy.rs:131-142 | every row is the frame's, at its stride, and every byte outside of the rows is left alone |
| PointerConstraints.SeatPointer.MotionTowards | crates/nkdhr-compositor/src/input.rs:529-597 | the motion under constraints as the source runs it |
| PointerConstraints.SeatPointer.ActivateConstraint | crates/nkdhr-compositor/src/input.rs:493-512 | activates only for the focused surface under the pointer, inside its region |
| PointerConstraints.MotionSettlesConstraints | crates/nkdhr-compositor/src/input.rs:512-597 | after a motion in any scene a constraint is active only on the surface under the pointer that holds its focus |
| PointerConstraints.OneConstraintIsActive | crates/nkdhr-compositor/src/input.rs:480-597 | while the scene is unchanged, after any run at most one constraint is active, with the pointer in its region |
| PointerConstraints.LockedPointersStay | crates/nkdhr-compositor/src/input.rs:542-553 | no run of motions moves a locked pointer |
| PointerConstraints.ConfinedPointersStay | crates/nkdhr-compositor/src/input.rs:554-579 | no run of motions takes a confined pointer off its surface or out of its region |
| PointerConstraints.ConfinedMotion | crates/nkdhr-compositor/src/input.rs:554-579 | a confined motion is taken whenever it stays on the surface and in the region, and refused in place otherwise |

## Left out

- LockTransparency.LockIsTransparent: a popup that holds the focus alone asks for no popup grab during the lock; `LockTransparency.ARefusedGrabCanKeepTheFocus` shows what happens otherwise. Input other than pointer motion is not replayed in the unlocked run, since there it would raise and focus windows.
- FocusPolicy.FocusStraysExactlyWhen: says which steps take an earned focus astray, not how long a stray focus stays so.
- Screencopy.Complete: rows of more than `i32::MAX` bytes are excluded, because the source's stride check saturates there.
- Wire.VariantRoundTrip: an integer beyond 64 bits is rounded by `f64`, which the model takes as exact.
- Outputs.Resolve: the rounding of `f64` arithmetic is not modelled, and `resolve` on duplicate connector names is covered by the permutation result only.
- PointerConstraints.SeatPointer.MotionTowards: relative-motion events and one-shot constraints are not modelled, and neither are grabs other than a held button.
- TtyBackend.TtyState.DeviceChanged: a device that is unknown, disabled or fails to scan is no event of the model, since nothing follows from it.
- Shutdown.ForcedExitTakesTwoForcingDeliveries: a signal that arrives before its first action is registered takes its default disposition, which is not part of the model; neither are errors of `sigaction`.
- ConfigStore.ConfigStore.constructor: reading and writing the files at start-up always succeeds.
- Resize.ResizableWindow.BeginResize: the checks before it; the session machine checks the press (`Session.MayBeginGrab`), and the seat and serial of the request are not modelled.
- SessionApp.App.BeginGrab: the seat and the serial of a request, and the window's own location while a move grab drags it.
- SessionApp.App.TouchDown: a touch drag-and-drop, which swallows further touches.
- TtyBackend.TtyState.ConnectorConnected: a connector that fails to be set up is no event of the model.
- Pointer constraints, and the bookkeeping of an interactive resize, are separate machines (`PointerConstraints`, `Resize`); the session machine keeps only which grab the pointer has, and window locations do not follow a move grab there.
- `set_leaf` mutates a clone through references; here it builds the changed tree.
- The session machine's windows carry their geometry as committed; `bbox`, sub-surfaces and the hit test are given, not computed.
- xdg `Activated` states, X11 restacking and the configure events of `fit_lock_surfaces` have no effect on the modelled state.
- Gestures, axis events and the virtual-terminal key tables.
- The order in which `Changed` signals of concurrent sets and reloads reach subscribers, and the time before the inotify watch is in place.
- The array form in which serde also accepts a table; the model calls it malformed.
- NaN and infinities arrive as null in a tree and as `NotFinite` on the wire, where both are refused; TOML and JSON text is not parsed.
- Whether every screen capture is answered: some error paths of the source return without an answer.
- Rendering, GBM, EGL and DRM calls, GPU selection, XWayland start-up, selection transfer, cursor images: calls into other libraries.
- The nested winit backend, whose submit-then-note is one step of the lock runtime.
- The other D-Bus modules, polkit, PipeWire, `nkdhrctl`, idle inhibitors and the shell tools.
