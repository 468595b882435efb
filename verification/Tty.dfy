/** Frames in flight and the session lock
    (crates/nkdhr-compositor/src/backends/tty.rs with protocols/mod.rs).

    `Kms` records what the source cannot see: the frame the kernel still has to
    scan out and the one on screen. The environment is assumed to deliver a
    vblank only for an outstanding frame, to drop the outstanding frame when the
    devices pause or the scanout modifiers are restored, and to give connectors
    distinct names. */
module Tty {
  import opened Wrappers
  import opened Objects
  import opened Outputs
  import opened Geometry
  import opened LayoutCanonicity
  import opened SessionLock

  datatype Crtc = Crtc(node: nat, handle: nat)

  datatype SurfaceData = SurfaceData(name: string, mode: Size, framePending: bool, protectedQueued: bool)

  /** How a frame was composed. */
  datatype Frame = LockedFrame | UnlockedFrame

  datatype Kms = Kms(flight: Option<Frame>, screen: Option<Frame>)

  type Surfaces = map<Crtc, SurfaceData>

  datatype State = State(
    surfaces: Surfaces, paused: bool, config: Placements, layout: Layout, lock: Lock, kms: map<Crtc, Kms>)

  /** What rendering one output came to. */
  datatype Outcome = Queued | NothingToDraw | Failed

  datatype Change =
    | Connected(crtc: Crtc, name: string, mode: Size)
    | Disconnected(crtc: Crtc, restored: bool)

  datatype Event =
    | Pause
    | Activate(reached: set<nat>, complete: bool)
    | RenderAll(outcomes: map<Crtc, Outcome>)
    | VBlank(crtc: Crtc, submitted: bool)
    | Rescan(changes: seq<Change>, dead: set<Surface>)
    | DeviceRemoved(node: nat, dead: set<Surface>)
    | ConfigChanged(config: Placements, dead: set<Surface>)
    | LockRequested(sender: LockObject)
    | UnlockRequested(sender: LockObject)

  ghost predicate DistinctConnectors(surfaces: Surfaces) {
    forall a, b :: a in surfaces && b in surfaces && surfaces[a].name == surfaces[b].name ==> a == b
  }

  function ConnectorNames(surfaces: Surfaces): set<string> {
    set crtc <- surfaces :: surfaces[crtc].name
  }

  function Idle(surface: SurfaceData): SurfaceData {
    surface.(framePending := false, protectedQueued := false)
  }

  /** Clears the frame markers of the surfaces on the given devices. */
  function ClearMarkers(surfaces: Surfaces, nodes: set<nat>): Surfaces {
    map crtc <- surfaces :: if crtc.node in nodes then Idle(surfaces[crtc]) else surfaces[crtc]
  }

  function DropFlights(kms: map<Crtc, Kms>, nodes: set<nat>): map<Crtc, Kms> {
    map crtc <- kms :: if crtc.node in nodes then kms[crtc].(flight := None) else kms[crtc]
  }

  function Nodes(surfaces: Surfaces): set<nat> {
    set crtc <- surfaces :: crtc.node
  }

  // ---- Steps -------------------------------------------------------------------

  function PauseStep(s: State): State {
    if s.paused then s
    else s.(paused := true, surfaces := ClearMarkers(s.surfaces, Nodes(s.surfaces)),
            kms := DropFlights(s.kms, Nodes(s.surfaces)))
  }

  /** Reactivates the devices in turn; `reached` are those reactivated before
      one failed, and all of them when `complete`. */
  function ActivateStep(s: State, reached: set<nat>, complete: bool): State {
    if !s.paused then s
    else s.(paused := !complete, surfaces := ClearMarkers(s.surfaces, reached), kms := DropFlights(s.kms, reached))
  }

  predicate Renders(s: State, crtc: Crtc, outcomes: map<Crtc, Outcome>) {
    && crtc in s.surfaces && !s.surfaces[crtc].framePending
    && s.surfaces[crtc].name in Names(s.layout)
    && crtc in outcomes && outcomes[crtc] == Queued
  }

  function Composition(locked: bool): Frame {
    if locked then LockedFrame else UnlockedFrame
  }

  function RenderAllStep(s: State, outcomes: map<Crtc, Outcome>): State {
    if s.paused then s
    else s.(
      surfaces := map crtc <- s.surfaces ::
        if Renders(s, crtc, outcomes)
        then s.surfaces[crtc].(framePending := true, protectedQueued := s.lock.protected)
        else s.surfaces[crtc],
      kms := map crtc <- s.kms ::
        if Renders(s, crtc, outcomes) then s.kms[crtc].(flight := Some(Composition(s.lock.protected))) else s.kms[crtc])
  }

  /** The outstanding frame reaches the screen, and `frame_finish` runs. */
  function VBlankStep(s: State, crtc: Crtc, submitted: bool): State {
    if crtc !in s.surfaces || crtc !in s.kms || s.kms[crtc].flight.None? then s
    else
      var surface := s.surfaces[crtc];
      var shown := s.(kms := s.kms[crtc := Kms(None, s.kms[crtc].flight)]);
      if submitted then
        shown.(
          surfaces := s.surfaces[crtc := Idle(surface)],
          lock := if surface.protectedQueued then NotePresented(s.lock, surface.name) else s.lock)
      else
        shown.(surfaces := s.surfaces[crtc := surface.(framePending := false)])
  }

  /** One connector change; a new output starts blank. */
  function ApplyChange(s: State, change: Change): State {
    match change
    case Connected(crtc, name, mode) =>
      s.(surfaces := s.surfaces[crtc := SurfaceData(name, mode, false, false)], kms := s.kms[crtc := Kms(None, None)])
    case Disconnected(crtc, restored) =>
      if crtc !in s.surfaces then s
      else
        var without := s.(surfaces := s.surfaces - {crtc}, kms := s.kms - {crtc});
        if restored
        then without.(surfaces := ClearMarkers(without.surfaces, {crtc.node}), kms := DropFlights(without.kms, {crtc.node}))
        else without
  }

  function ApplyChanges(s: State, changes: seq<Change>): State {
    if changes == [] then s
    else ApplyChange(ApplyChanges(s, changes[..|changes| - 1]), changes[|changes| - 1])
  }

  /** The connected outputs, in whatever order the maps yield them. */
  ghost function Listing(surfaces: Surfaces): (listing: seq<ConnectedOutput>)
    ensures forall output :: output in listing <==>
      exists crtc :: crtc in surfaces && output == ConnectedOutput(surfaces[crtc].name, surfaces[crtc].mode)
    ensures DistinctConnectors(surfaces) ==> DistinctNames(listing)
  {
    if surfaces == map[] then []
    else
      var crtc :| crtc in surfaces;
      var rest := Listing(surfaces - {crtc});
      assert forall other :: other in surfaces <==> other == crtc || other in surfaces - {crtc};
      assert DistinctConnectors(surfaces) ==> DistinctConnectors(surfaces - {crtc});
      assert DistinctConnectors(surfaces) ==> forall output <- rest :: output.name != surfaces[crtc].name;
      [ConnectedOutput(surfaces[crtc].name, surfaces[crtc].mode)] + rest
  }

  ghost function ReconcileLayout(s: State, dead: set<Surface>): State {
    var layout := ResolvedLayout(s.config, Listing(s.surfaces));
    if layout == s.layout then s
    else s.(layout := layout, lock := ReconcileOutputs(s.lock, Names(layout), dead))
  }

  ghost function DeviceRemovedStep(s: State, node: nat, dead: set<Surface>): State {
    ReconcileLayout(
      s.(surfaces := map crtc | crtc in s.surfaces && crtc.node != node :: s.surfaces[crtc],
         kms := map crtc | crtc in s.kms && crtc.node != node :: s.kms[crtc]),
      dead)
  }

  ghost function Step(s: State, event: Event): State {
    match event
    case Pause => PauseStep(s)
    case Activate(reached, complete) => ActivateStep(s, reached, complete)
    case RenderAll(outcomes) => RenderAllStep(s, outcomes)
    case VBlank(crtc, submitted) => VBlankStep(s, crtc, submitted)
    case Rescan(changes, dead) => if s.paused then s else ReconcileLayout(ApplyChanges(s, changes), dead)
    case DeviceRemoved(node, dead) => DeviceRemovedStep(s, node, dead)
    case ConfigChanged(config, dead) => ReconcileLayout(s.(config := config), dead)
    case LockRequested(sender) => s.(lock := Accept(s.lock, sender))
    case UnlockRequested(sender) => s.(lock := UnlockAndDestroy(s.lock, sender))
  }

  /** The assumptions on the environment. */
  ghost predicate Enabled(s: State, event: Event) {
    match event
    case Rescan(changes, _) => DistinctConnectors(ApplyChanges(s, changes).surfaces)
    case Activate(reached, complete) => complete ==> Nodes(s.surfaces) <= reached
    case LockRequested(sender) => LockStepEnabled(s.lock, LockRequest(sender))
    case _ => true
  }

  ghost function Run(s: State, events: seq<Event>): State {
    if events == [] then s else Step(Run(s, events[..|events| - 1]), events[|events| - 1])
  }

  ghost predicate Legal(s: State, events: seq<Event>) {
    forall n :: 0 <= n < |events| ==> Enabled(Run(s, events[..n]), events[n])
  }

  const START := State(map[], false, map[], [], NO_LOCK, map[])

  // ---- The invariant ---------------------------------------------------------------

  predicate ShowsUnlocked(kms: Kms) {
    kms.flight == Some(UnlockedFrame) || kms.screen == Some(UnlockedFrame)
  }

  /** Markers describe the outstanding frame, and exist only while running. */
  ghost predicate MarkersMatch(s: State) {
    && s.kms.Keys == s.surfaces.Keys
    && forall crtc <- s.surfaces ::
         && (s.surfaces[crtc].framePending <==> s.kms[crtc].flight.Some?)
         && (s.surfaces[crtc].framePending ==> s.kms[crtc].flight == Some(Composition(s.surfaces[crtc].protectedQueued)))
         && (s.paused ==> !s.surfaces[crtc].framePending && !s.surfaces[crtc].protectedQueued)
  }

  /** A presented output, and every output of a confirmed lock, shows nothing
      composed while unlocked, and will not. */
  ghost predicate Protected(s: State) {
    s.lock.protected ==>
      forall crtc <- s.surfaces ::
        crtc in s.kms && (s.lock.confirmed || s.surfaces[crtc].name in s.lock.presented ==> !ShowsUnlocked(s.kms[crtc]))
  }

  ghost predicate LayoutMatches(s: State) {
    && DistinctConnectors(s.surfaces)
    && s.lock.connected == Names(s.layout)
    && forall crtc <- s.surfaces :: s.surfaces[crtc].name in s.lock.connected
  }

  ghost predicate Invariant(s: State) {
    LockInvariant(s.lock) && MarkersMatch(s) && LayoutMatches(s) && Protected(s)
  }

  lemma ListingNames(surfaces: Surfaces, config: Placements)
    ensures Names(ResolvedLayout(config, Listing(surfaces))) == ConnectorNames(surfaces)
  {
    ResolvedNames(config, Listing(surfaces));
    forall name ensures name in (set output <- Listing(surfaces) :: output.name) <==> name in ConnectorNames(surfaces) {
      if crtc :| crtc in surfaces && surfaces[crtc].name == name {
        assert ConnectedOutput(name, surfaces[crtc].mode) in Listing(surfaces);
      }
    }
  }

  lemma PauseKeeps(s: State)
    requires Invariant(s)
    ensures Invariant(PauseStep(s))
  {
  }

  lemma ActivateKeeps(s: State, reached: set<nat>, complete: bool)
    requires Invariant(s)
    ensures Invariant(ActivateStep(s, reached, complete))
  {
  }

  lemma RenderKeeps(s: State, outcomes: map<Crtc, Outcome>)
    requires Invariant(s)
    ensures Invariant(RenderAllStep(s, outcomes))
  {
  }

  /** Confirming or noting keeps `Protected` when the outputs concerned are. */
  lemma LockChangeKeepsProtected(s: State, lock: Lock)
    requires Protected(s) && MarkersMatch(s)
    requires lock.protected ==> s.lock.protected && (s.lock.confirmed ==> lock.confirmed)
    requires lock.protected && (lock.confirmed && !s.lock.confirmed) ==> forall crtc <- s.surfaces :: s.surfaces[crtc].name in lock.presented
    requires lock.protected ==> forall crtc <- s.surfaces ::
      s.surfaces[crtc].name in lock.presented - s.lock.presented ==> !ShowsUnlocked(s.kms[crtc])
    ensures Protected(s.(lock := lock))
  {
  }

  /** The outstanding frame reaches the screen; the lock is not told yet. */
  function Scanout(s: State, crtc: Crtc, submitted: bool): State
    requires crtc in s.surfaces && crtc in s.kms
  {
    s.(kms := s.kms[crtc := Kms(None, s.kms[crtc].flight)],
       surfaces := s.surfaces[crtc := if submitted then Idle(s.surfaces[crtc]) else s.surfaces[crtc].(framePending := false)])
  }

  lemma ScanoutKeeps(s: State, crtc: Crtc, submitted: bool)
    requires Invariant(s) && crtc in s.surfaces && s.kms[crtc].flight.Some?
    ensures Invariant(Scanout(s, crtc, submitted))
  {
  }

  lemma VBlankKeeps(s: State, crtc: Crtc, submitted: bool)
    requires Invariant(s)
    ensures Invariant(VBlankStep(s, crtc, submitted))
  {
    if crtc in s.surfaces && s.kms[crtc].flight.Some? {
      ScanoutKeeps(s, crtc, submitted);
      if submitted && s.surfaces[crtc].protectedQueued {
        var name := s.surfaces[crtc].name;
        LockStepKeepsInvariant(s.lock, Presented(name));
        LockChangeKeepsProtected(Scanout(s, crtc, submitted), NotePresented(s.lock, name));
      }
    }
  }

  /** A change of connectors keeps all but the match with the layout. */
  lemma ChangeKeeps(s: State, change: Change)
    requires MarkersMatch(s) && Protected(s) && !s.paused
    ensures var after := ApplyChange(s, change);
      MarkersMatch(after) && Protected(after) && after.lock == s.lock && after.layout == s.layout && !after.paused
  {
  }

  lemma {:induction false} ChangesKeep(s: State, changes: seq<Change>)
    requires MarkersMatch(s) && Protected(s) && !s.paused
    ensures var after := ApplyChanges(s, changes);
      MarkersMatch(after) && Protected(after) && after.lock == s.lock && after.layout == s.layout && !after.paused
  {
    if changes != [] {
      ChangesKeep(s, changes[..|changes| - 1]);
      ChangeKeeps(ApplyChanges(s, changes[..|changes| - 1]), changes[|changes| - 1]);
    }
  }

  lemma ReconcileKeeps(s: State, dead: set<Surface>)
    requires LockInvariant(s.lock) && MarkersMatch(s) && Protected(s)
    requires s.lock.connected == Names(s.layout) && DistinctConnectors(s.surfaces)
    ensures Invariant(ReconcileLayout(s, dead))
  {
    ListingNames(s.surfaces, s.config);
    var layout := ResolvedLayout(s.config, Listing(s.surfaces));
    forall crtc <- s.surfaces ensures s.surfaces[crtc].name in Names(layout) {}
    if layout != s.layout {
      LockStepKeepsInvariant(s.lock, Outputs(Names(layout), dead));
      LockChangeKeepsProtected(s, ReconcileOutputs(s.lock, Names(layout), dead));
    }
  }

  lemma StepKeepsInvariant(s: State, event: Event)
    requires Invariant(s) && Enabled(s, event)
    ensures Invariant(Step(s, event))
  {
    match event
    case Pause => PauseKeeps(s);
    case Activate(reached, complete) => ActivateKeeps(s, reached, complete);
    case RenderAll(outcomes) => RenderKeeps(s, outcomes);
    case VBlank(crtc, submitted) => VBlankKeeps(s, crtc, submitted);
    case Rescan(changes, dead) =>
      if !s.paused {
        ChangesKeep(s, changes);
        ReconcileKeeps(ApplyChanges(s, changes), dead);
      }
    case DeviceRemoved(node, dead) =>
      ReconcileKeeps(
        s.(surfaces := map crtc | crtc in s.surfaces && crtc.node != node :: s.surfaces[crtc],
           kms := map crtc | crtc in s.kms && crtc.node != node :: s.kms[crtc]),
        dead);
    case ConfigChanged(config, dead) => ReconcileKeeps(s.(config := config), dead);
    case LockRequested(sender) => LockStepKeepsInvariant(s.lock, LockRequest(sender));
    case UnlockRequested(sender) => LockStepKeepsInvariant(s.lock, UnlockRequest(sender));
  }

  lemma {:induction false} ReachableStatesKeepInvariant(events: seq<Event>)
    requires Legal(START, events)
    ensures Invariant(Run(START, events))
  {
    if events != [] {
      var before := events[..|events| - 1];
      forall n | 0 <= n < |before| ensures Enabled(Run(START, before[..n]), before[n]) {
        assert before[..n] == events[..n];
      }
      ReachableStatesKeepInvariant(before);
      StepKeepsInvariant(Run(START, before), events[|events| - 1]);
    }
  }

  /** Over every interleaving of locking, rendering, vblank, pausing and
      hotplug: no lock is told `locked` twice; from `locked` to the unlock, no
      connected output shows, or has on its way, a frame composed while
      unlocked; and no output keeps a frame marker while paused. */
  lemma LockedSessionsShowNoUnlockedFrame(events: seq<Event>)
    requires Legal(START, events)
    ensures var s := Run(START, events);
      && NoDuplicates(s.lock.sent)
      && (s.lock.inForce.Some? && s.lock.inForce.value in s.lock.sent ==>
            forall crtc <- s.surfaces :: crtc in s.kms && !ShowsUnlocked(s.kms[crtc]))
      && (s.paused ==> forall crtc <- s.surfaces ::
            !s.surfaces[crtc].framePending && !s.surfaces[crtc].protectedQueued)
  {
    ReachableStatesKeepInvariant(events);
  }
}
