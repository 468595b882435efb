/** The TTY backend's frame bookkeeping in the form the source has it: fields
    updated by loops and callbacks, each method proved against the step of
    module `Tty` it carries out. */
module TtyBackend {
  import opened Wrappers
  import opened Objects
  import opened Geometry
  import opened Outputs
  import opened LayoutCanonicity
  import opened SessionLock
  import opened Tty

  /** The frame markers of `done` cleared, the others kept. */
  function ClearedSoFar(surfaces: Surfaces, done: set<Crtc>): Surfaces {
    map crtc <- surfaces :: if crtc in done then Idle(surfaces[crtc]) else surfaces[crtc]
  }

  function RenderedSoFar(s: State, outcomes: map<Crtc, Outcome>, done: set<Crtc>): State {
    s.(surfaces := map crtc <- s.surfaces ::
         if crtc in done && Renders(s, crtc, outcomes)
         then s.surfaces[crtc].(framePending := true, protectedQueued := s.lock.protected)
         else s.surfaces[crtc],
       kms := map crtc <- s.kms ::
         if crtc in done && Renders(s, crtc, outcomes) then s.kms[crtc].(flight := Some(Composition(s.lock.protected))) else s.kms[crtc])
  }

  lemma ClearedDevices(surfaces: Surfaces, nodes: set<nat>)
    ensures ClearedSoFar(surfaces, set crtc <- surfaces | crtc.node in nodes) == ClearMarkers(surfaces, nodes)
  {
  }

  class TtyState {
    var surfaces: Surfaces
    var drmPaused: bool
    var config: Placements
    var outputLayout: Layout
    const lock: SessionLockRuntime
    ghost var kms: map<Crtc, Kms>

    ghost function Snapshot(): State
      reads this, lock
    {
      State(surfaces, drmPaused, config, outputLayout, lock.State(), kms)
    }

    constructor ()
      ensures Snapshot() == START && fresh(lock)
    {
      surfaces, drmPaused, config, outputLayout, kms := map[], false, map[], [], map[];
      lock := new SessionLockRuntime();
    }

    /** The inner loops of pausing and activating: clears frame markers. */
    method ClearFrameMarkers(nodes: set<nat>)
      modifies this`surfaces
      ensures surfaces == ClearMarkers(old(surfaces), nodes)
    {
      var all := set crtc <- surfaces | crtc.node in nodes;
      var rest := all;
      while rest != {}
        invariant rest <= all <= old(surfaces).Keys
        invariant surfaces == ClearedSoFar(old(surfaces), all - rest)
        decreases rest
      {
        var crtc :| crtc in rest;
        surfaces := surfaces[crtc := surfaces[crtc].(framePending := false, protectedQueued := false)];
        rest := rest - {crtc};
      }
      assert all - rest == all;
      ClearedDevices(old(surfaces), nodes);
    }

    method PauseDrmDevices()
      modifies this
      ensures Snapshot() == Step(old(Snapshot()), Pause)
    {
      if drmPaused { return; }
      drmPaused := true;
      var nodes := Nodes(surfaces);
      ClearFrameMarkers(nodes);
      kms := DropFlights(kms, nodes);
    }

    /** Reactivates the devices in `order` until one of them fails. */
    method ActivateDrmDevices(order: seq<nat>, failing: set<nat>) returns (activated: bool, ghost reached: set<nat>)
      requires forall crtc <- surfaces :: crtc.node in order
      modifies this
      ensures Snapshot() == Step(old(Snapshot()), Activate(reached, activated))
      ensures old(drmPaused) ==> (activated <==> forall node <- order :: node !in failing)
    {
      reached := {};
      if !drmPaused { return true, reached; }
      ghost var before := surfaces;
      ghost var flights := kms;
      for i := 0 to |order|
        invariant drmPaused && config == old(config) && outputLayout == old(outputLayout) && lock.State() == old(lock.State())
        invariant reached == set k | 0 <= k < i :: order[k]
        invariant forall k :: 0 <= k < i ==> order[k] !in failing
        invariant surfaces == ClearMarkers(before, reached) && kms == DropFlights(flights, reached)
      {
        if order[i] in failing { return false, reached; }
        ClearFrameMarkers({order[i]});
        kms := DropFlights(kms, {order[i]});
        assert ClearMarkers(ClearMarkers(before, reached), {order[i]}) == ClearMarkers(before, reached + {order[i]});
        assert DropFlights(DropFlights(flights, reached), {order[i]}) == DropFlights(flights, reached + {order[i]});
        reached := reached + {order[i]};
      }
      drmPaused := false;
      activated := true;
    }

    /** `render_surface`, for an output the backend found worth drawing or not. */
    method RenderSurface(crtc: Crtc, outcome: Outcome)
      modifies this`surfaces, this`kms
      ensures surfaces == RenderedSoFar(old(Snapshot()), map[crtc := outcome], {crtc}).surfaces
      ensures kms == RenderedSoFar(old(Snapshot()), map[crtc := outcome], {crtc}).kms
    {
      if crtc !in surfaces { return; }
      if surfaces[crtc].framePending { return; }
      if surfaces[crtc].name !in Names(outputLayout) { return; }
      if outcome != Queued { return; }
      var locked := lock.protected;
      surfaces := surfaces[crtc := surfaces[crtc].(framePending := true, protectedQueued := locked)];
      if crtc in kms { kms := kms[crtc := kms[crtc].(flight := Some(Composition(locked)))]; }
    }

    method RenderEach(outcomes: map<Crtc, Outcome>)
      requires forall crtc <- surfaces :: crtc in outcomes
      modifies this`surfaces, this`kms
      ensures Snapshot() == if drmPaused then old(Snapshot()) else Step(old(Snapshot()), RenderAll(outcomes))
    {
      if drmPaused { return; }
      ghost var before := Snapshot();
      var all := surfaces.Keys;
      var rest := all;
      while rest != {}
        invariant rest <= all == before.surfaces.Keys
        invariant Snapshot() == RenderedSoFar(before, outcomes, all - rest)
        decreases rest
      {
        var crtc :| crtc in rest;
        ghost var now := Snapshot();
        RenderSurface(crtc, outcomes[crtc]);
        OneMoreRendered(before, now, outcomes, all - rest, crtc);
        assert all - (rest - {crtc}) == all - rest + {crtc};
        rest := rest - {crtc};
      }
      assert all - rest == all;
    }

    /** `frame_finish`, at the vblank of the outstanding frame. */
    method FrameFinish(crtc: Crtc, submitted: bool)
      requires crtc in surfaces ==> crtc in kms && kms[crtc].flight.Some?
      modifies this, lock
      ensures Snapshot() == Step(old(Snapshot()), VBlank(crtc, submitted))
    {
      if crtc !in surfaces { return; }
      kms := kms[crtc := Kms(None, kms[crtc].flight)];
      var name := surfaces[crtc].name;
      var queued := surfaces[crtc].protectedQueued;
      surfaces := surfaces[crtc := surfaces[crtc].(framePending := false)];
      if submitted {
        surfaces := surfaces[crtc := surfaces[crtc].(protectedQueued := false)];
        if queued { lock.NoteProtectedFrame(name); }
      }
    }

    method ConnectorConnected(crtc: Crtc, name: string, mode: Size)
      modifies this`surfaces, this`kms
      ensures Snapshot() == ApplyChange(old(Snapshot()), Connected(crtc, name, mode))
    {
      surfaces := surfaces[crtc := SurfaceData(name, mode, false, false)];
      kms := kms[crtc := Kms(None, None)];
    }

    /** `connector_disconnected`, with whether the modifiers were restored. */
    method ConnectorDisconnected(crtc: Crtc, restored: bool)
      modifies this`surfaces, this`kms
      ensures Snapshot() == ApplyChange(old(Snapshot()), Disconnected(crtc, restored))
    {
      if crtc !in surfaces { return; }
      surfaces := surfaces - {crtc};
      kms := kms - {crtc};
      if restored {
        ClearFrameMarkers({crtc.node});
        kms := DropFlights(kms, {crtc.node});
      }
    }

    /** `connected_outputs`: the connectors, in an order the map decides. */
    method ConnectedOutputs() returns (connected: seq<ConnectedOutput>)
      requires DistinctConnectors(surfaces)
      ensures DistinctNames(connected) && SameElements(connected, Listing(surfaces))
    {
      connected := [];
      var rest := surfaces.Keys;
      while rest != {}
        invariant rest <= surfaces.Keys
        invariant DistinctNames(connected)
        invariant forall output :: output in connected <==>
          exists crtc :: crtc in surfaces.Keys - rest && output == ConnectedOutput(surfaces[crtc].name, surfaces[crtc].mode)
        decreases rest
      {
        var crtc :| crtc in rest;
        assert forall other :: other in surfaces.Keys - (rest - {crtc}) <==> other in surfaces.Keys - rest || other == crtc;
        assert forall output <- connected :: output.name != surfaces[crtc].name;
        connected := connected + [ConnectedOutput(surfaces[crtc].name, surfaces[crtc].mode)];
        rest := rest - {crtc};
      }
      assert surfaces.Keys - rest == surfaces.Keys;
    }

    method ReconcileOutputLayout(dead: set<Surface>)
      requires DistinctConnectors(surfaces)
      modifies this`outputLayout, lock
      ensures Snapshot() == ReconcileLayout(old(Snapshot()), dead)
    {
      var connected := ConnectedOutputs();
      var layout := Resolve(config, connected);
      ResolveDependsOnElements(config, connected, Listing(surfaces));
      if layout == outputLayout { return; }
      outputLayout := layout;
      lock.Reconcile(Names(outputLayout), dead);
    }

    /** `device_changed`, for the changes a scan reported. */
    method DeviceChanged(changes: seq<Change>, dead: set<Surface>)
      requires DistinctConnectors(ApplyChanges(Snapshot(), changes).surfaces)
      modifies this, lock
      ensures Snapshot() == Step(old(Snapshot()), Rescan(changes, dead))
    {
      if drmPaused { return; }
      ghost var before := Snapshot();
      for i := 0 to |changes|
        invariant Snapshot() == ApplyChanges(before, changes[..i])
      {
        assert changes[..i + 1][..i] == changes[..i];
        match changes[i]
        case Connected(crtc, name, mode) => ConnectorConnected(crtc, name, mode);
        case Disconnected(crtc, restored) => ConnectorDisconnected(crtc, restored);
      }
      assert changes[..|changes|] == changes;
      ReconcileOutputLayout(dead);
    }

    method RemoveDevice(node: nat, dead: set<Surface>)
      requires DistinctConnectors(surfaces)
      modifies this, lock
      ensures Snapshot() == Step(old(Snapshot()), DeviceRemoved(node, dead))
    {
      surfaces := map crtc | crtc in surfaces && crtc.node != node :: surfaces[crtc];
      kms := map crtc | crtc in kms && crtc.node != node :: kms[crtc];
      ReconcileOutputLayout(dead);
    }
  }

  lemma OneMoreRendered(before: State, now: State, outcomes: map<Crtc, Outcome>, done: set<Crtc>, crtc: Crtc)
    requires crtc in outcomes && crtc !in done && now == RenderedSoFar(before, outcomes, done)
    ensures RenderedSoFar(now, map[crtc := outcomes[crtc]], {crtc}) == RenderedSoFar(before, outcomes, done + {crtc})
  {
    assert Renders(now, crtc, map[crtc := outcomes[crtc]]) == Renders(before, crtc, outcomes);
  }
}
