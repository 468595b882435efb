/** Pointer constraints (crates/nkdhr-compositor/src/input.rs, `pointer_motion`):
    surfaces that lock the pointer in place or confine it to a region, in an
    unlocked session whose pointer is free or held by a pressed button. */
module PointerConstraints {
  import opened Wrappers
  import opened Geometry
  import opened Objects

  /** Which pixels of a surface a constraint covers, in surface coordinates. */
  type Region = (int, int) -> bool

  datatype ConstraintKind = LockedPointer | ConfinedPointer

  datatype Constraint = Constraint(kind: ConstraintKind, region: Option<Region>, active: bool)

  /** What the hit test finds: a surface and its origin. */
  datatype Hit = Hit(surface: Surface, origin: RealPoint)

  /** The windows on screen, as the hit test sees them. */
  type Scene = RealPoint -> Option<Hit>

  datatype Pointer = Pointer(
    location: RealPoint, focus: Option<Surface>, held: bool, constraints: map<Surface, Constraint>)

  predicate RegionContains(region: Option<Region>, hit: Hit, location: RealPoint) {
    region.None? || region.value((location.x - hit.origin.x).Floor, (location.y - hit.origin.y).Floor)
  }

  function SurfaceOf(hit: Option<Hit>): Option<Surface> {
    if hit.Some? then Some(hit.value.surface) else None
  }

  /** `focus_if_under_pointer`. */
  function IfUnderPointer(p: Pointer, scene: Scene, surface: Surface): Option<Hit> {
    var hit := scene(p.location);
    if SurfaceOf(hit) == Some(surface) then hit else None
  }

  /** `active_constraint`. */
  function ActiveConstraint(p: Pointer, surface: Surface): Option<Constraint> {
    if surface in p.constraints && p.constraints[surface].active then Some(p.constraints[surface]) else None
  }

  function Deactivate(p: Pointer, surface: Surface): Pointer {
    if surface in p.constraints then p.(constraints := p.constraints[surface := p.constraints[surface].(active := false)]) else p
  }

  /** `activate_pointer_constraint`. */
  function Activate(p: Pointer, scene: Scene, surface: Surface): Pointer {
    var hit := IfUnderPointer(p, scene, surface);
    if p.focus == Some(surface) && hit.Some? && surface in p.constraints
       && RegionContains(p.constraints[surface].region, hit.value, p.location)
    then p.(constraints := p.constraints[surface := p.constraints[surface].(active := true)])
    else p
  }

  /** Smithay's motion: a held button keeps the focus where it was pressed. */
  function SeatMotion(p: Pointer, hit: Option<Hit>, location: RealPoint): Pointer {
    p.(location := location, focus := if p.held then p.focus else SurfaceOf(hit))
  }

  /** Where a motion goes under the constraint of the focused surface, after
      that constraint has lapsed if its surface is no longer under the pointer;
      `None` when the pointer is locked in place. */
  function Constrained(p: Pointer, scene: Scene, target: RealPoint): Option<(Pointer, RealPoint, Option<Hit>)> {
    var through := Some((p, target, scene(target)));
    if p.focus.None? || ActiveConstraint(p, p.focus.value).None? then through
    else
      var constraint := ActiveConstraint(p, p.focus.value).value;
      var hit := IfUnderPointer(p, scene, p.focus.value);
      if hit.None? then Some((Deactivate(p, p.focus.value), target, scene(target)))
      else match constraint.kind
        case LockedPointer => None
        case ConfinedPointer =>
          if SurfaceOf(scene(target)) == p.focus && RegionContains(constraint.region, hit.value, target) then through
          else Some((p, p.location, hit))
  }

  /** `pointer_motion`. */
  function Motion(p: Pointer, scene: Scene, target: RealPoint): Pointer {
    match Constrained(p, scene, target)
    case None => p
    case Some((q, location, hit)) =>
      var left := if q.focus.Some? && SurfaceOf(hit) != q.focus then Deactivate(q, q.focus.value) else q;
      var moved := SeatMotion(left, hit, location);
      if moved.focus.Some? then Activate(moved, scene, moved.focus.value) else moved
  }

  /** The pointer as the seat holds it. */
  class SeatPointer {
    var location: RealPoint
    var focus: Option<Surface>
    var held: bool
    var constraints: map<Surface, Constraint>

    function State(): Pointer
      reads this
    {
      Pointer(location, focus, held, constraints)
    }

    constructor ()
      ensures State() == Pointer(RealPoint(0.0, 0.0), None, false, map[])
    {
      location, focus, held, constraints := RealPoint(0.0, 0.0), None, false, map[];
    }

    method DeactivateConstraint(surface: Surface)
      modifies this`constraints
      ensures State() == Deactivate(old(State()), surface)
    {
      if surface in constraints { constraints := constraints[surface := constraints[surface].(active := false)]; }
    }

    method ActivateConstraint(scene: Scene, surface: Surface)
      modifies this`constraints
      ensures State() == Activate(old(State()), scene, surface)
    {
      if focus != Some(surface) { return; }
      var hit := IfUnderPointer(State(), scene, surface);
      if hit.None? { return; }
      if surface in constraints && RegionContains(constraints[surface].region, hit.value, location) {
        constraints := constraints[surface := constraints[surface].(active := true)];
      }
    }

    method MotionTowards(scene: Scene, target: RealPoint)
      modifies this
      ensures State() == Motion(old(State()), scene, target)
    {
      var current := focus;
      var hit := scene(target);
      var to := target;
      if current.Some? {
        var constraint := ActiveConstraint(State(), current.value);
        if constraint.Some? {
          var under := IfUnderPointer(State(), scene, current.value);
          if under.None? {
            DeactivateConstraint(current.value);
          } else if constraint.value.kind.LockedPointer? {
            return;
          } else if SurfaceOf(hit) != current || !RegionContains(constraint.value.region, under.value, to) {
            to := location;
            hit := under;
          }
        }
        if SurfaceOf(hit) != current { DeactivateConstraint(current.value); }
      }
      location := to;
      if !held { focus := SurfaceOf(hit); }
      if focus.Some? { ActivateConstraint(scene, focus.value); }
    }
  }

  // ---- Runs -----------------------------------------------------------------------------

  datatype Step =
    | MoveTo(target: RealPoint)
    | Press
    | Release
    | NewConstraint(surface: Surface, kind: ConstraintKind, region: Option<Region>)
    | DestroyConstraint(surface: Surface)

  /** A surface has at most one constraint at a time. */
  predicate Enabled(p: Pointer, step: Step) {
    step.NewConstraint? ==> step.surface !in p.constraints
  }

  function Next(p: Pointer, scene: Scene, step: Step): Pointer {
    match step
    case MoveTo(target) => Motion(p, scene, target)
    case Press => p.(held := true)
    case Release => p.(held := false, focus := SurfaceOf(scene(p.location)))
    case NewConstraint(surface, kind, region) =>
      Activate(p.(constraints := p.constraints[surface := Constraint(kind, region, false)]), scene, surface)
    case DestroyConstraint(surface) => p.(constraints := p.constraints - {surface})
  }

  function Run(p: Pointer, scene: Scene, steps: seq<Step>): Pointer {
    if steps == [] then p else Next(Run(p, scene, steps[..|steps| - 1]), scene, steps[|steps| - 1])
  }

  predicate Legal(p: Pointer, scene: Scene, steps: seq<Step>) {
    steps == []
    || (Legal(p, scene, steps[..|steps| - 1]) && Enabled(Run(p, scene, steps[..|steps| - 1]), steps[|steps| - 1]))
  }

  function RunMotions(p: Pointer, scene: Scene, targets: seq<RealPoint>): Pointer {
    if targets == [] then p else Motion(RunMotions(p, scene, targets[..|targets| - 1]), scene, targets[|targets| - 1])
  }

  // ---- What constraints promise ---------------------------------------------------------------

  /** The surface has an active constraint: it holds pointer focus. */
  ghost predicate OnlyOnFocus(p: Pointer) {
    forall surface <- p.constraints :: p.constraints[surface].active ==> p.focus == Some(surface)
  }

  ghost predicate OnlyUnderPointer(p: Pointer, scene: Scene) {
    forall surface <- p.constraints :: p.constraints[surface].active ==> SurfaceOf(scene(p.location)) == Some(surface)
  }

  ghost predicate OnlyInRegion(p: Pointer, scene: Scene) {
    forall surface <- p.constraints :: p.constraints[surface].active ==>
      SurfaceOf(scene(p.location)) == Some(surface)
      && RegionContains(p.constraints[surface].region, scene(p.location).value, p.location)
  }

  /** A motion in any scene, even one that has changed since, leaves a constraint
      active only on the surface under the pointer, which holds its focus. */
  lemma MotionSettlesConstraints(p: Pointer, scene: Scene, target: RealPoint)
    requires OnlyOnFocus(p)
    ensures OnlyOnFocus(Motion(p, scene, target)) && OnlyUnderPointer(Motion(p, scene, target), scene)
  {
  }

  /** A surface keeps its origin while the pointer moves over it. */
  ghost predicate OriginsAreFixed(scene: Scene) {
    forall a, b :: SurfaceOf(scene(a)).Some? && SurfaceOf(scene(a)) == SurfaceOf(scene(b)) ==> scene(a) == scene(b)
  }

  lemma ActivationKeeps(p: Pointer, scene: Scene, surface: Surface)
    requires OnlyOnFocus(p) && OnlyInRegion(p, scene)
    ensures OnlyOnFocus(Activate(p, scene, surface)) && OnlyInRegion(Activate(p, scene, surface), scene)
  {
  }

  /** Where a constrained motion goes, no constraint is violated. */
  lemma ConstrainedMotionIsAllowed(p: Pointer, scene: Scene, target: RealPoint)
    requires OriginsAreFixed(scene) && OnlyOnFocus(p) && OnlyInRegion(p, scene) && Constrained(p, scene, target).Some?
    ensures var (q, location, hit) := Constrained(p, scene, target).value;
      var left := if q.focus.Some? && SurfaceOf(hit) != q.focus then Deactivate(q, q.focus.value) else q;
      OnlyOnFocus(SeatMotion(left, hit, location)) && OnlyInRegion(SeatMotion(left, hit, location), scene)
  {
  }

  lemma MotionKeepsConstraints(p: Pointer, scene: Scene, target: RealPoint)
    requires OriginsAreFixed(scene) && OnlyOnFocus(p) && OnlyInRegion(p, scene)
    ensures OnlyOnFocus(Motion(p, scene, target)) && OnlyInRegion(Motion(p, scene, target), scene)
  {
    if Constrained(p, scene, target).Some? {
      ConstrainedMotionIsAllowed(p, scene, target);
      var (q, location, hit) := Constrained(p, scene, target).value;
      var left := if q.focus.Some? && SurfaceOf(hit) != q.focus then Deactivate(q, q.focus.value) else q;
      var moved := SeatMotion(left, hit, location);
      if moved.focus.Some? { ActivationKeeps(moved, scene, moved.focus.value); }
    }
  }

  lemma StepKeepsConstraints(p: Pointer, scene: Scene, step: Step)
    requires OriginsAreFixed(scene) && Enabled(p, step)
    requires OnlyOnFocus(p) && OnlyInRegion(p, scene)
    ensures OnlyOnFocus(Next(p, scene, step)) && OnlyInRegion(Next(p, scene, step), scene)
  {
    match step
    case MoveTo(target) => MotionKeepsConstraints(p, scene, target);
    case Press =>
    case Release =>
    case NewConstraint(surface, kind, region) =>
      ActivationKeeps(p.(constraints := p.constraints[surface := Constraint(kind, region, false)]), scene, surface);
    case DestroyConstraint(surface) =>
  }

  /** While the scene is unchanged, at most one constraint is active after any
      run: that of the surface under the pointer, which has pointer focus, with
      the pointer in its region. */
  lemma {:induction false} OneConstraintIsActive(p: Pointer, scene: Scene, steps: seq<Step>)
    requires OriginsAreFixed(scene) && Legal(p, scene, steps)
    requires OnlyOnFocus(p) && OnlyInRegion(p, scene)
    ensures OnlyOnFocus(Run(p, scene, steps)) && OnlyInRegion(Run(p, scene, steps), scene)
    ensures var q := Run(p, scene, steps);
      forall a, b :: a in q.constraints && b in q.constraints && q.constraints[a].active && q.constraints[b].active ==> a == b
  {
    if steps != [] {
      OneConstraintIsActive(p, scene, steps[..|steps| - 1]);
      StepKeepsConstraints(Run(p, scene, steps[..|steps| - 1]), scene, steps[|steps| - 1]);
    }
  }

  /** The focused surface, under the pointer, has an active constraint of this
      kind. */
  predicate Holds(p: Pointer, scene: Scene, kind: ConstraintKind) {
    && p.focus.Some? && SurfaceOf(scene(p.location)) == p.focus
    && ActiveConstraint(p, p.focus.value).Some? && ActiveConstraint(p, p.focus.value).value.kind == kind
  }

  /** No run of motions moves a locked pointer, or anything else of it. */
  lemma {:induction false} LockedPointersStay(p: Pointer, scene: Scene, targets: seq<RealPoint>)
    requires Holds(p, scene, LockedPointer)
    ensures RunMotions(p, scene, targets) == p
  {
    if targets != [] { LockedPointersStay(p, scene, targets[..|targets| - 1]); }
  }

  /** No run of motions takes a confined pointer off its surface or out of its
      region, or ends the confinement. */
  lemma {:induction false} ConfinedPointersStay(p: Pointer, scene: Scene, targets: seq<RealPoint>)
    requires OriginsAreFixed(scene) && OnlyOnFocus(p) && OnlyInRegion(p, scene) && Holds(p, scene, ConfinedPointer)
    ensures var q := RunMotions(p, scene, targets);
      && Holds(q, scene, ConfinedPointer) && q.focus == p.focus && q.constraints == p.constraints
      && OnlyOnFocus(q) && OnlyInRegion(q, scene)
      && RegionContains(p.constraints[p.focus.value].region, scene(q.location).value, q.location)
  {
    if targets != [] {
      var earlier := RunMotions(p, scene, targets[..|targets| - 1]);
      ConfinedPointersStay(p, scene, targets[..|targets| - 1]);
      StepKeepsConstraints(earlier, scene, MoveTo(targets[|targets| - 1]));
      ConfinedMotion(earlier, scene, targets[|targets| - 1]);
    }
  }

  lemma ConfinedMotion(p: Pointer, scene: Scene, target: RealPoint)
    requires OriginsAreFixed(scene) && OnlyInRegion(p, scene) && Holds(p, scene, ConfinedPointer)
    ensures var q := Motion(p, scene, target);
      && Holds(q, scene, ConfinedPointer) && q.focus == p.focus && q.constraints == p.constraints
      && (q.location == target || q.location == p.location)
      && (q.location == target <== SurfaceOf(scene(target)) == p.focus
            && RegionContains(p.constraints[p.focus.value].region, scene(target).value, target))
  {
    var q := Motion(p, scene, target);
    assert q.constraints == p.constraints;
  }
}
