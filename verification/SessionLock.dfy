/** The session-lock runtime (crates/nkdhr-compositor/src/protocols/mod.rs),
    which serves `ext_session_lock_v1`. */
module SessionLock {
  import opened Wrappers
  import opened Objects

  /** `SessionLockRuntime`, with the `locked` events sent so far. */
  datatype Lock = Lock(
    protected: bool, confirmed: bool,
    confirmation: Option<LockObject>,
    inForce: Option<LockObject>,
    connected: set<string>, presented: set<string>,
    surfaces: map<string, Surface>,
    sent: seq<LockObject>)

  const NO_LOCK := Lock(false, false, None, None, {}, {}, map[], [])

  /** Only the confirmed lock in force may end itself. */
  predicate MayUnlock(inForce: Option<LockObject>, confirmed: bool, sender: LockObject) {
    confirmed && inForce == Some(sender)
  }

  function ConfirmIfReady(lock: Lock): Lock {
    if lock.protected && !lock.confirmed && lock.connected <= lock.presented && lock.confirmation.Some?
    then lock.(confirmation := None, confirmed := true, sent := lock.sent + [lock.confirmation.value])
    else lock
  }

  /** `lock`, before input is protected and the lock is confirmed. */
  function Begin(lock: Lock, sender: LockObject): Lock {
    lock.(protected := true, confirmed := false, inForce := Some(sender), confirmation := Some(sender),
          presented := {}, surfaces := map[])
  }

  function Accept(lock: Lock, sender: LockObject): Lock {
    if lock.protected then lock else ConfirmIfReady(Begin(lock, sender))
  }

  function End(lock: Lock): Lock {
    NO_LOCK.(connected := lock.connected, sent := lock.sent)
  }

  /** `unlock_and_destroy`, with the check that precedes Smithay's handling. */
  function UnlockAndDestroy(lock: Lock, sender: LockObject): Lock {
    if MayUnlock(lock.inForce, lock.confirmed, sender) && lock.protected then End(lock) else lock
  }

  function NotePresented(lock: Lock, name: string): Lock {
    if lock.protected && name in lock.connected
    then ConfirmIfReady(lock.(presented := lock.presented + {name}))
    else lock
  }

  function ReconcileOutputs(lock: Lock, outputs: set<string>, dead: set<Surface>): Lock {
    ConfirmIfReady(lock.(
      connected := outputs,
      presented := lock.presented * outputs,
      surfaces := map name | name in lock.surfaces && name in outputs && lock.surfaces[name] !in dead :: lock.surfaces[name]))
  }

  /** Whether `client` holds the lock in force. */
  predicate IsLocker(lock: Lock, client: Client) {
    lock.inForce.Some? && lock.inForce.value.client == client
  }

  /** The lock surface of an output, while it lives. */
  function LockSurface(lock: Lock, name: string, dead: set<Surface>): Option<Surface> {
    if name in lock.surfaces && lock.surfaces[name] !in dead then Some(lock.surfaces[name]) else None
  }

  predicate IsLockSurface(lock: Lock, surface: Surface) {
    surface in lock.surfaces.Values
  }

  /** The runtime as the source holds it. */
  class SessionLockRuntime {
    var protected: bool
    var confirmed: bool
    var confirmation: Option<LockObject>
    var inForce: Option<LockObject>
    var connected: set<string>
    var presented: set<string>
    var surfaces: map<string, Surface>
    var sent: seq<LockObject>

    function State(): Lock
      reads this
    {
      Lock(protected, confirmed, confirmation, inForce, connected, presented, surfaces, sent)
    }

    constructor ()
      ensures State() == NO_LOCK
    {
      protected, confirmed, confirmation, inForce := false, false, None, None;
      connected, presented, surfaces, sent := {}, {}, map[], [];
    }

    method ConfirmLockIfReady()
      modifies this
      ensures State() == ConfirmIfReady(old(State()))
    {
      if protected && !confirmed && connected <= presented && confirmation.Some? {
        sent := sent + [confirmation.value];
        confirmation := None;
        confirmed := true;
      }
    }

    /** The fields `lock` sets; false when another lock is in force. */
    method BeginLock(sender: LockObject) returns (accepted: bool)
      modifies this
      ensures accepted == !old(protected)
      ensures State() == if accepted then Begin(old(State()), sender) else old(State())
    {
      accepted := !protected;
      if accepted {
        protected := true;
        confirmed := false;
        inForce := Some(sender);
        confirmation := Some(sender);
        presented := {};
        surfaces := map[];
      }
    }

    /** `unlock` behind the `unlock_and_destroy` check. */
    method Unlock(sender: LockObject) returns (ended: bool)
      modifies this
      ensures State() == UnlockAndDestroy(old(State()), sender)
      ensures ended == (old(protected) && MayUnlock(old(inForce), old(confirmed), sender))
    {
      ended := false;
      if !MayUnlock(inForce, confirmed, sender) || !protected { return; }
      protected, confirmed, confirmation, inForce := false, false, None, None;
      presented, surfaces := {}, map[];
      ended := true;
    }

    method NoteProtectedFrame(name: string)
      modifies this
      ensures State() == NotePresented(old(State()), name)
    {
      if protected && name in connected {
        presented := presented + {name};
        ConfirmLockIfReady();
      }
    }

    method Reconcile(outputs: set<string>, dead: set<Surface>)
      modifies this
      ensures State() == ReconcileOutputs(old(State()), outputs, dead)
    {
      connected := outputs;
      presented := presented * connected;
      surfaces := map name | name in surfaces && name in connected && surfaces[name] !in dead :: surfaces[name];
      ConfirmLockIfReady();
    }

    method InsertSurface(name: string, surface: Surface)
      modifies this`surfaces
      ensures State() == old(State()).(surfaces := old(surfaces)[name := surface])
    {
      surfaces := surfaces[name := surface];
    }
  }

  // ---- What the runtime keeps ----------------------------------------------------

  ghost predicate NoDuplicates(sent: seq<LockObject>) {
    forall i, j :: 0 <= i < j < |sent| ==> sent[i] != sent[j]
  }

  /** A lock in force is confirmed exactly when its `locked` event was sent. */
  ghost predicate LockInvariant(lock: Lock) {
    && NoDuplicates(lock.sent)
    && (lock.protected <==> lock.inForce.Some?)
    && (lock.confirmed ==> lock.protected)
    && (lock.protected ==> (lock.confirmed <==> lock.inForce.value in lock.sent))
    && (lock.protected ==> lock.confirmation == if lock.confirmed then None else lock.inForce)
    && (!lock.protected ==> lock.confirmation.None? && lock.surfaces == map[] && lock.presented == {})
    && lock.presented <= lock.connected
    && (forall name <- lock.surfaces :: name in lock.connected && IsLocker(lock, lock.surfaces[name].client))
  }

  datatype LockStep =
    | LockRequest(sender: LockObject)
    | UnlockRequest(sender: LockObject)
    | Presented(name: string)
    | Outputs(names: set<string>, dead: set<Surface>)
    | AddSurface(name: string, surface: Surface)

  function StepLock(lock: Lock, step: LockStep): Lock {
    match step
    case LockRequest(sender) => Accept(lock, sender)
    case UnlockRequest(sender) => UnlockAndDestroy(lock, sender)
    case Presented(name) => NotePresented(lock, name)
    case Outputs(names, dead) => ReconcileOutputs(lock, names, dead)
    case AddSurface(name, surface) => lock.(surfaces := lock.surfaces[name := surface])
  }

  /** A lock object is created by the request that uses it; a surface is added
      only for the locker and a connected output. */
  ghost predicate LockStepEnabled(lock: Lock, step: LockStep) {
    match step
    case LockRequest(sender) => sender !in lock.sent && lock.inForce != Some(sender)
    case AddSurface(name, surface) => lock.protected && name in lock.connected && IsLocker(lock, surface.client)
    case _ => true
  }

  lemma LockStepKeepsInvariant(lock: Lock, step: LockStep)
    requires LockInvariant(lock) && LockStepEnabled(lock, step)
    ensures LockInvariant(StepLock(lock, step))
    ensures lock.sent <= StepLock(lock, step).sent
    ensures |StepLock(lock, step).sent| <= |lock.sent| + 1
  {
  }

  /** Nothing but `unlock_and_destroy` on the confirmed lock in force ends or
      replaces a lock: not a second lock, an early or foreign unlock, or a
      change of outputs. */
  lemma OnlyItsUnlockEndsALock(lock: Lock, step: LockStep)
    requires LockInvariant(lock) && lock.protected
    ensures !StepLock(lock, step).protected <==>
              step.UnlockRequest? && lock.confirmed && lock.inForce == Some(step.sender)
    ensures StepLock(lock, step).protected ==>
              && StepLock(lock, step).inForce == lock.inForce
              && (lock.confirmed ==> StepLock(lock, step).confirmed)
  {
  }

  /** `locked` is sent only once every connected output has presented. */
  lemma LockedIsSentOnceAllPresented(lock: Lock, step: LockStep)
    requires LockInvariant(lock) && LockStepEnabled(lock, step)
    requires StepLock(lock, step).sent != lock.sent
    ensures var after := StepLock(lock, step);
      && after.connected <= after.presented
      && after.inForce.Some? && after.sent == lock.sent + [after.inForce.value]
      && after.inForce.value !in lock.sent
  {
  }
}
