/** Stop signals (crates/nkdhr-compositor/src/shutdown.rs). The handlers of
    signals are lists of atomic actions; any number of them run at once, on any
    threads, and they may start while registration is only partly done. A
    handler runs the actions that were registered when it started. */
module Shutdown {
  import opened Wrappers

  datatype StopSignal = StopSignal(number: nat, forcesExit: bool)

  const SIGHUP := 1
  const SIGINT := 2
  const SIGTERM := 15

  const STOP_SIGNALS := [StopSignal(SIGTERM, true), StopSignal(SIGINT, true), StopSignal(SIGHUP, false)]

  const NONE_RECEIVED := 0

  datatype Action =
    | RecordForcing(number: nat)
    | RecordOther(number: nat)
    | ExitIfForcingSeen
    | SetForcingSeen

  datatype Registration = Registration(signal: nat, action: Action)

  /** The actions of one signal, in the order the code registers them. */
  function ActionsFor(signal: StopSignal): seq<Action> {
    if signal.forcesExit then [RecordForcing(signal.number), ExitIfForcingSeen, SetForcingSeen]
    else [RecordOther(signal.number)]
  }

  function Register(signal: nat, actions: seq<Action>): seq<Registration> {
    if actions == [] then [] else [Registration(signal, actions[0])] + Register(signal, actions[1..])
  }

  /** Every registration of `install_for`, in order; ignored signals get none. */
  function Plan(signals: seq<StopSignal>, ignored: set<nat>): seq<Registration> {
    if signals == [] then []
    else
      var last := signals[|signals| - 1];
      Plan(signals[..|signals| - 1], ignored)
      + if last.number in ignored then [] else Register(last.number, ActionsFor(last))
  }

  lemma {:induction false} RegisterInOrder(signal: nat, actions: seq<Action>)
    ensures Register(signal, actions) == seq(|actions|, i requires 0 <= i < |actions| => Registration(signal, actions[i]))
  {
    if actions != [] { RegisterInOrder(signal, actions[1..]); }
  }

  /** What has been registered so far, as the source registers it. */
  class Registry {
    var registered: seq<Registration>

    constructor ()
      ensures registered == []
    {
      registered := [];
    }

    method AddAction(signal: nat, action: Action)
      modifies this
      ensures registered == old(registered) + [Registration(signal, action)]
    {
      registered := registered + [Registration(signal, action)];
    }

    /** `install_for`. */
    method InstallFor(signals: seq<StopSignal>, ignored: set<nat>)
      modifies this
      ensures registered == old(registered) + Plan(signals, ignored)
    {
      for i := 0 to |signals|
        invariant registered == old(registered) + Plan(signals[..i], ignored)
      {
        var signal := signals[i];
        assert signals[..i + 1][..i] == signals[..i];
        if signal.number in ignored { continue; }
        RegisterInOrder(signal.number, ActionsFor(signal));
        if signal.forcesExit {
          AddAction(signal.number, RecordForcing(signal.number));
          AddAction(signal.number, ExitIfForcingSeen);
          AddAction(signal.number, SetForcingSeen);
        } else {
          AddAction(signal.number, RecordOther(signal.number));
        }
      }
      assert signals[..|signals|] == signals;
    }

    /** `install`. */
    method Install(ignored: set<nat>)
      modifies this
      ensures registered == old(registered) + Plan(STOP_SIGNALS, ignored)
      ensures GoodSignals(STOP_SIGNALS)
    {
      InstallFor(STOP_SIGNALS, ignored);
    }
  }

  /** The registered actions of one signal. */
  function ActionsOf(registered: seq<Registration>, signal: nat): seq<Action> {
    if registered == [] then []
    else
      var last := registered[|registered| - 1];
      ActionsOf(registered[..|registered| - 1], signal) + if last.signal == signal then [last.action] else []
  }

  // ---- Handlers at work ------------------------------------------------------------

  /** One delivery: the actions its handler runs, and how many it has run. */
  datatype Handler = Handler(signal: nat, actions: seq<Action>, done: nat)

  datatype System = System(
    registered: nat, handlers: seq<Handler>, forcingSeen: bool, forcing: nat, other: nat, exited: bool)

  const START := System(0, [], false, NONE_RECEIVED, NONE_RECEIVED, false)

  datatype Step = RegisterNext | Deliver(signal: nat) | Act(handler: nat)

  /** A signal without any action yet still has its default disposition, which
      is not part of this model. */
  predicate Enabled(plan: seq<Registration>, s: System, step: Step) {
    && !s.exited && s.registered <= |plan|
    && match step
       case RegisterNext => s.registered < |plan|
       case Deliver(signal) => ActionsOf(plan[..s.registered], signal) != []
       case Act(i) => i < |s.handlers| && s.handlers[i].done < |s.handlers[i].actions|
  }

  function Perform(s: System, action: Action): System {
    match action
    case RecordForcing(number) => s.(forcing := number)
    case RecordOther(number) => s.(other := number)
    case ExitIfForcingSeen => if s.forcingSeen then s.(exited := true) else s
    case SetForcingSeen => s.(forcingSeen := true)
  }

  function Next(plan: seq<Registration>, s: System, step: Step): System
    requires Enabled(plan, s, step)
  {
    match step
    case RegisterNext => s.(registered := s.registered + 1)
    case Deliver(signal) => s.(handlers := s.handlers + [Handler(signal, ActionsOf(plan[..s.registered], signal), 0)])
    case Act(i) =>
      var handler := s.handlers[i];
      Perform(s.(handlers := s.handlers[i := handler.(done := handler.done + 1)]), handler.actions[handler.done])
  }

  predicate Legal(plan: seq<Registration>, s: System, steps: seq<Step>)
    decreases steps
  {
    steps == [] || (Enabled(plan, s, steps[0]) && Legal(plan, Next(plan, s, steps[0]), steps[1..]))
  }

  function Run(plan: seq<Registration>, s: System, steps: seq<Step>): System
    requires Legal(plan, s, steps)
    decreases steps
  {
    if steps == [] then s else Run(plan, Next(plan, s, steps[0]), steps[1..])
  }

  /** `received`: the number of the signal to stop for. */
  function Received(s: System): Option<nat> {
    if s.forcing != NONE_RECEIVED then Some(s.forcing)
    else if s.other != NONE_RECEIVED then Some(s.other)
    else None
  }

  // ---- Plans --------------------------------------------------------------------------

  /** Signals have their own numbers, none of them 0. */
  ghost predicate GoodSignals(signals: seq<StopSignal>) {
    && (forall i :: 0 <= i < |signals| ==> signals[i].number != NONE_RECEIVED)
    && forall i, j :: 0 <= i < j < |signals| ==> signals[i].number != signals[j].number
  }

  predicate Forces(signals: seq<StopSignal>, number: nat) {
    exists i :: 0 <= i < |signals| && signals[i].number == number && signals[i].forcesExit
  }

  predicate IsFull(actions: seq<Action>) {
    |actions| == 3
  }

  /** The actions of a handler are a beginning of its signal's list. */
  ghost predicate IsBeginning(signals: seq<StopSignal>, signal: nat, actions: seq<Action>) {
    actions != [] ==> exists i :: 0 <= i < |signals| && signals[i].number == signal && actions <= ActionsFor(signals[i])
  }

  lemma {:induction false} ActionsOfConcatenation(a: seq<Registration>, b: seq<Registration>, signal: nat)
    ensures ActionsOf(a + b, signal) == ActionsOf(a, signal) + ActionsOf(b, signal)
  {
    if b == [] {
      assert a + b == a;
    } else {
      assert (a + b)[..|a + b| - 1] == a + b[..|b| - 1];
      ActionsOfConcatenation(a, b[..|b| - 1], signal);
    }
  }

  lemma {:induction false} ActionsOfOne(signal: nat, actions: seq<Action>, other: nat)
    ensures ActionsOf(Register(signal, actions), other) == if other == signal then actions else []
  {
    if actions != [] {
      var first := [Registration(signal, actions[0])];
      ActionsOfConcatenation(first, Register(signal, actions[1..]), other);
      ActionsOfOne(signal, actions[1..], other);
      assert ActionsOf(first, other) == ActionsOf([], other) + if other == signal then [actions[0]] else [];
      assert [actions[0]] + actions[1..] == actions;
    }
  }

  /** The signal's list, unless it is ignored or unknown. */
  function ListFor(signals: seq<StopSignal>, ignored: set<nat>, signal: nat): (r: seq<Action>)
    ensures IsBeginning(signals, signal, r)
  {
    if signals == [] then []
    else
      var earlier, last := signals[..|signals| - 1], signals[|signals| - 1];
      var r := ListFor(earlier, ignored, signal);
      assert r != [] ==> exists i :: 0 <= i < |earlier| && signals[i].number == signal && r <= ActionsFor(signals[i]) by {
        if i :| 0 <= i < |earlier| && earlier[i].number == signal && r <= ActionsFor(earlier[i]) {
          assert signals[i] == earlier[i];
        }
      }
      if last.number == signal && signal !in ignored then ActionsFor(last) else r
  }

  lemma {:induction false} UnknownSignalsHaveNoList(signals: seq<StopSignal>, ignored: set<nat>, signal: nat)
    requires forall i :: 0 <= i < |signals| ==> signals[i].number != signal
    ensures ListFor(signals, ignored, signal) == []
  {
    if signals != [] { UnknownSignalsHaveNoList(signals[..|signals| - 1], ignored, signal); }
  }

  lemma {:induction false} ActionsOfPlan(signals: seq<StopSignal>, ignored: set<nat>, signal: nat)
    requires GoodSignals(signals)
    ensures ActionsOf(Plan(signals, ignored), signal) == ListFor(signals, ignored, signal)
  {
    if signals != [] {
      var earlier, last := signals[..|signals| - 1], signals[|signals| - 1];
      ActionsOfPlan(earlier, ignored, signal);
      if signal == last.number { UnknownSignalsHaveNoList(earlier, ignored, signal); }
      if last.number !in ignored {
        ActionsOfConcatenation(Plan(earlier, ignored), Register(last.number, ActionsFor(last)), signal);
        ActionsOfOne(last.number, ActionsFor(last), signal);
      } else {
        assert Plan(signals, ignored) == Plan(earlier, ignored);
      }
    }
  }

  /** Whatever part of the plan is registered, a signal's actions are a
      beginning of its list. */
  lemma PartialPlansAreBeginnings(signals: seq<StopSignal>, ignored: set<nat>, k: nat, signal: nat)
    requires GoodSignals(signals) && k <= |Plan(signals, ignored)|
    ensures IsBeginning(signals, signal, ActionsOf(Plan(signals, ignored)[..k], signal))
  {
    var plan := Plan(signals, ignored);
    assert plan == plan[..k] + plan[k..];
    ActionsOfConcatenation(plan[..k], plan[k..], signal);
    ActionsOfPlan(signals, ignored, signal);
  }

  // ---- What every run keeps ----------------------------------------------------------------

  /** A forcing delivery whose handler has armed the forced exit. */
  predicate HasArmed(handler: Handler) {
    handler.done == 3
  }

  /** A forcing delivery whose handler has met the conditional exit. */
  predicate HasMetTheExit(handler: Handler) {
    2 <= handler.done && |handler.actions| >= 2
  }

  ghost predicate GoodHandler(signals: seq<StopSignal>, handler: Handler) {
    IsBeginning(signals, handler.signal, handler.actions) && handler.done <= |handler.actions|
  }

  ghost predicate Invariant(signals: seq<StopSignal>, s: System) {
    && (forall i :: 0 <= i < |s.handlers| ==> GoodHandler(signals, s.handlers[i]))
    && (s.forcingSeen <==> exists j :: 0 <= j < |s.handlers| && HasArmed(s.handlers[j]))
    && (s.forcing != NONE_RECEIVED ==> Forces(signals, s.forcing))
    && (forall i :: 0 <= i < |s.handlers| && Forces(signals, s.handlers[i].signal) && s.handlers[i].done > 0 ==> s.forcing != NONE_RECEIVED)
    && (s.other != NONE_RECEIVED ==> !Forces(signals, s.other))
    && (s.exited ==> s.forcingSeen && exists i :: 0 <= i < |s.handlers| && s.handlers[i].done == 2 && |s.handlers[i].actions| >= 2)
  }

  /** What a handler of a stop signal can do next. */
  lemma HandlersFollowTheirList(signals: seq<StopSignal>, handler: Handler)
    requires GoodSignals(signals) && GoodHandler(signals, handler) && handler.done < |handler.actions|
    ensures var action := handler.actions[handler.done];
      if Forces(signals, handler.signal) then
        action == [RecordForcing(handler.signal), ExitIfForcingSeen, SetForcingSeen][handler.done]
      else
        action == RecordOther(handler.signal) && handler.done == 0 && |handler.actions| == 1 && handler.signal != NONE_RECEIVED
    ensures Forces(signals, handler.signal) ==> handler.signal != NONE_RECEIVED && |handler.actions| <= 3
    ensures HasArmed(handler) || HasMetTheExit(handler) ==> Forces(signals, handler.signal)
  {
    var i :| 0 <= i < |signals| && signals[i].number == handler.signal && handler.actions <= ActionsFor(signals[i]);
  }

  lemma StepKeepsInvariant(signals: seq<StopSignal>, ignored: set<nat>, s: System, step: Step)
    requires GoodSignals(signals) && Invariant(signals, s) && Enabled(Plan(signals, ignored), s, step)
    ensures Invariant(signals, Next(Plan(signals, ignored), s, step))
  {
    var t := Next(Plan(signals, ignored), s, step);
    match step
    case RegisterNext =>
    case Deliver(signal) =>
      PartialPlansAreBeginnings(signals, ignored, s.registered, signal);
      DeliveryKeepsInvariant(signals, s, t);
    case Act(i) =>
      HandlersFollowTheirList(signals, s.handlers[i]);
      ActKeepsInvariant(signals, s, i, t);
  }

  lemma DeliveryKeepsInvariant(signals: seq<StopSignal>, s: System, t: System)
    requires Invariant(signals, s) && t == s.(handlers := t.handlers) && |t.handlers| == |s.handlers| + 1
    requires t.handlers[..|s.handlers|] == s.handlers
    requires GoodHandler(signals, t.handlers[|s.handlers|]) && t.handlers[|s.handlers|].done == 0
    ensures Invariant(signals, t)
  {
    forall i | 0 <= i < |s.handlers| ensures t.handlers[i] == s.handlers[i] {
      assert t.handlers[..|s.handlers|][i] == s.handlers[i];
    }
  }

  lemma ActKeepsInvariant(signals: seq<StopSignal>, s: System, i: nat, t: System)
    requires GoodSignals(signals) && Invariant(signals, s) && !s.exited
    requires i < |s.handlers| && s.handlers[i].done < |s.handlers[i].actions|
    requires var handler := s.handlers[i];
      t == Perform(s.(handlers := s.handlers[i := handler.(done := handler.done + 1)]), handler.actions[handler.done])
    ensures Invariant(signals, t)
  {
    HandlersFollowTheirList(signals, s.handlers[i]);
    assert forall j :: 0 <= j < |s.handlers| && j != i ==> t.handlers[j] == s.handlers[j];
    assert HasArmed(t.handlers[i]) ==> s.handlers[i].done == 2;
    if s.forcingSeen {
      var j :| 0 <= j < |s.handlers| && HasArmed(s.handlers[j]);
      HandlersAreShort(signals, s.handlers[j]);
      assert HasArmed(t.handlers[j]);
    }
  }

  lemma HandlersAreShort(signals: seq<StopSignal>, handler: Handler)
    requires GoodHandler(signals, handler)
    ensures |handler.actions| <= 3 && handler.done <= 3
  {
    if handler.actions != [] {
      var i :| 0 <= i < |signals| && signals[i].number == handler.signal && handler.actions <= ActionsFor(signals[i]);
    }
  }

  lemma {:induction false} RunKeepsInvariant(signals: seq<StopSignal>, ignored: set<nat>, s: System, steps: seq<Step>)
    requires GoodSignals(signals) && Invariant(signals, s) && Legal(Plan(signals, ignored), s, steps)
    ensures Invariant(signals, Run(Plan(signals, ignored), s, steps))
    decreases steps
  {
    if steps != [] {
      StepKeepsInvariant(signals, ignored, s, steps[0]);
      RunKeepsInvariant(signals, ignored, Next(Plan(signals, ignored), s, steps[0]), steps[1..]);
    }
  }

  // ---- The promises ---------------------------------------------------------------------------

  /** Two different deliveries of forcing signals, one of which was done before
      the other met the exit, and a recorded stop request. */
  ghost predicate ExitWasForced(signals: seq<StopSignal>, s: System) {
    && s.forcing != NONE_RECEIVED && Received(s) == Some(s.forcing) && Forces(signals, s.forcing)
    && exists i, j :: 0 <= i < |s.handlers| && 0 <= j < |s.handlers| && i != j
         && Forces(signals, s.handlers[i].signal) && Forces(signals, s.handlers[j].signal)
         && HasMetTheExit(s.handlers[i]) && HasArmed(s.handlers[j])
  }

  /** However handlers interleave, at whatever point of the registration they
      start, a forced exit takes two deliveries of forcing signals and a stop
      request already recorded; hang-ups never count. */
  lemma ForcedExitTakesTwoForcingDeliveries(signals: seq<StopSignal>, ignored: set<nat>, steps: seq<Step>)
    requires GoodSignals(signals) && Legal(Plan(signals, ignored), START, steps)
    requires Run(Plan(signals, ignored), START, steps).exited
    ensures ExitWasForced(signals, Run(Plan(signals, ignored), START, steps))
  {
    RunKeepsInvariant(signals, ignored, START, steps);
    var s := Run(Plan(signals, ignored), START, steps);
    var i :| 0 <= i < |s.handlers| && s.handlers[i].done == 2 && |s.handlers[i].actions| >= 2;
    var j :| 0 <= j < |s.handlers| && HasArmed(s.handlers[j]);
    LongHandlersForce(signals, s.handlers[i]);
    LongHandlersForce(signals, s.handlers[j]);
  }

  /** The handler of a signal that does not force the exit changes only its own
      record. */
  lemma HangUpsOnlyRecord(signals: seq<StopSignal>, ignored: set<nat>, s: System, i: nat)
    requires GoodSignals(signals) && Invariant(signals, s) && Enabled(Plan(signals, ignored), s, Act(i))
    requires !Forces(signals, s.handlers[i].signal)
    ensures var t := Next(Plan(signals, ignored), s, Act(i));
      t == s.(handlers := t.handlers, other := s.handlers[i].signal) && t.other != NONE_RECEIVED
  {
    HandlersFollowTheirList(signals, s.handlers[i]);
  }

  lemma LongHandlersForce(signals: seq<StopSignal>, handler: Handler)
    requires GoodHandler(signals, handler) && |handler.actions| >= 2
    ensures Forces(signals, handler.signal)
  {
    var i :| 0 <= i < |signals| && signals[i].number == handler.signal && handler.actions <= ActionsFor(signals[i]);
  }

  /** Once a forcing signal is recorded, `received` names a forcing signal for
      ever after. */
  lemma {:induction false} AForcingSignalStaysNamed(signals: seq<StopSignal>, ignored: set<nat>, s: System, steps: seq<Step>)
    requires GoodSignals(signals) && Invariant(signals, s) && Legal(Plan(signals, ignored), s, steps)
    requires s.forcing != NONE_RECEIVED
    ensures var t := Run(Plan(signals, ignored), s, steps);
      Received(t).Some? && Forces(signals, Received(t).value)
    decreases steps
  {
    if steps != [] {
      StepKeepsInvariant(signals, ignored, s, steps[0]);
      if steps[0].Act? { HandlersFollowTheirList(signals, s.handlers[steps[0].handler]); }
      AForcingSignalStaysNamed(signals, ignored, Next(Plan(signals, ignored), s, steps[0]), steps[1..]);
    }
  }

  /** Handlers that have run past the exit since the exit was armed. */
  ghost predicate LaterOnesExit(s: System, k: nat) {
    s.forcingSeen && forall j :: k <= j < |s.handlers| && HasMetTheExit(s.handlers[j]) && IsFull(s.handlers[j].actions) ==> s.exited
  }

  lemma {:induction false} LaterDeliveriesExit(signals: seq<StopSignal>, ignored: set<nat>, s: System, steps: seq<Step>, k: nat)
    requires GoodSignals(signals) && Invariant(signals, s) && Legal(Plan(signals, ignored), s, steps)
    requires LaterOnesExit(s, k)
    ensures LaterOnesExit(Run(Plan(signals, ignored), s, steps), k)
    decreases steps
  {
    if steps != [] {
      var t := Next(Plan(signals, ignored), s, steps[0]);
      StepKeepsInvariant(signals, ignored, s, steps[0]);
      if steps[0].Act? { HandlersFollowTheirList(signals, s.handlers[steps[0].handler]); }
      assert LaterOnesExit(t, k);
      LaterDeliveriesExit(signals, ignored, t, steps[1..], k);
    }
  }

  /** A fully registered forcing delivery that starts once another has finished
      ends the process: its handler cannot get past the conditional exit. */
  lemma ASecondForcingDeliveryExits(
    signals: seq<StopSignal>, ignored: set<nat>, before: seq<Step>, after: seq<Step>, first: nat, second: nat)
    requires GoodSignals(signals) && Legal(Plan(signals, ignored), START, before)
    requires var s := Run(Plan(signals, ignored), START, before);
      && Legal(Plan(signals, ignored), s, after)
      && first < |s.handlers| && HasArmed(s.handlers[first]) && |s.handlers| <= second
    requires var t := Run(Plan(signals, ignored), Run(Plan(signals, ignored), START, before), after);
      second < |t.handlers| && IsFull(t.handlers[second].actions) && HasMetTheExit(t.handlers[second])
    ensures Run(Plan(signals, ignored), Run(Plan(signals, ignored), START, before), after).exited
  {
    var s := Run(Plan(signals, ignored), START, before);
    RunKeepsInvariant(signals, ignored, START, before);
    LaterDeliveriesExit(signals, ignored, s, after, second);
  }
}
