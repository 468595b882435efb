/** Why the order of a forcing signal's actions matters
    (crates/nkdhr-compositor/src/shutdown.rs:128-142): which orders can end the
    process with no stop request recorded. */
module SignalOrder {
  import opened Wrappers
  import opened Shutdown

  predicate IsRecord(action: Action) {
    action.RecordForcing? || action.RecordOther?
  }

  /** The `i`th action is this one, and no record comes before it. */
  predicate ComesUnrecorded(actions: seq<Action>, i: int, action: Action) {
    0 <= i < |actions| && actions[i] == action && forall j :: 0 <= j < i ==> !IsRecord(actions[j])
  }

  /** The handler of some signal performs the action before any record. */
  ghost predicate Performs(plan: seq<Registration>, action: Action) {
    exists signal, i :: ComesUnrecorded(ActionsOf(plan, signal), i, action)
  }

  /** Some handler arms the exit, and some handler tests it, before either has
      recorded anything. */
  ghost predicate MayLoseTheRequest(plan: seq<Registration>) {
    Performs(plan, SetForcingSeen) && Performs(plan, ExitIfForcingSeen)
  }

  /** A record holds a signal's number, which is not 0. */
  ghost predicate RecordsNumbers(plan: seq<Registration>) {
    forall i :: 0 <= i < |plan| && IsRecord(plan[i].action) ==> plan[i].action.number != NONE_RECEIVED
  }

  // ---- Runs in which a request is lost --------------------------------------------

  ghost predicate LosesTheRequest(plan: seq<Registration>, steps: seq<Step>) {
    Legal(plan, START, steps) && Run(plan, START, steps).exited && Received(Run(plan, START, steps)).None?
  }

  lemma {:induction false} RunsJoin(plan: seq<Registration>, s: System, a: seq<Step>, b: seq<Step>)
    requires Legal(plan, s, a) && Legal(plan, Run(plan, s, a), b)
    ensures Legal(plan, s, a + b) && Run(plan, s, a + b) == Run(plan, Run(plan, s, a), b)
    decreases a
  {
    if a == [] {
      assert a + b == b;
    } else {
      assert (a + b)[1..] == a[1..] + b;
      RunsJoin(plan, Next(plan, s, a[0]), a[1..], b);
    }
  }

  lemma {:induction false} RegisterAll(plan: seq<Registration>, s: System) returns (steps: seq<Step>)
    requires !s.exited && s.registered <= |plan|
    ensures Legal(plan, s, steps) && Run(plan, s, steps) == s.(registered := |plan|)
    decreases |plan| - s.registered
  {
    if s.registered == |plan| {
      steps := [];
    } else {
      var rest := RegisterAll(plan, Next(plan, s, RegisterNext));
      steps := [RegisterNext] + rest;
      assert steps[1..] == rest;
    }
  }

  /** The handler's next `n` actions change nothing but its progress. */
  ghost predicate AreIdle(s: System, handler: Handler, n: nat) {
    && handler.done + n <= |handler.actions|
    && forall j :: handler.done <= j < handler.done + n ==>
         handler.actions[j] == (if s.forcingSeen then SetForcingSeen else ExitIfForcingSeen)
  }

  function Progressed(s: System, i: nat, n: nat): System
    requires i < |s.handlers|
  {
    s.(handlers := s.handlers[i := s.handlers[i].(done := s.handlers[i].done + n)])
  }

  lemma {:induction false} ActIdly(plan: seq<Registration>, s: System, i: nat, n: nat) returns (steps: seq<Step>)
    requires !s.exited && s.registered <= |plan| && i < |s.handlers| && AreIdle(s, s.handlers[i], n)
    ensures Legal(plan, s, steps) && Run(plan, s, steps) == Progressed(s, i, n)
    decreases n
  {
    if n == 0 {
      steps := [];
      assert Progressed(s, i, 0) == s;
    } else {
      var t := Next(plan, s, Act(i));
      assert t == Progressed(s, i, 1);
      var rest := ActIdly(plan, t, i, n - 1);
      assert Progressed(t, i, n - 1) == Progressed(s, i, n);
      steps := [Act(i)] + rest;
      assert steps[1..] == rest;
    }
  }

  /** The first place where a list performs the action unrecorded, past actions
      that are idle until then. */
  lemma {:induction false} FirstPlace(actions: seq<Action>, i: nat, action: Action) returns (first: nat)
    requires ComesUnrecorded(actions, i, action)
    ensures first <= i && ComesUnrecorded(actions, first, action)
    ensures forall j :: 0 <= j < first ==> actions[j] != action && !IsRecord(actions[j])
  {
    if j :| 0 <= j < i && actions[j] == action {
      first := FirstPlace(actions, j, action);
    } else {
      first := i;
    }
  }

  /** A delivery whose handler has run up to and including its `i`th action. */
  lemma DeliverAndAct(plan: seq<Registration>, s: System, signal: nat, i: nat) returns (steps: seq<Step>)
    requires !s.exited && s.registered == |plan| && i < |ActionsOf(plan, signal)|
    requires AreIdle(s, Handler(signal, ActionsOf(plan, signal), 0), i)
    ensures var handled := s.(handlers := s.handlers + [Handler(signal, ActionsOf(plan, signal), i + 1)]);
      Legal(plan, s, steps) && Run(plan, s, steps) == Perform(handled, ActionsOf(plan, signal)[i])
  {
    var k := |s.handlers|;
    assert plan[..|plan|] == plan;
    var delivered := Next(plan, s, Deliver(signal));
    var idle := ActIdly(plan, delivered, k, i);
    var before := Progressed(delivered, k, i);
    var after := Next(plan, before, Act(k));
    var last := [Act(k)];
    assert last[1..] == [] && Run(plan, after, []) == after;
    assert Legal(plan, before, last);
    assert Run(plan, before, last) == Run(plan, after, last[1..]);
    RunsJoin(plan, delivered, idle, [Act(k)]);
    steps := [Deliver(signal)] + (idle + [Act(k)]);
    assert steps[1..] == idle + [Act(k)];
    assert before.handlers[k := before.handlers[k].(done := i + 1)] == s.handlers + [Handler(signal, ActionsOf(plan, signal), i + 1)];
  }

  lemma LosingRun(plan: seq<Registration>) returns (steps: seq<Step>)
    requires MayLoseTheRequest(plan)
    ensures LosesTheRequest(plan, steps)
  {
    var arming, i :| ComesUnrecorded(ActionsOf(plan, arming), i, SetForcingSeen);
    var testing, k :| ComesUnrecorded(ActionsOf(plan, testing), k, ExitIfForcingSeen);
    var first := FirstPlace(ActionsOf(plan, arming), i, SetForcingSeen);
    var second := FirstPlace(ActionsOf(plan, testing), k, ExitIfForcingSeen);
    var registering := RegisterAll(plan, START);
    var registered := START.(registered := |plan|);
    var setting := DeliverAndAct(plan, registered, arming, first);
    var armed := Run(plan, registered, setting);
    var exiting := DeliverAndAct(plan, armed, testing, second);
    RunsJoin(plan, registered, setting, exiting);
    RunsJoin(plan, START, registering, setting + exiting);
    steps := registering + (setting + exiting);
  }

  // ---- Plans that never lose one -----------------------------------------------------------

  /** The handler has performed its `i`th action. */
  predicate HasDone(s: System, h: int, i: int, action: Action) {
    0 <= h < |s.handlers| && 0 <= i < s.handlers[h].done && i < |s.handlers[h].actions| && s.handlers[h].actions[i] == action
  }

  ghost predicate Invariant(plan: seq<Registration>, s: System) {
    && s.registered <= |plan|
    && (forall h :: 0 <= h < |s.handlers| ==>
          s.handlers[h].done <= |s.handlers[h].actions| && s.handlers[h].actions <= ActionsOf(plan, s.handlers[h].signal))
    && (forall h, i, action :: HasDone(s, h, i, action) && IsRecord(action) ==> Received(s).Some?)
    && (s.forcingSeen ==> exists h, i :: HasDone(s, h, i, SetForcingSeen))
    && (s.exited ==> s.forcingSeen && exists h, i :: HasDone(s, h, i, ExitIfForcingSeen))
  }

  lemma {:induction false} RecordsOfActions(plan: seq<Registration>, signal: nat)
    requires RecordsNumbers(plan)
    ensures forall action <- ActionsOf(plan, signal) :: IsRecord(action) ==> action.number != NONE_RECEIVED
  {
    if plan != [] { RecordsOfActions(plan[..|plan| - 1], signal); }
  }

  lemma PartOfPlan(plan: seq<Registration>, k: nat, signal: nat)
    requires k <= |plan|
    ensures ActionsOf(plan[..k], signal) <= ActionsOf(plan, signal)
  {
    assert plan == plan[..k] + plan[k..];
    ActionsOfConcatenation(plan[..k], plan[k..], signal);
  }

  lemma StepKeepsInvariant(plan: seq<Registration>, s: System, step: Step)
    requires RecordsNumbers(plan) && Invariant(plan, s) && Enabled(plan, s, step)
    ensures Invariant(plan, Next(plan, s, step))
  {
    match step
    case RegisterNext => assert forall h, i, action :: HasDone(Next(plan, s, step), h, i, action) == HasDone(s, h, i, action);
    case Deliver(signal) =>
      PartOfPlan(plan, s.registered, signal);
      var t := Next(plan, s, step);
      assert forall h, i, action :: HasDone(t, h, i, action) ==> HasDone(s, h, i, action);
      assert forall h, i, action :: HasDone(s, h, i, action) ==> HasDone(t, h, i, action);
    case Act(k) => ActKeepsInvariant(plan, s, k);
  }

  lemma OneMoreDone(plan: seq<Registration>, s: System, k: nat, h: int, i: int, action: Action)
    requires Enabled(plan, s, Act(k))
    ensures var handler := s.handlers[k];
      HasDone(Next(plan, s, Act(k)), h, i, action)
      <==> HasDone(s, h, i, action) || (h == k && i == handler.done && action == handler.actions[handler.done])
  {
  }

  lemma ActKeepsInvariant(plan: seq<Registration>, s: System, k: nat)
    requires RecordsNumbers(plan) && Invariant(plan, s) && Enabled(plan, s, Act(k))
    ensures Invariant(plan, Next(plan, s, Act(k)))
  {
    var t, handler := Next(plan, s, Act(k)), s.handlers[k];
    var now := handler.actions[handler.done];
    RecordsOfActions(plan, handler.signal);
    assert ActionsOf(plan, handler.signal)[handler.done] == now;
    assert Received(s).Some? || IsRecord(now) ==> Received(t).Some?;
    forall h, i, action ensures HasDone(t, h, i, action) <==> HasDone(s, h, i, action) || (h == k && i == handler.done && action == now) {
      OneMoreDone(plan, s, k, h, i, action);
    }
    assert HasDone(t, k, handler.done, now);
  }

  lemma {:induction false} RunKeepsInvariant(plan: seq<Registration>, s: System, steps: seq<Step>)
    requires RecordsNumbers(plan) && Invariant(plan, s) && Legal(plan, s, steps)
    ensures Invariant(plan, Run(plan, s, steps))
    decreases steps
  {
    if steps != [] {
      StepKeepsInvariant(plan, s, steps[0]);
      RunKeepsInvariant(plan, Next(plan, s, steps[0]), steps[1..]);
    }
  }

  lemma DoneUnrecorded(plan: seq<Registration>, s: System, h: int, i: int, action: Action)
    requires Invariant(plan, s) && Received(s).None? && HasDone(s, h, i, action)
    ensures Performs(plan, action)
  {
    var handler := s.handlers[h];
    forall j | 0 <= j < i ensures !IsRecord(handler.actions[j]) {
      assert HasDone(s, h, j, handler.actions[j]);
    }
    assert ComesUnrecorded(ActionsOf(plan, handler.signal), i, action);
  }

  /** Whatever is registered in whatever order, some run ends the process with no
      stop request recorded exactly if a handler arms the exit, and one tests it,
      before any record of its own. */
  lemma RequestsAreLostExactlyIf(plan: seq<Registration>)
    requires RecordsNumbers(plan)
    ensures (exists steps :: LosesTheRequest(plan, steps)) <==> MayLoseTheRequest(plan)
  {
    if steps :| LosesTheRequest(plan, steps) {
      RunKeepsInvariant(plan, START, steps);
      var s := Run(plan, START, steps);
      var h, i :| HasDone(s, h, i, SetForcingSeen);
      var g, k :| HasDone(s, g, k, ExitIfForcingSeen);
      DoneUnrecorded(plan, s, h, i, SetForcingSeen);
      DoneUnrecorded(plan, s, g, k, ExitIfForcingSeen);
    }
    if MayLoseTheRequest(plan) {
      var steps := LosingRun(plan);
    }
  }

  /** The order the code registers, of any signals, never loses one. */
  lemma TheRegisteredOrderKeepsTheRequest(signals: seq<StopSignal>, ignored: set<nat>)
    requires GoodSignals(signals)
    ensures !MayLoseTheRequest(Plan(signals, ignored))
  {
    forall signal, i ensures !ComesUnrecorded(ActionsOf(Plan(signals, ignored), signal), i, SetForcingSeen) {
      ActionsOfPlan(signals, ignored, signal);
      var actions := ListFor(signals, ignored, signal);
      if actions != [] {
        var k :| 0 <= k < |signals| && signals[k].number == signal && actions <= ActionsFor(signals[k]);
        assert IsRecord(actions[0]);
      }
    }
  }

  /** The order the doc comment of `install_for` describes for one signal. */
  const DOCUMENTED := Register(SIGTERM, [ExitIfForcingSeen, SetForcingSeen, RecordForcing(SIGTERM)])

  /** That order can lose it. */
  lemma TheDocumentedOrderLosesTheRequest()
    ensures exists steps :: LosesTheRequest(DOCUMENTED, steps)
  {
    var listed := [ExitIfForcingSeen, SetForcingSeen, RecordForcing(SIGTERM)];
    ActionsOfOne(SIGTERM, listed, SIGTERM);
    assert ComesUnrecorded(ActionsOf(DOCUMENTED, SIGTERM), 1, SetForcingSeen);
    assert ComesUnrecorded(ActionsOf(DOCUMENTED, SIGTERM), 0, ExitIfForcingSeen);
    var steps := LosingRun(DOCUMENTED);
  }
}
