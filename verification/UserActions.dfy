/** The record of user actions a popup grab may name
    (crates/nkdhr-compositor/src/input.rs, `UserActionSerials`). */
module UserActions {
  import opened Wrappers
  import opened Objects

  datatype Kind = KeyPress | KeyRelease | ButtonPress | TouchDown

  /** An action and the client it was delivered to, if any. */
  datatype Action = Action(kind: Kind, serial: Serial, client: Option<Client>)

  datatype UserActionSerials = UserActionSerials(
    keyPress: Option<Action>, keyRelease: Option<Action>, buttonPress: Option<Action>, touchDown: Option<Action>)
  {
    /** `delivered_to`: the latest action of some kind, by this client. */
    predicate DeliveredTo(serial: Serial, client: Client) {
      || IsBy(keyPress, serial, client)
      || IsBy(keyRelease, serial, client)
      || IsBy(buttonPress, serial, client)
      || IsBy(touchDown, serial, client)
    }
  }

  const NO_ACTIONS := UserActionSerials(None, None, None, None)

  predicate IsBy(action: Option<Action>, serial: Serial, client: Client) {
    action.Some? && action.value.serial == serial && action.value.client == Some(client)
  }

  function Record(records: UserActionSerials, action: Action): UserActionSerials {
    match action.kind
    case KeyPress => records.(keyPress := Some(action))
    case KeyRelease => records.(keyRelease := Some(action))
    case ButtonPress => records.(buttonPress := Some(action))
    case TouchDown => records.(touchDown := Some(action))
  }

  /** The record as the source holds it. */
  class UserActionRecords {
    var keyPress: Option<Action>
    var keyRelease: Option<Action>
    var buttonPress: Option<Action>
    var touchDown: Option<Action>

    function Records(): UserActionSerials
      reads this
    {
      UserActionSerials(keyPress, keyRelease, buttonPress, touchDown)
    }

    constructor ()
      ensures Records() == NO_ACTIONS
    {
      keyPress, keyRelease, buttonPress, touchDown := None, None, None, None;
    }

    method RecordKey(serial: Serial, pressed: bool, client: Option<Client>)
      modifies this
      ensures Records() == Record(old(Records()), Action(if pressed then KeyPress else KeyRelease, serial, client))
    {
      if pressed {
        keyPress := Some(Action(KeyPress, serial, client));
      } else {
        keyRelease := Some(Action(KeyRelease, serial, client));
      }
    }

    method RecordButtonPress(serial: Serial, client: Option<Client>)
      modifies this
      ensures Records() == Record(old(Records()), Action(ButtonPress, serial, client))
    {
      buttonPress := Some(Action(ButtonPress, serial, client));
    }

    method RecordTouchDown(serial: Serial, client: Option<Client>)
      modifies this
      ensures Records() == Record(old(Records()), Action(TouchDown, serial, client))
    {
      touchDown := Some(Action(TouchDown, serial, client));
    }

    method Clear()
      modifies this
      ensures Records() == NO_ACTIONS
    {
      keyPress, keyRelease, buttonPress, touchDown := None, None, None, None;
    }
  }

  // ---- Against the full history --------------------------------------------------

  /** Everything that ever happened, oldest first. */
  datatype Entry = Acted(action: Action) | LockBegan

  function Summary(history: seq<Entry>): UserActionSerials {
    if history == [] then NO_ACTIONS
    else match history[|history| - 1]
      case Acted(action) => Record(Summary(history[..|history| - 1]), action)
      case LockBegan => NO_ACTIONS
  }

  /** Entry `i` is the last action of its kind, and no lock began after it. */
  ghost predicate IsLatest(history: seq<Entry>, i: int) {
    && 0 <= i < |history| && history[i].Acted?
    && forall j :: i < j < |history| ==> history[j].Acted? && history[j].action.kind != history[i].action.kind
  }

  function OfKind(records: UserActionSerials, kind: Kind): Option<Action> {
    match kind
    case KeyPress => records.keyPress
    case KeyRelease => records.keyRelease
    case ButtonPress => records.buttonPress
    case TouchDown => records.touchDown
  }

  lemma {:induction false} SummaryHoldsTheLatest(history: seq<Entry>, kind: Kind)
    ensures var kept := OfKind(Summary(history), kind);
      && (kept.Some? ==> exists i :: IsLatest(history, i) && history[i] == Acted(kept.value) && kept.value.kind == kind)
      && (forall i :: IsLatest(history, i) && history[i].action.kind == kind ==> kept == Some(history[i].action))
  {
    if history != [] {
      var before, last := history[..|history| - 1], history[|history| - 1];
      SummaryHoldsTheLatest(before, kind);
      if last.Acted? {
        if last.action.kind == kind {
          assert IsLatest(history, |history| - 1);
        } else {
          forall i | 0 <= i < |before| && history[i].Acted? && history[i].action.kind == kind
            ensures IsLatest(history, i) <==> IsLatest(before, i)
          {
            assert forall j :: i < j < |before| ==> before[j] == history[j];
          }
          var kept := OfKind(Summary(before), kind);
          if kept.Some? {
            var i :| IsLatest(before, i) && before[i] == Acted(kept.value);
            assert history[i] == before[i];
          }
        }
      }
    }
  }

  /** The four kept records answer as the whole history since the last lock
      would. */
  lemma DeliveredToMatchesHistory(history: seq<Entry>, serial: Serial, client: Client)
    ensures Summary(history).DeliveredTo(serial, client) <==>
      exists i :: IsLatest(history, i) && history[i].action.serial == serial && history[i].action.client == Some(client)
  {
    forall kind ensures OfKind(Summary(history), kind).Some? ==>
      exists i :: IsLatest(history, i) && history[i] == Acted(OfKind(Summary(history), kind).value)
    {
      SummaryHoldsTheLatest(history, kind);
    }
    var records := Summary(history);
    assert records.DeliveredTo(serial, client) <==> exists kind :: IsBy(OfKind(records, kind), serial, client) by {
      assert OfKind(records, KeyPress) == records.keyPress && OfKind(records, KeyRelease) == records.keyRelease;
      assert OfKind(records, ButtonPress) == records.buttonPress && OfKind(records, TouchDown) == records.touchDown;
    }
    if kind :| IsBy(OfKind(records, kind), serial, client) {
      var i :| IsLatest(history, i) && history[i] == Acted(OfKind(records, kind).value);
    }
    if i :| IsLatest(history, i) && history[i].action.serial == serial && history[i].action.client == Some(client) {
      SummaryHoldsTheLatest(history, history[i].action.kind);
      assert IsBy(OfKind(records, history[i].action.kind), serial, client);
    }
  }
}
