/** Interactive resize (crates/nkdhr-compositor/src/grabs.rs): the bookkeeping
    between the pointer grab, the client's acknowledgements and its commits.
    It follows `xdg_surface.ack_configure` of xdg-shell. */
module Resize {
  import opened Wrappers
  import opened Geometry

  datatype Edges = Edges(top: bool, bottom: bool, left: bool, right: bool)

  /** What a resize started from. */
  datatype ResizeData = ResizeData(edges: Edges, initialLocation: Point, initialSize: Size) {
    function SizeFor(offset: Point, min: Size, max: Size): Size {
      var width :=
        if edges.left then SatSub(initialSize.w, offset.x)
        else if edges.right then SatAdd(initialSize.w, offset.x)
        else initialSize.w;
      var height :=
        if edges.top then SatSub(initialSize.h, offset.y)
        else if edges.bottom then SatAdd(initialSize.h, offset.y)
        else initialSize.h;
      Size(ClampAxis(width, min.w, max.w), ClampAxis(height, min.h, max.h))
    }

    function LocationFor(current: Point, size: Size): Point {
      Point(
        if edges.left then SatAdd(initialLocation.x, SatSub(initialSize.w, size.w)) else current.x,
        if edges.top then SatAdd(initialLocation.y, SatSub(initialSize.h, size.h)) else current.y)
    }

    predicate MovesOrigin() {
      edges.top || edges.left
    }

    /** `LocationFor` computes an exact result for `size`. */
    predicate Exact(size: Size) {
      && (edges.left ==>
            InI32(initialSize.w - size.w) && InI32(initialLocation.x + initialSize.w - size.w))
      && (edges.top ==>
            InI32(initialSize.h - size.h) && InI32(initialLocation.y + initialSize.h - size.h))
    }
  }

  function ClampAxis(value: int, min: int, max: int): int {
    var atMost := if max > 0 then Min(value, max) else value;
    var atLeast := if min > 0 then Max(atMost, min) else atMost;
    Max(atLeast, 1)
  }

  datatype ResizeState =
    | Idle
    | Resizing(data: ResizeData)
    | WaitingForFinalAck(data: ResizeData, finalSerial: nat)
    | WaitingForCommit(data: ResizeData)
  {
    /** The resize whose fixed edge the next commit keeps in place. */
    function Corrects(): Option<ResizeData> {
      if Idle? then None else Some(data)
    }

    function AfterCommit(): ResizeState {
      if WaitingForCommit? then Idle else this
    }

    function Acknowledged(serial: nat): ResizeState {
      if WaitingForFinalAck? && serial >= finalSerial then WaitingForCommit(data) else this
    }

    function GrabEnded(ended: ResizeData, serial: nat): ResizeState {
      if this == Resizing(ended) then WaitingForFinalAck(ended, serial) else this
    }

    predicate Anchors(started: ResizeData) {
      this == Resizing(started)
    }
  }

  datatype Grab = Grab(data: ResizeData, lastSize: Size)

  /** A live window together with the resize grab that may be running on it.
      `serial` is the last configure serial the compositor used. */
  datatype Window = Window(
    x11: bool, location: Option<Point>, size: Size, resize: ResizeState, grab: Option<Grab>, serial: nat)

  datatype Event =
    | Begin(edges: Edges)
    | Motion(offset: Point, min: Size, max: Size)
    | Commit(size: Size)
    | Ack(serial: nat)
    | EndGrab
    | Move(to: Point)
    | Unmap

  /** What `begin_resize` records. */
  function Started(w: Window, edges: Edges): ResizeData
    requires w.location.Some?
  {
    ResizeData(edges, w.location.value, w.size)
  }

  function BeginStep(w: Window, edges: Edges): Window {
    if w.location.None? || w.grab.Some? then w
    else
      var data := Started(w, edges);
      w.(resize := Resizing(data), grab := Some(Grab(data, data.initialSize)))
  }

  function EndGrabStep(w: Window): Window {
    if w.grab.None? then w
    else if !w.x11 && w.location.Some?
    then w.(grab := None, serial := w.serial + 1,
            resize := w.resize.GrabEnded(w.grab.value.data, w.serial + 1))
    else w.(grab := None, resize := Idle)
  }

  function MotionStep(w: Window, offset: Point, min: Size, max: Size): Window {
    if w.grab.None? then w
    else if w.location.None? then EndGrabStep(w)
    else
      var data := w.grab.value.data;
      var size := data.SizeFor(offset, min, max);
      if size == w.grab.value.lastSize then w
      else
        var moved := w.(grab := Some(Grab(data, size)));
        if w.x11 then
          var location := if w.resize.Anchors(data) then data.LocationFor(w.location.value, size) else w.location.value;
          moved.(location := Some(location), size := size)
        else
          moved.(serial := w.serial + 1)
  }

  /** A buffer commit. An X11 window's geometry is the configured one, which
      no commit changes; only a placed xdg toplevel is corrected. */
  function CommitStep(w: Window, size: Size): Window {
    var sized := w.(size := size);
    if w.x11 then w
    else if w.location.None? then sized
    else
      var corrected := match w.resize.Corrects()
        case None => w.location.value
        case Some(data) => if data.MovesOrigin() then data.LocationFor(w.location.value, size) else w.location.value;
      sized.(resize := w.resize.AfterCommit(), location := Some(corrected))
  }

  function MoveStep(w: Window, to: Point): Window {
    if w.location.None? then w else w.(location := Some(to), resize := Idle)
  }

  function UnmapStep(w: Window): Window {
    w.(location := None, resize := Idle)
  }

  function Step(w: Window, event: Event): Window {
    match event
    case Begin(edges) => BeginStep(w, edges)
    case Motion(offset, min, max) => MotionStep(w, offset, min, max)
    case Commit(size) => CommitStep(w, size)
    case Ack(serial) => w.(resize := w.resize.Acknowledged(serial))
    case EndGrab => EndGrabStep(w)
    case Move(to) => MoveStep(w, to)
    case Unmap => UnmapStep(w)
  }

  function Run(w: Window, events: seq<Event>): Window {
    if events == [] then w else Step(Run(w, events[..|events| - 1]), events[|events| - 1])
  }

  /** The window and the grab as the source holds them: fields updated in place
      by `begin_resize`, the grab's callbacks, commits, acks and moves. */
  class ResizableWindow {
    const x11: bool
    var location: Option<Point>
    var size: Size
    var resize: ResizeState
    var grab: Option<Grab>
    var serial: nat

    function State(): Window
      reads this
    {
      Window(x11, location, size, resize, grab, serial)
    }

    constructor (x11: bool, location: Option<Point>, size: Size)
      ensures State() == Window(x11, location, size, Idle, None, 0)
    {
      this.x11, this.location, this.size := x11, location, size;
      resize, grab, serial := Idle, None, 0;
    }

    /** `begin_resize`; refused while a grab of this module already runs. */
    method BeginResize(edges: Edges)
      modifies this
      ensures State() == Step(old(State()), Begin(edges))
    {
      if location.None? || grab.Some? { return; }
      var data := ResizeData(edges, location.value, size);
      resize := Resizing(data);
      grab := Some(Grab(data, data.initialSize));
    }

    /** `ResizeGrab::motion`. */
    method PointerMotion(offset: Point, min: Size, max: Size)
      modifies this
      ensures State() == Step(old(State()), Motion(offset, min, max))
    {
      if grab.None? { return; }
      if location.None? {
        Unset();
        return;
      }
      var data := grab.value.data;
      var anchored := resize.Anchors(data);
      var wanted := data.SizeFor(offset, min, max);
      if wanted == grab.value.lastSize { return; }
      grab := Some(Grab(data, wanted));
      if x11 {
        if anchored { location := Some(data.LocationFor(location.value, wanted)); }
        size := wanted;
      } else {
        serial := serial + 1;
      }
    }

    /** `ResizeGrab::unset`, however the grab ends. */
    method Unset()
      modifies this
      ensures State() == Step(old(State()), EndGrab)
    {
      if grab.None? { return; }
      var data := grab.value.data;
      if !x11 && location.Some? {
        serial := serial + 1;
        resize := resize.GrabEnded(data, serial);
      } else {
        resize := Idle;
      }
      grab := None;
    }

    /** `commit_resize` and its caller, for a buffer commit. */
    method CommitBuffer(newSize: Size)
      modifies this
      ensures State() == Step(old(State()), Commit(newSize))
    {
      if x11 { return; }
      size := newSize;
      if location.None? { return; }
      var data := resize.Corrects();
      resize := resize.AfterCommit();
      if data.Some? && data.value.MovesOrigin() {
        location := Some(data.value.LocationFor(location.value, size));
      }
    }

    /** `ack_resize_configure`. */
    method AckConfigure(acknowledged: nat)
      modifies this`resize
      ensures State() == Step(old(State()), Ack(acknowledged))
    {
      resize := resize.Acknowledged(acknowledged);
    }

    /** `App::move_window` on a live window. */
    method MoveWindow(to: Point)
      modifies this
      ensures State() == Step(old(State()), Move(to))
    {
      if location.None? { return; }
      location := Some(to);
      resize := Idle;
    }

    /** `WindowStore::unplace`. */
    method Unplace()
      modifies this
      ensures State() == Step(old(State()), Unmap)
    {
      location := None;
      resize := Idle;
    }
  }

  // ---- Sizes -------------------------------------------------------------------

  /** Within consistent size hints the result is the allowed size nearest to
      the one asked for; contradictory hints leave the minimum in force. */
  lemma ClampAxisIsNearest(value: int, min: int, max: int, other: int)
    requires max > 0 ==> min <= max
    requires other >= 1 && (min > 0 ==> other >= min) && (max > 0 ==> other <= max)
    ensures var r := ClampAxis(value, min, max);
      && r >= 1 && (min > 0 ==> r >= min) && (max > 0 ==> r <= max)
      && (if r <= value then value - r else r - value) <= (if other <= value then value - other else other - value)
  {
  }

  // ---- The fixed edge ------------------------------------------------------------

  /** On each axis the edge opposite the moved one, or the origin when the
      resize does not move it, is where it was when the grab began. */
  ghost predicate EdgeHeld(w: Window, data: ResizeData) {
    w.location.Some? &&
    var location := w.location.value;
    && (if data.edges.left
        then location.x + w.size.w == data.initialLocation.x + data.initialSize.w
        else location.x == data.initialLocation.x)
    && (if data.edges.top
        then location.y + w.size.h == data.initialLocation.y + data.initialSize.h
        else location.y == data.initialLocation.y)
  }

  /** Events of one resize and its client: nothing outside moves the window. */
  ghost predicate OwnEvents(events: seq<Event>) {
    forall event <- events :: event.Motion? || event.Commit? || event.Ack? || event.EndGrab?
  }

  /** No size that decides a location, which is the committed one for an xdg
      toplevel and the pointer's for an X11 window, makes its arithmetic
      saturate. */
  ghost predicate ExactEvents(x11: bool, data: ResizeData, events: seq<Event>) {
    forall event <- events ::
      && (event.Commit? && !x11 ==> data.Exact(event.size))
      && (event.Motion? && x11 ==> data.Exact(data.SizeFor(event.offset, event.min, event.max)))
  }

  /** What one resize keeps: as long as it corrects, its edge is in place; the
      grab, while it runs, is the one that started it. */
  ghost predicate ResizeInvariant(w: Window, data: ResizeData) {
    && w.location.Some?
    && (w.resize == Idle || w.resize.Corrects() == Some(data))
    && (w.resize.Corrects() == Some(data) ==> EdgeHeld(w, data))
    && (w.grab.Some? ==> w.grab.value.data == data && w.resize == Resizing(data))
    && (w.x11 ==> w.resize.Idle? || w.resize.Resizing?)
    && (w.x11 && w.resize.Resizing? ==> w.grab.Some?)
  }

  lemma FixedEdgeStep(w: Window, data: ResizeData, event: Event)
    requires ResizeInvariant(w, data) && OwnEvents([event]) && ExactEvents(w.x11, data, [event])
    ensures ResizeInvariant(Step(w, event), data) && Step(w, event).x11 == w.x11
    ensures event.Commit? && w.resize.Corrects().Some? ==> EdgeHeld(Step(w, event), data)
    ensures w.resize.Idle? ==> Step(w, event).resize.Idle? && Step(w, event).location == w.location
  {
    assert event in [event];
  }

  /** From the start of a resize, whatever the pointer does and whatever sizes
      the client commits and serials it acknowledges, the fixed edge is in place
      as long as the resize corrects, and after its last corrected commit. */
  lemma {:induction false} FixedEdgeHolds(w: Window, edges: Edges, events: seq<Event>)
    requires w.location.Some? && w.grab.None?
    requires OwnEvents(events) && ExactEvents(w.x11, Started(w, edges), events)
    ensures var data, started := Started(w, edges), Step(w, Begin(edges));
      && ResizeInvariant(Run(started, events), data) && Run(started, events).x11 == w.x11
      && (forall n :: 0 <= n < |events| && events[n].Commit? && Run(started, events[..n]).resize.Corrects().Some?
            ==> EdgeHeld(Run(started, events[..n + 1]), data))
  {
    var data, started := Started(w, edges), Step(w, Begin(edges));
    if events != [] {
      var before, last := events[..|events| - 1], events[|events| - 1];
      assert last in events && OwnEvents([last]) && ExactEvents(w.x11, data, [last]);
      FixedEdgeHolds(w, edges, before);
      FixedEdgeStep(Run(started, before), data, last);
      forall n | 0 <= n < |events| && events[n].Commit? && Run(started, events[..n]).resize.Corrects().Some?
        ensures EdgeHeld(Run(started, events[..n + 1]), data)
      {
        if n < |before| {
          assert events[..n] == before[..n] && events[..n + 1] == before[..n + 1];
        } else {
          assert events[..n] == before && events[..n + 1] == events;
        }
      }
    }
  }

  // ---- When the correction ends ----------------------------------------------------

  ghost predicate Answers(events: seq<Event>) {
    forall event <- events :: event.Commit? || event.Ack?
  }

  /** The client has acknowledged the final configure or a later one. */
  predicate FinalAcked(events: seq<Event>, final: nat) {
    exists i :: 0 <= i < |events| && events[i].Ack? && events[i].serial >= final
  }

  /** ... and has committed since. */
  predicate FinalCommitted(events: seq<Event>, final: nat) {
    exists c :: 0 <= c < |events| && events[c].Commit? && FinalAcked(events[..c], final)
  }

  lemma FinalAckedStep(events: seq<Event>, final: nat)
    requires events != []
    ensures var before, last := events[..|events| - 1], events[|events| - 1];
      && (FinalAcked(events, final) <==> FinalAcked(before, final) || (last.Ack? && last.serial >= final))
      && (FinalCommitted(events, final) <==> FinalCommitted(before, final) || (last.Commit? && FinalAcked(before, final)))
  {
    var before, last := events[..|events| - 1], events[|events| - 1];
    if i :| 0 <= i < |before| && before[i].Ack? && before[i].serial >= final {
      assert events[i] == before[i];
    }
    forall c | 0 <= c < |events| ensures events[..c] == (if c < |before| then before[..c] else before) {
      if c < |before| { assert events[..c] == before[..c]; }
    }
    if c :| 0 <= c < |before| && before[c].Commit? && FinalAcked(before[..c], final) {
      assert events[c] == before[c] && events[..c] == before[..c];
    }
  }

  /** After the grab has ended, the resize state is decided by the client's
      answers alone; a commit is corrected exactly when no earlier commit
      followed an acknowledgement of the final configure. */
  lemma {:induction false} CorrectionEndsAtTheFinalCommit(w: Window, data: ResizeData, final: nat, events: seq<Event>)
    requires !w.x11 && w.location.Some? && w.grab.None? && w.resize == WaitingForFinalAck(data, final)
    requires Answers(events)
    ensures var after := Run(w, events);
      && after.location.Some? && after.grab.None? && !after.x11
      && after.resize == (if FinalCommitted(events, final) then Idle
                          else if FinalAcked(events, final) then WaitingForCommit(data)
                          else WaitingForFinalAck(data, final))
      && (after.resize.Corrects().Some? <==> !FinalCommitted(events, final))
  {
    if events != [] {
      assert events[|events| - 1] in events;
      CorrectionEndsAtTheFinalCommit(w, data, final, events[..|events| - 1]);
      FinalAckedStep(events, final);
    }
  }

  // ---- Outside moves ------------------------------------------------------------------

  /** Once something has moved the window, no later motion, commit,
      acknowledgement or end of that grab changes its location. */
  lemma {:induction false} MovedWindowStaysPut(w: Window, to: Point, events: seq<Event>)
    requires w.location.Some? && OwnEvents(events)
    ensures var after := Run(Step(w, Move(to)), events);
      after.location == Some(to) && after.resize == Idle && after.x11 == w.x11
  {
    if events != [] {
      assert events[|events| - 1] in events;
      MovedWindowStaysPut(w, to, events[..|events| - 1]);
    }
  }
}
