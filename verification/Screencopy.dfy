/** Screen captures (crates/nkdhr-compositor/src/protocols/screencopy.rs): the
    queue of pending requests, and the copy of a frame's rows into a client's
    buffer. */
module Screencopy {
  import opened Wrappers
  import opened Geometry

  const BYTES_PER_PIXEL := 4
  const USIZE_MAX: int := 0xffff_ffff_ffff_ffff

  type byte = b: int | 0 <= b < 256

  // ---- The queue -------------------------------------------------------------------

  /** A request to copy one output's next frame, on the frame object `frame`. */
  datatype Request = Request(frame: nat, output: string, width: int, height: int, withDamage: bool, overlayCursor: bool)

  predicate IsFor(request: Request, output: string, overlayCursor: bool) {
    request.output == output && request.overlayCursor == overlayCursor
  }

  /** The cursor policy of the output's first request. */
  function FirstPolicy(pending: seq<Request>, output: string): Option<bool> {
    if pending == [] then None
    else if pending[0].output == output then Some(pending[0].overlayCursor)
    else FirstPolicy(pending[1..], output)
  }

  predicate Selects(request: Request, output: string, policy: Option<bool>) {
    policy.Some? && IsFor(request, output, policy.value)
  }

  /** The requests that pass, in the queue's order. */
  function Sift(pending: seq<Request>, passes: Request -> bool): seq<Request> {
    if pending == [] then []
    else
      var last := pending[|pending| - 1];
      Sift(pending[..|pending| - 1], passes) + if passes(last) then [last] else []
  }

  function Selected(output: string, policy: Option<bool>): Request -> bool {
    request => Selects(request, output, policy)
  }

  function Not(passes: Request -> bool): Request -> bool {
    request => !passes(request)
  }

  function OnOutputs(connected: set<string>): Request -> bool {
    (request: Request) => request.output in connected
  }

  function OfOthers(frame: nat): Request -> bool {
    (request: Request) => request.frame != frame
  }

  /** The requests that a take for the output hands out. */
  function Taken(pending: seq<Request>, output: string): seq<Request> {
    Sift(pending, Selected(output, FirstPolicy(pending, output)))
  }

  /** Those it leaves. */
  function Left(pending: seq<Request>, output: string): seq<Request> {
    Sift(pending, Not(Selected(output, FirstPolicy(pending, output))))
  }

  /** What a frame's `copy` request asks for. */
  datatype Frame = Frame(id: nat, output: string, width: int, height: int, overlayCursor: bool)

  datatype Answer = Queued | AlreadyUsed | InvalidBuffer

  /** `ScreencopyState`, with the frames already used and those that failed. */
  class ScreencopyState {
    var pending: seq<Request>
    var used: set<nat>
    var failed: seq<Request>

    /** A frame has at most one request, as its first use was. */
    ghost predicate Valid()
      reads this
    {
      (forall request <- pending :: request.frame in used) && DistinctFrames(pending)
    }

    constructor ()
      ensures Valid() && pending == [] && used == {} && failed == []
    {
      pending, used, failed := [], {}, [];
    }

    /** `take_pending`. */
    method TakePending(output: string) returns (selected: seq<Request>)
      requires Valid()
      modifies this`pending
      ensures Valid()
      ensures selected == Taken(old(pending), output) && pending == Left(old(pending), output)
    {
      var policy := FirstPolicy(pending, output);
      var kept := [];
      selected := [];
      for i := 0 to |pending|
        invariant selected == Sift(pending[..i], Selected(output, policy)) && kept == Sift(pending[..i], Not(Selected(output, policy)))
      {
        assert pending[..i + 1][..i] == pending[..i];
        if Selects(pending[i], output, policy) {
          selected := selected + [pending[i]];
        } else {
          kept := kept + [pending[i]];
        }
      }
      assert pending[..|pending|] == pending;
      SiftedRequests(pending, Not(Selected(output, policy)));
      pending := kept;
    }

    /** `reconcile_outputs`: requests for outputs that are gone fail. */
    method ReconcileOutputs(connected: set<string>)
      requires Valid()
      modifies this`pending, this`failed
      ensures Valid()
      ensures pending == Sift(old(pending), OnOutputs(connected))
      ensures failed == old(failed) + Sift(old(pending), Not(OnOutputs(connected)))
    {
      var kept := [];
      for i := 0 to |pending|
        invariant pending == old(pending) && kept == Sift(pending[..i], OnOutputs(connected))
        invariant failed == old(failed) + Sift(pending[..i], Not(OnOutputs(connected)))
      {
        assert pending[..i + 1][..i] == pending[..i];
        if pending[i].output in connected {
          kept := kept + [pending[i]];
        } else {
          failed := failed + [pending[i]];
        }
      }
      assert pending[..|pending|] == pending;
      SiftedRequests(pending, OnOutputs(connected));
      pending := kept;
    }

    /** A frame's `copy` or `copy_with_damage`: it may be used once, and only
        with a buffer that will do. */
    method Copy(frame: Frame, buffer: ShmBuffer, poolLength: nat, withDamage: bool) returns (answer: Answer)
      requires Valid()
      modifies this`pending, this`used
      ensures Valid()
      ensures used == old(used) + {frame.id}
      ensures answer == (if frame.id in old(used) then AlreadyUsed
                         else if Accepts(buffer, poolLength, frame.width, frame.height) then Queued
                         else InvalidBuffer)
      ensures pending == if answer.Queued?
                         then old(pending) + [Request(frame.id, frame.output, frame.width, frame.height, withDamage, frame.overlayCursor)]
                         else old(pending)
    {
      if frame.id in used { return AlreadyUsed; }
      used := used + {frame.id};
      if !Accepts(buffer, poolLength, frame.width, frame.height) { return InvalidBuffer; }
      pending := pending + [Request(frame.id, frame.output, frame.width, frame.height, withDamage, frame.overlayCursor)];
      answer := Queued;
    }

    /** The client destroyed a frame object. */
    method FrameDestroyed(frame: nat)
      requires Valid()
      modifies this`pending
      ensures Valid() && pending == Sift(old(pending), OfOthers(frame))
    {
      var kept := [];
      for i := 0 to |pending|
        invariant kept == Sift(pending[..i], OfOthers(frame))
      {
        assert pending[..i + 1][..i] == pending[..i];
        if pending[i].frame != frame { kept := kept + [pending[i]]; }
      }
      assert pending[..|pending|] == pending;
      SiftedRequests(pending, OfOthers(frame));
      pending := kept;
    }
  }

  /** Requests from the queue, each at most once and in the queue's order. */
  ghost predicate IsSubsequence(part: seq<Request>, whole: seq<Request>) {
    if part == [] then true
    else if whole == [] then false
    else if part[|part| - 1] == whole[|whole| - 1] && IsSubsequence(part[..|part| - 1], whole[..|whole| - 1]) then true
    else IsSubsequence(part, whole[..|whole| - 1])
  }

  ghost predicate DistinctFrames(pending: seq<Request>) {
    forall i, j :: 0 <= i < j < |pending| ==> pending[i].frame != pending[j].frame
  }

  /** Sifting keeps exactly the requests that pass. */
  lemma {:induction false} SiftedRequests(pending: seq<Request>, passes: Request -> bool)
    ensures forall request :: request in Sift(pending, passes) <==> request in pending && passes(request)
    ensures DistinctFrames(pending) ==> DistinctFrames(Sift(pending, passes))
  {
    if pending != [] {
      var earlier, last := pending[..|pending| - 1], pending[|pending| - 1];
      SiftedRequests(earlier, passes);
      assert pending == earlier + [last];
      assert forall request <- Sift(earlier, passes) :: request in earlier;
      assert DistinctFrames(pending) ==> forall request <- earlier :: request.frame != last.frame;
    }
  }

  /** It keeps their order too. */
  lemma {:induction false} SiftedInOrder(pending: seq<Request>, passes: Request -> bool)
    ensures IsSubsequence(Sift(pending, passes), pending)
  {
    if pending != [] {
      var earlier, last := pending[..|pending| - 1], pending[|pending| - 1];
      SiftedInOrder(earlier, passes);
      var r, before := Sift(pending, passes), Sift(earlier, passes);
      if passes(last) {
        assert r[..|r| - 1] == before;
      } else {
        assert r == before;
      }
    }
  }

  lemma {:induction false} SiftingSplits(pending: seq<Request>, passes: Request -> bool)
    ensures multiset(Sift(pending, passes)) + multiset(Sift(pending, Not(passes))) == multiset(pending)
  {
    if pending != [] {
      SiftingSplits(pending[..|pending| - 1], passes);
      assert pending == pending[..|pending| - 1] + [pending[|pending| - 1]];
    }
  }

  /** A take splits the queue: both parts keep its order, together they are all
      of it, and what is taken has one output and one cursor policy. */
  lemma TakingSplitsTheQueue(pending: seq<Request>, output: string)
    ensures var taken, left := Taken(pending, output), Left(pending, output);
      && IsSubsequence(taken, pending) && IsSubsequence(left, pending)
      && multiset(taken) + multiset(left) == multiset(pending)
      && (forall request <- taken :: request.output == output && FirstPolicy(pending, output) == Some(request.overlayCursor))
      && (forall request <- left :: request in pending
            && (request.output == output ==> FirstPolicy(pending, output) == Some(!request.overlayCursor)))
  {
    var policy := FirstPolicy(pending, output);
    SiftedRequests(pending, Selected(output, policy));
    SiftedRequests(pending, Not(Selected(output, policy)));
    SiftingSplits(pending, Selected(output, policy));
    SiftedInOrder(pending, Selected(output, policy));
    SiftedInOrder(pending, Not(Selected(output, policy)));
    FirstPolicyIsSome(pending, output);
  }

  lemma {:induction false} FirstPolicyIsSome(pending: seq<Request>, output: string)
    ensures forall request <- pending :: request.output == output ==> FirstPolicy(pending, output).Some?
    ensures FirstPolicy(pending, output).Some? ==> exists request <- pending :: IsFor(request, output, FirstPolicy(pending, output).value)
  {
    if pending != [] {
      FirstPolicyIsSome(pending[1..], output);
      assert pending == [pending[0]] + pending[1..];
      assert pending[0].output == output ==> IsFor(pending[0], output, FirstPolicy(pending, output).value);
    }
  }

  /** Two takes with no request in between leave the output none, and take no
      other output's. */
  lemma TwoTakesDrainAnOutput(pending: seq<Request>, output: string)
    ensures var left := Left(Left(pending, output), output);
      && (forall request <- left :: request.output != output)
      && (forall request <- pending :: request.output != output ==> request in left)
  {
    var once := Left(pending, output);
    TakingSplitsTheQueue(pending, output);
    TakingSplitsTheQueue(once, output);
    FirstPolicyIsSome(once, output);
    forall request <- pending | request.output != output ensures request in Left(once, output) {
      StaysLeft(pending, output, request);
      StaysLeft(once, output, request);
    }
  }

  lemma StaysLeft(pending: seq<Request>, output: string, request: Request)
    requires request in pending && request.output != output
    ensures request in Left(pending, output)
  {
    SiftedRequests(pending, Not(Selected(output, FirstPolicy(pending, output))));
  }

  // ---- The row copy -------------------------------------------------------------------

  datatype Format = Xrgb8888 | OtherFormat

  /** A buffer in a client's pool. */
  datatype ShmBuffer = ShmBuffer(format: Format, width: int, height: int, stride: int, offset: int)

  function CheckedMul(a: nat, b: nat): Option<nat> {
    if a * b <= USIZE_MAX then Some(a * b) else None
  }

  function CheckedAdd(a: nat, b: nat): Option<nat> {
    if a + b <= USIZE_MAX then Some(a + b) else None
  }

  /** Where a buffer ends in its pool, if its sizes make sense. */
  function End(buffer: ShmBuffer): Option<nat> {
    if buffer.offset < 0 || buffer.stride < 0 || buffer.height < 0 then None
    else
      var size := CheckedMul(buffer.stride, buffer.height);
      if size.None? then None else CheckedAdd(size.value, buffer.offset)
  }

  /** `validate_buffer`. */
  predicate Accepts(buffer: ShmBuffer, poolLength: nat, width: int, height: int) {
    && buffer.format == Xrgb8888 && buffer.width == width && buffer.height == height
    && buffer.offset >= 0 && buffer.stride >= Saturate(width * BYTES_PER_PIXEL)
    && End(buffer).Some? && End(buffer).value <= poolLength
  }

  /** The pool with `row` written over it at `at`. */
  function Overwrite(pool: seq<byte>, at: nat, row: seq<byte>): (r: seq<byte>)
    requires at + |row| <= |pool|
    ensures |r| == |pool|
    ensures forall i :: 0 <= i < |pool| ==> r[i] == if at <= i < at + |row| then row[i - at] else pool[i]
  {
    pool[..at] + row + pool[at + |row|..]
  }

  /** Where a row starts: `offset + row * stride`, a row at a time. */
  function RowStart(offset: nat, stride: nat, row: nat): (start: nat)
    ensures start >= offset
  {
    if row == 0 then offset else RowStart(offset, stride, row - 1) + stride
  }

  lemma {:induction false} RowStartIsAProduct(offset: nat, stride: nat, row: nat)
    ensures RowStart(offset, stride, row) == offset + row * stride
  {
    if row > 0 { RowStartIsAProduct(offset, stride, row - 1); }
  }

  lemma {:induction false} RowsAreApart(offset: nat, stride: nat, row: nat, rows: nat)
    requires row < rows
    ensures RowStart(offset, stride, row) + stride <= RowStart(offset, stride, rows)
  {
    if row < rows - 1 { RowsAreApart(offset, stride, row, rows - 1); }
  }

  /** Rows of `length` bytes, `stride` apart, fit the pool from `offset` on, and
      the renderer delivered them all. */
  predicate Fits(pool: seq<byte>, pixels: seq<byte>, offset: nat, stride: nat, length: nat, rows: nat) {
    length <= stride && RowStart(offset, stride, rows) <= |pool| && RowStart(0, length, rows) <= |pixels|
  }

  /** The pool with the first rows of the frame in it. */
  function CopiedRows(pool: seq<byte>, pixels: seq<byte>, offset: nat, stride: nat, length: nat, rows: nat): (r: seq<byte>)
    requires Fits(pool, pixels, offset, stride, length, rows)
    ensures |r| == |pool|
  {
    if rows == 0 then pool
    else
      Overwrite(
        CopiedRows(pool, pixels, offset, stride, length, rows - 1),
        RowStart(offset, stride, rows - 1), pixels[RowStart(0, length, rows - 1)..RowStart(0, length, rows)])
  }

  /** A byte of the pool that belongs to a row of the buffer. */
  predicate InRow(i: int, row: nat, offset: nat, stride: nat, length: nat) {
    RowStart(offset, stride, row) <= i < RowStart(offset, stride, row) + length
  }

  predicate CopiedByte(r: seq<byte>, pixels: seq<byte>, offset: nat, stride: nat, length: nat, row: nat, c: nat) {
    var to, from := RowStart(offset, stride, row) + c, RowStart(0, length, row) + c;
    to < |r| && from < |pixels| && r[to] == pixels[from]
  }

  /** The first rows are the frame's; any byte outside of them is the pool's. */
  ghost predicate HoldsFrame(
    r: seq<byte>, pool: seq<byte>, pixels: seq<byte>, offset: nat, stride: nat, length: nat, rows: nat)
  {
    && |r| == |pool|
    && (forall row, c :: 0 <= row < rows && 0 <= c < length ==> CopiedByte(r, pixels, offset, stride, length, row, c))
    && forall i :: 0 <= i < |r| && (forall row :: 0 <= row < rows ==> !InRow(i, row, offset, stride, length)) ==> r[i] == pool[i]
  }

  /** Exactly the rows of the frame are written, each at its stride; every other
      byte is left alone. */
  lemma {:induction false} RowsAreCopied(pool: seq<byte>, pixels: seq<byte>, offset: nat, stride: nat, length: nat, rows: nat)
    requires Fits(pool, pixels, offset, stride, length, rows)
    ensures HoldsFrame(CopiedRows(pool, pixels, offset, stride, length, rows), pool, pixels, offset, stride, length, rows)
  {
    if rows > 0 {
      RowsAreCopied(pool, pixels, offset, stride, length, rows - 1);
      var before := CopiedRows(pool, pixels, offset, stride, length, rows - 1);
      assert HoldsFrame(before, pool, pixels, offset, stride, length, rows - 1);
      var r := CopiedRows(pool, pixels, offset, stride, length, rows);
      forall row, c | 0 <= row < rows && 0 <= c < length ensures CopiedByte(r, pixels, offset, stride, length, row, c) {
        if row < rows - 1 {
          assert CopiedByte(before, pixels, offset, stride, length, row, c);
          RowsAreApart(offset, stride, row, rows - 1);
        }
      }
      forall i | 0 <= i < |pool| && forall row :: 0 <= row < rows ==> !InRow(i, row, offset, stride, length)
        ensures r[i] == pool[i]
      {
        assert !InRow(i, rows - 1, offset, stride, length);
      }
    }
  }

  /** `copy_nonoverlapping`. */
  method CopyRow(pool: array<byte>, at: nat, line: seq<byte>)
    requires at + |line| <= pool.Length
    modifies pool
    ensures pool[..] == Overwrite(old(pool[..]), at, line)
  {
    forall c | 0 <= c < |line| {
      pool[at + c] := line[c];
    }
  }

  /** `complete`: copies the frame's rows into the client's buffer, or fails and
      leaves the pool alone. Sizes are `i32`; a row's bytes fit one too. */
  method Complete(width: int, height: int, pixels: seq<byte>, buffer: ShmBuffer, pool: array<byte>) returns (r: Result<(), string>)
    requires InI32(width) && InI32(height) && BYTES_PER_PIXEL * width <= I32_MAX
    modifies pool
    ensures r.Ok? <==> 0 <= width && 0 <= height && width * BYTES_PER_PIXEL * height <= |pixels|
                       && Accepts(buffer, pool.Length, width, height)
    ensures r.Err? ==> pool[..] == old(pool[..])
    ensures r.Ok? ==> Fits(old(pool[..]), pixels, buffer.offset, buffer.stride, width * BYTES_PER_PIXEL, height)
    ensures r.Ok? ==> pool[..] == CopiedRows(old(pool[..]), pixels, buffer.offset, buffer.stride, width * BYTES_PER_PIXEL, height)
  {
    if width < 0 { return Err("negative screencopy width"); }
    var length := width * BYTES_PER_PIXEL;
    if height < 0 { return Err("negative screencopy height"); }
    if |pixels| < length * height { return Err("short frame"); }
    if !Accepts(buffer, pool.Length, width, height) { return Err("incompatible buffer"); }
    var offset, stride := buffer.offset, buffer.stride;
    AcceptedFramesFit(pool[..], pixels, buffer, width, height);
    for row := 0 to height
      invariant Fits(pool[..], pixels, offset, stride, length, row)
      invariant pool[..] == CopiedRows(old(pool[..]), pixels, offset, stride, length, row)
    {
      FewerRowsFit(pool[..], pixels, offset, stride, length, row + 1, height);
      CopyRow(pool, RowStart(offset, stride, row), pixels[RowStart(0, length, row)..RowStart(0, length, row + 1)]);
    }
    r := Ok(());
  }

  lemma AcceptedFramesFit(pool: seq<byte>, pixels: seq<byte>, buffer: ShmBuffer, width: nat, height: nat)
    requires BYTES_PER_PIXEL * width <= I32_MAX && Accepts(buffer, |pool|, width, height)
    requires width * BYTES_PER_PIXEL * height <= |pixels|
    ensures Fits(pool, pixels, buffer.offset, buffer.stride, width * BYTES_PER_PIXEL, height)
  {
    RowStartIsAProduct(buffer.offset, buffer.stride, height);
    RowStartIsAProduct(0, width * BYTES_PER_PIXEL, height);
  }

  lemma FewerRowsFit(pool: seq<byte>, pixels: seq<byte>, offset: nat, stride: nat, length: nat, fewer: nat, rows: nat)
    requires Fits(pool, pixels, offset, stride, length, rows) && fewer <= rows
    ensures Fits(pool, pixels, offset, stride, length, fewer)
  {
    if fewer < rows {
      RowsAreApart(offset, stride, fewer, rows);
      RowsAreApart(0, length, fewer, rows);
    }
  }
}
