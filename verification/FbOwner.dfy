/**
 Framebuffer ownership: probe the geometry, take the framebuffer away from the text
 console, write whole frames, and give the console back. Every answer of the system
 is a parameter; nobody else writes the console's bind node.
 */
module FbOwner {
  import opened Arith
  import opened Words
  import opened Options

  const MAX_FRAME_BYTES: nat := 64 * 1024 * 1024

  datatype State = Idle | Probed | Owned | Released | Failed

  datatype Bind = Unknown | Unbound | Bound

  /** `struct fb_owner` without its paths and message. */
  datatype Owner = Owner(
    state: State,
    width: Uint,
    height: Uint,
    bpp: Uint,
    stride: Uint,
    frameBytes: nat,
    wasBound: Bind,
    unboundByUs: bool,
    restored: bool,
    framesWritten: nat)

  const FRESH: Owner := Owner(Idle, 0, 0, 0, 0, 0, Unknown, false, false, 0)

  /** What opening and examining the framebuffer path answers; `memory` 0 stands for no answer. */
  datatype Target = NoOpen | NoStat | Regular(size: nat) | Character(memory: Uint) | OtherKind

  /** What the probe reads: each sysfs file may be missing or malformed. */
  datatype Sysfs = Sysfs(size: Option<(Uint, Uint)>, bpp: Option<Uint>, stride: Option<Uint>, target: Target, bindReadable: bool)

  /** One answer of `write(2)`. */
  datatype WriteAnswer = Wrote(count: nat) | Interrupted | Broken

  /** The console's bind switch, every attempt to write it, and the framebuffer's bytes. */
  datatype Board = Board(bound: bool, attempts: seq<bool>, screen: seq<Byte>)

  datatype System = System(owner: Owner, board: Board)

  datatype Op =
    | Probe(sysfs: Sysfs)
    | Acquire(bindOk: bool)
    | WriteFrame(frame: Option<seq<Byte>>, openOk: bool, seekOk: bool, answers: seq<WriteAnswer>)
    | Release(bindOk: bool)

  /** The system after a call, and whether the call returned 0. */
  datatype Outcome = Outcome(system: System, ok: bool)

  // ---------------------------------------------------------------- probing

  /** One packed row in unsigned int arithmetic. */
  function Packed(w: Uint, bpp: Uint): Uint {
    w * (bpp / 8) % UINT_RANGE
  }

  function StrideOf(w: Uint, bpp: Uint, stride: Option<Uint>): Uint {
    if stride.None? || stride.value == 0 then Packed(w, bpp) else stride.value
  }

  predicate Holds(target: Target, frameBytes: nat) {
    match target
    case Regular(size) => size % SIZE_RANGE >= frameBytes
    case Character(memory) => memory == 0 || memory >= frameBytes
    case _ => false
  }

  /** The width, height, depth and stride read, when they pass the checks before the frame size. */
  function Geometry(sysfs: Sysfs): Option<(Uint, Uint, Uint, Uint)> {
    if sysfs.size.None? || sysfs.bpp.None? then None
    else
      var (w, h) := sysfs.size.value;
      var bpp := sysfs.bpp.value;
      if w == 0 || h == 0 || bpp == 0 || bpp % 8 != 0 then None
      else
        var stride := StrideOf(w, bpp, sysfs.stride);
        if stride < Packed(w, bpp) then None else Some((w, h, bpp, stride))
  }

  function Probing(owner: Owner, sysfs: Sysfs, bound: bool): (Owner, bool) {
    if !owner.state.Idle? then (owner.(state := Failed), false)
    else match Geometry(sysfs)
      case None => (owner.(state := Failed), false)
      case Some((w, h, bpp, stride)) =>
        var frameBytes := stride * h % SIZE_RANGE;
        var sized := owner.(width := w, height := h, bpp := bpp, stride := stride, frameBytes := frameBytes);
        if frameBytes == 0 || frameBytes > MAX_FRAME_BYTES || !Holds(sysfs.target, frameBytes)
        then (sized.(state := Failed), false)
        else (sized.(state := Probed, wasBound := if sysfs.bindReadable && bound then Bound else Unbound), true)
  }

  // ---------------------------------------------------------------- writing

  /** Bytes delivered by a write loop: it stops when done, at an error, and at a write of nothing. */
  function Delivered(frame: seq<Byte>, room: nat, at: nat, answers: seq<WriteAnswer>): (n: nat)
    requires at <= |frame| && at <= room
    ensures at <= n <= |frame| && n <= room
    decreases |answers|
  {
    if at == |frame| || answers == [] || answers[0].Broken? then at
    else if answers[0].Interrupted? then Delivered(frame, room, at, answers[1..])
    else
      var n := Min(answers[0].count, Min(|frame| - at, room - at));
      if n == 0 then at else Delivered(frame, room, at + n, answers[1..])
  }

  /** The screen once the first `n` bytes of a frame are on it. */
  function Overlaid(screen: seq<Byte>, frame: seq<Byte>, n: nat): (r: seq<Byte>)
    requires n <= |frame| && n <= |screen|
    ensures |r| == |screen|
  {
    frame[..n] + screen[n..]
  }

  /** A call that touches nothing: no ownership, no frame, or a frame of the wrong length. */
  predicate Refused(owner: Owner, frame: Option<seq<Byte>>) {
    !owner.state.Owned? || frame.None? || |frame.value| != owner.frameBytes
  }

  function Writing(s: System, op: Op): Outcome
    requires op.WriteFrame?
  {
    if Refused(s.owner, op.frame) then Outcome(s, false)
    else if !op.openOk || !op.seekOk then Outcome(s.(owner := s.owner.(state := Failed)), false)
    else
      var frame := op.frame.value;
      var n := Delivered(frame, |s.board.screen|, 0, op.answers);
      var board := s.board.(screen := Overlaid(s.board.screen, frame, n));
      if n == |frame| then Outcome(System(s.owner.(framesWritten := s.owner.framesWritten + 1), board), true)
      else Outcome(System(s.owner.(state := Failed), board), false)
  }

  // ------------------------------------------------------------- the machine

  /** A bind write either takes effect or changes nothing. */
  function BindWritten(board: Board, value: bool, ok: bool): Board {
    board.(bound := if ok then value else board.bound, attempts := board.attempts + [value])
  }

  function Step(s: System, op: Op): Outcome {
    match op
    case Probe(sysfs) =>
      var (owner, ok) := Probing(s.owner, sysfs, s.board.bound);
      Outcome(s.(owner := owner), ok)
    case Acquire(bindOk) =>
      if !s.owner.state.Probed? then Outcome(s.(owner := s.owner.(state := Failed)), false)
      else if !s.owner.wasBound.Bound? then Outcome(s.(owner := s.owner.(state := Owned)), true)
      else if !bindOk then Outcome(System(s.owner.(state := Failed), BindWritten(s.board, false, false)), false)
      else Outcome(System(s.owner.(state := Owned, unboundByUs := true), BindWritten(s.board, false, true)), true)
    case WriteFrame(_, _, _, _) => Writing(s, op)
    case Release(bindOk) =>
      if s.owner.state.Released? then Outcome(s, true)
      else if s.owner.unboundByUs then
        if !bindOk then Outcome(s.(board := BindWritten(s.board, true, false)), false)
        else Outcome(System(s.owner.(unboundByUs := false, restored := true, state := Released), BindWritten(s.board, true, true)), true)
      else Outcome(s.(owner := s.owner.(restored := s.owner.restored || s.owner.wasBound.Unbound?, state := Released)), true)
  }

  /** The system after a sequence of calls on a fresh owner. */
  function After(board: Board, ops: seq<Op>): System {
    if ops == [] then System(FRESH, board)
    else Step(After(board, ops[..|ops| - 1]), ops[|ops| - 1]).system
  }

  /** What call `i` of the sequence returned. */
  predicate Succeeds(board: Board, ops: seq<Op>, i: nat)
    requires i < |ops|
  {
    Step(After(board, ops[..i]), ops[i]).ok
  }

  /** Some acquire has succeeded and no release since. */
  predicate Holding(board: Board, ops: seq<Op>) {
    ops != [] &&
    var front, last := ops[..|ops| - 1], ops[|ops| - 1];
    var ok := Step(After(board, front), last).ok;
    if last.Acquire? && ok then true
    else if last.Release? && ok then false
    else Holding(board, front)
  }

  /** Calls that put a whole frame on the screen. */
  function Frames(board: Board, ops: seq<Op>): nat {
    if ops == [] then 0
    else
      var front, last := ops[..|ops| - 1], ops[|ops| - 1];
      Frames(board, front) + if last.WriteFrame? && Step(After(board, front), last).ok then 1 else 0
  }

  // --------------------------------------------------------------- theorems

  /** Some probe has succeeded with the bind node readable. */
  predicate BindRead(board: Board, ops: seq<Op>) {
    ops != [] &&
    var front, last := ops[..|ops| - 1], ops[|ops| - 1];
    (last.Probe? && Step(After(board, front), last).ok && last.sysfs.bindReadable) || BindRead(board, front)
  }

  /** What every call keeps, for the bind value the console started with. */
  ghost predicate Inv(start: Board, s: System, holding: bool, bindRead: bool) {
    && (s.owner.wasBound.Bound? <==> start.bound && bindRead)
    && (bindRead ==> !s.owner.state.Idle?)
    && s.board.bound == (start.bound && !s.owner.unboundByUs)
    && (s.owner.unboundByUs <==> holding && s.owner.wasBound.Bound?)
    && (holding ==> s.owner.state.Owned? || s.owner.state.Failed?)
    && (s.owner.state.Owned? ==> holding)
    && (s.owner.wasBound.Unknown? ==> !s.owner.state.Probed? && !s.owner.state.Owned?)
    && (!s.owner.wasBound.Bound? ==> s.board.attempts == start.attempts)
    && (s.owner.state.Idle? ==> s.owner == FRESH)
    && (s.owner.state.Probed? ==> !s.owner.restored)
    && (s.owner.state.Probed? || s.owner.state.Owned? ==> 0 < s.owner.frameBytes <= MAX_FRAME_BYTES)
    && |s.board.screen| == |start.screen|
  }

  lemma {:induction false} InvRun(start: Board, ops: seq<Op>)
    ensures Inv(start, After(start, ops), Holding(start, ops), BindRead(start, ops))
  {
    if ops != [] {
      InvRun(start, ops[..|ops| - 1]);
    }
  }

  /**
   The console's bind differs from the value it started with exactly while it was bound, a probe
   read that, an acquire has succeeded and no release has since. Without such a probe it is
   never written.
   */
  lemma BindOnlyWhileHeld(start: Board, ops: seq<Op>)
    ensures var s := After(start, ops);
            && (s.board.bound != start.bound <==> Holding(start, ops) && start.bound && BindRead(start, ops))
            && (!(start.bound && BindRead(start, ops)) ==> s.board.attempts == start.attempts)
            && (s.owner.state.Released? ==> s.board.bound == start.bound)
  {
    InvRun(start, ops);
  }

  /**
   Every write to the bind node: a successful acquire makes exactly one, of false, if the console
   was found bound, and none otherwise; a release makes one, of true, exactly while the console
   is displaced; probes and frames make none.
   */
  lemma WritesExactly(start: Board, ops: seq<Op>, op: Op)
    ensures var s, found := After(start, ops), start.bound && BindRead(start, ops);
            var o := Step(s, op);
            match op
            case Acquire(_) => o.ok ==> o.system.board.attempts == s.board.attempts + if found then [false] else []
            case Release(_) =>
              o.system.board.attempts == s.board.attempts + if found && Holding(start, ops) then [true] else []
            case _ => o.system.board.attempts == s.board.attempts
  {
    InvRun(start, ops);
  }

  /** Right after a successful probe an acquire succeeds exactly when the console need not be unbound or the write goes through. */
  lemma AcquireExactly(start: Board, ops: seq<Op>, sysfs: Sysfs, bindOk: bool)
    requires After(start, ops).owner.state.Idle? && Step(After(start, ops), Probe(sysfs)).ok
    ensures var o := Step(Step(After(start, ops), Probe(sysfs)).system, Acquire(bindOk));
            && (o.ok <==> bindOk || !start.bound || !sysfs.bindReadable)
            && (o.ok ==> o.system.owner.state.Owned? && o.system.board.bound == (start.bound && !sysfs.bindReadable))
  {
    InvRun(start, ops);
  }

  /**
   A session in which nothing fails: probe, acquire, one frame, release. Every call succeeds, the
   frame is on the screen and counted, and the console is as it was, displaced in between if it
   was found bound.
   */
  lemma SmoothSession(start: Board, sysfs: Sysfs, frame: seq<Byte>, answers: seq<WriteAnswer>)
    requires Probing(FRESH, sysfs, start.bound).1 && |frame| == Probing(FRESH, sysfs, start.bound).0.frameBytes
    requires |frame| <= |start.screen| && |frame| <= Offered(answers)
    ensures var probed := Step(System(FRESH, start), Probe(sysfs));
            var held := Step(probed.system, Acquire(true));
            var shown := Step(held.system, WriteFrame(Some(frame), true, true, answers));
            var done := Step(shown.system, Release(true));
            var found := start.bound && sysfs.bindReadable;
            && probed.ok && held.ok && shown.ok && done.ok
            && held.system.board.bound == (start.bound && !sysfs.bindReadable)
            && done.system.board == Board(start.bound, start.attempts + (if found then [false, true] else []),
                                          frame + start.screen[|frame|..])
            && done.system.owner.state.Released? && done.system.owner.framesWritten == 1 && done.system.owner.restored
  {
    DeliveredIs(frame, |start.screen|, 0, answers);
  }

  /** Whatever has failed, a release whose bind write goes through puts the console back; asking again does nothing. */
  lemma AlwaysRestorable(start: Board, ops: seq<Op>, again: bool)
    ensures var done := Step(After(start, ops), Release(true));
            && done.ok && done.system.owner.state.Released? && done.system.board.bound == start.bound
            && Step(done.system, Release(again)) == Outcome(done.system, true)
  {
    InvRun(start, ops);
  }

  /** A release that fails leaves everything as it was, still to be retried. */
  lemma FailedReleaseKeeps(start: Board, ops: seq<Op>, bindOk: bool)
    requires !Step(After(start, ops), Release(bindOk)).ok
    ensures !bindOk && After(start, ops).owner.unboundByUs
    ensures var s := Step(After(start, ops), Release(bindOk)).system;
            s.owner == After(start, ops).owner && s.board.bound == After(start, ops).board.bound
  {
  }

  /** What the device offers to take: the counts up to the first error, write of nothing or end, interruptions skipped. */
  function Offered(answers: seq<WriteAnswer>): nat {
    if answers == [] || answers[0].Broken? || answers[0] == Wrote(0) then 0
    else (if answers[0].Interrupted? then 0 else answers[0].count) + Offered(answers[1..])
  }

  /** The loop delivers what was offered, up to the frame and the screen. */
  lemma {:induction false} DeliveredIs(frame: seq<Byte>, room: nat, at: nat, answers: seq<WriteAnswer>)
    requires at <= |frame| && at <= room
    ensures Delivered(frame, room, at, answers) == Min(at + Offered(answers), Min(|frame|, room))
    decreases |answers|
  {
    if at < |frame| && answers != [] && !answers[0].Broken? {
      if answers[0].Interrupted? {
        DeliveredIs(frame, room, at, answers[1..]);
      } else {
        var n := Min(answers[0].count, Min(|frame| - at, room - at));
        if n > 0 {
          DeliveredIs(frame, room, at + n, answers[1..]);
        }
      }
    }
  }

  /** A call out of order is a hard fault that touches nothing; a bad frame is refused and harms nothing. */
  lemma MisuseExactly(s: System, op: Op)
    ensures (op.Probe? && !s.owner.state.Idle?) || (op.Acquire? && !s.owner.state.Probed?) ==>
              Step(s, op) == Outcome(s.(owner := s.owner.(state := Failed)), false)
    ensures op.WriteFrame? && (!s.owner.state.Owned? || op.frame.None? || |op.frame.value| != s.owner.frameBytes) ==>
              Step(s, op) == Outcome(s, false)
    ensures op.WriteFrame? && s.owner.state.Owned? && op.frame.Some? && |op.frame.value| == s.owner.frameBytes && !(op.openOk && op.seekOk) ==>
              Step(s, op) == Outcome(s.(owner := s.owner.(state := Failed)), false)
  {
  }

  /** A write that gets as far as the device. */
  predicate Reaches(s: System, op: Op) {
    op.WriteFrame? && !Refused(s.owner, op.frame) && op.openOk && op.seekOk
  }

  /**
   What a write leaves, byte by byte: the frame up to what was offered and what fits, the old
   screen behind it. The call succeeds exactly when the screen holds a frame and the offers
   reach it; otherwise the owner has failed.
   */
  lemma WriteOutcome(s: System, op: Op)
    requires Reaches(s, op)
    ensures Step(s, op).ok <==> |op.frame.value| <= |s.board.screen| && |op.frame.value| <= Offered(op.answers)
    ensures Step(s, op).ok ==> Step(s, op).system.board.screen[..|op.frame.value|] == op.frame.value
    ensures !Step(s, op).ok ==> Step(s, op).system.owner.state.Failed?
    ensures |Step(s, op).system.board.screen| == |s.board.screen|
    ensures forall i | 0 <= i < |s.board.screen| ::
              Step(s, op).system.board.screen[i] ==
              if i < |op.frame.value| && i < Offered(op.answers) then op.frame.value[i] else s.board.screen[i]
  {
    DeliveredIs(op.frame.value, |s.board.screen|, 0, op.answers);
  }

  /** Bytes of a frame on the screen without the rest of it. */
  ghost predicate Torn(before: seq<Byte>, after: seq<Byte>, frame: seq<Byte>) {
    exists n :: 0 < n < |frame| && n <= |before| && after == Overlaid(before, frame, n)
  }

  /** The screen shows none of the frame, so that each byte written can be seen. */
  predicate Unlike(screen: seq<Byte>, frame: seq<Byte>) {
    forall i | 0 <= i < |screen| && i < |frame| :: screen[i] != frame[i]
  }

  /**
   A write stops inside the frame exactly when the frame exceeds the screen or the offers, the
   device takes something and there is a screen; wherever the bytes can be told apart, exactly then a partial frame is left.
   */
  lemma PartialExactly(s: System, op: Op)
    requires Reaches(s, op)
    ensures var frame, offered := |op.frame.value|, Offered(op.answers);
            var partly := (frame > |s.board.screen| || frame > offered) && offered > 0 && s.board.screen != [];
            && (0 < Delivered(op.frame.value, |s.board.screen|, 0, op.answers) < |op.frame.value| <==> partly)
            && (partly ==> Torn(s.board.screen, Step(s, op).system.board.screen, op.frame.value))
            && (Unlike(s.board.screen, op.frame.value) ==>
                  (Torn(s.board.screen, Step(s, op).system.board.screen, op.frame.value) <==> partly))
  {
    var frame, screen := op.frame.value, s.board.screen;
    DeliveredIs(frame, |screen|, 0, op.answers);
    var d := Delivered(frame, |screen|, 0, op.answers);
    forall n | 0 < n < |frame| && n <= |screen| && n != d && Unlike(screen, frame)
      ensures Overlaid(screen, frame, d) != Overlaid(screen, frame, n)
    {
      if n < d {
        OverlaidApart(screen, frame, n, d);
      } else {
        OverlaidApart(screen, frame, d, n);
      }
    }
  }

  lemma OverlaidApart(screen: seq<Byte>, frame: seq<Byte>, m: nat, n: nat)
    requires m < n <= |frame| && n <= |screen| && screen[m] != frame[m]
    ensures Overlaid(screen, frame, m) != Overlaid(screen, frame, n)
  {
    assert Overlaid(screen, frame, m)[m] == screen[m] && Overlaid(screen, frame, n)[m] == frame[m];
  }

  /** Answer `k` is the first that is not an interruption, and it takes something. */
  predicate TakesFirst(answers: seq<WriteAnswer>, k: nat) {
    k < |answers| && answers[k].Wrote? && answers[k].count > 0 && forall j | 0 <= j < k :: answers[j].Interrupted?
  }

  /** The device takes something at all: its first answer that is not an interruption is a positive count. */
  lemma {:induction false} OffersSomething(answers: seq<WriteAnswer>)
    ensures Offered(answers) > 0 <==> exists k :: TakesFirst(answers, k)
  {
    if answers != [] {
      var rest := answers[1..];
      OffersSomething(rest);
      forall k: nat
        ensures answers[0].Interrupted? ==> (TakesFirst(rest, k) <==> TakesFirst(answers, k + 1))
      {
        assert k < |rest| ==> rest[k] == answers[k + 1] && forall j | 0 <= j < k :: rest[j] == answers[j + 1];
        assert forall j | 1 <= j < |answers| :: answers[j] == rest[j - 1];
      }
      if answers[0].Interrupted? {
        if k: nat :| TakesFirst(answers, k) {
          assert TakesFirst(rest, k - 1);
        }
      } else {
        assert TakesFirst(answers, 0) <==> answers[0].Wrote? && answers[0].count > 0;
      }
    }
  }

  const PIXEL_PROBE: Sysfs := Sysfs(Some((1, 1)), Some(32), None, Character(0), true)

  /** A write that breaks off half way leaves half a frame on the screen. */
  lemma HalfFrameShown()
    ensures var start := Board(true, [], [9, 9, 9, 9]);
            var s := After(start, [Probe(PIXEL_PROBE), Acquire(true), WriteFrame(Some([1, 2, 3, 4]), true, true, [Wrote(2), Broken])]);
            s.board.screen == [1, 2, 9, 9] && s.owner.state.Failed? && s.owner.framesWritten == 0
  {
    var start := Board(true, [], [9, 9, 9, 9]);
    OwnedPixel(start);
    var op := WriteFrame(Some([1, 2, 3, 4]), true, true, [Wrote(2), Broken]);
    var held := After(start, [Probe(PIXEL_PROBE), Acquire(true)]);
    assert [Probe(PIXEL_PROBE), Acquire(true), op][..2] == [Probe(PIXEL_PROBE), Acquire(true)];
    assert op.answers[1..] == [Broken] && Offered([Broken]) == 0 && Offered(op.answers) == 2;
    WriteOutcome(held, op);
  }

  /** A one-pixel device that does not tell its memory is accepted whatever its screen. */
  lemma OwnedPixel(start: Board)
    requires start.bound
    ensures var s := After(start, [Probe(PIXEL_PROBE), Acquire(true)]);
            s.owner.state.Owned? && s.owner.frameBytes == 4 && s.owner.framesWritten == 0 && s.board.screen == start.screen
  {
    var p, a := Probe(PIXEL_PROBE), Acquire(true);
    assert Packed(1, 32) == 4;
    assert [p, a][..1] == [p] && [p][..0] == [];
    assert After(start, []) == System(FRESH, start);
    assert After(start, [p]) == Step(System(FRESH, start), p).system;
    assert After(start, [p, a]) == Step(After(start, [p]), a).system;
  }

  /** On a screen shorter than the probed frame no write of any run succeeds, though nothing need go wrong. */
  lemma ShortScreenNeverWhole(start: Board, ops: seq<Op>, j: nat)
    requires j < |ops| && ops[j].WriteFrame? && |start.screen| < After(start, ops[..j]).owner.frameBytes
    ensures !Succeeds(start, ops, j)
  {
    InvRun(start, ops[..j]);
    if Reaches(After(start, ops[..j]), ops[j]) {
      WriteOutcome(After(start, ops[..j]), ops[j]);
    }
  }

  /** Such a screen passes the probe when the driver does not tell its memory; a device that takes all it can leaves a partial frame. */
  lemma ShortScreenTorn()
    ensures var start := Board(true, [], [9, 9]);
            var s := After(start, [Probe(PIXEL_PROBE), Acquire(true), WriteFrame(Some([1, 2, 3, 4]), true, true, [Wrote(4)])]);
            s.board.screen == [1, 2] && s.owner.state.Failed?
  {
    var start := Board(true, [], [9, 9]);
    OwnedPixel(start);
    var op := WriteFrame(Some([1, 2, 3, 4]), true, true, [Wrote(4)]);
    var held := After(start, [Probe(PIXEL_PROBE), Acquire(true)]);
    assert [Probe(PIXEL_PROBE), Acquire(true), op][..2] == [Probe(PIXEL_PROBE), Acquire(true)];
    assert op.answers[1..] == [] && Offered(op.answers) == 4;
    WriteOutcome(held, op);
  }

  lemma {:induction false} FramesCounted(start: Board, ops: seq<Op>)
    ensures After(start, ops).owner.framesWritten == Frames(start, ops)
  {
    if ops != [] {
      FramesCounted(start, ops[..|ops| - 1]);
    }
  }

  /** Once the owner has failed or let go it never owns again. */
  predicate Spent(s: System) {
    s.owner.state.Failed? || s.owner.state.Released?
  }

  lemma {:induction false} StaysSpent(start: Board, ops: seq<Op>, i: nat)
    requires i <= |ops| && Spent(After(start, ops[..i]))
    ensures Spent(After(start, ops))
    decreases |ops|
  {
    if i == |ops| {
      assert ops[..i] == ops;
    } else {
      assert ops[..|ops| - 1][..i] == ops[..i];
      StaysSpent(start, ops[..|ops| - 1], i);
    }
  }

  /** No frame is written after a frame write has broken down, and none outside a held framebuffer. */
  lemma NoFrameAfterFailure(start: Board, ops: seq<Op>, i: nat, j: nat)
    requires i < j < |ops| && ops[i].WriteFrame? && ops[j].WriteFrame?
    requires !Refused(After(start, ops[..i]).owner, ops[i].frame) && !Succeeds(start, ops, i)
    ensures !Succeeds(start, ops, j) && After(start, ops[..j + 1]) == After(start, ops[..j])
  {
    assert ops[..i + 1][..i] == ops[..i] && ops[..j + 1][..j] == ops[..j];
    assert ops[..j][..i + 1] == ops[..i + 1];
    StaysSpent(start, ops[..j], i + 1);
  }

  lemma FramesOnlyWhileHeld(start: Board, ops: seq<Op>, j: nat)
    requires j < |ops| && ops[j].WriteFrame? && Succeeds(start, ops, j)
    ensures Holding(start, ops[..j]) && |ops[j].frame.value| == After(start, ops[..j]).owner.frameBytes > 0
  {
    InvRun(start, ops[..j]);
  }

  // --------------------------------------------------------------- geometry

  lemma ModExact(a: nat, n: nat)
    requires n > 0
    ensures a % n == a <==> a < n
  {
  }

  /**
   An accepted geometry is what it claims exactly when the products do not wrap: the stride
   covers a packed row iff that row is below 2^32, and the frame size is stride times height
   iff that product is.
   */
  lemma GeometryExact(owner: Owner, sysfs: Sysfs, bound: bool)
    requires Probing(owner, sysfs, bound).1
    ensures var o := Probing(owner, sysfs, bound).0;
            && 0 < o.frameBytes <= MAX_FRAME_BYTES && Holds(sysfs.target, o.frameBytes) && o.bpp % 8 == 0
            && (o.stride >= o.width * (o.bpp / 8) <==> o.width * (o.bpp / 8) < UINT_RANGE)
            && (o.frameBytes == o.stride * o.height <==> o.stride * o.height < SIZE_RANGE)
  {
    var o := Probing(owner, sysfs, bound).0;
    MulNat(o.width, o.bpp / 8);
    MulNat(o.stride, o.height);
    ModExact(o.width * (o.bpp / 8), UINT_RANGE);
    ModExact(o.stride * o.height, SIZE_RANGE);
  }

  lemma MulNat(a: nat, b: nat)
    ensures a * b >= 0
  {
  }

  /** The target can take a frame: a file that large, or a device that does not say it is smaller. */
  predicate Takes(target: Target, frameBytes: nat) {
    || (target.Regular? && target.size % SIZE_RANGE >= frameBytes)
    || (target.Character? && (target.memory == 0 || target.memory >= frameBytes))
  }

  /**
   What a probe accepts when no product wraps: non-zero sizes, a depth in whole bytes, a stride
   that covers a row - the one reported, or a packed row if none is - and a frame of at most 64 MiB
   that the target takes. It then has read exactly these sizes.
   */
  lemma ProbeAccepts(sysfs: Sysfs, bound: bool, w: Uint, h: Uint, bpp: Uint, row: nat, stride: nat)
    requires sysfs.size == Some((w, h)) && sysfs.bpp == Some(bpp) && row == w * (bpp / 8) < UINT_RANGE
    requires stride == if sysfs.stride.Some? && sysfs.stride.value > 0 then sysfs.stride.value else row
    requires 0 <= stride * h < SIZE_RANGE
    ensures var (o, ok) := Probing(FRESH, sysfs, bound);
            && (ok <==> w > 0 && h > 0 && bpp > 0 && bpp % 8 == 0 && stride >= row
                        && 0 < stride * h <= 64 * 1024 * 1024 && Takes(sysfs.target, stride * h))
            && (ok ==> o.state.Probed? && o.width == w && o.height == h && o.bpp == bpp && o.stride == stride
                       && o.frameBytes == stride * h && (o.wasBound.Bound? <==> bound && sysfs.bindReadable))
  {
    ModExact(row, UINT_RANGE);
    ModExact(stride * h, SIZE_RANGE);
  }

  /** Without a readable size or depth no probe succeeds, and none does twice. */
  lemma ProbeRefuses(owner: Owner, sysfs: Sysfs, bound: bool)
    ensures sysfs.size.None? || sysfs.bpp.None? || !owner.state.Idle? ==>
              Probing(owner, sysfs, bound) == (owner.(state := Failed), false)
  {
  }

  /** A width whose packed row wraps to four bytes is accepted with a four-byte frame. */
  lemma WrappedRowAccepted()
    ensures var sysfs := Sysfs(Some((0x4000_0001, 1)), Some(32), None, Character(0), true);
            var (o, ok) := Probing(FRESH, sysfs, true);
            ok && o.stride == 4 && o.frameBytes == 4 && o.width * (o.bpp / 8) == 0x1_0000_0004
  {
    assert Packed(0x4000_0001, 32) == 4;
  }

  // ----------------------------------------------------------- the C object

  /** The hardware the owner talks to. */
  class Panel {
    var bound: bool
    ghost var attempts: seq<bool>
    const screen: array<Byte>

    constructor (bound: bool, screen: array<Byte>)
      ensures this.bound == bound && this.screen == screen && attempts == []
    {
      this.bound := bound;
      this.screen := screen;
      attempts := [];
    }

    ghost function Value(): Board
      reads this, screen
    {
      Board(bound, attempts, screen[..])
    }

    /** `write_bind`. */
    method WriteBind(value: bool, ok: bool) returns (done: bool)
      modifies this
      ensures done == ok && Value() == BindWritten(old(Value()), value, ok)
    {
      attempts := attempts + [value];
      if ok { bound := value; }
      done := ok;
    }

    /** One `write(2)` at the current offset: the kernel stores at most what it is offered and has room for. */
    method Store(frame: array<Byte>, offset: nat, count: nat) returns (n: nat)
      requires offset <= frame.Length && offset <= screen.Length && frame != screen
      requires screen[..offset] == frame[..offset]
      modifies screen
      ensures n == Min(count, Min(frame.Length - offset, screen.Length - offset))
      ensures screen[..offset + n] == frame[..offset + n] && screen[offset + n..] == old(screen[offset + n..])
    {
      n := Min(count, Min(frame.Length - offset, screen.Length - offset));
      for k := 0 to n
        invariant forall i | 0 <= i < offset + k :: screen[i] == frame[i]
        invariant forall i | offset + k <= i < screen.Length :: screen[i] == old(screen[i])
      {
        screen[offset + k] := frame[offset + k];
      }
    }
  }

  /** `struct fb_owner` and the calls on it. */
  class FramebufferOwner {
    const panel: Panel
    var owner: Owner

    constructor (panel: Panel)
      ensures this.panel == panel && owner == FRESH
    {
      this.panel := panel;
      owner := FRESH;
    }

    ghost function Value(): System
      reads this, panel, panel.screen
    {
      System(owner, panel.Value())
    }

    /** `set_error`: a hard fault. */
    method SetError() returns (ok: bool)
      modifies this
      ensures !ok && owner == old(owner).(state := Failed)
    {
      owner := owner.(state := Failed);
      ok := false;
    }

    /** The first half of `fb_owner_probe`: read and check the geometry. */
    method ReadGeometry(sysfs: Sysfs) returns (g: Option<(Uint, Uint, Uint, Uint)>)
      ensures g == Geometry(sysfs)
    {
      if sysfs.size.None? || sysfs.bpp.None? {
        return None;
      }
      var (w, h) := sysfs.size.value;
      var bpp := sysfs.bpp.value;
      if w == 0 || h == 0 || bpp == 0 || bpp % 8 != 0 {
        return None;
      }
      var stride := if sysfs.stride.None? then 0 else sysfs.stride.value;
      if stride == 0 { stride := Packed(w, bpp); }
      if stride < Packed(w, bpp) {
        return None;
      }
      g := Some((w, h, bpp, stride));
    }

    /** The framebuffer exists and holds a frame. */
    method Examine(target: Target, frameBytes: nat) returns (held: bool)
      ensures held == Holds(target, frameBytes)
    {
      held := false;
      match target {
        case Regular(size) => held := size % SIZE_RANGE >= frameBytes;
        case Character(memory) => held := !(memory != 0 && memory < frameBytes);
        case _ =>
      }
    }

    /** `fb_owner_probe`. */
    method ProbeCall(sysfs: Sysfs) returns (ok: bool)
      modifies this
      ensures Outcome(Value(), ok) == Step(old(Value()), Probe(sysfs))
    {
      if !owner.state.Idle? {
        ok := SetError();
        return;
      }
      var g := ReadGeometry(sysfs);
      if g.None? {
        ok := SetError();
        return;
      }
      var (w, h, bpp, stride) := g.value;
      owner := owner.(width := w, height := h, bpp := bpp, stride := stride, frameBytes := stride * h % SIZE_RANGE);
      var held := Examine(sysfs.target, owner.frameBytes);
      if owner.frameBytes == 0 || owner.frameBytes > MAX_FRAME_BYTES || !held {
        ok := SetError();
        return;
      }
      owner := owner.(wasBound := Unbound);
      if sysfs.bindReadable && panel.bound { owner := owner.(wasBound := Bound); }
      owner := owner.(state := Probed);
      ok := true;
    }

    /** `fb_owner_acquire`. */
    method AcquireCall(bindOk: bool) returns (ok: bool)
      modifies this, panel
      ensures Outcome(Value(), ok) == Step(old(Value()), Acquire(bindOk))
    {
      if !owner.state.Probed? {
        ok := SetError();
        return;
      }
      if owner.wasBound.Bound? {
        var done := panel.WriteBind(false, bindOk);
        if !done {
          ok := SetError();
          return;
        }
        owner := owner.(unboundByUs := true);
      }
      owner := owner.(state := Owned);
      ok := true;
    }

    /** The short-write loop of `fb_owner_write_frame`. */
    method PushFrame(frame: array<Byte>, answers: seq<WriteAnswer>) returns (written: nat)
      requires frame != panel.screen
      modifies panel.screen
      ensures written == Delivered(frame[..], panel.screen.Length, 0, answers)
      ensures panel.screen[..] == Overlaid(old(panel.screen[..]), frame[..], written)
    {
      var next := 0;
      written := 0;
      var broken := false;
      while written < frame.Length && next < |answers| && !broken
        invariant 0 <= next <= |answers| && written <= frame.Length && written <= panel.screen.Length
        invariant panel.screen[..written] == frame[..written]
        invariant panel.screen[written..] == old(panel.screen[written..])
        invariant Delivered(frame[..], panel.screen.Length, 0, answers) ==
                  if broken then written else Delivered(frame[..], panel.screen.Length, written, answers[next..])
        decreases |answers| - next, !broken
      {
        var answer := answers[next];
        assert answers[next..][0] == answer && answers[next..][1..] == answers[next + 1..];
        next := next + 1;
        match answer {
          case Interrupted =>
          case Broken => broken := true;
          case Wrote(count) =>
            var n := panel.Store(frame, written, count);
            broken := n == 0;
            written := written + n;
        }
      }
    }

    /** `fb_owner_write_frame`; a null frame is None. */
    method WriteFrameCall(frame: Option<array<Byte>>, openOk: bool, seekOk: bool, answers: seq<WriteAnswer>) returns (ok: bool)
      requires frame.Some? ==> frame.value != panel.screen
      modifies this, panel.screen
      ensures var bytes := if frame.None? then None else Some(frame.value[..]);
              Outcome(Value(), ok) == Step(old(Value()), WriteFrame(bytes, openOk, seekOk, answers))
    {
      if !owner.state.Owned? || frame.None? || frame.value.Length != owner.frameBytes {
        return false;
      }
      if !openOk || !seekOk {
        ok := SetError();
        return;
      }
      var written := PushFrame(frame.value, answers);
      if written != frame.value.Length {
        ok := SetError();
        return;
      }
      owner := owner.(framesWritten := owner.framesWritten + 1);
      ok := true;
    }

    /** `fb_owner_release`. */
    method ReleaseCall(bindOk: bool) returns (ok: bool)
      modifies this, panel
      ensures Outcome(Value(), ok) == Step(old(Value()), Release(bindOk))
    {
      if owner.state.Released? {
        return true;
      }
      ok := true;
      if owner.unboundByUs {
        var done := panel.WriteBind(true, bindOk);
        if !done {
          ok := false;
        } else {
          owner := owner.(unboundByUs := false, restored := true);
        }
      } else if owner.wasBound.Unbound? {
        owner := owner.(restored := true);
      }
      if ok {
        owner := owner.(state := Released);
      }
    }
  }
}
