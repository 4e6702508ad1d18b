/**
 What one input source does with the bytes it reads: reassembly into events, the
 key / axis / desync state machine, and the bounded queue of actions.
 */
module InputEvents {
  import opened InputNormalize
  import opened Words

  const AXIS_COUNT: nat := 8
  const QUEUE_CAP: nat := 8
  const BUFFER_SIZE: nat := 256
  const KEY_LIMIT: nat := 64
  const GENERATION_RANGE: nat := 0x1_0000_0000

  datatype Action = None | Next | Previous | Select | Back | Menu | Quit

  datatype SourceState = Absent | Connected | Desync

  /** `struct cart_input_source`; `held` is the bitmask of held codes below 64 as a set. */
  datatype Source = Source(
    fd: int,
    state: SourceState,
    generation: nat,
    held: set<nat>,
    axis: seq<Range>,
    axisValid: seq<bool>,
    lastRaw: seq<Int32>)

  predicate SourceShaped(s: Source) {
    && |s.axis| == |s.axisValid| == |s.lastRaw| == AXIS_COUNT
    && (s.state.Absent? <==> s.fd < 0)
    && (forall k | 0 <= k < AXIS_COUNT && s.axisValid[k] :: DEFAULT_DEADZONE <= s.axis[k].deadzone <= MAX_DEADZONE)
  }

  const ZERO_RANGE: Range := Range(0, 0, 0)
  const EMPTY_SOURCE: Source :=
    Source(-1, Absent, 0, {}, seq(AXIS_COUNT, _ => ZERO_RANGE), seq(AXIS_COUNT, _ => false), seq(AXIS_COUNT, _ => 0))

  // ---------------------------------------------------------------- events

  const EV_SYN: nat := 0
  const EV_KEY: nat := 1
  const EV_ABS: nat := 3
  const SYN_REPORT: nat := 0
  const SYN_DROPPED: nat := 3

  datatype Event = Event(kind: nat, code: nat, value: Int32)

  datatype AxisAnswer = Unreadable | Reads(value: Int32)

  /** What the device answers when a desynchronised source is queried: its keys, and each axis slot's value. */
  datatype Answer = Answer(keysOk: bool, keys: set<nat>, raw: nat -> AxisAnswer)

  /** The device's answer to the n-th query of a pump. */
  type Device = nat -> Answer

  /** The canonical axis slot of an absolute-axis code, or 8 for none. */
  function AxisSlot(code: nat): (slot: nat)
    ensures slot <= AXIS_COUNT
  {
    match code
    case 0 => 0 // ABS_X
    case 1 => 1 // ABS_Y
    case 3 => 2 // ABS_RX
    case 4 => 3 // ABS_RY
    case 2 => 4 // ABS_Z
    case 5 => 5 // ABS_RZ
    case 16 => 6 // ABS_HAT0X
    case 17 => 7 // ABS_HAT0Y
    case _ => AXIS_COUNT
  }

  /** `cart_input_map_key`. */
  function MapKey(code: nat): Action {
    match code
    case 1 => Quit
    case 16 => Quit
    case 304 => Select
    case 305 => Back
    case 307 => Next
    case 308 => Previous
    case 310 => Previous
    case 311 => Next
    case 314 => Menu
    case 315 => Menu
    case 316 => Quit
    case 546 => Previous
    case 547 => Next
    case _ => None
  }

  /** The value reaches the repeat policy through a 16-bit parameter. */
  predicate EmitsAction(value: int) {
    value % 0x1_0000 == 1
  }

  /** Axis slot `i` after asking the device: invalid or unreadable axes keep their last value. */
  function ResyncRaw(s: Source, answer: Answer, i: nat): Int32
    requires SourceShaped(s) && i < AXIS_COUNT
  {
    if s.axisValid[i] && answer.raw(i).Reads? then answer.raw(i).value else s.lastRaw[i]
  }

  function Resynced(s: Source, answer: Answer): Source
    requires SourceShaped(s)
  {
    s.(held := if answer.keysOk then set k | k in answer.keys && k < KEY_LIMIT else s.held,
       lastRaw := seq(AXIS_COUNT, i requires 0 <= i < AXIS_COUNT => ResyncRaw(s, answer, i)),
       state := Connected)
  }

  /** `consume_event`, its effect on the source. */
  function Consumed(s: Source, e: Event, answer: Answer): (r: Source)
    requires SourceShaped(s) && !s.state.Absent?
    ensures SourceShaped(r) && !r.state.Absent? && r.fd == s.fd && r.generation == s.generation
  {
    if e.kind == EV_SYN then
      if e.code == SYN_DROPPED && s.state.Connected? then s.(state := Desync)
      else if e.code == SYN_REPORT && s.state.Desync? then Resynced(s, answer)
      else s
    else if s.state.Desync? then s
    else if e.kind == EV_KEY && e.code < KEY_LIMIT then
      s.(held := if e.value != 0 then s.held + {e.code} else s.held - {e.code})
    else if e.kind == EV_ABS && AxisSlot(e.code) < AXIS_COUNT then
      s.(lastRaw := s.lastRaw[AxisSlot(e.code) := e.value])
    else s
  }

  /** `consume_event`, the action it emits (None for nothing). */
  function Emitted(s: Source, e: Event): Action {
    if e.kind == EV_KEY && s.state.Connected? && EmitsAction(e.value) then MapKey(e.code) else None
  }

  predicate Resyncs(s: Source, e: Event) {
    e.kind == EV_SYN && e.code == SYN_REPORT && s.state.Desync?
  }

  /** A source being fed events: its state, what it has emitted, how often it has queried the device. */
  datatype Feed = Feed(source: Source, emitted: seq<Action>, queries: nat)

  function FeedOne(f: Feed, e: Event, device: Device): (r: Feed)
    requires SourceShaped(f.source) && !f.source.state.Absent?
    ensures SourceShaped(r.source) && !r.source.state.Absent? && r.source.fd == f.source.fd && r.source.generation == f.source.generation
  {
    var action := Emitted(f.source, e);
    Feed(Consumed(f.source, e, device(f.queries)),
         if action.None? then f.emitted else f.emitted + [action],
         if Resyncs(f.source, e) then f.queries + 1 else f.queries)
  }

  function FeedAll(f: Feed, events: seq<Event>, device: Device): (r: Feed)
    requires SourceShaped(f.source) && !f.source.state.Absent?
    ensures SourceShaped(r.source) && !r.source.state.Absent? && r.source.fd == f.source.fd && r.source.generation == f.source.generation
  {
    if events == [] then f
    else FeedOne(FeedAll(f, events[..|events| - 1], device), events[|events| - 1], device)
  }

  lemma {:induction false} FeedConcat(f: Feed, a: seq<Event>, b: seq<Event>, device: Device)
    requires SourceShaped(f.source) && !f.source.state.Absent?
    ensures FeedAll(f, a + b, device) == FeedAll(FeedAll(f, a, device), b, device)
  {
    if b == [] {
      assert a + b == a;
    } else {
      FeedConcat(f, a, b[..|b| - 1], device);
      assert (a + b)[..|a + b| - 1] == a + b[..|b| - 1];
    }
  }

  // ------------------------------------------------- desync and held keys

  predicate IsReport(e: Event) {
    e.kind == EV_SYN && e.code == SYN_REPORT
  }

  predicate IsDrop(e: Event) {
    e.kind == EV_SYN && e.code == SYN_DROPPED
  }

  /** While desynchronised, nothing but a report changes the source or emits anything. */
  lemma {:induction false} DesyncFrozen(f: Feed, events: seq<Event>, device: Device)
    requires SourceShaped(f.source) && f.source.state.Desync?
    requires forall k | 0 <= k < |events| :: !IsReport(events[k])
    ensures FeedAll(f, events, device) == f
  {
    if events != [] {
      DesyncFrozen(f, events[..|events| - 1], device);
    }
  }

  /** A report ends a desync: the device's answers about keys and valid axes are taken where it gives them, and nothing else moves. */
  lemma ReportResyncs(f: Feed, report: Event, device: Device)
    requires SourceShaped(f.source) && f.source.state.Desync? && IsReport(report)
    ensures var r, answer := FeedOne(f, report, device), device(f.queries);
            && r.emitted == f.emitted && r.queries == f.queries + 1
            && r.source == f.source.(state := Connected, held := r.source.held, lastRaw := r.source.lastRaw)
            && (forall k: nat :: k in r.source.held <==> if answer.keysOk then k in answer.keys && k < KEY_LIMIT else k in f.source.held)
            && |r.source.lastRaw| == AXIS_COUNT
            && (forall i | 0 <= i < AXIS_COUNT ::
                  r.source.lastRaw[i] == if f.source.axisValid[i] && answer.raw(i).Reads? then answer.raw(i).value else f.source.lastRaw[i])
  {
  }

  /** Among the events the latest that is a drop or a report is a drop. */
  ghost predicate Dropped(events: seq<Event>) {
    exists k | 0 <= k < |events| :: IsDrop(events[k]) && forall j | k < j < |events| :: !IsReport(events[j])
  }

  lemma DroppedLast(events: seq<Event>)
    requires events != []
    ensures var last := events[|events| - 1];
            Dropped(events) <==> IsDrop(last) || (!IsReport(last) && Dropped(events[..|events| - 1]))
  {
    var n := |events| - 1;
    var front := events[..n];
    if Dropped(events) && !IsDrop(events[n]) {
      var k :| 0 <= k < |events| && IsDrop(events[k]) && forall j | k < j < |events| :: !IsReport(events[j]);
      assert IsDrop(front[k]) && forall j | k < j < n :: front[j] == events[j];
    }
    if !IsReport(events[n]) && Dropped(front) {
      var k :| 0 <= k < n && IsDrop(front[k]) && forall j | k < j < n :: !IsReport(front[j]);
      assert IsDrop(events[k]) && forall j | k < j < n :: events[j] == front[j];
    }
  }

  /** An event and what the device would answer at that moment. */
  datatype Moment = Moment(event: Event, answer: Answer)

  function EventsOf(moments: seq<Moment>): (r: seq<Event>)
    ensures |r| == |moments|
  {
    seq(|moments|, i requires 0 <= i < |moments| => moments[i].event)
  }

  /** A source after a history of moments, however they were spread over reads and polls. */
  function Replay(s: Source, moments: seq<Moment>): (r: Source)
    requires SourceShaped(s) && !s.state.Absent?
    ensures SourceShaped(r) && !r.state.Absent? && r.fd == s.fd && r.generation == s.generation
  {
    if moments == [] then s
    else
      var last := moments[|moments| - 1];
      Consumed(Replay(s, moments[..|moments| - 1]), last.event, last.answer)
  }

  lemma {:induction false} ReplayConcat(s: Source, a: seq<Moment>, b: seq<Moment>)
    requires SourceShaped(s) && !s.state.Absent?
    ensures Replay(s, a + b) == Replay(Replay(s, a), b)
  {
    if b == [] {
      assert a + b == a;
    } else {
      ReplayConcat(s, a, b[..|b| - 1]);
      assert (a + b)[..|a + b| - 1] == a + b[..|b| - 1];
    }
  }

  /** The moments of one feed: each event with the answer to the query it would make. */
  function MomentsOf(f: Feed, events: seq<Event>, device: Device): (r: seq<Moment>)
    requires SourceShaped(f.source) && !f.source.state.Absent?
    ensures |r| == |events|
  {
    if events == [] then []
    else
      var front := events[..|events| - 1];
      MomentsOf(f, front, device) + [Moment(events[|events| - 1], device(FeedAll(f, front, device).queries))]
  }

  lemma {:induction false} FeedReplays(f: Feed, events: seq<Event>, device: Device)
    requires SourceShaped(f.source) && !f.source.state.Absent?
    ensures FeedAll(f, events, device).source == Replay(f.source, MomentsOf(f, events, device))
    ensures EventsOf(MomentsOf(f, events, device)) == events
  {
    if events != [] {
      var front := events[..|events| - 1];
      FeedReplays(f, front, device);
      assert MomentsOf(f, events, device)[..|front|] == MomentsOf(f, front, device);
      assert EventsOf(MomentsOf(f, events, device)) == EventsOf(MomentsOf(f, front, device)) + [events[|events| - 1]];
    }
  }

  /** A connected source ends desynchronised exactly when the latest drop or report it was fed is a drop. */
  lemma {:induction false} DesyncExactly(s: Source, moments: seq<Moment>)
    requires SourceShaped(s) && s.state.Connected?
    ensures Replay(s, moments).state.Desync? <==> Dropped(EventsOf(moments))
  {
    if moments != [] {
      var front := moments[..|moments| - 1];
      DesyncExactly(s, front);
      DroppedLast(EventsOf(moments));
      assert EventsOf(moments)[..|front|] == EventsOf(front);
    }
  }

  predicate IsKeyOf(e: Event, code: nat) {
    e.kind == EV_KEY && e.code == code
  }

  /**
   Moment `k` settles whether `code` is held: a key event for it seen while synchronised, or a
   report that ends a desync and whose key query succeeds.
   */
  ghost predicate Decides(moments: seq<Moment>, k: nat, code: nat)
    requires k < |moments|
  {
    if IsKeyOf(moments[k].event, code) then !Dropped(EventsOf(moments[..k]))
    else IsReport(moments[k].event) && Dropped(EventsOf(moments[..k])) && moments[k].answer.keysOk
  }

  predicate Says(m: Moment, code: nat) {
    if IsKeyOf(m.event, code) then m.event.value != 0 else code in m.answer.keys
  }

  /** Where no moment settles a key, it stays as it was; from the start, as it was at connect. */
  lemma {:induction false} HeldUnchanged(s: Source, moments: seq<Moment>, from: nat, code: nat)
    requires SourceShaped(s) && s.state.Connected? && code < 64 && from <= |moments|
    requires forall k | from <= k < |moments| :: !Decides(moments, k, code)
    ensures code in Replay(s, moments).held <==> code in Replay(s, moments[..from]).held
    decreases |moments|
  {
    if from == |moments| {
      assert moments[..from] == moments;
    } else {
      var front := moments[..|moments| - 1];
      HeldStep(s, moments, code);
      forall k | from <= k < |front|
        ensures !Decides(front, k, code)
      {
        assert !Decides(moments, k, code);
        assert front[..k] == moments[..k] && front[k] == moments[k];
      }
      HeldUnchanged(s, front, from, code);
      assert front[..from] == moments[..from];
    }
  }

  /** Over any history since connect, drops included, a key is held as the latest moment that settles it says. */
  lemma HeldFollowsLatest(s: Source, moments: seq<Moment>, code: nat, k: nat)
    requires SourceShaped(s) && s.state.Connected? && code < 64 && k < |moments|
    requires Decides(moments, k, code) && forall j | k < j < |moments| :: !Decides(moments, j, code)
    ensures code in Replay(s, moments).held <==> Says(moments[k], code)
  {
    var upto := moments[..k + 1];
    assert upto[..k] == moments[..k];
    HeldStep(s, upto, code);
    HeldUnchanged(s, moments, k + 1, code);
  }

  /** The last moment's share: it settles the key or leaves it. */
  lemma HeldStep(s: Source, moments: seq<Moment>, code: nat)
    requires SourceShaped(s) && s.state.Connected? && code < KEY_LIMIT && moments != []
    ensures var n := |moments| - 1;
            code in Replay(s, moments).held <==>
            if Decides(moments, n, code) then Says(moments[n], code) else code in Replay(s, moments[..n]).held
  {
    var n := |moments| - 1;
    var before := Replay(s, moments[..n]);
    DesyncExactly(s, moments[..n]);
    ConsumedHeld(before, moments[n].event, moments[n].answer, code);
    assert Replay(s, moments) == Consumed(before, moments[n].event, moments[n].answer);
  }

  lemma ConsumedHeld(s: Source, e: Event, answer: Answer, code: nat)
    requires SourceShaped(s) && !s.state.Absent? && code < KEY_LIMIT
    ensures code in Consumed(s, e, answer).held <==>
            if IsKeyOf(e, code) && !s.state.Desync? then e.value != 0
            else if IsReport(e) && s.state.Desync? && answer.keysOk then code in answer.keys
            else code in s.held
  {
  }

  // ------------------------------------------------------------------ axes

  /** The absolute-axis codes of the slots: X, Y, RX, RY, Z, RZ and the two hat axes. */
  const AXIS_CODES: seq<nat> := [0, 1, 3, 4, 2, 5, 16, 17]

  /** An absolute-axis event (type 3) for a slot. */
  predicate MovesAxis(e: Event, slot: nat)
    requires slot < AXIS_COUNT
  {
    e.kind == 3 && e.code == AXIS_CODES[slot]
  }

  /**
   Moment `k` settles a slot's raw value: an axis event for it seen while synchronised, or a report
   that ends a desync and whose query of that axis, valid at connect, succeeds.
   */
  ghost predicate SetsAxis(s: Source, moments: seq<Moment>, k: nat, slot: nat)
    requires SourceShaped(s) && k < |moments| && slot < AXIS_COUNT
  {
    if MovesAxis(moments[k].event, slot) then !Dropped(EventsOf(moments[..k]))
    else IsReport(moments[k].event) && Dropped(EventsOf(moments[..k])) && s.axisValid[slot] && moments[k].answer.raw(slot).Reads?
  }

  function AxisSaid(m: Moment, slot: nat): Int32
    requires slot < AXIS_COUNT && (MovesAxis(m.event, slot) || m.answer.raw(slot).Reads?)
  {
    if MovesAxis(m.event, slot) then m.event.value else m.answer.raw(slot).value
  }

  lemma SlotOfCode(code: nat, slot: nat)
    requires slot < AXIS_COUNT
    ensures AxisSlot(code) == slot <==> code == AXIS_CODES[slot]
  {
  }

  lemma {:induction false} ReplayCalibration(s: Source, moments: seq<Moment>)
    requires SourceShaped(s) && !s.state.Absent?
    ensures Replay(s, moments).axis == s.axis && Replay(s, moments).axisValid == s.axisValid
  {
    if moments != [] {
      ReplayCalibration(s, moments[..|moments| - 1]);
    }
  }

  lemma ConsumedAxis(s: Source, e: Event, answer: Answer, slot: nat)
    requires SourceShaped(s) && !s.state.Absent? && slot < AXIS_COUNT
    ensures Consumed(s, e, answer).lastRaw[slot] ==
            if MovesAxis(e, slot) && !s.state.Desync? then e.value
            else if IsReport(e) && s.state.Desync? && s.axisValid[slot] && answer.raw(slot).Reads? then answer.raw(slot).value
            else s.lastRaw[slot]
  {
    SlotOfCode(e.code, slot);
  }

  lemma AxisStep(s: Source, moments: seq<Moment>, slot: nat)
    requires SourceShaped(s) && s.state.Connected? && slot < AXIS_COUNT && moments != []
    ensures var n := |moments| - 1;
            Replay(s, moments).lastRaw[slot] ==
            if SetsAxis(s, moments, n, slot) then AxisSaid(moments[n], slot) else Replay(s, moments[..n]).lastRaw[slot]
  {
    var n := |moments| - 1;
    var before := Replay(s, moments[..n]);
    DesyncExactly(s, moments[..n]);
    ReplayCalibration(s, moments[..n]);
    ConsumedAxis(before, moments[n].event, moments[n].answer, slot);
    assert Replay(s, moments) == Consumed(before, moments[n].event, moments[n].answer);
  }

  /** Where no moment settles a slot its raw value stays; from the start, as at connect. */
  lemma {:induction false} AxisUnchanged(s: Source, moments: seq<Moment>, from: nat, slot: nat)
    requires SourceShaped(s) && s.state.Connected? && slot < AXIS_COUNT && from <= |moments|
    requires forall k | from <= k < |moments| :: !SetsAxis(s, moments, k, slot)
    ensures Replay(s, moments).lastRaw[slot] == Replay(s, moments[..from]).lastRaw[slot]
    decreases |moments|
  {
    if from == |moments| {
      assert moments[..from] == moments;
    } else {
      var front := moments[..|moments| - 1];
      AxisStep(s, moments, slot);
      forall k | from <= k < |front|
        ensures !SetsAxis(s, front, k, slot)
      {
        assert !SetsAxis(s, moments, k, slot);
        assert front[..k] == moments[..k] && front[k] == moments[k];
      }
      AxisUnchanged(s, front, from, slot);
      assert front[..from] == moments[..from];
    }
  }

  /** Over any history since connect a slot's raw value is what the latest moment that settles it says. */
  lemma AxisFollowsLatest(s: Source, moments: seq<Moment>, slot: nat, k: nat)
    requires SourceShaped(s) && s.state.Connected? && slot < AXIS_COUNT && k < |moments|
    requires SetsAxis(s, moments, k, slot) && forall j | k < j < |moments| :: !SetsAxis(s, moments, j, slot)
    ensures Replay(s, moments).lastRaw[slot] == AxisSaid(moments[k], slot)
  {
    var upto := moments[..k + 1];
    assert upto[..k] == moments[..k];
    AxisStep(s, upto, slot);
    AxisUnchanged(s, moments, k + 1, slot);
  }

  // ------------------------------------------------------------------ presses

  /** The actions of key codes: Escape, Q, the face and shoulder buttons, the system buttons and the d-pad's sides. */
  const KEY_ACTIONS: map<nat, Action> := map[
    1 := Quit, 16 := Quit, 304 := Select, 305 := Back, 307 := Next, 308 := Previous, 310 := Previous,
    311 := Next, 314 := Menu, 315 := Menu, 316 := Quit, 546 := Previous, 547 := Next]

  lemma MapKeyIs(code: nat)
    ensures MapKey(code) == if code in KEY_ACTIONS then KEY_ACTIONS[code] else None
  {
  }

  /** The action of a key going down: value 1, as far as 16 bits tell. */
  function Press(e: Event): seq<Action> {
    if e.kind == 1 && e.value % 0x1_0000 == 1 && e.code in KEY_ACTIONS then [KEY_ACTIONS[e.code]] else []
  }

  /** What the events of a connected source emit: the actions of keys going down while synchronised, in order. */
  ghost function Presses(events: seq<Event>): seq<Action> {
    if events == [] then []
    else
      var front, e := events[..|events| - 1], events[|events| - 1];
      Presses(front) + if Dropped(front) then [] else Press(e)
  }

  lemma FeedOnePress(f: Feed, e: Event, device: Device)
    requires SourceShaped(f.source) && !f.source.state.Absent?
    ensures FeedOne(f, e, device).emitted == f.emitted + if f.source.state.Desync? then [] else Press(e)
  {
    MapKeyIs(e.code);
  }

  lemma FeedDesyncs(f: Feed, events: seq<Event>, device: Device)
    requires SourceShaped(f.source) && f.source.state.Connected?
    ensures FeedAll(f, events, device).source.state.Desync? <==> Dropped(events)
  {
    FeedReplays(f, events, device);
    DesyncExactly(f.source, MomentsOf(f, events, device));
  }

  lemma {:induction false} EmitsPresses(f: Feed, events: seq<Event>, device: Device)
    requires SourceShaped(f.source) && f.source.state.Connected?
    ensures FeedAll(f, events, device).emitted == f.emitted + Presses(events)
  {
    if events == [] {
      assert f.emitted + [] == f.emitted;
    } else {
      var front, e := events[..|events| - 1], events[|events| - 1];
      var before := FeedAll(f, front, device);
      EmitsPresses(f, front, device);
      FeedDesyncs(f, front, device);
      FeedOnePress(before, e, device);
      Append(f.emitted, Presses(front), if Dropped(front) then [] else Press(e));
    }
  }

  lemma Append(a: seq<Action>, b: seq<Action>, c: seq<Action>)
    ensures (a + b) + c == a + (b + c)
  {
  }

  // ----------------------------------------------------------- reassembly

  /** The whole event records in a byte stream. */
  function Chunks(bytes: seq<Byte>, size: nat): (r: seq<seq<Byte>>)
    requires size > 0
    ensures forall k | 0 <= k < |r| :: |r[k]| == size
    decreases |bytes|
  {
    if |bytes| < size then [] else [bytes[..size]] + Chunks(bytes[size..], size)
  }

  /** The incomplete tail after the whole records. */
  function Rest(bytes: seq<Byte>, size: nat): (r: seq<Byte>)
    requires size > 0
    ensures |r| < size
    decreases |bytes|
  {
    if |bytes| < size then bytes else Rest(bytes[size..], size)
  }

  function Flatten(chunks: seq<seq<Byte>>): seq<Byte> {
    if chunks == [] then [] else chunks[0] + Flatten(chunks[1..])
  }

  /** The records followed by the tail are exactly the bytes. */
  lemma {:induction false} ChunksComplete(bytes: seq<Byte>, size: nat)
    requires size > 0
    ensures Flatten(Chunks(bytes, size)) + Rest(bytes, size) == bytes
    decreases |bytes|
  {
    if |bytes| >= size {
      ChunksComplete(bytes[size..], size);
      assert Chunks(bytes, size)[1..] == Chunks(bytes[size..], size);
      assert bytes == bytes[..size] + bytes[size..];
    }
  }

  /** Draining a prefix first does not change the records or the tail of the whole stream. */
  lemma {:induction false} ChunksAppend(early: seq<Byte>, late: seq<Byte>, size: nat)
    requires size > 0
    ensures Chunks(early + late, size) == Chunks(early, size) + Chunks(Rest(early, size) + late, size)
    ensures Rest(early + late, size) == Rest(Rest(early, size) + late, size)
    decreases |early|
  {
    if |early| >= size {
      ChunksAppend(early[size..], late, size);
      assert (early + late)[..size] == early[..size];
      assert (early + late)[size..] == early[size..] + late;
    } else {
      assert Chunks(early, size) == [] && Rest(early, size) == early;
    }
  }

  function Unsigned(low: Byte, high: Byte): nat {
    low + 0x100 * high
  }

  /** The type, code and value fields, the last eight bytes of an event record in little-endian order. */
  function Decode(record: seq<Byte>): Event
    requires |record| >= 8
  {
    var t := record[|record| - 8..];
    Event(Unsigned(t[0], t[1]), Unsigned(t[2], t[3]), Wrap32(Unsigned(t[4], t[5]) + 0x1_0000 * Unsigned(t[6], t[7])))
  }

  /** The last eight bytes of the record of an event, little-endian, the value in two's complement. */
  function Encode(e: Event): seq<Byte>
    requires e.kind < 0x1_0000 && e.code < 0x1_0000
  {
    var v := if e.value < 0 then e.value + 0x1_0000_0000 else e.value;
    [e.kind % 256, e.kind / 256, e.code % 256, e.code / 256, v % 256, v / 0x100 % 256, v / 0x1_0000 % 256, v / 0x100_0000]
  }

  /** Whatever time stamp comes first, decoding an encoded event gives it back. */
  lemma DecodeEncode(stamp: seq<Byte>, e: Event)
    requires e.kind < 0x1_0000 && e.code < 0x1_0000
    ensures Decode(stamp + Encode(e)) == e
  {
    var record := stamp + Encode(e);
    assert record[|record| - 8..] == Encode(e);
    var v := if e.value < 0 then e.value + 0x1_0000_0000 else e.value;
    Bytes(v);
    assert Wrap32(v) == e.value;
  }

  lemma Bytes(v: nat)
    requires v < 0x1_0000_0000
    ensures v == v % 256 + 0x100 * (v / 0x100 % 256) + 0x1_0000 * (v / 0x1_0000 % 256 + 0x100 * (v / 0x100_0000))
  {
    var q := v / 0x100;
    assert v / 0x1_0000 == q / 0x100 && v / 0x100_0000 == q / 0x100 / 0x100;
  }

  function DecodeAll(records: seq<seq<Byte>>): (r: seq<Event>)
    requires forall k | 0 <= k < |records| :: |records[k]| >= 8
    ensures |r| == |records|
  {
    seq(|records|, i requires 0 <= i < |records| => Decode(records[i]))
  }

  /** One `read`: some bytes (none means end of file), EINTR, EAGAIN, or any other error. */
  datatype ReadAnswer = Got(bytes: seq<Byte>) | Interrupted | WouldBlock | Broken

  /** At most `room` bytes of an answer reach the buffer. */
  function Stored(bytes: seq<Byte>, room: nat): seq<Byte> {
    if |bytes| <= room then bytes else bytes[..room]
  }

  datatype Verdict = GoOn | Stop | Dead

  /** The stream after one read, and what the pump does next. */
  function ReadStep(bytes: seq<Byte>, answer: ReadAnswer, size: nat): (r: (seq<Byte>, Verdict))
    requires 0 < size <= BUFFER_SIZE
    ensures bytes <= r.0
  {
    match answer
    case Got(more) =>
      if more == [] then (bytes, Dead) else (bytes + Stored(more, BUFFER_SIZE - |Rest(bytes, size)|), GoOn)
    case Interrupted => (bytes, GoOn)
    case WouldBlock => (bytes, Stop)
    case Broken => (bytes, Dead)
  }

  /** Every byte buffered or read once the reads are over, and whether the source survived. */
  function Intake(bytes: seq<Byte>, answers: seq<ReadAnswer>, size: nat): (r: (seq<Byte>, bool))
    requires 0 < size <= BUFFER_SIZE
    ensures bytes <= r.0
    decreases |answers|
  {
    if answers == [] then (bytes, true)
    else
      var (more, verdict) := ReadStep(bytes, answers[0], size);
      if verdict.GoOn? then Intake(more, answers[1..], size) else (more, verdict.Stop?)
  }

  /** What the reads bring by themselves: bytes up to the first that would block, ends the file or fails, and whether the source lives. */
  function Brought(answers: seq<ReadAnswer>): (seq<Byte>, bool)
    decreases |answers|
  {
    if answers == [] then ([], true)
    else match answers[0]
      case WouldBlock => ([], true)
      case Broken => ([], false)
      case Interrupted => Brought(answers[1..])
      case Got(bytes) =>
        if bytes == [] then ([], false)
        else
          var (rest, alive) := Brought(answers[1..]);
          (bytes + rest, alive)
  }

  /** Reads that return no more than they are surely asked for are taken whole, in order. */
  lemma {:induction false} IntakeBrings(bytes: seq<Byte>, answers: seq<ReadAnswer>, size: nat)
    requires 0 < size <= BUFFER_SIZE
    requires forall k | 0 <= k < |answers| && answers[k].Got? :: |answers[k].bytes| <= BUFFER_SIZE + 1 - size
    ensures Intake(bytes, answers, size) == (bytes + Brought(answers).0, Brought(answers).1)
    decreases |answers|
  {
    if answers == [] || answers[0].WouldBlock? || answers[0].Broken? || (answers[0].Got? && answers[0].bytes == []) {
      assert bytes + [] == bytes;
    } else {
      var more := ReadStep(bytes, answers[0], size).0;
      IntakeBrings(more, answers[1..], size);
      if answers[0].Got? {
        assert more == bytes + answers[0].bytes;
        assert more + Brought(answers[1..]).0 == bytes + (answers[0].bytes + Brought(answers[1..]).0);
      }
    }
  }

  /** A read never stores more than it has room for, and of what it brings exactly the beginning that fits. */
  lemma ReadStores(bytes: seq<Byte>, more: seq<Byte>, size: nat)
    requires 0 < size <= BUFFER_SIZE && more != []
    ensures var room, after := 256 - |Rest(bytes, size)|, ReadStep(bytes, Got(more), size);
            && room >= 1 && after.1.GoOn?
            && after.0 == bytes + (if |more| <= room then more else more[..room])
  {
  }

  /** EINTR makes no difference: the same answers without the interruptions deliver the same bytes. */
  lemma {:induction false} InterruptionsIgnored(bytes: seq<Byte>, answers: seq<ReadAnswer>, size: nat)
    requires 0 < size <= BUFFER_SIZE
    ensures Intake(bytes, Uninterrupted(answers), size) == Intake(bytes, answers, size)
    decreases |answers|
  {
    if answers != [] {
      InterruptionsIgnored(ReadStep(bytes, answers[0], size).0, answers[1..], size);
      if answers[0].Interrupted? {
        assert Uninterrupted(answers) == Uninterrupted(answers[1..]);
      } else {
        assert Uninterrupted(answers)[1..] == Uninterrupted(answers[1..]);
      }
    }
  }

  function Uninterrupted(answers: seq<ReadAnswer>): seq<ReadAnswer> {
    if answers == [] then []
    else (if answers[0].Interrupted? then [] else [answers[0]]) + Uninterrupted(answers[1..])
  }

  // ----------------------------------------------------------------- queue

  /** `enqueue_action` on a non-NONE action. */
  function Enqueue(pending: seq<Action>, action: Action): seq<Action> {
    if |pending| < QUEUE_CAP then pending + [action] else pending
  }

  function EnqueueAll(pending: seq<Action>, actions: seq<Action>): seq<Action> {
    if actions == [] then pending
    else Enqueue(EnqueueAll(pending, actions[..|actions| - 1]), actions[|actions| - 1])
  }

  lemma {:induction false} EnqueueConcat(pending: seq<Action>, a: seq<Action>, b: seq<Action>)
    ensures EnqueueAll(pending, a + b) == EnqueueAll(EnqueueAll(pending, a), b)
  {
    if b == [] {
      assert a + b == a;
    } else {
      EnqueueConcat(pending, a, b[..|b| - 1]);
      assert (a + b)[..|a + b| - 1] == a + b[..|b| - 1];
    }
  }

  /** What happens to the queue over a session: actions arrive, polls take at most one each. */
  datatype QueueOp = Arrive(action: Action) | Take

  function Pending(ops: seq<QueueOp>): seq<Action> {
    if ops == [] then []
    else
      var before := Pending(ops[..|ops| - 1]);
      match ops[|ops| - 1]
      case Arrive(action) => Enqueue(before, action)
      case Take => if before == [] then [] else before[1..]
  }

  /** Actions handed to callers so far. */
  function Returned(ops: seq<QueueOp>): seq<Action> {
    if ops == [] then []
    else
      var before := Pending(ops[..|ops| - 1]);
      Returned(ops[..|ops| - 1]) + if ops[|ops| - 1].Take? && before != [] then [before[0]] else []
  }

  /** The arrivals, minus those that found eight actions accepted and not yet taken. */
  function Accepted(ops: seq<QueueOp>): seq<Action> {
    if ops == [] then []
    else
      var earlier := ops[..|ops| - 1];
      Accepted(earlier) +
      if ops[|ops| - 1].Arrive? && |Accepted(earlier)| < |Returned(earlier)| + 8 then [ops[|ops| - 1].action] else []
  }

  /** Actions come out in order, none lost but those that arrived at a full queue, none invented. */
  lemma {:induction false} QueueConserves(ops: seq<QueueOp>)
    ensures Returned(ops) + Pending(ops) == Accepted(ops)
    ensures |Pending(ops)| <= 8
  {
    if ops != [] {
      QueueConserves(ops[..|ops| - 1]);
    }
  }

  function ArriveAll(actions: seq<Action>): seq<QueueOp> {
    seq(|actions|, i requires 0 <= i < |actions| => Arrive(actions[i]))
  }

  lemma {:induction false} PendingArrivals(ops: seq<QueueOp>, actions: seq<Action>)
    ensures Pending(ops + ArriveAll(actions)) == EnqueueAll(Pending(ops), actions)
    ensures Returned(ops + ArriveAll(actions)) == Returned(ops)
  {
    if actions == [] {
      assert ops + ArriveAll(actions) == ops;
    } else {
      var front := actions[..|actions| - 1];
      PendingArrivals(ops, front);
      assert (ops + ArriveAll(actions))[..|ops| + |actions| - 1] == ops + ArriveAll(front);
    }
  }
}
