/**
 One slot of the input engine from its connect on, over any number of polls: what it has
 read, what it has consumed, and when a poll loses the device for good.
 */
module InputSession {
  import opened Words
  import opened InputEvents
  import opened InputEngine

  /** What one poll finds: the answers of the slot's reads, and of the device's queries. */
  datatype Round = Round(answers: seq<ReadAnswer>, device: Device)

  /** A slot with its history since connect: bytes read, records consumed, and the moments they were. */
  datatype Session = Session(source: Source, left: seq<Byte>, taken: seq<Byte>, fed: seq<seq<Byte>>, moments: seq<Moment>)

  function Begin(s: Source): Session {
    Session(s, [], [], [], [])
  }

  predicate Pumped(s: Source) {
    s.fd >= 0 && !s.state.Desync?
  }

  /** One poll's share of a session. The source and its buffer are what the engine's poll leaves. */
  function PollOnce(x: Session, r: Round, size: nat): (y: Session)
    requires SourceShaped(x.source) && 8 <= size <= BUFFER_SIZE
    ensures SourceShaped(y.source)
  {
    var p := Polled(x.source, x.left, r.answers, r.device, size);
    var y := x.(source := p.feed.source, left := p.left);
    if !Pumped(x.source) then y
    else
      var bytes := Intake(x.left, r.answers, size).0;
      var records := Chunks(bytes, size);
      y.(taken := x.taken + bytes[|x.left|..], fed := x.fed + records,
         moments := x.moments + MomentsOf(Feed(x.source, [], 0), DecodeAll(records), r.device))
  }

  function Polls(x: Session, rounds: seq<Round>, size: nat): (y: Session)
    requires SourceShaped(x.source) && 8 <= size <= BUFFER_SIZE
    ensures SourceShaped(y.source)
  {
    if rounds == [] then x else PollOnce(Polls(x, rounds[..|rounds| - 1], size), rounds[|rounds| - 1], size)
  }

  /** The events one poll feeds a connected slot. */
  function EventsIn(x: Session, r: Round, size: nat): seq<Event>
    requires 8 <= size <= BUFFER_SIZE
  {
    DecodeAll(Chunks(Intake(x.left, r.answers, size).0, size))
  }

  /** While the descriptor stays open the slot is the whole stream's: its records consumed, its tail buffered. */
  ghost predicate Whole(s: Source, x: Session, size: nat)
    requires SourceShaped(s) && !s.state.Absent? && size >= 8
  {
    && x.source.fd == s.fd
    && x.fed == Chunks(x.taken, size) && x.left == Rest(x.taken, size)
    && EventsOf(x.moments) == DecodeAll(x.fed) && x.source == Replay(s, x.moments)
  }

  /** The stream's side of a round. */
  lemma TakenRound(x: Session, r: Round, size: nat)
    requires SourceShaped(x.source) && Pumped(x.source) && 8 <= size <= BUFFER_SIZE
    requires x.fed == Chunks(x.taken, size) && x.left == Rest(x.taken, size) && PollOnce(x, r, size).source.fd >= 0
    ensures var y := PollOnce(x, r, size);
            y.fed == Chunks(y.taken, size) && y.left == Rest(y.taken, size)
  {
    var bytes := Intake(x.left, r.answers, size).0;
    var more := bytes[|x.left|..];
    assert bytes == x.left + more;
    ChunksAppend(x.taken, more, size);
  }

  /** The moments a round that keeps the descriptor adds to the history. */
  lemma RoundMoments(x: Session, r: Round, size: nat) returns (m: seq<Moment>)
    requires SourceShaped(x.source) && Pumped(x.source) && 8 <= size <= BUFFER_SIZE && PollOnce(x, r, size).source.fd >= 0
    ensures PollOnce(x, r, size).source == Replay(x.source, m) && PollOnce(x, r, size).moments == x.moments + m
    ensures EventsOf(m) == EventsIn(x, r, size)
  {
    var f := Feed(x.source, [], 0);
    m := MomentsOf(f, EventsIn(x, r, size), r.device);
    FeedReplays(f, EventsIn(x, r, size), r.device);
  }

  lemma ReplayContinues(s: Source, early: seq<Moment>, mid: Source, m: seq<Moment>, late: Source, all: seq<Moment>)
    requires SourceShaped(s) && !s.state.Absent? && mid == Replay(s, early) && late == Replay(mid, m) && all == early + m
    ensures late == Replay(s, all) && EventsOf(all) == EventsOf(early) + EventsOf(m)
  {
    ReplayConcat(s, early, m);
    EventsConcat(early, m);
  }

  lemma DecodeConcat(a: seq<seq<Byte>>, b: seq<seq<Byte>>)
    requires forall k | 0 <= k < |a| :: |a[k]| >= 8
    requires forall k | 0 <= k < |b| :: |b[k]| >= 8
    ensures DecodeAll(a + b) == DecodeAll(a) + DecodeAll(b)
  {
  }

  lemma ReassembledRound(s: Source, x: Session, r: Round, size: nat)
    requires SourceShaped(s) && !s.state.Absent? && 8 <= size <= BUFFER_SIZE
    requires SourceShaped(x.source) && Whole(s, x, size) && PollOnce(x, r, size).source.fd >= 0
    ensures Whole(s, PollOnce(x, r, size), size)
  {
    if Pumped(x.source) {
      TakenRound(x, r, size);
      var m := RoundMoments(x, r, size);
      WholeContinues(s, x, m, Chunks(Intake(x.left, r.answers, size).0, size), PollOnce(x, r, size), size);
    }
  }

  /** Records and moments that continue a session in step keep it whole. */
  lemma WholeContinues(s: Source, x: Session, m: seq<Moment>, records: seq<seq<Byte>>, y: Session, size: nat)
    requires SourceShaped(s) && !s.state.Absent? && size >= 8
    requires Whole(s, x, size) && y.source == Replay(x.source, m) && y.moments == x.moments + m && y.fed == x.fed + records
    requires y.fed == Chunks(y.taken, size) && y.left == Rest(y.taken, size)
    requires (forall k | 0 <= k < |records| :: |records[k]| >= 8) && EventsOf(m) == DecodeAll(records)
    ensures Whole(s, y, size)
  {
    ReplayContinues(s, x.moments, x.source, m, y.source, y.moments);
    DecodeConcat(x.fed, records);
  }

  lemma EventsConcat(a: seq<Moment>, b: seq<Moment>)
    ensures EventsOf(a + b) == EventsOf(a) + EventsOf(b)
  {
  }

  /**
   From connect on, across any polls and however the reads split the bytes: while the
   descriptor stays open, the records consumed followed by the buffer are exactly the bytes
   read, the records are those of the unsplit stream, the buffer never holds a whole one, and
   the source is what the events since connect make of it. A closed slot holds no bytes.
   */
  lemma {:induction false} SessionReassembled(s: Source, rounds: seq<Round>, size: nat)
    requires SourceShaped(s) && !s.state.Absent? && 8 <= size <= BUFFER_SIZE
    ensures var x := Polls(Begin(s), rounds, size);
            if x.source.fd >= 0 then
              Whole(s, x, size) && Flatten(x.fed) + x.left == x.taken && |x.left| < size
            else x.left == []
  {
    if rounds == [] {
      assert EventsOf([]) == DecodeAll([]);
    } else {
      var before, r := Polls(Begin(s), rounds[..|rounds| - 1], size), rounds[|rounds| - 1];
      SessionReassembled(s, rounds[..|rounds| - 1], size);
      if PollOnce(before, r, size).source.fd >= 0 {
        ReassembledRound(s, before, r, size);
      }
    }
    ChunksComplete(Polls(Begin(s), rounds, size).taken, size);
  }

  /** Held keys over a session: as the latest settling moment since connect says, or as at connect if there is none. */
  lemma SessionHeld(s: Source, rounds: seq<Round>, size: nat, code: nat)
    requires SourceShaped(s) && s.state.Connected? && 8 <= size <= BUFFER_SIZE && code < 64
    requires Polls(Begin(s), rounds, size).source.fd >= 0
    ensures var x := Polls(Begin(s), rounds, size);
            && ((forall k | 0 <= k < |x.moments| :: !Decides(x.moments, k, code)) ==> (code in x.source.held <==> code in s.held))
            && (forall k | 0 <= k < |x.moments| && Decides(x.moments, k, code) &&
                           (forall j | k < j < |x.moments| :: !Decides(x.moments, j, code)) ::
                  code in x.source.held <==> Says(x.moments[k], code))
  {
    var x := Polls(Begin(s), rounds, size);
    SessionReassembled(s, rounds, size);
    if forall k | 0 <= k < |x.moments| :: !Decides(x.moments, k, code) {
      HeldUnchanged(s, x.moments, 0, code);
      assert x.moments[..0] == [];
    }
    forall k | 0 <= k < |x.moments| && Decides(x.moments, k, code) && (forall j | k < j < |x.moments| :: !Decides(x.moments, j, code))
      ensures code in x.source.held <==> Says(x.moments[k], code)
    {
      HeldFollowsLatest(s, x.moments, code, k);
    }
  }

  /** Raw axis values over a session: as the latest settling moment since connect says, or as at connect if there is none. */
  lemma SessionAxis(s: Source, rounds: seq<Round>, size: nat, slot: nat)
    requires SourceShaped(s) && s.state.Connected? && 8 <= size <= BUFFER_SIZE && slot < AXIS_COUNT
    requires Polls(Begin(s), rounds, size).source.fd >= 0
    ensures var x := Polls(Begin(s), rounds, size);
            && ((forall k | 0 <= k < |x.moments| :: !SetsAxis(s, x.moments, k, slot)) ==> x.source.lastRaw[slot] == s.lastRaw[slot])
            && (forall k | 0 <= k < |x.moments| && SetsAxis(s, x.moments, k, slot) &&
                           (forall j | k < j < |x.moments| :: !SetsAxis(s, x.moments, j, slot)) ::
                  x.source.lastRaw[slot] == AxisSaid(x.moments[k], slot))
  {
    var x := Polls(Begin(s), rounds, size);
    SessionReassembled(s, rounds, size);
    if forall k | 0 <= k < |x.moments| :: !SetsAxis(s, x.moments, k, slot) {
      AxisUnchanged(s, x.moments, 0, slot);
      assert x.moments[..0] == [];
    }
    forall k | 0 <= k < |x.moments| && SetsAxis(s, x.moments, k, slot) && (forall j | k < j < |x.moments| :: !SetsAxis(s, x.moments, j, slot))
      ensures x.source.lastRaw[slot] == AxisSaid(x.moments[k], slot)
    {
      AxisFollowsLatest(s, x.moments, slot, k);
    }
  }

  /** One poll of a connected slot: it reads what the device brings, lives as long as that lets it, and emits its presses. */
  lemma PollTakes(x: Session, r: Round, size: nat)
    requires SourceShaped(x.source) && x.source.state.Connected? && 8 <= size <= BUFFER_SIZE
    requires forall k | 0 <= k < |r.answers| && r.answers[k].Got? :: |r.answers[k].bytes| <= BUFFER_SIZE + 1 - size
    ensures PollOnce(x, r, size).taken == x.taken + Brought(r.answers).0
    ensures PollOnce(x, r, size).source.fd >= 0 <==> Brought(r.answers).1
    ensures Polled(x.source, x.left, r.answers, r.device, size).feed.emitted == Presses(EventsIn(x, r, size))
  {
    IntakeBrings(x.left, r.answers, size);
    assert (x.left + Brought(r.answers).0)[|x.left|..] == Brought(r.answers).0;
    EmitsPresses(Feed(x.source, [], 0), EventsIn(x, r, size), r.device);
  }

  // ------------------------------------------------------------ lost devices

  /** A slot that a poll leaves desynchronised is never read again: no later poll changes anything. */
  lemma {:induction false} StuckForever(x: Session, rounds: seq<Round>, size: nat)
    requires SourceShaped(x.source) && !Pumped(x.source) && 8 <= size <= BUFFER_SIZE
    ensures Polls(x, rounds, size) == x
  {
    if rounds != [] {
      StuckForever(x, rounds[..|rounds| - 1], size);
    }
  }

  /** A poll that keeps the descriptor leaves the source desynchronised exactly when its latest drop or report is a drop. */
  lemma PollDesyncs(x: Session, r: Round, size: nat)
    requires SourceShaped(x.source) && x.source.state.Connected? && 8 <= size <= BUFFER_SIZE
    requires PollOnce(x, r, size).source.fd >= 0
    ensures PollOnce(x, r, size).source.state.Desync? <==> Dropped(EventsIn(x, r, size))
  {
    var f := Feed(x.source, [], 0);
    FeedReplays(f, EventsIn(x, r, size), r.device);
    DesyncExactly(x.source, MomentsOf(f, EventsIn(x, r, size), r.device));
  }

  /** A connected slot reads what comes next. */
  lemma ReadsOn(x: Session, size: nat, device: Device)
    requires SourceShaped(x.source) && Pumped(x.source) && 8 <= size <= BUFFER_SIZE && |x.left| < size
    ensures PollOnce(x, Round([Got([0])], device), size).taken == x.taken + [0]
  {
    var answers := [Got([0])];
    assert answers[1..] == [] && Rest(x.left, size) == x.left;
    assert ReadStep(x.left, Got([0]), size) == (x.left + [0], GoOn);
    assert Intake(x.left, answers, size) == Intake(x.left + [0], answers[1..], size);
    assert Intake(x.left, answers, size).0 == x.left + [0];
    assert (x.left + [0])[|x.left|..] == [0];
  }

  /**
   When a device is lost: after a poll that keeps its descriptor, every future of the slot is
   to stay as it is, whatever the device sends, exactly when that poll's whole records held a
   drop with no report behind it.
   */
  lemma LostExactly(x: Session, r: Round, size: nat)
    requires SourceShaped(x.source) && x.source.state.Connected? && 8 <= size <= BUFFER_SIZE
    requires PollOnce(x, r, size).source.fd >= 0
    ensures (forall rounds :: Polls(PollOnce(x, r, size), rounds, size) == PollOnce(x, r, size)) <==> Dropped(EventsIn(x, r, size))
  {
    var y := PollOnce(x, r, size);
    PollDesyncs(x, r, size);
    if Dropped(EventsIn(x, r, size)) {
      forall rounds
        ensures Polls(y, rounds, size) == y
      {
        StuckForever(y, rounds, size);
      }
    } else {
      var rounds := StillReads(y, size, r.device);
      assert Polls(PollOnce(x, r, size), rounds, size) != PollOnce(x, r, size);
    }
  }

  lemma StillReads(y: Session, size: nat, device: Device) returns (rounds: seq<Round>)
    requires SourceShaped(y.source) && Pumped(y.source) && 8 <= size <= BUFFER_SIZE && |y.left| < size
    ensures Polls(y, rounds, size) != y
  {
    var next := Round([Got([0])], device);
    rounds := [next];
    ReadsOn(y, size, device);
    assert rounds[..0] == [] && Polls(y, [], size) == y;
    assert Polls(y, rounds, size) == PollOnce(y, next, size);
    assert Polls(y, rounds, size).taken != y.taken;
  }

  const DROP_RECORD: seq<Byte> := [0, 0, 0, 0, 0, 0, 0, 0, 0, 0, 3, 0, 0, 0, 0, 0]
  const REPORT_RECORD: seq<Byte> := [0, 0, 0, 0, 0, 0, 0, 0, 0, 0, 0, 0, 0, 0, 0, 0]

  lemma OneRecord(record: seq<Byte>)
    requires |record| == 16
    ensures Chunks(record, 16) == [record] && Rest(record, 16) == []
  {
    assert record[..16] == record && record[16..] == [];
  }

  /** A drop in one poll and its report in the next: the report is never read. */
  lemma ReportInNextPoll(s: Source, device: Device)
    requires SourceShaped(s) && s.state.Connected?
    ensures var x := Polls(Begin(s), [Round([Got(DROP_RECORD), WouldBlock], device), Round([Got(REPORT_RECORD), WouldBlock], device)], 16);
            x.source == s.(state := Desync) && x.taken == DROP_RECORD && x.left == []
  {
    var first, second := Round([Got(DROP_RECORD), WouldBlock], device), Round([Got(REPORT_RECORD), WouldBlock], device);
    FirstDrops(s, device);
    assert [first, second][..1] == [first] && [first][..0] == [];
    assert Polls(Begin(s), [first], 16) == PollOnce(Begin(s), first, 16);
  }

  lemma FirstDrops(s: Source, device: Device)
    requires SourceShaped(s) && s.state.Connected?
    ensures var x := PollOnce(Begin(s), Round([Got(DROP_RECORD), WouldBlock], device), 16);
            x.source == s.(state := Desync) && x.taken == DROP_RECORD && x.left == []
  {
    DropTaken();
    OneRecord(DROP_RECORD);
    DropDecodes();
    assert DecodeAll([DROP_RECORD]) == [Event(EV_SYN, SYN_DROPPED, 0)];
    FeedDrop(Feed(s, [], 0), device);
  }

  lemma DropTaken()
    ensures Intake([], [Got(DROP_RECORD), WouldBlock], 16) == (DROP_RECORD, true)
  {
    var answers := [Got(DROP_RECORD), WouldBlock];
    assert Rest([], 16) == [] && [] + DROP_RECORD == DROP_RECORD;
    assert ReadStep([], Got(DROP_RECORD), 16) == (DROP_RECORD, GoOn);
    assert answers[1..] == [WouldBlock];
    assert Intake(DROP_RECORD, [WouldBlock], 16) == (DROP_RECORD, true);
  }

  lemma FeedDrop(f: Feed, device: Device)
    requires SourceShaped(f.source) && f.source.state.Connected?
    ensures FeedAll(f, [Event(EV_SYN, SYN_DROPPED, 0)], device) == f.(source := f.source.(state := Desync))
  {
    var drop := Event(EV_SYN, SYN_DROPPED, 0);
    assert [drop][..0] == [] && FeedAll(f, [], device) == f;
  }

  lemma DropDecodes()
    ensures Decode(DROP_RECORD) == Event(EV_SYN, SYN_DROPPED, 0)
  {
    assert DROP_RECORD[8..] == [0, 0, 3, 0, 0, 0, 0, 0];
  }
}
