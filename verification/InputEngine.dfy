/**
 The evdev input engine: discovery over an ops table, four source slots with their
 partial-event buffers, the action queue, polling and shutdown. Every answer of the
 operating system is a parameter.
 */
module InputEngine {
  import opened Arith
  import opened InputNormalize
  import opened Words
  import opened InputPlan
  import opened InputEvents
  import opened InputFrame

  /** The descriptor side of the ops table. `wild` records a close of something not open. */
  class Kernel {
    var live: set<int>
    var wild: bool

    constructor ()
      ensures live == {} && !wild
    {
      live, wild := {}, false;
    }

    /** The kernel never hands out a descriptor that is already open; anything else fails. */
    method Open(answer: int) returns (fd: int)
      modifies this
      ensures fd == if answer >= 0 && answer !in old(live) then answer else -1
      ensures live == (if fd >= 0 then old(live) + {fd} else old(live)) && wild == old(wild)
    {
      if answer < 0 || answer in live { return -1; }
      live := live + {answer};
      return answer;
    }

    method Close(fd: int)
      modifies this
      ensures live == old(live) - {fd} && wild == (old(wild) || fd !in old(live))
    {
      if fd !in live { wild := true; }
      live := live - {fd};
    }
  }

  predicate Distinct(sources: seq<Source>) {
    forall i, j | 0 <= i < j < |sources| && sources[i].fd >= 0 :: sources[i].fd != sources[j].fd
  }

  function Owned(sources: seq<Source>): set<int> {
    set i | 0 <= i < |sources| && sources[i].fd >= 0 :: sources[i].fd
  }

  function Disconnected(s: Source): Source {
    s.(fd := -1, state := Absent, generation := (s.generation + 1) % GENERATION_RANGE,
       lastRaw := seq(AXIS_COUNT, _ => 0), held := {})
  }

  // -------------------------------------------------------------- probing

  /** What the device says about one axis slot. */
  datatype AxisProbe = AxisProbe(advertised: bool, readable: bool, value: Int32, minimum: Int32, maximum: Int32, flat: Int32)

  /** What an opened node answers: a name, the two capability tests, and its axes. */
  datatype Probe = Probe(named: bool, gamepad: bool, keyboard: bool, axesListed: bool, axes: nat -> AxisProbe)

  /** One directory entry: not an event node, or a node with what `open` returns and its sysfs rank hint. */
  datatype Entry = OtherName | Node(number: nat, answer: int, hint: int, probe: Probe)

  predicate AxisOk(p: Probe, slot: nat) {
    p.axesListed && p.axes(slot).advertised && p.axes(slot).readable
  }

  function AxisRange(p: Probe, slot: nat): Range {
    if AxisOk(p, slot) then Calibrated(p.axes(slot).minimum, p.axes(slot).maximum, p.axes(slot).flat) else ZERO_RANGE
  }

  function AxisValue(p: Probe, slot: nat): Int32 {
    if AxisOk(p, slot) then p.axes(slot).value else 0
  }

  /** `probe_snapshot_axes` on a blank source. */
  function Snapshot(p: Probe): Source {
    EMPTY_SOURCE.(axis := seq(AXIS_COUNT, (i: nat) => AxisRange(p, i)),
                  axisValid := seq(AXIS_COUNT, (i: nat) => AxisOk(p, i)),
                  lastRaw := seq(AXIS_COUNT, (i: nat) => AxisValue(p, i)))
  }

  /** `classify_source`: no name or no capability means no admission, whatever sysfs hints. */
  function RankOf(hint: int, p: Probe): int {
    var probed := if p.gamepad then 2 else if p.keyboard then 1 else 0;
    if !p.named || probed == 0 then 0 else if hint > probed then hint else probed
  }

  /** The candidates a scan holds: the first 16 admitted nodes, in directory order. */
  function Admitted(entries: seq<Entry>, live: set<int>): (r: seq<Candidate<Source>>)
    ensures |r| <= CANDIDATE_CAP
  {
    if entries == [] then []
    else
      var before := Admitted(entries[..|entries| - 1], live);
      var e := entries[|entries| - 1];
      if |before| == CANDIDATE_CAP || e.OtherName? || e.answer < 0 || e.answer in live + Fds(before) || RankOf(e.hint, e.probe) == 0
      then before
      else before + [Candidate(e.answer, RankOf(e.hint, e.probe), e.number, Snapshot(e.probe))]
  }

  /** Ranks: a hint above what the probe shows counts; a gamepad is 2 and a keyboard 1; a node with neither, or no name, is out. */
  lemma RanksAre(hint: int, p: Probe)
    ensures !p.named || (!p.gamepad && !p.keyboard) ==> RankOf(hint, p) == 0
    ensures p.named && p.gamepad ==> RankOf(hint, p) == if hint >= 3 then hint else 2
    ensures p.named && !p.gamepad && p.keyboard ==> RankOf(hint, p) == if hint >= 2 then hint else 1
  {
  }

  /** What a connect leaves of a node's answers: each listed, advertised and readable axis with the device's own range and value. */
  lemma ConnectedAs(c: Candidate<Source>, p: Probe, slot: nat)
    requires c.prepared == Snapshot(p) && slot < AXIS_COUNT
    ensures var s, a := Connect(c), p.axes(slot);
            && s.fd == c.fd && s.state.Connected? && s.held == {}
            && |s.axisValid| == |s.axis| == |s.lastRaw| == AXIS_COUNT
            && (s.axisValid[slot] <==> p.axesListed && a.advertised && a.readable)
            && (s.axisValid[slot] ==> s.axis[slot].min == a.minimum && s.axis[slot].max == a.maximum && s.lastRaw[slot] == a.value
                                      && s.axis[slot].deadzone == Calibrated(a.minimum, a.maximum, a.flat).deadzone)
            && (!s.axisValid[slot] ==> s.lastRaw[slot] == 0)
  {
  }

  /** A disconnect gives up the descriptor, counts up, and forgets keys and axis values. */
  lemma DisconnectedAs(s: Source)
    ensures var d := Disconnected(s);
            && d.fd == -1 && d.state.Absent? && d.held == {} && d.lastRaw == [0, 0, 0, 0, 0, 0, 0, 0]
            && d.generation == (s.generation + 1) % 0x1_0000_0000 && d.axis == s.axis && d.axisValid == s.axisValid
  {
  }

  /** A node that opens with a descriptor not open before, is not already a candidate's, and is capable. */
  predicate Capable(e: Entry) {
    e.Node? && e.answer >= 0 && RankOf(e.hint, e.probe) > 0
  }

  function CandidateOf(e: Entry): Candidate<Source>
    requires e.Node?
  {
    Candidate(e.answer, RankOf(e.hint, e.probe), e.number, Snapshot(e.probe))
  }

  /** The capable nodes of a listing, in its order. */
  function CapableIn(entries: seq<Entry>): seq<Candidate<Source>> {
    if entries == [] then []
    else (if Capable(entries[0]) then [CandidateOf(entries[0])] else []) + CapableIn(entries[1..])
  }

  lemma {:induction false} CapableLast(entries: seq<Entry>)
    requires entries != []
    ensures var n := |entries| - 1;
            CapableIn(entries) == CapableIn(entries[..n]) + if Capable(entries[n]) then [CandidateOf(entries[n])] else []
  {
    var n := |entries| - 1;
    if n > 0 {
      CapableLast(entries[1..]);
      assert entries[1..][..n - 1] == entries[..n][1..];
    }
  }

  /** Opens of a listing answered by descriptors that are new each time. */
  predicate FreshOpens(entries: seq<Entry>, live: set<int>) {
    && (forall i | 0 <= i < |entries| && entries[i].Node? && entries[i].answer >= 0 :: entries[i].answer !in live)
    && (forall i, j | 0 <= i < j < |entries| && entries[i].Node? && entries[j].Node? && entries[i].answer >= 0 ::
          entries[i].answer != entries[j].answer)
  }

  /** With fresh descriptors the admissible nodes are exactly the capable ones, in the listing's order. */
  lemma {:induction false} AdmissibleIsCapable(entries: seq<Entry>, live: set<int>)
    requires FreshOpens(entries, live)
    ensures Admissible(entries, live) == CapableIn(entries)
    ensures forall fd | fd in Fds(Admissible(entries, live)) ::
              exists i | 0 <= i < |entries| :: entries[i].Node? && entries[i].answer == fd >= 0
  {
    if entries != [] {
      var n := |entries| - 1;
      var front := entries[..n];
      AdmissibleIsCapable(front, live);
      CapableLast(entries);
      var before, e := Admissible(front, live), entries[n];
      if e.Node? && e.answer >= 0 {
        assert forall i | 0 <= i < n && entries[i].Node? :: entries[i].answer != e.answer;
        assert e.answer !in Fds(before);
      }
      if Capable(e) {
        FdsAppend(before, CandidateOf(e));
      }
      forall fd | fd in Fds(Admissible(entries, live))
        ensures exists i | 0 <= i < |entries| :: entries[i].Node? && entries[i].answer == fd >= 0
      {
        if fd in Fds(before) {
          var i :| 0 <= i < |front| && front[i].Node? && front[i].answer == fd >= 0;
          assert entries[i] == front[i];
        } else {
          assert entries[n].answer == fd;
        }
      }
    }
  }

  /** Every admissible node of a listing, without the cap. */
  function Admissible(entries: seq<Entry>, live: set<int>): seq<Candidate<Source>> {
    if entries == [] then []
    else
      var before := Admissible(entries[..|entries| - 1], live);
      var e := entries[|entries| - 1];
      if e.OtherName? || e.answer < 0 || e.answer in live + Fds(before) || RankOf(e.hint, e.probe) == 0
      then before
      else before + [Candidate(e.answer, RankOf(e.hint, e.probe), e.number, Snapshot(e.probe))]
  }

  /** The cap keeps the first 16 admissible nodes: all of them if there are no more. */
  lemma {:induction false} AdmittedCaps(entries: seq<Entry>, live: set<int>)
    ensures Admitted(entries, live) ==
            if |Admissible(entries, live)| <= 16 then Admissible(entries, live) else Admissible(entries, live)[..16]
  {
    if entries != [] {
      AdmittedCaps(entries[..|entries| - 1], live);
    }
  }

  lemma {:induction false} AdmittedStops(entries: seq<Entry>, n: nat, live: set<int>)
    requires n <= |entries| && (n == |entries| || |Admitted(entries[..n], live)| == CANDIDATE_CAP)
    ensures Admitted(entries, live) == Admitted(entries[..n], live)
  {
    if n == |entries| {
      assert entries[..n] == entries;
    } else {
      var front := entries[..|entries| - 1];
      assert front[..n] == entries[..n];
      AdmittedStops(front, n, live);
    }
  }

  lemma FdsAppend(s: seq<Candidate<Source>>, c: Candidate<Source>)
    ensures Fds(s + [c]) == Fds(s) + {c.fd}
  {
    assert (s + [c])[|s|] == c;
    forall fd | fd in Fds(s)
      ensures fd in Fds(s + [c])
    {
      var i :| 0 <= i < |s| && s[i].fd == fd;
      assert (s + [c])[i].fd == fd;
    }
  }

  /** A candidate's prepared source is a blank calibrated one. */
  predicate PreparedOk(c: Candidate<Source>) {
    c.prepared.fd < 0 && SourceShaped(c.prepared) && c.prepared.generation == 0
  }

  lemma {:induction false} AdmittedFresh(entries: seq<Entry>, live: set<int>)
    ensures FreshFds(Admitted(entries, live), live)
    ensures forall i | 0 <= i < |Admitted(entries, live)| :: PreparedOk(Admitted(entries, live)[i])
  {
    if entries != [] {
      var before := Admitted(entries[..|entries| - 1], live);
      AdmittedFresh(entries[..|entries| - 1], live);
      assert forall i | 0 <= i < |before| :: before[i].fd in Fds(before);
    }
  }

  // -------------------------------------------------------------- claiming

  function FirstFree(sources: seq<Source>, from: nat): nat
    requires from <= |sources|
    decreases |sources| - from
  {
    if from == |sources| || sources[from].fd < 0 then from else FirstFree(sources, from + 1)
  }

  lemma {:induction false} FirstFreeIsFree(sources: seq<Source>, from: nat)
    requires from <= |sources|
    ensures from <= FirstFree(sources, from) <= |sources|
    ensures FirstFree(sources, from) < |sources| ==> sources[FirstFree(sources, from)].fd < 0
    ensures forall k | from <= k < FirstFree(sources, from) :: sources[k].fd >= 0
    decreases |sources| - from
  {
    if from < |sources| && sources[from].fd >= 0 {
      FirstFreeIsFree(sources, from + 1);
    }
  }

  function Connect(c: Candidate<Source>): Source {
    c.prepared.(fd := c.fd, state := Connected, generation := (c.prepared.generation + 1) % GENERATION_RANGE)
  }

  function FillOne(sources: seq<Source>, c: Candidate<Source>): (r: seq<Source>)
    ensures |r| == |sources|
  {
    FirstFreeIsFree(sources, 0);
    var slot := FirstFree(sources, 0);
    if slot == |sources| then sources else sources[slot := Connect(c)]
  }

  /** The slots after the candidates have claimed what is free, in order. */
  function Fill(sources: seq<Source>, candidates: seq<Candidate<Source>>): (r: seq<Source>)
    ensures |r| == |sources|
  {
    if candidates == [] then sources
    else FillOne(Fill(sources, candidates[..|candidates| - 1]), candidates[|candidates| - 1])
  }

  /** How many slots are open. */
  function Occupied(sources: seq<Source>): (n: nat)
    ensures n <= |sources|
  {
    if sources == [] then 0
    else Occupied(sources[..|sources| - 1]) + if sources[|sources| - 1].fd >= 0 then 1 else 0
  }

  lemma {:induction false} OccupiedSet(sources: seq<Source>, i: nat, s: Source)
    requires i < |sources| && sources[i].fd < 0 && s.fd >= 0
    ensures Occupied(sources[i := s]) == Occupied(sources) + 1
  {
    var last := |sources| - 1;
    if i == last {
      assert sources[i := s][..last] == sources[..last];
    } else {
      assert sources[i := s][..last] == sources[..last][i := s];
      OccupiedSet(sources[..last], i, s);
    }
  }

  lemma {:induction false} OccupiedFull(sources: seq<Source>)
    requires forall k | 0 <= k < |sources| :: sources[k].fd >= 0
    ensures Occupied(sources) == |sources|
  {
    if sources != [] {
      OccupiedFull(sources[..|sources| - 1]);
    }
  }

  /** A candidate fills one more slot, unless all are open. */
  lemma OccupiedFill(sources: seq<Source>, c: Candidate<Source>)
    requires c.fd >= 0
    ensures Occupied(FillOne(sources, c)) == Occupied(sources) + if FirstFree(sources, 0) < |sources| then 1 else 0
    ensures FirstFree(sources, 0) >= |sources| <==> Occupied(sources) == |sources|
  {
    FirstFreeIsFree(sources, 0);
    if FirstFree(sources, 0) < |sources| {
      OccupiedSet(sources, FirstFree(sources, 0), Connect(c));
    } else {
      OccupiedFull(sources);
    }
  }

  /** Filling opens exactly as many slots as there are candidates and free slots for them. */
  lemma {:induction false} FilledCount(sources: seq<Source>, candidates: seq<Candidate<Source>>)
    requires forall i | 0 <= i < |candidates| :: candidates[i].fd >= 0
    ensures Occupied(Fill(sources, candidates)) == Occupied(sources) + Min(|candidates|, |sources| - Occupied(sources))
  {
    if candidates != [] {
      var n := |candidates| - 1;
      FilledCount(sources, candidates[..n]);
      OccupiedFill(Fill(sources, candidates[..n]), candidates[n]);
    }
  }

  /** Claiming a free slot with a descriptor nobody owns adds exactly that descriptor. */
  lemma OwnedClaim(sources: seq<Source>, slot: nat, s: Source)
    requires Distinct(sources) && slot < |sources| && sources[slot].fd < 0 && s.fd >= 0 && s.fd !in Owned(sources)
    ensures Distinct(sources[slot := s]) && Owned(sources[slot := s]) == Owned(sources) + {s.fd}
  {
    var updated := sources[slot := s];
    assert updated[slot].fd == s.fd;
    forall fd | fd in Owned(sources)
      ensures fd in Owned(updated)
    {
      var k :| 0 <= k < |sources| && sources[k].fd >= 0 && sources[k].fd == fd;
      assert updated[k].fd == fd;
    }
    forall k | 0 <= k < |sources| && k != slot && sources[k].fd >= 0
      ensures sources[k].fd in Owned(sources)
    {
    }
  }

  lemma FdsHead(s: seq<Candidate<Source>>, taken: set<int>)
    requires s != [] && FreshFds(s, taken)
    ensures Fds(s) == {s[0].fd} + Fds(s[1..]) && s[0].fd !in Fds(s[1..])
    ensures FreshFds(s[1..], taken + {s[0].fd})
  {
    forall fd | fd in Fds(s) && fd != s[0].fd
      ensures fd in Fds(s[1..])
    {
      var i :| 0 <= i < |s| && s[i].fd == fd;
      assert s[1..][i - 1].fd == fd;
    }
    assert s[0].fd in Fds(s);
    forall fd | fd in Fds(s[1..])
      ensures fd in Fds(s) && fd != s[0].fd
    {
      var i :| 0 <= i < |s| - 1 && s[1..][i].fd == fd;
      assert s[i + 1].fd == fd;
    }
  }

  lemma SortPrepared(s: seq<Candidate<Source>>)
    requires forall i | 0 <= i < |s| :: PreparedOk(s[i])
    ensures forall i | 0 <= i < |s| :: PreparedOk(Sort(s)[i])
  {
    SortPermutes(s);
    forall i | 0 <= i < |s|
      ensures PreparedOk(Sort(s)[i])
    {
      assert Sort(s)[i] in multiset(s);
    }
  }

  /** Filling empty slots takes the candidates in order: slot `k` holds candidate `k`. */
  lemma {:induction false} FillFresh(sources: seq<Source>, candidates: seq<Candidate<Source>>)
    requires forall k | 0 <= k < |sources| :: sources[k].fd < 0
    requires forall i | 0 <= i < |candidates| :: candidates[i].fd >= 0
    ensures forall k | 0 <= k < |sources| ::
              Fill(sources, candidates)[k] == if k < |candidates| then Connect(candidates[k]) else sources[k]
  {
    if candidates != [] {
      var front := candidates[..|candidates| - 1];
      FillFresh(sources, front);
      FirstFreeIsFree(Fill(sources, front), 0);
    }
  }

  /**
   After init the occupied slots are a prefix holding the best candidates: slot `k`
   holds the k-th of them in rank-then-number order, stably, and no candidate left out
   is better than one let in. The candidates are all admissible nodes if there are at
   most 16, else the first 16 of the listing, whatever their rank.
   */
  lemma InitTakesBest(entries: seq<Entry>, rank: int, number: nat)
    ensures var all := Admissible(entries, {});
            Admitted(entries, {}) == if |all| <= 16 then all else all[..16]
    ensures var best := Sort(Admitted(entries, {}));
            && Ordered(best) && Same(best, rank, number) == Same(Admitted(entries, {}), rank, number)
            && forall k | 0 <= k < 4 ::
                 Fill(seq(MAX_SOURCES, _ => EMPTY_SOURCE), best)[k] == if k < |best| then Connect(best[k]) else EMPTY_SOURCE
  {
    var admitted := Admitted(entries, {});
    AdmittedCaps(entries, {});
    AdmittedFresh(entries, {});
    SortFresh(admitted, {});
    SortStable(admitted, rank, number);
    FillFresh(seq(MAX_SOURCES, _ => EMPTY_SOURCE), Sort(admitted));
  }

  // ------------------------------------------------------- owners and ranks

  const NO_SOURCES: seq<Source> := seq(MAX_SOURCES, _ => EMPTY_SOURCE)

  /** Every open slot still holds the candidate init gave it. */
  ghost predicate AsInit(sources: seq<Source>, best: seq<Candidate<Source>>) {
    forall k | 0 <= k < |sources| && sources[k].fd >= 0 :: k < |best| && sources[k].fd == best[k].fd
  }

  /** Init gives slot `k` the k-th best candidate. */
  lemma InitConnectsBest(entries: seq<Entry>)
    ensures AsInit(Fill(NO_SOURCES, Sort(Admitted(entries, {}))), Sort(Admitted(entries, {})))
  {
    InitTakesBest(entries, 0, 0);
  }

  /** Polls only take sources away. */
  lemma PollsKeepInit(sources: seq<Source>, best: seq<Candidate<Source>>, left: seq<seq<Byte>>, answers: seq<seq<ReadAnswer>>,
                      devices: seq<Device>, size: nat, after: seq<Source>)
    requires |sources| == |left| == |answers| == |devices| == |after| && 8 <= size <= BUFFER_SIZE
    requires forall i | 0 <= i < |sources| :: SourceShaped(sources[i])
    requires forall i | 0 <= i < |sources| :: after[i] == PolledAll(sources, left, answers, devices, size)[i].feed.source
    requires AsInit(sources, best)
    ensures AsInit(after, best)
  {
    forall i | 0 <= i < |sources| && after[i].fd >= 0
      ensures after[i].fd == sources[i].fd
    {
      assert after[i] == Polled(sources[i], left[i], answers[i], devices[i], size).feed.source;
    }
  }

  /** As long as no rescan has filled a slot, the owner of an axis has the best rank of all sources that offer it. */
  lemma OwnerRanksBest(sources: seq<Source>, best: seq<Candidate<Source>>, frame: Frame, slot: nat, j: nat)
    requires forall i | 0 <= i < |sources| :: SourceShaped(sources[i])
    requires Ordered(best) && AsInit(sources, best) && Shows(sources, frame)
    requires slot < AXIS_COUNT && j < |sources| && Offers(sources[j], slot)
    ensures frame.present[slot] && frame.owner[slot] <= j < |best| && best[frame.owner[slot]].rank >= best[j].rank
  {
    assert AxisShown(sources, slot, frame.axis[slot], frame.present[slot], frame.owner[slot]);
    assert sources[j].fd >= 0 && !Worse(best[frame.owner[slot]], best[j]);
  }

  /**
   A rescan breaks that: with the better source of two gone from slot 0, a candidate worse than
   the one left takes the free slot, and with it every axis both offer.
   */
  lemma RescanBreaksRank(a: Candidate<Source>, b: Candidate<Source>, c: Candidate<Source>, slot: nat, frame: Frame)
    requires a.fd >= 0 && b.fd >= 0 && c.fd >= 0 && PreparedOk(a) && PreparedOk(b) && PreparedOk(c) && slot < AXIS_COUNT
    requires b.rank > c.rank && Offers(Connect(b), slot) && Offers(Connect(c), slot)
    requires var first := Fill(NO_SOURCES, [a, b]);
             var again := Fill(first[0 := Disconnected(first[0])], [c]);
             (forall i | 0 <= i < |again| :: SourceShaped(again[i])) && Shows(again, frame)
    ensures var first := Fill(NO_SOURCES, [a, b]);
            var again := Fill(first[0 := Disconnected(first[0])], [c]);
            again[0] == Connect(c) && again[1] == Connect(b) && frame.present[slot] && frame.owner[slot] == 0
  {
    var first := Fill(NO_SOURCES, [a, b]);
    FillFresh(NO_SOURCES, [a, b]);
    var gone := first[0 := Disconnected(first[0])];
    assert [c][..0] == [] && Fill(gone, []) == gone;
    FirstFreeIsFree(gone, 0);
    assert Fill(gone, [c])[0] == Connect(c);
    var again := Fill(gone, [c]);
    assert AxisShown(again, slot, frame.axis[slot], frame.present[slot], frame.owner[slot]);
    assert Offers(again[0], slot);
  }

  /** Lower open slots have higher-or-equal ranks, `ranks` being those the slots were connected with. */
  predicate RankOrdered(sources: seq<Source>, ranks: seq<int>) {
    |ranks| == |sources| && forall i, j | 0 <= i < j < |sources| && sources[i].fd >= 0 && sources[j].fd >= 0 :: ranks[i] >= ranks[j]
  }

  /** Where slots are ordered by rank the first-writer rule gives each axis to a best source that offers it. */
  lemma OrderedOwners(sources: seq<Source>, ranks: seq<int>, frame: Frame, slot: nat, j: nat)
    requires forall i | 0 <= i < |sources| :: SourceShaped(sources[i])
    requires RankOrdered(sources, ranks) && Shows(sources, frame) && slot < AXIS_COUNT && j < |sources| && Offers(sources[j], slot)
    ensures frame.present[slot] && frame.owner[slot] <= j && ranks[frame.owner[slot]] >= ranks[j]
  {
    assert AxisShown(sources, slot, frame.axis[slot], frame.present[slot], frame.owner[slot]);
  }

  /** A candidate found by a rescan keeps the order exactly when its rank fits between the open slots around the first free one. */
  lemma RescanKeepsRank(sources: seq<Source>, ranks: seq<int>, c: Candidate<Source>)
    requires RankOrdered(sources, ranks) && c.fd >= 0 && FirstFree(sources, 0) < |sources|
    ensures var k := FirstFree(sources, 0);
            RankOrdered(FillOne(sources, c), ranks[k := c.rank]) <==>
            && (forall i | 0 <= i < k :: ranks[i] >= c.rank)
            && (forall j | k < j < |sources| && sources[j].fd >= 0 :: c.rank >= ranks[j])
  {
    var k := FirstFree(sources, 0);
    FirstFreeIsFree(sources, 0);
    var after, ranked := FillOne(sources, c), ranks[k := c.rank];
    if RankOrdered(after, ranked) {
      forall i | 0 <= i < k
        ensures ranks[i] >= c.rank
      {
        assert after[i].fd >= 0 && after[k].fd >= 0 && ranked[i] >= ranked[k];
      }
      forall j | k < j < |sources| && sources[j].fd >= 0
        ensures c.rank >= ranks[j]
      {
        assert after[k].fd >= 0 && after[j].fd >= 0 && ranked[k] >= ranked[j];
      }
    }
  }

  const STICK: Probe := Probe(true, true, true, true, (slot: nat) => AxisProbe(true, true, 0, -100, 100, 0))

  function WithStick(fd: int, rank: int, number: nat): Candidate<Source> {
    Candidate(fd, rank, number, Snapshot(STICK))
  }

  lemma StickOffers(fd: int, rank: int, number: nat)
    requires fd >= 0
    ensures PreparedOk(WithStick(fd, rank, number)) && SourceShaped(Connect(WithStick(fd, rank, number)))
    ensures Offers(Connect(WithStick(fd, rank, number)), 0)
  {
  }

  /** Devices of rank 4 and 2; the first is unplugged and one of rank 1 found: it owns the stick. */
  lemma LesserOwnsStick(frame: Frame)
    ensures var first := Fill(NO_SOURCES, [WithStick(3, 4, 0), WithStick(4, 2, 1)]);
            var again := Fill(first[0 := Disconnected(first[0])], [WithStick(5, 1, 2)]);
            && (forall i | 0 <= i < |again| :: SourceShaped(again[i]))
            && again[0] == Connect(WithStick(5, 1, 2)) && again[1] == Connect(WithStick(4, 2, 1))
            && (Shows(again, frame) ==> frame.present[0] && frame.owner[0] == 0)
  {
    var a, b, c := WithStick(3, 4, 0), WithStick(4, 2, 1), WithStick(5, 1, 2);
    StickOffers(3, 4, 0);
    StickOffers(4, 2, 1);
    StickOffers(5, 1, 2);
    var first := Fill(NO_SOURCES, [a, b]);
    FillFresh(NO_SOURCES, [a, b]);
    var gone := first[0 := Disconnected(first[0])];
    assert [c][..0] == [] && Fill(gone, []) == gone;
    FirstFreeIsFree(gone, 0);
    assert Fill(gone, [c]) == [Connect(c), Connect(b), EMPTY_SOURCE, EMPTY_SOURCE];
    if Shows(Fill(gone, [c]), frame) {
      RescanBreaksRank(a, b, c, 0, frame);
    }
  }

  // ------------------------------------------------------------ generations

  /** Filling touches free slots only, and every slot it fills is in its first generation. */
  lemma {:induction false} FillGenerations(sources: seq<Source>, candidates: seq<Candidate<Source>>, k: nat)
    requires k < |sources| && forall i | 0 <= i < |candidates| :: PreparedOk(candidates[i])
    ensures sources[k].fd >= 0 ==> Fill(sources, candidates)[k] == sources[k]
    ensures sources[k].fd < 0 && Fill(sources, candidates)[k].fd >= 0 ==> Fill(sources, candidates)[k].generation == 1
  {
    if candidates != [] {
      FillGenerations(sources, candidates[..|candidates| - 1], k);
      FirstFreeIsFree(Fill(sources, candidates[..|candidates| - 1]), 0);
    }
  }

  /** What a pass of discovery keeps and how far it fills. */
  lemma FillKeeps(sources: seq<Source>, candidates: seq<Candidate<Source>>)
    requires forall i | 0 <= i < |candidates| :: PreparedOk(candidates[i]) && candidates[i].fd >= 0
    ensures FirstGenerations(sources) ==> FirstGenerations(Fill(sources, candidates))
    ensures forall k | 0 <= k < |sources| && sources[k].fd >= 0 :: Fill(sources, candidates)[k] == sources[k]
    ensures Occupied(Fill(sources, candidates)) == Occupied(sources) + Min(|candidates|, |sources| - Occupied(sources))
  {
    FilledCount(sources, candidates);
    forall k | 0 <= k < |sources|
      ensures sources[k].fd >= 0 ==> Fill(sources, candidates)[k] == sources[k]
      ensures sources[k].fd < 0 && Fill(sources, candidates)[k].fd >= 0 ==> Fill(sources, candidates)[k].generation == 1
    {
      FillGenerations(sources, candidates, k);
    }
  }

  /**
   A disconnect and a rescan into the same slot are invisible in the generation total: the
   frame after them shows the number it showed on the first connect.
   */
  lemma ReconnectUnseen(sources: seq<Source>, i: nat, c: Candidate<Source>, before: Frame, after: Frame)
    requires |sources| == MAX_SOURCES && FirstGenerations(sources) && forall k | 0 <= k < |sources| :: SourceShaped(sources[k])
    requires i < |sources| && (forall k | 0 <= k <= i :: sources[k].fd >= 0) && PreparedOk(c) && c.fd >= 0
    requires var again := Fill(sources[i := Disconnected(sources[i])], [c]);
             (forall k | 0 <= k < |again| :: SourceShaped(again[k])) && Shows(sources, before) && Shows(again, after)
    ensures Fill(sources[i := Disconnected(sources[i])], [c]) == sources[i := Connect(c)]
    ensures after.generationTotal == before.generationTotal && after.connected == before.connected
  {
    var gone := sources[i := Disconnected(sources[i])];
    assert [c][..0] == [] && Fill(gone, []) == gone;
    FirstFreeIsFree(gone, 0);
    assert gone[i].fd < 0 && FirstFree(gone, 0) == i;
    assert Fill(gone, [c]) == sources[i := Connect(c)];
    TotalIsCount(sources, before);
    TotalIsCount(sources[i := Connect(c)], after);
    assert after.connected == before.connected;
  }

  class CartInput {
    const kernel: Kernel
    const size: nat // sizeof(struct input_event)
    var source: seq<Source>
    var pending: seq<Action>
    var partial: seq<seq<Byte>>
    ghost var ops: seq<QueueOp>

    /** Every slot empty, as `cart_input_init_ex` leaves them before discovery. */
    constructor (kernel: Kernel, size: nat)
      requires kernel.live == {} && !kernel.wild && 8 <= size <= BUFFER_SIZE
      ensures Valid() && this.kernel == kernel && this.size == size
      ensures source == seq(MAX_SOURCES, _ => EMPTY_SOURCE) && pending == []
    {
      this.kernel := kernel;
      this.size := size;
      source := seq(MAX_SOURCES, _ => EMPTY_SOURCE);
      pending := [];
      partial := seq(MAX_SOURCES, _ => []);
      ops := [];
    }

    ghost predicate Shaped()
      reads this
    {
      && 8 <= size <= BUFFER_SIZE
      && |source| == |partial| == MAX_SOURCES
      && (forall i | 0 <= i < MAX_SOURCES :: SourceShaped(source[i]))
    }

    /** Between calls: descriptors are owned once each, free slots hold no bytes, no buffer holds a whole event. */
    ghost predicate Valid()
      reads this, kernel
    {
      && Shaped()
      && pending == Pending(ops) && None !in pending && FirstGenerations(source)
      && Distinct(source) && kernel.live == Owned(source) && !kernel.wild
      && (forall i | 0 <= i < MAX_SOURCES :: |partial[i]| < size && (source[i].fd < 0 ==> partial[i] == []))
    }

    // ------------------------------------------------------------ discovery

    /**
     The scan of `discover_pass`: open every event node until 16 candidates are held,
     closing at once what the probe does not admit.
     */
    method Collect(entries: seq<Entry>) returns (candidates: array<Candidate<Source>>, count: nat)
      modifies kernel
      ensures fresh(candidates) && candidates.Length == CANDIDATE_CAP && count <= CANDIDATE_CAP
      ensures candidates[..count] == Admitted(entries, old(kernel.live))
      ensures kernel.live == old(kernel.live) + Fds(candidates[..count]) && kernel.wild == old(kernel.wild)
    {
      candidates := new Candidate<Source>[CANDIDATE_CAP](_ => Candidate(-1, 0, 0, EMPTY_SOURCE));
      count := 0;
      var next := 0;
      while next < |entries| && count < CANDIDATE_CAP
        invariant next <= |entries| && count <= CANDIDATE_CAP
        invariant candidates[..count] == Admitted(entries[..next], old(kernel.live))
        invariant kernel.live == old(kernel.live) + Fds(candidates[..count]) && kernel.wild == old(kernel.wild)
      {
        var entry := entries[next];
        assert entries[..next + 1][..next] == entries[..next];
        next := next + 1;
        if entry.OtherName? { continue; }
        var fd := kernel.Open(entry.answer);
        if fd < 0 { continue; }
        var rank := RankOf(entry.hint, entry.probe);
        if rank == 0 {
          kernel.Close(fd);
          continue;
        }
        ghost var before := candidates[..count];
        candidates[count] := Candidate(fd, rank, entry.number, Snapshot(entry.probe));
        assert candidates[..count + 1] == before + [candidates[count]];
        FdsAppend(before, candidates[count]);
        count := count + 1;
      }
      AdmittedStops(entries, next, old(kernel.live));
    }

    /** `first_free_slot`, or 4 if none is free. */
    method FirstFreeSlot() returns (slot: nat)
      requires |source| == MAX_SOURCES
      ensures slot == FirstFree(source, 0)
    {
      slot := 0;
      while slot < MAX_SOURCES && source[slot].fd >= 0
        invariant slot <= MAX_SOURCES
        invariant FirstFree(source, slot) == FirstFree(source, 0)
      {
        slot := slot + 1;
      }
    }

    /** Give one candidate the first free slot, or close it. Either way the candidate gives up its descriptor. */
    method ClaimOne(c: Candidate<Source>) returns (claimed: bool)
      requires Shaped() && Distinct(source) && !kernel.wild
      requires c.fd >= 0 && c.fd in kernel.live && c.fd !in Owned(source) && PreparedOk(c) && Owned(source) <= kernel.live
      modifies this`source, kernel
      ensures Shaped() && Distinct(source) && !kernel.wild
      ensures source == FillOne(old(source), c)
      ensures kernel.live == Owned(source) + (old(kernel.live) - old(Owned(source)) - {c.fd})
      ensures Owned(source) - {c.fd} == old(Owned(source))
      ensures claimed == (FirstFree(old(source), 0) < MAX_SOURCES)
      ensures forall i | 0 <= i < MAX_SOURCES :: source[i].fd < 0 ==> old(source[i].fd) < 0
    {
      var slot := FirstFreeSlot();
      FirstFreeIsFree(source, 0);
      if slot == MAX_SOURCES {
        kernel.Close(c.fd);
        return false;
      }
      OwnedClaim(source, slot, Connect(c));
      var target := c.prepared;
      target := target.(fd := c.fd, state := Connected);
      target := target.(generation := (target.generation + 1) % GENERATION_RANGE);
      source := source[slot := target];
      return true;
    }

    /**
     The claim loop of `discover_pass`. Afterwards no candidate holds a descriptor, so the
     sweep that would close leftovers has nothing to do.
     */
    method Claim(candidates: array<Candidate<Source>>, count: nat) returns (claimed: nat)
      requires Shaped() && Distinct(source) && !kernel.wild && count <= candidates.Length
      requires FreshFds(candidates[..count], Owned(source)) && kernel.live == Owned(source) + Fds(candidates[..count])
      requires forall i | 0 <= i < count :: PreparedOk(candidates[i])
      modifies this`source, kernel, candidates
      ensures Shaped() && Distinct(source) && !kernel.wild && kernel.live == Owned(source)
      ensures source == Fill(old(source), old(candidates[..count]))
      ensures forall i | 0 <= i < count :: candidates[i].fd == -1
      ensures forall i | 0 <= i < MAX_SOURCES :: source[i].fd < 0 ==> old(source[i].fd) < 0
      ensures Occupied(source) == Occupied(old(source)) + claimed
    {
      ghost var cs, before := candidates[..count], source;
      assert cs[0..] == cs && cs[..0] == [];
      claimed := ClaimAll(candidates, count, cs, before);
      assert cs[..count] == cs && Fds(cs[count..]) == {};
    }

    method ClaimAll(candidates: array<Candidate<Source>>, count: nat, ghost cs: seq<Candidate<Source>>, ghost before: seq<Source>)
      returns (claimed: nat)
      requires count <= candidates.Length && candidates[..count] == cs && ClaimedTo(0, cs, before, 0)
      requires forall i | 0 <= i < |cs| :: PreparedOk(cs[i])
      modifies this`source, kernel, candidates
      ensures ClaimedTo(count, cs, before, claimed) && forall i | 0 <= i < count :: candidates[i].fd == -1
    {
      claimed := 0;
      for i := 0 to count
        invariant ClaimLoop(i, candidates, count, cs, before, claimed)
      {
        claimed := ClaimStep(i, candidates, count, claimed, cs, before);
      }
    }

    ghost predicate ClaimLoop(i: nat, candidates: array<Candidate<Source>>, count: nat, cs: seq<Candidate<Source>>,
                              before: seq<Source>, claimed: nat)
      reads this, kernel, candidates
    {
      && ClaimedTo(i, cs, before, claimed) && |cs| == count <= candidates.Length
      && (forall k | 0 <= k < i :: candidates[k].fd == -1)
      && (forall k | i <= k < count :: candidates[k] == cs[k])
    }

    /** One turn of the claim loop: the candidate is claimed or closed, and gives up its descriptor. */
    method ClaimStep(i: nat, candidates: array<Candidate<Source>>, count: nat, claimed: nat, ghost cs: seq<Candidate<Source>>,
                     ghost before: seq<Source>)
      returns (total: nat)
      requires i < count && ClaimLoop(i, candidates, count, cs, before, claimed) && PreparedOk(cs[i])
      modifies this`source, kernel, candidates
      ensures ClaimLoop(i + 1, candidates, count, cs, before, total)
    {
      total := ClaimNext(i, candidates[i], claimed, cs, before);
      GiveUp(candidates, i);
    }

    method GiveUp(candidates: array<Candidate<Source>>, i: nat)
      requires i < candidates.Length
      modifies candidates
      ensures candidates[i].fd == -1 && forall k | 0 <= k < candidates.Length && k != i :: candidates[k] == old(candidates[k])
    {
      candidates[i] := candidates[i].(fd := -1);
    }

    /** The first `i` candidates have been given a slot or closed; the others still hold their descriptors. */
    ghost predicate ClaimedTo(i: nat, cs: seq<Candidate<Source>>, before: seq<Source>, claimed: nat)
      reads this, kernel
    {
      && Occupied(source) == Occupied(before) + claimed
      && i <= |cs| && Shaped() && Distinct(source) && !kernel.wild && |before| == MAX_SOURCES
      && source == Fill(before, cs[..i])
      && FreshFds(cs[i..], Owned(source)) && kernel.live == Owned(source) + Fds(cs[i..])
      && (forall k | 0 <= k < MAX_SOURCES :: source[k].fd < 0 ==> before[k].fd < 0)
    }

    /** One turn of the claim loop, counting a slot filled. */
    method ClaimNext(i: nat, c: Candidate<Source>, claimed: nat, ghost cs: seq<Candidate<Source>>, ghost before: seq<Source>)
      returns (total: nat)
      requires i < |cs| && c == cs[i] && PreparedOk(c) && ClaimedTo(i, cs, before, claimed)
      modifies this`source, kernel
      ensures ClaimedTo(i + 1, cs, before, total)
    {
      FdsHead(cs[i..], Owned(source));
      assert cs[i..][0] == c && cs[i..][1..] == cs[i + 1..];
      assert cs[..i + 1][..i] == cs[..i] && cs[..i + 1][i] == c;
      OccupiedFill(source, c);
      var took := ClaimOne(c);
      total := if took then claimed + 1 else claimed;
    }

    /** `discover_pass` over a readable listing: scan, order, claim. Returns how many slots were filled. */
    method Discover(entries: seq<Entry>) returns (claimed: nat)
      requires Valid()
      modifies this`source, kernel
      ensures Valid()
      ensures source == Fill(old(source), Sort(Admitted(entries, old(kernel.live))))
      ensures claimed == Min(|Admitted(entries, old(kernel.live))|, MAX_SOURCES - Occupied(old(source)))
      ensures Occupied(source) == Occupied(old(source)) + claimed
      ensures forall i | 0 <= i < MAX_SOURCES && old(source[i]).fd >= 0 :: source[i] == old(source[i])
    {
      var candidates, count := Gather(entries);
      ghost var cs := candidates[..count];
      FillKeeps(source, cs);
      claimed := Claim(candidates, count);
    }

    /** Scan and order: every descriptor opened is held by exactly one of the ordered candidates. */
    method Gather(entries: seq<Entry>) returns (candidates: array<Candidate<Source>>, count: nat)
      modifies kernel
      ensures fresh(candidates) && count <= candidates.Length
      ensures candidates[..count] == Sort(Admitted(entries, old(kernel.live))) && count == |Admitted(entries, old(kernel.live))|
      ensures FreshFds(candidates[..count], old(kernel.live)) && forall i | 0 <= i < count :: PreparedOk(candidates[i])
      ensures kernel.live == old(kernel.live) + Fds(candidates[..count]) && kernel.wild == old(kernel.wild)
    {
      candidates, count := Collect(entries);
      AdmittedFresh(entries, old(kernel.live));
      ghost var admitted := candidates[..count];
      SortFresh(admitted, old(kernel.live));
      SortFds(admitted);
      SortPrepared(admitted);
      var planned := Plan(candidates, count);
      assert forall i | 0 <= i < count :: candidates[i] == candidates[..count][i];
    }

    // ---------------------------------------------------------------- events

    /** `enqueue_action`. */
    method EnqueueAction(action: Action)
      modifies this`pending
      ensures pending == EnqueueAll(old(pending), if action.None? then [] else [action])
    {
      if action.None? { return; }
      assert [action][..0] == [];
      if |pending| < QUEUE_CAP {
        pending := pending + [action];
      }
    }

    /** `process_key_event`. */
    method ProcessKeyEvent(index: nat, code: nat, value: Int32)
      requires Shaped() && index < MAX_SOURCES
      modifies this`source, this`pending
      ensures source == old(source)[index := old(source[index]).(held :=
                if code >= KEY_LIMIT then old(source[index].held)
                else if value != 0 then old(source[index].held) + {code} else old(source[index].held) - {code})]
      ensures pending == EnqueueAll(old(pending), if EmitsAction(value) && !MapKey(code).None? then [MapKey(code)] else [])
    {
      if code < KEY_LIMIT {
        if value != 0 {
          source := source[index := source[index].(held := source[index].held + {code})];
        } else {
          source := source[index := source[index].(held := source[index].held - {code})];
        }
      }
      if EmitsAction(value) {
        EnqueueAction(MapKey(code));
      }
    }

    /** `resync_after_desync`: ask the device for its keys and the valid axes. */
    method ResyncAfterDesync(index: nat, answer: Answer)
      requires Shaped() && index < MAX_SOURCES
      modifies this`source
      ensures source == old(source)[index := Resynced(old(source[index]), answer).(state := old(source[index].state))]
    {
      var s := source[index];
      if answer.keysOk {
        s := s.(held := set k | k in answer.keys && k < KEY_LIMIT);
      }
      var raw := s.lastRaw;
      for slot := 0 to AXIS_COUNT
        invariant |raw| == AXIS_COUNT
        invariant forall k | 0 <= k < slot :: raw[k] == if s.axisValid[k] && answer.raw(k).Reads? then answer.raw(k).value else s.lastRaw[k]
        invariant forall k | slot <= k < AXIS_COUNT :: raw[k] == s.lastRaw[k]
      {
        if s.axisValid[slot] && answer.raw(slot).Reads? {
          raw := raw[slot := answer.raw(slot).value];
        }
      }
      assert raw == Resynced(source[index], answer).lastRaw;
      source := source[index := s.(lastRaw := raw)];
    }

    /** `consume_event`; `queries` counts the device queries so far in this pump. */
    method ConsumeEvent(index: nat, e: Event, device: Device, queries: nat) returns (asked: nat)
      requires Shaped() && index < MAX_SOURCES && source[index].fd >= 0
      modifies this`source, this`pending
      ensures Shaped()
      ensures var fed := FeedOne(Feed(old(source[index]), [], queries), e, device);
              && source == old(source)[index := fed.source]
              && pending == EnqueueAll(old(pending), fed.emitted)
              && asked == fed.queries
    {
      asked := queries;
      if e.kind == EV_SYN {
        if e.code == SYN_DROPPED && source[index].state.Connected? {
          source := source[index := source[index].(state := Desync)];
        } else if e.code == SYN_REPORT && source[index].state.Desync? {
          ResyncAfterDesync(index, device(queries));
          asked := queries + 1;
          source := source[index := source[index].(state := Connected)];
        }
      } else if e.kind == EV_KEY {
        if source[index].state.Connected? {
          ProcessKeyEvent(index, e.code, e.value);
        }
      } else if e.kind == EV_ABS {
        var slot := AxisSlot(e.code);
        if slot < AXIS_COUNT && source[index].state.Connected? {
          source := source[index := source[index].(lastRaw := source[index].lastRaw[slot := e.value])];
        }
      }
    }

    // ----------------------------------------------------------------- pump

    /**
     One turn of the inner loop of `pump_source`: take the first event record out and
     consume it. What remains, fed from here, ends where it would have ended.
     */
    method DrainOne(index: nat, device: Device, queries: nat, ghost first: seq<Action>, ghost emitted: seq<Action>)
      returns (asked: nat, ghost more: seq<Action>)
      requires Shaped() && index < MAX_SOURCES && source[index].fd >= 0 && |partial[index]| >= size
      requires pending == EnqueueAll(first, emitted)
      modifies this`source, this`pending, this`partial
      ensures Shaped() && source[index].fd >= 0
      ensures source == old(source)[index := source[index]]
      ensures partial == old(partial)[index := old(partial[index])[size..]]
      ensures pending == EnqueueAll(first, more)
      ensures FeedRecords(Feed(source[index], more, asked), Chunks(partial[index], size), device)
           == FeedRecords(Feed(old(source[index]), emitted, queries), Chunks(old(partial[index]), size), device)
    {
      var record := partial[index][..size];
      ghost var next := FeedOne(Feed(source[index], [], queries), Decode(record), device);
      FeedFront(Feed(source[index], emitted, queries), partial[index], size, device);
      EnqueueConcat(first, emitted, next.emitted);
      more := emitted + next.emitted;
      partial := partial[index := partial[index][size..]];
      asked := ConsumeEvent(index, Decode(record), device, queries);
    }

    /** The inner loop of `pump_source`: consume whole events until the buffer holds less than one. */
    method Drain(index: nat, device: Device, queries: nat, ghost first: seq<Action>, ghost emitted: seq<Action>)
      returns (asked: nat, ghost more: seq<Action>)
      requires Shaped() && index < MAX_SOURCES && source[index].fd >= 0
      requires pending == EnqueueAll(first, emitted)
      modifies this`source, this`pending, this`partial
      ensures Shaped() && source[index].fd >= 0
      ensures source == old(source)[index := source[index]]
      ensures partial == old(partial)[index := Rest(old(partial[index]), size)]
      ensures pending == EnqueueAll(first, more)
      ensures Feed(source[index], more, asked)
           == FeedRecords(Feed(old(source[index]), emitted, queries), Chunks(old(partial[index]), size), device)
    {
      asked, more := queries, emitted;
      while |partial[index]| >= size
        invariant Shaped() && source[index].fd >= 0
        invariant source == old(source)[index := source[index]]
        invariant partial == old(partial)[index := partial[index]]
        invariant Rest(partial[index], size) == Rest(old(partial[index]), size)
        invariant pending == EnqueueAll(first, more)
        invariant FeedRecords(Feed(source[index], more, asked), Chunks(partial[index], size), device)
               == FeedRecords(Feed(old(source[index]), emitted, queries), Chunks(old(partial[index]), size), device)
        decreases |partial[index]|
      {
        asked, more := DrainOne(index, device, asked, first, more);
      }
    }

    /** `handle_disconnect` on an open source. */
    method HandleDisconnect(index: nat)
      requires Shaped() && index < MAX_SOURCES && source[index].fd >= 0 && source[index].fd in kernel.live
      modifies this`source, this`partial, kernel
      ensures Shaped() && source == old(source)[index := Disconnected(old(source[index]))]
      ensures partial == old(partial)[index := []]
      ensures kernel.live == old(kernel.live) - {old(source[index].fd)} && kernel.wild == old(kernel.wild)
    {
      var s := source[index];
      if s.fd >= 0 {
        kernel.Close(s.fd);
      }
      s := s.(fd := -1, state := Absent);
      s := s.(generation := (s.generation + 1) % GENERATION_RANGE);
      s := s.(lastRaw := seq(AXIS_COUNT, _ => 0), held := {});
      source := source[index := s];
      partial := partial[index := []];
    }

    /**
     One `read` of `room` bytes and the drain that follows it, on a drained buffer. `bytes` is
     the stream so far and `start` the source before it; both are carried through.
     */
    method ReadOnce(index: nat, answer: ReadAnswer, device: Device, queries: nat,
                    ghost first: seq<Action>, ghost emitted: seq<Action>, ghost start: Feed, ghost bytes: seq<Byte>)
      returns (asked: nat, verdict: Verdict, room: nat, ghost more: seq<Action>)
      requires Shaped() && index < MAX_SOURCES && source[index].fd >= 0
      requires pending == EnqueueAll(first, emitted) && partial[index] == Rest(bytes, size)
      requires SourceShaped(start.source) && !start.source.state.Absent?
      requires Feed(source[index], emitted, queries) == FeedRecords(start, Chunks(bytes, size), device)
      modifies this`source, this`pending, this`partial
      ensures Shaped() && source[index].fd == old(source[index].fd)
      ensures source == old(source)[index := source[index]]
      ensures var (all, v) := ReadStep(bytes, answer, size);
              && verdict == v
              && partial == old(partial)[index := Rest(all, size)]
              && Feed(source[index], more, asked) == FeedRecords(start, Chunks(all, size), device)
      ensures pending == EnqueueAll(first, more)
      ensures 1 <= room && |old(partial[index])| + room == BUFFER_SIZE
    {
      asked, more := queries, emitted;
      room := BUFFER_SIZE - |partial[index]|;
      if answer.WouldBlock? {
        return asked, Stop, room, more;
      }
      if answer.Broken? || (answer.Got? && answer.bytes == []) {
        return asked, Dead, room, more;
      }
      if answer.Got? {
        var got := Stored(answer.bytes, room);
        Reassembled(start, bytes, got, size, device);
        partial := partial[index := partial[index] + got];
        asked, more := Drain(index, device, queries, first, emitted);
      }
      verdict := GoOn;
    }

    /**
     `pump_source`: alternate draining and reading until the reads run dry. However the
     bytes were split, the source ends as if fed the whole stream's records, the buffer
     holds the stream's tail, and every read asks for at least one byte (`rooms`, one per read).
     */
    method Pump(index: nat, answers: seq<ReadAnswer>, device: Device) returns (ghost emitted: seq<Action>, ghost rooms: seq<nat>)
      requires Shaped() && index < MAX_SOURCES && source[index].fd >= 0 && source[index].fd in kernel.live
      modifies this`source, this`pending, this`partial, kernel
      ensures Shaped()
      ensures |rooms| <= |answers| && AsksSomething(rooms)
      ensures pending == EnqueueAll(old(pending), emitted)
      ensures var (bytes, alive) := Intake(old(partial[index]), answers, size);
              var fed := FeedRecords(Feed(old(source[index]), [], 0), Chunks(bytes, size), device);
              && emitted == fed.emitted
              && source == old(source)[index := if alive then fed.source else Disconnected(fed.source)]
              && partial == old(partial)[index := if alive then Rest(bytes, size) else []]
              && kernel.live == (if alive then old(kernel.live) else old(kernel.live) - {old(source[index].fd)})
              && kernel.wild == old(kernel.wild)
    {
      ghost var p := Pumping(index, device, pending, source, partial, Intake(partial[index], answers, size));
      var next, asked, verdict := 0, 0, GoOn;
      ghost var bytes := partial[index];
      rooms := [];
      asked, emitted := Drain(index, device, asked, pending, []);
      assert answers[0..] == answers;
      while next < |answers| && verdict.GoOn?
        invariant 0 <= next <= |answers| && |rooms| == next && AsksSomething(rooms)
        invariant PumpAt(p, answers[next..], verdict, bytes, emitted, asked)
        invariant kernel.live == old(kernel.live) && kernel.wild == old(kernel.wild)
        decreases |answers| - next
      {
        assert answers[next..][0] == answers[next] && answers[next..][1..] == answers[next + 1..];
        var room;
        asked, verdict, room, bytes, emitted := PumpRead(p, answers[next..], index, device, asked, bytes, emitted);
        rooms := rooms + [room];
        next := next + 1;
      }
      if verdict.Dead? {
        HandleDisconnect(index);
      }
    }

    /** Where the pump stands: the slot is as if fed the bytes so far, and the reads still to come lead to the same intake. */
    ghost predicate PumpAt(p: Pumping, rest: seq<ReadAnswer>, verdict: Verdict, bytes: seq<Byte>, emitted: seq<Action>, asked: nat)
      reads this
    {
      && Shaped() && p.index < MAX_SOURCES && |p.source| == |p.partial| == MAX_SOURCES
      && SourceShaped(p.source[p.index]) && p.source[p.index].fd >= 0 && source[p.index].fd == p.source[p.index].fd
      && source == p.source[p.index := source[p.index]]
      && partial == p.partial[p.index := Rest(bytes, size)]
      && pending == EnqueueAll(p.pending, emitted)
      && p.whole == (if verdict.GoOn? then Intake(bytes, rest, size) else (bytes, verdict.Stop?))
      && Feed(source[p.index], emitted, asked) == FeedRecords(Feed(p.source[p.index], [], 0), Chunks(bytes, size), p.device)
    }

    /** One turn of the outer loop of `pump_source`. */
    method PumpRead(ghost p: Pumping, rest: seq<ReadAnswer>, index: nat, device: Device, queries: nat,
                    ghost bytes: seq<Byte>, ghost emitted: seq<Action>)
      returns (asked: nat, verdict: Verdict, room: nat, ghost all: seq<Byte>, ghost more: seq<Action>)
      requires rest != [] && p.index == index && p.device == device && PumpAt(p, rest, GoOn, bytes, emitted, queries)
      modifies this`source, this`pending, this`partial
      ensures PumpAt(p, rest[1..], verdict, all, more, asked) && 1 <= room <= BUFFER_SIZE
    {
      all := ReadStep(bytes, rest[0], size).0;
      asked, verdict, room, more :=
        ReadOnce(index, rest[0], device, queries, p.pending, emitted, Feed(p.source[index], [], 0), bytes);
    }

    // ----------------------------------------------------------------- poll

    /**
     `cart_input_poll`: pump every connected source that is not desynchronised, hand out
     at most one action, and show the sources as they then are.
     */
    method Poll(answers: seq<seq<ReadAnswer>>, devices: seq<Device>)
      returns (action: Action, frame: Frame, ghost arrived: seq<Action>)
      requires Valid() && |answers| == |devices| == MAX_SOURCES
      modifies this, kernel
      ensures Valid()
      ensures var polls := PolledAll(old(source), old(partial), answers, devices, size);
              && arrived == Arrivals(polls)
              && forall i | 0 <= i < MAX_SOURCES :: source[i] == polls[i].feed.source && partial[i] == polls[i].left
      ensures ops == old(ops) + ArriveAll(arrived) + [Take]
      ensures Returned(ops) == Returned(old(ops)) + if action.None? then [] else [action]
      ensures Shows(source, frame) && frame.generationTotal == |frame.connected|
    {
      arrived := PumpAll(answers, devices);
      PendingArrivals(old(ops), arrived);
      action := TakeAction();
      frame := BuildFrame(source);
      TotalIsCount(source, frame);
    }

    /** Pump the sources in slot order. */
    method PumpAll(answers: seq<seq<ReadAnswer>>, devices: seq<Device>) returns (ghost arrived: seq<Action>)
      requires Valid() && |answers| == |devices| == MAX_SOURCES
      modifies this, kernel
      ensures Valid()
      ensures var polls := PolledAll(old(source), old(partial), answers, devices, size);
              && arrived == Arrivals(polls)
              && forall i | 0 <= i < MAX_SOURCES :: source[i] == polls[i].feed.source && partial[i] == polls[i].left
      ensures ops == old(ops) + ArriveAll(arrived)
    {
      arrived := [];
      ghost var polls, base, sources, left := PolledAll(source, partial, answers, devices, size), ops, source, partial;
      assert ops + ArriveAll([]) == ops;
      for i := 0 to MAX_SOURCES
        invariant |polls| == MAX_SOURCES && PumpedTo(i, polls, sources, left, base, arrived)
      {
        arrived := PumpNext(i, answers[i], devices[i], polls, sources, left, base, arrived);
      }
      assert polls[..MAX_SOURCES] == polls;
    }

    /** The first `i` slots are polled, the others untouched, and everything emitted has been queued. */
    ghost predicate PumpedTo(i: nat, polls: seq<SlotPoll>, sources: seq<Source>, left: seq<seq<Byte>>,
                             base: seq<QueueOp>, arrived: seq<Action>)
      requires |polls| == MAX_SOURCES
      reads this, kernel
    {
      Valid() && PumpedValues(i, source, partial, ops, polls, sources, left, base, arrived)
    }

    method PumpNext(i: nat, answers: seq<ReadAnswer>, device: Device, ghost polls: seq<SlotPoll>, ghost sources: seq<Source>,
                    ghost left: seq<seq<Byte>>, ghost base: seq<QueueOp>, ghost arrived: seq<Action>)
      returns (ghost more: seq<Action>)
      requires i < MAX_SOURCES && |polls| == MAX_SOURCES && PumpedTo(i, polls, sources, left, base, arrived)
      requires SourceShaped(sources[i]) && polls[i] == Polled(sources[i], left[i], answers, device, size)
      modifies this, kernel
      ensures PumpedTo(i + 1, polls, sources, left, base, more)
    {
      PumpedStep(i, source, partial, ops, polls, sources, left, base, arrived);
      ghost var emitted := PumpSlot(i, answers, device);
      more := arrived + emitted;
    }

    /** One turn of the poll loop. */
    method PumpSlot(i: nat, answers: seq<ReadAnswer>, device: Device) returns (ghost emitted: seq<Action>)
      requires Valid() && i < MAX_SOURCES
      modifies this, kernel
      ensures Valid()
      ensures source == old(source)[i := Polled(old(source[i]), old(partial[i]), answers, device, size).feed.source]
      ensures partial == old(partial)[i := Polled(old(source[i]), old(partial[i]), answers, device, size).left]
      ensures emitted == Polled(old(source[i]), old(partial[i]), answers, device, size).feed.emitted
      ensures ops == old(ops) + ArriveAll(emitted)
    {
      emitted := [];
      assert ops + ArriveAll([]) == ops;
      if source[i].fd < 0 || source[i].state.Desync? {
        return;
      }
      assert source[i].fd in Owned(source);
      OwnedUpdate(source, i, Polled(source[i], partial[i], answers, device, size).feed.source);
      PolledEmitsActions(source[i], partial[i], answers, device, size);
      ghost var rooms;
      emitted, rooms := Pump(i, answers, device);
      EnqueueKeepsNone(old(pending), emitted);
      PendingArrivals(ops, emitted);
      ops := ops + ArriveAll(emitted);
    }

    /** The oldest pending action, or None. */
    method TakeAction() returns (action: Action)
      requires Valid()
      modifies this`pending, this`ops
      ensures Valid()
      ensures ops == old(ops) + [Take]
      ensures Returned(ops) == Returned(old(ops)) + if action.None? then [] else [action]
    {
      action := None;
      assert (ops + [Take])[..|ops|] == ops;
      ops := ops + [Take];
      if |pending| > 0 {
        action := pending[0];
        pending := pending[1..];
      }
    }

    /** `cart_input_shutdown`: close every source once and empty every buffer and the queue. */
    method Shutdown()
      requires Valid()
      modifies this, kernel
      ensures Valid() && kernel.live == {}
      ensures source == seq(MAX_SOURCES, _ => EMPTY_SOURCE) && pending == [] && partial == seq(MAX_SOURCES, _ => [])
    {
      for i := 0 to MAX_SOURCES
        invariant Shaped() && Distinct(source) && kernel.live == Owned(source) && !kernel.wild
        invariant forall k | 0 <= k < i :: source[k] == EMPTY_SOURCE
        invariant forall k | i <= k < MAX_SOURCES :: source[k] == old(source[k])
      {
        OwnedUpdate(source, i, EMPTY_SOURCE);
        if source[i].fd >= 0 {
          kernel.Close(source[i].fd);
        }
        source := source[i := EMPTY_SOURCE];
      }
      pending := [];
      ops := [];
      partial := seq(MAX_SOURCES, _ => []);
    }
  }

  /** A pump in progress: its slot, and the state and reads it began with. */
  datatype Pumping = Pumping(
    index: nat,
    device: Device,
    pending: seq<Action>,
    source: seq<Source>,
    partial: seq<seq<Byte>>,
    whole: (seq<Byte>, bool))

  /** Every read asks for at least one byte and no more than the buffer. */
  predicate AsksSomething(rooms: seq<nat>) {
    forall k | 0 <= k < |rooms| :: 1 <= rooms[k] <= BUFFER_SIZE
  }

  /** Feeding a sequence of event records. */
  function FeedRecords(f: Feed, records: seq<seq<Byte>>, device: Device): (r: Feed)
    requires SourceShaped(f.source) && !f.source.state.Absent?
    requires forall k | 0 <= k < |records| :: |records[k]| >= 8
    ensures SourceShaped(r.source) && !r.source.state.Absent? && r.source.fd == f.source.fd && r.source.generation == f.source.generation
  {
    FeedAll(f, DecodeAll(records), device)
  }

  /** What a source emits is appended to what it had emitted, and does not depend on it. */
  lemma FeedShift(f: Feed, e: Event, device: Device)
    requires SourceShaped(f.source) && !f.source.state.Absent?
    ensures var next := FeedOne(Feed(f.source, [], f.queries), e, device);
            FeedOne(f, e, device) == next.(emitted := f.emitted + next.emitted)
  {
  }

  lemma FeedCons(f: Feed, e: Event, rest: seq<Event>, device: Device)
    requires SourceShaped(f.source) && !f.source.state.Absent?
    ensures var next := FeedOne(Feed(f.source, [], f.queries), e, device);
            FeedAll(f, [e] + rest, device) ==
            FeedAll(Feed(next.source, f.emitted + next.emitted, next.queries), rest, device)
  {
    FeedConcat(f, [e], rest, device);
    assert [e][..0] == [] && FeedAll(f, [e][..0], device) == f;
    FeedShift(f, e, device);
  }

  lemma DecodeFront(bytes: seq<Byte>, size: nat)
    requires 8 <= size <= |bytes|
    ensures DecodeAll(Chunks(bytes, size)) == [Decode(bytes[..size])] + DecodeAll(Chunks(bytes[size..], size))
  {
  }

  /** Feeding a stream's records is feeding the first and then the rest. */
  lemma FeedFront(f: Feed, bytes: seq<Byte>, size: nat, device: Device)
    requires SourceShaped(f.source) && !f.source.state.Absent? && 8 <= size <= |bytes|
    ensures var next := FeedOne(Feed(f.source, [], f.queries), Decode(bytes[..size]), device);
            FeedRecords(f, Chunks(bytes, size), device) ==
            FeedRecords(Feed(next.source, f.emitted + next.emitted, next.queries), Chunks(bytes[size..], size), device)
  {
    DecodeFront(bytes, size);
    FeedCons(f, Decode(bytes[..size]), DecodeAll(Chunks(bytes[size..], size)), device);
  }

  lemma FeedRecordsConcat(f: Feed, a: seq<seq<Byte>>, b: seq<seq<Byte>>, device: Device)
    requires SourceShaped(f.source) && !f.source.state.Absent?
    requires forall k | 0 <= k < |a| :: |a[k]| >= 8
    requires forall k | 0 <= k < |b| :: |b[k]| >= 8
    ensures FeedRecords(f, a + b, device) == FeedRecords(FeedRecords(f, a, device), b, device)
  {
    assert DecodeAll(a + b) == DecodeAll(a) + DecodeAll(b);
    FeedConcat(f, DecodeAll(a), DecodeAll(b), device);
  }

  /** Bytes read after a drain continue the same stream. */
  lemma Reassembled(f: Feed, bytes: seq<Byte>, got: seq<Byte>, size: nat, device: Device)
    requires SourceShaped(f.source) && !f.source.state.Absent? && size >= 8
    ensures Rest(Rest(bytes, size) + got, size) == Rest(bytes + got, size)
    ensures FeedRecords(FeedRecords(f, Chunks(bytes, size), device), Chunks(Rest(bytes, size) + got, size), device)
         == FeedRecords(f, Chunks(bytes + got, size), device)
  {
    ChunksAppend(bytes, got, size);
    FeedRecordsConcat(f, Chunks(bytes, size), Chunks(Rest(bytes, size) + got, size), device);
  }

  /** What one poll does to one slot. */
  datatype SlotPoll = SlotPoll(feed: Feed, left: seq<Byte>)

  function Polled(s: Source, left: seq<Byte>, answers: seq<ReadAnswer>, device: Device, size: nat): (r: SlotPoll)
    requires SourceShaped(s) && 8 <= size <= BUFFER_SIZE
    ensures SourceShaped(r.feed.source)
    ensures r.feed.source.fd >= 0 ==> r.feed.source.fd == s.fd && r.feed.source.generation == s.generation
  {
    if s.fd < 0 || s.state.Desync? then SlotPoll(Feed(s, [], 0), left)
    else
      var (bytes, alive) := Intake(left, answers, size);
      var fed := FeedRecords(Feed(s, [], 0), Chunks(bytes, size), device);
      if alive then SlotPoll(fed, Rest(bytes, size)) else SlotPoll(fed.(source := Disconnected(fed.source)), [])
  }

  function PolledAll(sources: seq<Source>, left: seq<seq<Byte>>, answers: seq<seq<ReadAnswer>>, devices: seq<Device>,
                     size: nat): (r: seq<SlotPoll>)
    requires |sources| == |left| == |answers| == |devices| && 8 <= size <= BUFFER_SIZE
    requires forall i | 0 <= i < |sources| :: SourceShaped(sources[i])
    ensures |r| == |sources|
  {
    seq(|sources|, i requires 0 <= i < |sources| => Polled(sources[i], left[i], answers[i], devices[i], size))
  }

  /** The actions the slots emit during a poll, in slot order. */
  function Arrivals(polls: seq<SlotPoll>): seq<Action> {
    if polls == [] then [] else Arrivals(polls[..|polls| - 1]) + polls[|polls| - 1].feed.emitted
  }

  /** The first `i` slots are polled, the others as they were, and everything emitted has been queued. */
  ghost predicate PumpedValues(i: nat, source: seq<Source>, partial: seq<seq<Byte>>, ops: seq<QueueOp>, polls: seq<SlotPoll>,
                               sources: seq<Source>, left: seq<seq<Byte>>, base: seq<QueueOp>, arrived: seq<Action>)
    requires |polls| == MAX_SOURCES
  {
    && i <= |sources| == |left| == |source| == |partial| == MAX_SOURCES
    && (forall k | 0 <= k < i :: source[k] == polls[k].feed.source && partial[k] == polls[k].left)
    && (forall k | i <= k < MAX_SOURCES :: source[k] == sources[k] && partial[k] == left[k])
    && arrived == Arrivals(polls[..i])
    && ops == base + ArriveAll(arrived)
  }

  lemma PumpedStep(i: nat, source: seq<Source>, partial: seq<seq<Byte>>, ops: seq<QueueOp>, polls: seq<SlotPoll>,
                   sources: seq<Source>, left: seq<seq<Byte>>, base: seq<QueueOp>, arrived: seq<Action>)
    requires i < MAX_SOURCES && |polls| == MAX_SOURCES && PumpedValues(i, source, partial, ops, polls, sources, left, base, arrived)
    ensures PumpedValues(i + 1, source[i := polls[i].feed.source], partial[i := polls[i].left], ops + ArriveAll(polls[i].feed.emitted),
                         polls, sources, left, base, arrived + polls[i].feed.emitted)
  {
    assert polls[..i + 1][..i] == polls[..i];
    assert ArriveAll(arrived) + ArriveAll(polls[i].feed.emitted) == ArriveAll(arrived + polls[i].feed.emitted);
  }

  /** The arrivals of a poll are slot 0's, then slot 1's, and so on. */
  lemma ArrivalsInOrder(polls: seq<SlotPoll>)
    requires |polls| == 4
    ensures Arrivals(polls) == polls[0].feed.emitted + polls[1].feed.emitted + polls[2].feed.emitted + polls[3].feed.emitted
  {
    assert polls[..3][..2] == polls[..2] && polls[..2][..1] == polls[..1] && polls[..1][..0] == [];
    assert [] + polls[0].feed.emitted == polls[0].feed.emitted;
    assert Arrivals(polls[..1]) == polls[0].feed.emitted;
    assert Arrivals(polls[..2]) == polls[0].feed.emitted + polls[1].feed.emitted;
    assert Arrivals(polls[..3]) == Arrivals(polls[..2]) + polls[2].feed.emitted;
  }

  /** Replacing one slot by one with the same descriptor keeps ownership; by one without, gives that one up. */
  lemma OwnedUpdate(sources: seq<Source>, i: nat, s: Source)
    requires Distinct(sources) && i < |sources| && (s.fd == sources[i].fd || s.fd < 0)
    ensures Distinct(sources[i := s])
    ensures Owned(sources[i := s]) == if s.fd == sources[i].fd then Owned(sources) else Owned(sources) - {sources[i].fd}
  {
    var updated := sources[i := s];
    forall fd | fd in Owned(sources) && (s.fd == sources[i].fd || fd != sources[i].fd)
      ensures fd in Owned(updated)
    {
      var k :| 0 <= k < |sources| && sources[k].fd >= 0 && sources[k].fd == fd;
      assert updated[k].fd == fd;
    }
    forall fd | fd in Owned(updated)
      ensures fd in Owned(sources) && (s.fd != sources[i].fd ==> fd != sources[i].fd)
    {
      var k :| 0 <= k < |updated| && updated[k].fd >= 0 && updated[k].fd == fd;
      assert sources[k].fd == fd;
    }
  }

  lemma {:induction false} FeedEmitsActions(f: Feed, events: seq<Event>, device: Device)
    requires SourceShaped(f.source) && !f.source.state.Absent? && None !in f.emitted
    ensures None !in FeedAll(f, events, device).emitted
  {
    if events != [] {
      FeedEmitsActions(f, events[..|events| - 1], device);
    }
  }

  lemma PolledEmitsActions(s: Source, left: seq<Byte>, answers: seq<ReadAnswer>, device: Device, size: nat)
    requires SourceShaped(s) && 8 <= size <= BUFFER_SIZE
    ensures None !in Polled(s, left, answers, device, size).feed.emitted
  {
    if s.fd >= 0 && !s.state.Desync? {
      FeedEmitsActions(Feed(s, [], 0), DecodeAll(Chunks(Intake(left, answers, size).0, size)), device);
    }
  }

  lemma {:induction false} EnqueueKeepsNone(pending: seq<Action>, actions: seq<Action>)
    requires None !in pending && None !in actions
    ensures None !in EnqueueAll(pending, actions)
  {
    if actions != [] {
      EnqueueKeepsNone(pending, actions[..|actions| - 1]);
    }
  }
}
