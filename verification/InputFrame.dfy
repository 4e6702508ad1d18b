/** The per-poll snapshot of every source: normalised axes with their owners, held keys, connections. */
module InputFrame {
  import opened InputNormalize
  import opened InputEvents

  const MAX_SOURCES: nat := 4

  /** `struct cart_input_frame`; both bitmasks are sets. An absent axis has owner 4. */
  datatype Frame = Frame(
    axis: seq<int>,
    present: seq<bool>,
    owner: seq<nat>,
    held: set<nat>,
    connected: set<nat>,
    generationTotal: nat)

  /** Source `s` has something to say about an axis: it is connected and calibrated to a proper range. */
  predicate Offers(s: Source, slot: nat)
    requires SourceShaped(s) && slot < AXIS_COUNT
  {
    !s.state.Absent? && s.axisValid[slot] && s.axis[slot].min < s.axis[slot].max
  }

  /** What an axis slot must show after looking at `sources`: the first source that offers it, or nothing. */
  ghost predicate AxisShown(sources: seq<Source>, slot: nat, axis: int, present: bool, owner: nat)
    requires slot < AXIS_COUNT && forall i | 0 <= i < |sources| :: SourceShaped(sources[i])
  {
    if present then
      && owner < |sources| && Offers(sources[owner], slot)
      && (forall i | 0 <= i < owner :: !Offers(sources[i], slot))
      && -100 <= axis <= 100 && Normalize(sources[owner].lastRaw[slot], sources[owner].axis[slot]) == Percent(axis)
    else
      axis == 0 && owner == MAX_SOURCES && forall i | 0 <= i < |sources| :: !Offers(sources[i], slot)
  }

  function Generations(sources: seq<Source>): nat {
    if sources == [] then 0
    else
      var last := sources[|sources| - 1];
      Generations(sources[..|sources| - 1]) + if last.state.Absent? then 0 else last.generation
  }

  function HeldBySome(sources: seq<Source>): set<nat> {
    set i, k | 0 <= i < |sources| && !sources[i].state.Absent? && k in sources[i].held :: k
  }

  ghost predicate AxesShown(sources: seq<Source>, frame: Frame)
    requires forall i | 0 <= i < |sources| :: SourceShaped(sources[i])
  {
    && |frame.axis| == |frame.present| == |frame.owner| == AXIS_COUNT
    && forall slot | 0 <= slot < AXIS_COUNT :: AxisShown(sources, slot, frame.axis[slot], frame.present[slot], frame.owner[slot])
  }

  /** The frame is exactly what the sources say. */
  ghost predicate Shows(sources: seq<Source>, frame: Frame)
    requires forall i | 0 <= i < |sources| :: SourceShaped(sources[i])
  {
    && AxesShown(sources, frame)
    && frame.connected == (set i | 0 <= i < |sources| && !sources[i].state.Absent?)
    && frame.held == HeldBySome(sources)
    && frame.generationTotal == Generations(sources) % GENERATION_RANGE
  }

  /** The sources determine the frame: there is one way to show them. */
  lemma FrameDetermined(sources: seq<Source>, f: Frame, g: Frame)
    requires forall i | 0 <= i < |sources| :: SourceShaped(sources[i])
    requires Shows(sources, f) && Shows(sources, g)
    ensures f == g
  {
    forall slot | 0 <= slot < AXIS_COUNT
      ensures f.axis[slot] == g.axis[slot] && f.present[slot] == g.present[slot] && f.owner[slot] == g.owner[slot]
    {
      assert AxisShown(sources, slot, f.axis[slot], f.present[slot], f.owner[slot]);
      assert AxisShown(sources, slot, g.axis[slot], g.present[slot], g.owner[slot]);
    }
  }

  /** A calibrated source offers an axis exactly when its reading normalises, and then it is a percentage. */
  lemma OffersReads(s: Source, slot: nat)
    requires SourceShaped(s) && slot < AXIS_COUNT && s.axisValid[slot]
    ensures Normalize(s.lastRaw[slot], s.axis[slot]).Percent? <==> s.axis[slot].min < s.axis[slot].max
    ensures Normalize(s.lastRaw[slot], s.axis[slot]).Percent? ==> -100 <= Normalize(s.lastRaw[slot], s.axis[slot]).value <= 100
  {
    if s.axis[slot].min < s.axis[slot].max {
      NormalizeRange(s.lastRaw[slot], s.axis[slot]);
    }
  }

  /** The inner loop of `build_frame`: one more source, whose axes count only where nobody came first. */
  method AddAxes(sources: seq<Source>, frame: Frame) returns (next: Frame)
    requires 0 < |sources| <= MAX_SOURCES && forall i | 0 <= i < |sources| :: SourceShaped(sources[i])
    requires !sources[|sources| - 1].state.Absent? && AxesShown(sources[..|sources| - 1], frame)
    ensures AxesShown(sources, next)
    ensures next == frame.(axis := next.axis, present := next.present, owner := next.owner)
  {
    next := frame;
    var last := |sources| - 1;
    for slot := 0 to AXIS_COUNT
      invariant |next.axis| == |next.present| == |next.owner| == AXIS_COUNT
      invariant next == frame.(axis := next.axis, present := next.present, owner := next.owner)
      invariant forall k | 0 <= k < slot :: AxisShown(sources, k, next.axis[k], next.present[k], next.owner[k])
      invariant forall k | slot <= k < AXIS_COUNT ::
                  next.axis[k] == frame.axis[k] && next.present[k] == frame.present[k] && next.owner[k] == frame.owner[k]
    {
      assert AxisShown(sources[..last], slot, frame.axis[slot], frame.present[slot], frame.owner[slot]);
      assert forall i | 0 <= i < last :: sources[..last][i] == sources[i];
      if !sources[last].axisValid[slot] { continue; }
      OffersReads(sources[last], slot);
      var normalized := Normalize(sources[last].lastRaw[slot], sources[last].axis[slot]);
      if normalized.Invalid? || next.present[slot] { continue; }
      next := next.(axis := next.axis[slot := normalized.value], present := next.present[slot := true],
                    owner := next.owner[slot := last]);
    }
  }

  lemma SkipAbsent(sources: seq<Source>, frame: Frame)
    requires sources != [] && forall i | 0 <= i < |sources| :: SourceShaped(sources[i])
    requires sources[|sources| - 1].state.Absent? && Shows(sources[..|sources| - 1], frame)
    ensures Shows(sources, frame)
  {
    var before := sources[..|sources| - 1];
    forall slot | 0 <= slot < AXIS_COUNT
      ensures AxisShown(sources, slot, frame.axis[slot], frame.present[slot], frame.owner[slot])
    {
      assert AxisShown(before, slot, frame.axis[slot], frame.present[slot], frame.owner[slot]);
      assert forall i | 0 <= i < |before| :: before[i] == sources[i];
    }
  }

  lemma HeldGrows(sources: seq<Source>)
    requires sources != [] && !sources[|sources| - 1].state.Absent?
    ensures HeldBySome(sources) == HeldBySome(sources[..|sources| - 1]) + sources[|sources| - 1].held
  {
    var before := sources[..|sources| - 1];
    forall i, k | 0 <= i < |before| && !before[i].state.Absent? && k in before[i].held
      ensures sources[i] == before[i]
    {
    }
    forall i, k | 0 <= i < |sources| && !sources[i].state.Absent? && k in sources[i].held && k !in sources[|sources| - 1].held
      ensures sources[i] == before[i]
    {
    }
  }

  /** `build_frame`. */
  method BuildFrame(sources: seq<Source>) returns (frame: Frame)
    requires |sources| == MAX_SOURCES && forall i | 0 <= i < |sources| :: SourceShaped(sources[i])
    ensures Shows(sources, frame)
  {
    frame := Frame(seq(AXIS_COUNT, _ => 0), seq(AXIS_COUNT, _ => false), seq(AXIS_COUNT, _ => MAX_SOURCES), {}, {}, 0);
    for i := 0 to MAX_SOURCES
      invariant Shows(sources[..i], frame)
    {
      ghost var seen := sources[..i + 1];
      assert seen[..i] == sources[..i] && seen[i] == sources[i];
      if sources[i].state.Absent? {
        SkipAbsent(seen, frame);
        continue;
      }
      HeldGrows(seen);
      ModAdds(Generations(sources[..i]), sources[i].generation);
      frame := frame.(connected := frame.connected + {i}, held := frame.held + sources[i].held,
                      generationTotal := (frame.generationTotal + sources[i].generation) % GENERATION_RANGE);
      frame := AddAxes(sources[..i + 1], frame);
    }
    assert sources[..MAX_SOURCES] == sources;
  }

  /** Every open source is in its first generation. */
  predicate FirstGenerations(sources: seq<Source>) {
    forall i | 0 <= i < |sources| && sources[i].fd >= 0 :: sources[i].generation == 1
  }

  function ConnectedSlots(sources: seq<Source>): set<nat> {
    set i | 0 <= i < |sources| && !sources[i].state.Absent?
  }

  lemma {:induction false} GenerationsCount(sources: seq<Source>)
    requires FirstGenerations(sources) && forall i | 0 <= i < |sources| :: SourceShaped(sources[i])
    ensures Generations(sources) == |ConnectedSlots(sources)| <= |sources|
  {
    if sources != [] {
      var n := |sources| - 1;
      var front := sources[..n];
      GenerationsCount(front);
      ConnectedLast(sources);
    }
  }

  lemma ConnectedLast(sources: seq<Source>)
    requires sources != []
    ensures var n := |sources| - 1;
            && n !in ConnectedSlots(sources[..n])
            && ConnectedSlots(sources) == ConnectedSlots(sources[..n]) + if sources[n].state.Absent? then {} else {n}
  {
  }

  /** With every open source in its first generation, the total a frame shows is the number of connected sources and no more. */
  lemma TotalIsCount(sources: seq<Source>, frame: Frame)
    requires |sources| == MAX_SOURCES && FirstGenerations(sources) && forall i | 0 <= i < |sources| :: SourceShaped(sources[i])
    requires Shows(sources, frame)
    ensures frame.generationTotal == |frame.connected|
  {
    GenerationsCount(sources);
    assert frame.connected == ConnectedSlots(sources);
  }

  lemma ModAdds(a: nat, b: nat)
    ensures (a % GENERATION_RANGE + b) % GENERATION_RANGE == (a + b) % GENERATION_RANGE
  {
  }
}
