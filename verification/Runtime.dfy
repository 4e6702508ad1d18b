/**
 The scene scheduler: an attract loop over `sceneCount` scenes, manual requests
 with a hold, frame deadlines, and the photosensitivity guard that keeps scene
 changes at least `minChange` nanoseconds apart.
 */
module Runtime {
  import opened Arith
  import opened Words

  const U64_MAX: int := 0xffff_ffff_ffff_ffff
  const MIN_CHANGE_NS: U64 := 500_000_000
  const SECOND_NS: int := 1_000_000_000

  type U64 = x: int | 0 <= x <= U64_MAX
  type Size = x: int | 0 <= x < SIZE_RANGE

  /** The fields of `struct cart_runtime` as one value. */
  datatype Rt = Rt(
    sceneCount: Size,
    sceneIndex: Size,
    manualScene: Size,
    origin: U64,
    framePeriod: U64,
    scenePeriod: U64,
    holdUntil: U64,
    minChange: U64,
    lastChange: U64,
    hadChange: bool,
    nextDeadline: U64,
    frame: U64,
    dropped: U64,
    sleep: U64,
    holdActive: bool)

  function AddSaturating(left: U64, right: U64): U64 {
    if left > U64_MAX - right then U64_MAX else left + right
  }

  predicate ChangeAllowed(r: Rt, now: U64) {
    r.minChange == 0 || !r.hadChange || (r.lastChange <= now && now - r.lastChange >= r.minChange)
  }

  function Clamped(r: Rt, now: U64): U64 {
    if now < r.origin then r.origin else now
  }

  /** The scene the attract loop wants at `now`, from the clock alone. */
  function Automatic(r: Rt, now: U64): Size
    requires r.scenePeriod > 0 && r.sceneCount > 0 && r.origin <= now
  {
    Quot(now - r.origin, r.scenePeriod) % r.sceneCount
  }

  predicate Usable(r: Rt) {
    r.sceneCount > 0 && r.framePeriod > 0 && r.scenePeriod > 0
  }

  /** The scene part of a tick: frame number, hold expiry and the guarded attract loop. */
  function TickScene(r: Rt, now: U64): Rt
    requires Usable(r) && r.origin <= now
  {
    var held := r.holdActive && now < r.holdUntil;
    var r1 := r.(frame := Quot(now - r.origin, r.framePeriod), holdActive := held);
    if held then r1.(sceneIndex := r.manualScene)
    else
      var automatic := Automatic(r, now);
      if automatic != r.sceneIndex && ChangeAllowed(r, now) then
        r1.(sceneIndex := automatic, lastChange := now, hadChange := true)
      else r1
  }

  datatype Outcome = OnTime | Advance | Resync | Refused

  /** Which branch the deadline part of a tick takes. */
  function DeadlineOutcome(r: Rt, now: U64): Outcome {
    if now < r.nextDeadline then OnTime
    else if now > U64_MAX - r.framePeriod then Refused
    else if now - r.nextDeadline < r.framePeriod then
      if r.nextDeadline > U64_MAX - r.framePeriod then Refused else Advance
    else Resync
  }

  /** The deadline part of a tick. The dropped counter is a wrapping 64-bit addition. */
  function TickDeadline(r: Rt, now: U64): Rt
    requires r.framePeriod > 0
  {
    match DeadlineOutcome(r, now)
    case OnTime => r.(sleep := r.nextDeadline - now)
    case Refused => r
    case Advance => r.(nextDeadline := r.nextDeadline + r.framePeriod, sleep := r.nextDeadline + r.framePeriod - now)
    case Resync =>
      r.(dropped := (r.dropped + Quot(now - r.nextDeadline, r.framePeriod)) % (U64_MAX + 1),
         nextDeadline := now + r.framePeriod, sleep := r.framePeriod)
  }

  function Tick(r: Rt, now: U64): Rt {
    if !Usable(r) then r
    else TickDeadline(TickScene(r, Clamped(r, now)), Clamped(r, now))
  }

  predicate TickOk(r: Rt, now: U64) {
    Usable(r) && !DeadlineOutcome(r, Clamped(r, now)).Refused?
  }

  function NextIndex(index: Size, count: Size): Size
    requires count > 0
  {
    (index + 1) % SIZE_RANGE % count
  }

  function PreviousIndex(index: Size, count: Size): Size
    requires count > 0
  {
    (index + count - 1) % SIZE_RANGE % count
  }

  /** A manual request for `target`: refused inside the cooldown, else shown and held. */
  function Request(r: Rt, target: Size, now: U64, hold: U64): Rt {
    if !ChangeAllowed(r, now) then r
    else
      var r1 := if target != r.sceneIndex then r.(lastChange := now, hadChange := true) else r;
      var r2 := r1.(manualScene := target, sceneIndex := target);
      if hold == 0 then r2.(holdActive := false)
      else r2.(holdUntil := AddSaturating(now, hold), holdActive := true)
  }

  function RequestNext(r: Rt, now: U64, hold: U64): Rt {
    if r.sceneCount == 0 then r else Request(r, NextIndex(r.sceneIndex, r.sceneCount), now, hold)
  }

  function RequestPrevious(r: Rt, now: U64, hold: U64): Rt {
    if r.sceneCount == 0 then r else Request(r, PreviousIndex(r.sceneIndex, r.sceneCount), now, hold)
  }

  predicate InitAccepts(sceneCount: Size, origin: U64, framePeriod: U64, scenePeriod: U64) {
    sceneCount > 0 && framePeriod > 0 && scenePeriod > 0 && origin < U64_MAX - framePeriod
  }

  function Started(sceneCount: Size, origin: U64, framePeriod: U64, scenePeriod: U64, minChange: U64): Rt
    requires InitAccepts(sceneCount, origin, framePeriod, scenePeriod)
  {
    Rt(sceneCount, 0, 0, origin, framePeriod, scenePeriod, 0, minChange, 0, false,
       origin + framePeriod, 0, 0, framePeriod, false)
  }

  /** The scheduler object: each method updates the fields in place. */
  class CartRuntime {
    var sceneCount: Size
    var sceneIndex: Size
    var manualScene: Size
    var origin: U64
    var framePeriod: U64
    var scenePeriod: U64
    var holdUntil: U64
    var minChange: U64
    var lastChange: U64
    var hadChange: bool
    var nextDeadline: U64
    var frame: U64
    var dropped: U64
    var sleep: U64
    var holdActive: bool

    /** The fields as a value. */
    function Value(): Rt
      reads this
    {
      Rt(sceneCount, sceneIndex, manualScene, origin, framePeriod, scenePeriod, holdUntil, minChange,
         lastChange, hadChange, nextDeadline, frame, dropped, sleep, holdActive)
    }

    /** The fields init leaves zero. */
    method ClearProgress()
      modifies this`sceneIndex, this`manualScene, this`holdUntil, this`lastChange, this`hadChange, this`holdActive,
               this`frame, this`dropped
      ensures sceneIndex == 0 && manualScene == 0 && holdUntil == 0 && lastChange == 0 && !hadChange && !holdActive
      ensures frame == 0 && dropped == 0
    {
      sceneIndex := 0;
      manualScene := 0;
      holdUntil := 0;
      lastChange := 0;
      hadChange := false;
      holdActive := false;
      frame := 0;
      dropped := 0;
    }

    /** `cart_runtime_init`: refuses bad arguments without touching the object. */
    method Init(count: Size, originNs: U64, framePeriodNs: U64, scenePeriodNs: U64, minChangeNs: U64) returns (ok: bool)
      modifies this
      ensures ok == InitAccepts(count, originNs, framePeriodNs, scenePeriodNs)
      ensures ok ==> Value() == Started(count, originNs, framePeriodNs, scenePeriodNs, minChangeNs)
      ensures !ok ==> Value() == old(Value())
    {
      if count == 0 || framePeriodNs == 0 || scenePeriodNs == 0 || originNs >= U64_MAX - framePeriodNs {
        return false;
      }
      ClearProgress();
      sceneCount := count;
      origin := originNs;
      framePeriod := framePeriodNs;
      scenePeriod := scenePeriodNs;
      minChange := minChangeNs;
      nextDeadline := originNs + framePeriodNs;
      sleep := framePeriodNs;
      return true;
    }

    method ChangeIsAllowed(now: U64) returns (allowed: bool)
      ensures allowed == ChangeAllowed(Value(), now)
    {
      if minChange == 0 { return true; }
      if !hadChange { return true; }
      if now < lastChange { return false; }
      return now - lastChange >= minChange;
    }

    method RecordChange(now: U64)
      modifies this`lastChange, this`hadChange
      ensures lastChange == now && hadChange
    {
      lastChange := now;
      hadChange := true;
    }

    /** Scene selection, `cart_runtime_tick` lines 64-83. */
    method SelectScene(now: U64)
      requires Usable(Value()) && origin <= now
      modifies this`frame, this`holdActive, this`sceneIndex, this`lastChange, this`hadChange
      ensures Value() == TickScene(old(Value()), now)
    {
      var elapsed := now - origin;
      frame := Quot(elapsed, framePeriod);
      if holdActive && now >= holdUntil { holdActive := false; }
      if holdActive {
        sceneIndex := manualScene;
      } else {
        var automatic := Quot(elapsed, scenePeriod) % sceneCount;
        if automatic != sceneIndex {
          var allowed := ChangeIsAllowed(now);
          if allowed {
            RecordChange(now);
            sceneIndex := automatic;
          }
        }
      }
    }

    /** Deadline keeping, `cart_runtime_tick` lines 85-102. */
    method KeepDeadline(now: U64) returns (ok: bool)
      requires framePeriod > 0
      modifies this`sleep, this`nextDeadline, this`dropped
      ensures Value() == TickDeadline(old(Value()), now)
      ensures ok == !DeadlineOutcome(old(Value()), now).Refused?
    {
      if now < nextDeadline {
        sleep := nextDeadline - now;
        return true;
      }
      if now > U64_MAX - framePeriod { return false; }
      var late := now - nextDeadline;
      if late < framePeriod {
        if nextDeadline > U64_MAX - framePeriod { return false; }
        nextDeadline := nextDeadline + framePeriod;
      } else {
        dropped := (dropped + Quot(late, framePeriod)) % (U64_MAX + 1);
        nextDeadline := now + framePeriod;
      }
      sleep := nextDeadline - now;
      return true;
    }

    /** `cart_runtime_tick`. */
    method TickAt(nowNs: U64) returns (ok: bool)
      modifies this
      ensures Value() == Tick(old(Value()), nowNs)
      ensures ok == TickOk(old(Value()), nowNs)
    {
      if sceneCount == 0 || framePeriod == 0 || scenePeriod == 0 { return false; }
      var now := nowNs;
      if now < origin { now := origin; }
      SelectScene(now);
      ok := KeepDeadline(now);
    }

    /** `cart_runtime_request_next`. */
    method NextAt(now: U64, hold: U64)
      modifies this
      ensures Value() == RequestNext(old(Value()), now, hold)
    {
      if sceneCount == 0 { return; }
      var allowed := ChangeIsAllowed(now);
      if !allowed { return; }
      manualScene := (sceneIndex + 1) % SIZE_RANGE % sceneCount;
      if manualScene != sceneIndex { RecordChange(now); }
      sceneIndex := manualScene;
      if hold == 0 {
        holdActive := false;
        return;
      }
      holdUntil := AddSaturating(now, hold);
      holdActive := true;
    }

    /** `cart_runtime_request_previous`. */
    method PreviousAt(now: U64, hold: U64)
      modifies this
      ensures Value() == RequestPrevious(old(Value()), now, hold)
    {
      if sceneCount == 0 { return; }
      var allowed := ChangeIsAllowed(now);
      if !allowed { return; }
      manualScene := (sceneIndex + sceneCount - 1) % SIZE_RANGE % sceneCount;
      if manualScene != sceneIndex { RecordChange(now); }
      sceneIndex := manualScene;
      if hold == 0 {
        holdActive := false;
        return;
      }
      holdUntil := AddSaturating(now, hold);
      holdActive := true;
    }
  }

  // ------------------------------------------------------------------ runs

  /** Anything a caller can do to a scheduler, with any clock reading. */
  datatype Event = TickEvent(now: U64) | NextEvent(now: U64, hold: U64) | PreviousEvent(now: U64, hold: U64)

  function Step(r: Rt, e: Event): Rt {
    match e
    case TickEvent(now) => Tick(r, now)
    case NextEvent(now, hold) => RequestNext(r, now, hold)
    case PreviousEvent(now, hold) => RequestPrevious(r, now, hold)
  }

  function Run(r: Rt, events: seq<Event>): Rt {
    if events == [] then r else Step(Run(r, events[..|events| - 1]), events[|events| - 1])
  }

  /** The clock reading an event acts on: a tick before the origin counts as the origin. */
  function ActsAt(r: Rt, e: Event): U64 {
    if e.TickEvent? then Clamped(r, e.now) else e.now
  }

  /** When the events changed the scene: the readings they acted on, in order. */
  function ChangeTimes(r: Rt, events: seq<Event>): seq<U64> {
    if events == [] then []
    else
      var before := Run(r, events[..|events| - 1]);
      var e := events[|events| - 1];
      ChangeTimes(r, events[..|events| - 1]) +
      if Step(before, e).sceneIndex != before.sceneIndex then [ActsAt(before, e)] else []
  }

  /** While a hold is active the scene on show is the held one. */
  predicate HoldInv(r: Rt) {
    r.holdActive ==> r.sceneIndex == r.manualScene
  }

  /** `t` is a step from `r` at a reading: the record moves with the scene, only when allowed, and not otherwise. */
  predicate Recorded(r: Rt, at: U64, t: Rt) {
    && HoldInv(t) && t.minChange == r.minChange
    && (t.sceneIndex != r.sceneIndex ==> t.hadChange && t.lastChange == at && ChangeAllowed(r, at))
    && (t.sceneIndex == r.sceneIndex ==> t.hadChange == r.hadChange && t.lastChange == r.lastChange)
  }

  lemma TickRecords(r: Rt, now: U64)
    requires HoldInv(r) && Usable(r)
    ensures Recorded(r, Clamped(r, now), Tick(r, now))
  {
    var at := Clamped(r, now);
    assert Recorded(r, at, TickScene(r, at));
    DeadlineRecords(TickScene(r, at), at);
  }

  lemma DeadlineRecords(r: Rt, now: U64)
    requires r.framePeriod > 0
    ensures var t := TickDeadline(r, now);
            && t.sceneIndex == r.sceneIndex && t.manualScene == r.manualScene && t.holdActive == r.holdActive
            && t.minChange == r.minChange && t.hadChange == r.hadChange && t.lastChange == r.lastChange
  {
  }

  lemma RequestRecords(r: Rt, target: Size, now: U64, hold: U64)
    requires HoldInv(r)
    ensures Recorded(r, now, Request(r, target, now, hold))
  {
  }

  /** The guard's memory is exact: it changes with the scene and only then, and always allowed the change. */
  lemma StepRecords(r: Rt, e: Event)
    requires HoldInv(r)
    ensures HoldInv(Step(r, e)) && Step(r, e).minChange == r.minChange
    ensures Step(r, e).sceneIndex != r.sceneIndex ==>
              Step(r, e).hadChange && Step(r, e).lastChange == ActsAt(r, e) && ChangeAllowed(r, ActsAt(r, e))
    ensures Step(r, e).sceneIndex == r.sceneIndex ==>
              Step(r, e).hadChange == r.hadChange && Step(r, e).lastChange == r.lastChange
  {
    match e
    case TickEvent(now) =>
      if Usable(r) {
        TickRecords(r, now);
      }
    case NextEvent(now, hold) =>
      if r.sceneCount > 0 {
        RequestRecords(r, NextIndex(r.sceneIndex, r.sceneCount), now, hold);
      }
    case PreviousEvent(now, hold) =>
      if r.sceneCount > 0 {
        RequestRecords(r, PreviousIndex(r.sceneIndex, r.sceneCount), now, hold);
      }
  }

  predicate Spaced(times: seq<U64>, gap: int) {
    forall k | 0 < k < |times| :: times[k] - times[k - 1] >= gap
  }

  lemma {:induction false} SpacedSpan(times: seq<U64>, gap: int, i: nat, j: nat)
    requires Spaced(times, gap) && i <= j < |times|
    ensures times[j] - times[i] >= (j - i) * gap
  {
    if i < j {
      SpacedSpan(times, gap, i, j - 1);
      assert (j - i) * gap == (j - 1 - i) * gap + gap;
    }
  }

  /** What the scheduler remembers about the changes so far. */
  predicate Remembers(r: Rt, times: seq<U64>) {
    && HoldInv(r)
    && (r.hadChange <==> times != [])
    && (times != [] ==> r.lastChange == times[|times| - 1])
    && Spaced(times, r.minChange)
  }

  lemma StepRemembers(r: Rt, e: Event, times: seq<U64>)
    requires Remembers(r, times) && r.minChange > 0
    ensures Step(r, e).minChange == r.minChange
    ensures Remembers(Step(r, e), times + if Step(r, e).sceneIndex != r.sceneIndex then [ActsAt(r, e)] else [])
  {
    StepRecords(r, e);
  }

  lemma {:induction false} RunRemembers(r: Rt, events: seq<Event>)
    requires HoldInv(r) && !r.hadChange && r.minChange > 0
    ensures Remembers(Run(r, events), ChangeTimes(r, events)) && Run(r, events).minChange == r.minChange
  {
    if events != [] {
      RunRemembers(r, events[..|events| - 1]);
      StepRemembers(Run(r, events[..|events| - 1]), events[|events| - 1], ChangeTimes(r, events[..|events| - 1]));
    }
  }

  /**
   Whatever is pressed and whatever the clock reads, scene changes are at least
   `minChange` apart, so `k` of them span at least `(k - 1) * minChange`.
   */
  lemma ChangesSpaced(r: Rt, events: seq<Event>, i: nat, j: nat)
    requires HoldInv(r) && !r.hadChange && r.minChange > 0
    requires i <= j < |ChangeTimes(r, events)|
    ensures ChangeTimes(r, events)[j] - ChangeTimes(r, events)[i] >= (j - i) * r.minChange
  {
    RunRemembers(r, events);
    SpacedSpan(ChangeTimes(r, events), r.minChange, i, j);
  }

  /** With the shipped cooldown no second of clock time holds three scene changes. */
  lemma FlashLimit(sceneCount: Size, origin: U64, framePeriod: U64, scenePeriod: U64, events: seq<Event>, i: nat, j: nat)
    requires InitAccepts(sceneCount, origin, framePeriod, scenePeriod)
    requires i <= j < |ChangeTimes(Started(sceneCount, origin, framePeriod, scenePeriod, MIN_CHANGE_NS), events)|
    requires var times := ChangeTimes(Started(sceneCount, origin, framePeriod, scenePeriod, MIN_CHANGE_NS), events);
             times[j] - times[i] < SECOND_NS
    ensures j - i + 1 <= 2
  {
    ChangesSpaced(Started(sceneCount, origin, framePeriod, scenePeriod, MIN_CHANGE_NS), events, i, j);
  }

  // ----------------------------------------------------- requests and holds

  /** A request inside the cooldown does nothing. */
  lemma RequestRefused(r: Rt, now: U64, hold: U64)
    requires !ChangeAllowed(r, now)
    ensures RequestNext(r, now, hold) == r && RequestPrevious(r, now, hold) == r
  {
  }

  /** Requests leave the frame number and the settings alone. */
  lemma RequestsKeep(r: Rt, now: U64, hold: U64)
    ensures RequestNext(r, now, hold).frame == r.frame && SameSettings(r, RequestNext(r, now, hold))
    ensures RequestPrevious(r, now, hold).frame == r.frame && SameSettings(r, RequestPrevious(r, now, hold))
  {
  }

  /** How a request leaves the hold: none for a hold of zero, else until the reading plus the hold, or the clock's end. */
  predicate HeldFor(r: Rt, now: U64, hold: U64) {
    if hold == 0 then !r.holdActive
    else r.holdActive && r.holdUntil == (if now + hold <= U64_MAX then now + hold else U64_MAX) && r.manualScene == r.sceneIndex
  }

  /** Requests go one scene on or back, around the ends, and hold what they show; the sum must fit a size_t. */
  lemma RequestsGo(r: Rt, now: U64, hold: U64)
    requires r.sceneIndex < r.sceneCount && r.sceneIndex + r.sceneCount - 1 < SIZE_RANGE && ChangeAllowed(r, now)
    ensures RequestNext(r, now, hold).sceneIndex == if r.sceneIndex == r.sceneCount - 1 then 0 else r.sceneIndex + 1
    ensures RequestPrevious(r, now, hold).sceneIndex == if r.sceneIndex == 0 then r.sceneCount - 1 else r.sceneIndex - 1
    ensures HeldFor(RequestNext(r, now, hold), now, hold) && HeldFor(RequestPrevious(r, now, hold), now, hold)
  {
    NextIs(r.sceneIndex, r.sceneCount);
    PreviousIs(r.sceneIndex, r.sceneCount);
  }

  /** Scene periods are counted from the origin; `turn` of them are over. */
  predicate TurnAt(r: Rt, now: U64, turn: nat) {
    r.origin <= now && turn * r.scenePeriod <= now - r.origin < turn * r.scenePeriod + r.scenePeriod
  }

  /** The scene the clock alone asks for: the one whose turn it is. */
  ghost predicate ClocksScene(r: Rt, now: U64, scene: nat) {
    r.sceneCount > 0 && exists turn: nat :: TurnAt(r, now, turn) && scene == turn % r.sceneCount
  }

  /** A tick shows the held scene until the hold's end, and after it the clock's scene once the cooldown lets it. */
  lemma TickShows(r: Rt, now: U64)
    requires Usable(r) && r.origin <= now && HoldInv(r)
    ensures r.holdActive && now < r.holdUntil ==> Tick(r, now).holdActive && Tick(r, now).sceneIndex == r.sceneIndex
    ensures !(r.holdActive && now < r.holdUntil) ==>
              && !Tick(r, now).holdActive
              && (ChangeAllowed(r, now) ==> ClocksScene(r, now, Tick(r, now).sceneIndex))
              && (!ChangeAllowed(r, now) ==> Tick(r, now).sceneIndex == r.sceneIndex)
  {
    var turn := Quot(now - r.origin, r.scenePeriod);
    DivBounds(now - r.origin, r.scenePeriod);
    assert TurnAt(r, now, turn);
  }

  /** Ticks before a hold's end, however many, leave the held scene on show. */
  lemma {:induction false} HoldLasts(r: Rt, clocks: seq<U64>)
    requires Usable(r) && HoldInv(r) && r.holdActive
    requires forall i | 0 <= i < |clocks| :: r.origin <= clocks[i] < r.holdUntil
    ensures var t := TickAll(r, clocks);
            SameSettings(r, t) && t.holdActive && t.holdUntil == r.holdUntil && t.sceneIndex == r.sceneIndex && HoldInv(t)
  {
    if clocks != [] {
      var before, now := TickAll(r, clocks[..|clocks| - 1]), clocks[|clocks| - 1];
      HoldLasts(r, clocks[..|clocks| - 1]);
      TickShows(before, now);
      StepKeeps(before, TickEvent(now));
      StepRecords(before, TickEvent(now));
    }
  }

  // ------------------------------------------------------------- deadlines

  /** How many whole periods a reading is past the deadline. */
  predicate MissedBy(r: Rt, now: U64, missed: nat) {
    missed * r.framePeriod <= now - r.nextDeadline < missed * r.framePeriod + r.framePeriod
  }

  /**
   The deadline after a tick: kept while it is ahead, moved by a period when missed by less than
   one, and otherwise started afresh a period from now, every whole period of delay dropped.
   */
  lemma TickDeadlines(r: Rt, now: U64, missed: nat)
    requires Usable(r) && r.origin <= now && TickOk(r, now)
    ensures var t := Tick(r, now);
            && (now < r.nextDeadline ==> t.nextDeadline == r.nextDeadline && t.dropped == r.dropped)
            && (MissedBy(r, now, 0) ==> t.nextDeadline == r.nextDeadline + r.framePeriod && t.dropped == r.dropped)
            && (MissedBy(r, now, missed) && missed > 0 && r.dropped + missed <= U64_MAX ==>
                  t.nextDeadline == now + r.framePeriod && t.dropped == r.dropped + missed)
            && t.sleep == t.nextDeadline - now
  {
    if MissedBy(r, now, missed) && missed > 0 && r.dropped + missed <= U64_MAX {
      Resynced(r, now, missed);
    }
    Slept(TickScene(r, now), now);
  }

  lemma Slept(r: Rt, now: U64)
    requires r.framePeriod > 0 && !DeadlineOutcome(r, now).Refused?
    ensures TickDeadline(r, now).sleep == TickDeadline(r, now).nextDeadline - now
  {
  }

  lemma Resynced(r: Rt, now: U64, missed: nat)
    requires Usable(r) && r.origin <= now && TickOk(r, now)
    requires MissedBy(r, now, missed) && missed > 0 && r.dropped + missed <= U64_MAX
    ensures Tick(r, now).nextDeadline == now + r.framePeriod && Tick(r, now).dropped == r.dropped + missed
  {
    MulLe(1, missed, r.framePeriod);
    DivIs(now - r.nextDeadline, r.framePeriod, missed);
    assert (r.dropped + missed) % (U64_MAX + 1) == r.dropped + missed;
  }

  /** On-time deadline advances, and resynchronisations after a missed deadline, over a run. */
  function Count(r: Rt, events: seq<Event>, outcome: Outcome): nat {
    if events == [] then 0
    else
      var before := Run(r, events[..|events| - 1]);
      var e := events[|events| - 1];
      Count(r, events[..|events| - 1], outcome) + Tallied(before, e, outcome)
  }

  /** The latest clock reading a tick has acted on. */
  function LastTick(r: Rt, events: seq<Event>): U64 {
    if events == [] then r.origin
    else
      var e := events[|events| - 1];
      if e.TickEvent? then Clamped(r, e.now) else LastTick(r, events[..|events| - 1])
  }

  /** Tick readings never go back, and every tick so far succeeded. Requests may come at any time. */
  predicate SteadyClock(r: Rt, events: seq<Event>) {
    events == [] ||
    (var before := events[..|events| - 1];
     var e := events[|events| - 1];
     SteadyClock(r, before) && Steady(Run(r, before), LastTick(r, before), e))
  }

  /**
   The deadline is one period after `A + R + dropped` whole periods, plus less than
   a period for each of the `R` resyncs, and the last reading is in its period.
   */
  predicate Accounted(r: Rt, last: U64, advances: nat, resyncs: nat) {
    && Usable(r)
    && r.framePeriod * (1 + advances + resyncs + r.dropped) <= r.nextDeadline - r.origin
    && r.nextDeadline - r.origin <= r.framePeriod * (1 + advances + 2 * resyncs + r.dropped) - resyncs
    && r.nextDeadline - r.framePeriod <= last < r.nextDeadline
    && r.origin <= last
  }

  lemma AdvanceAccount(p: nat, periods: nat, upper: nat, resyncs: nat, span: int)
    requires p * periods <= span <= p * upper - resyncs
    ensures p * (periods + 1) <= span + p <= p * (upper + 1) - resyncs
  {
    assert p * (periods + 1) == p * periods + p;
    assert p * (upper + 1) == p * upper + p;
  }

  /** A resync adds the dropped periods, one more, and less than one period of slack. */
  lemma ResyncAccount(p: nat, periods: nat, upper: nat, resyncs: nat, span: int, late: nat)
    requires p > 0 && p * periods <= span <= p * upper - resyncs
    ensures p * (periods + 1 + Quot(late, p)) <= span + late + p <= p * (upper + 2 + Quot(late, p)) - (resyncs + 1)
  {
    var q := Quot(late, p);
    DivBounds(late, p);
    assert p * (periods + 1 + q) == p * periods + p + p * q;
    assert p * (upper + 2 + q) == p * upper + 2 * p + p * q;
  }

  /** Accounting is kept by the deadline part of a tick, and the dropped counter does not wrap. */
  lemma AccountDeadline(r: Rt, now: U64, last: U64, advances: nat, resyncs: nat)
    requires Accounted(r, last, advances, resyncs) && last <= now
    requires DeadlineOutcome(r, now) != Refused
    ensures Accounted(TickDeadline(r, now), now,
                      advances + if DeadlineOutcome(r, now) == Advance then 1 else 0,
                      resyncs + if DeadlineOutcome(r, now) == Resync then 1 else 0)
    ensures DeadlineOutcome(r, now) == Resync ==> r.dropped + Quot(now - r.nextDeadline, r.framePeriod) <= U64_MAX
  {
    var p := r.framePeriod;
    var periods := 1 + advances + resyncs + r.dropped;
    var upper := 1 + advances + 2 * resyncs + r.dropped;
    match DeadlineOutcome(r, now)
    case OnTime =>
    case Advance => AdvanceAccount(p, periods, upper, resyncs, r.nextDeadline - r.origin);
    case Resync =>
      var q := Quot(now - r.nextDeadline, p);
      ResyncAccount(p, periods, upper, resyncs, r.nextDeadline - r.origin, now - r.nextDeadline);
      MulLe(1, p, periods + 1 + q);
      assert (r.dropped + q) % (U64_MAX + 1) == r.dropped + q;
  }

  lemma AccountTick(r: Rt, now: U64, last: U64, advances: nat, resyncs: nat)
    requires Accounted(r, last, advances, resyncs) && last <= now
    requires DeadlineOutcome(r, now) != Refused
    ensures var t := TickDeadline(TickScene(r, now), now);
            && Accounted(t, now,
                         advances + if DeadlineOutcome(r, now) == Advance then 1 else 0,
                         resyncs + if DeadlineOutcome(r, now) == Resync then 1 else 0)
            && t.frame == Quot(now - r.origin, r.framePeriod)
            && t.sleep == t.nextDeadline - now
  {
    AccountDeadline(TickScene(r, now), now, last, advances, resyncs);
  }

  /** The settings fixed by init. */
  predicate SameSettings(r: Rt, t: Rt) {
    && t.origin == r.origin && t.framePeriod == r.framePeriod && t.scenePeriod == r.scenePeriod
    && t.sceneCount == r.sceneCount && t.minChange == r.minChange
  }

  lemma StepKeeps(r: Rt, e: Event)
    ensures SameSettings(r, Step(r, e))
  {
  }

  lemma {:induction false} RunKeeps(r: Rt, events: seq<Event>)
    ensures SameSettings(r, Run(r, events))
  {
    if events != [] {
      RunKeeps(r, events[..|events| - 1]);
      StepKeeps(Run(r, events[..|events| - 1]), events[|events| - 1]);
    }
  }

  predicate Steady(r: Rt, last: U64, e: Event) {
    e.TickEvent? ==> last <= Clamped(r, e.now) && TickOk(r, e.now)
  }

  function Tallied(r: Rt, e: Event, outcome: Outcome): nat {
    if e.TickEvent? && DeadlineOutcome(r, Clamped(r, e.now)) == outcome then 1 else 0
  }

  predicate FrameIs(r: Rt, last: U64) {
    r.framePeriod > 0 && r.origin <= last && r.frame == Quot(last - r.origin, r.framePeriod)
  }

  lemma StepAccounted(r: Rt, e: Event, last: U64, advances: nat, resyncs: nat)
    requires Accounted(r, last, advances, resyncs) && FrameIs(r, last) && Steady(r, last, e)
    ensures var last' := if e.TickEvent? then Clamped(r, e.now) else last;
            && Accounted(Step(r, e), last', advances + Tallied(r, e, Advance), resyncs + Tallied(r, e, Resync))
            && FrameIs(Step(r, e), last')
            && (e.TickEvent? ==> Step(r, e).sleep == Step(r, e).nextDeadline - last')
  {
    if e.TickEvent? {
      AccountTick(r, Clamped(r, e.now), last, advances, resyncs);
    }
  }

  lemma {:induction false} RunAccounted(r: Rt, events: seq<Event>)
    requires SteadyClock(r, events) && Accounted(r, r.origin, 0, 0) && r.frame == 0
    ensures Accounted(Run(r, events), LastTick(r, events), Count(r, events, Advance), Count(r, events, Resync))
    ensures FrameIs(Run(r, events), LastTick(r, events))
    ensures events != [] && events[|events| - 1].TickEvent? ==>
              Run(r, events).sleep == Run(r, events).nextDeadline - LastTick(r, events)
  {
    if events == [] {
      DivIs(0, r.framePeriod, 0);
    } else {
      var before, e := events[..|events| - 1], events[|events| - 1];
      RunAccounted(r, before);
      RunLast(r, events, Run(r, before));
      StepAccounted(Run(r, before), e, LastTick(r, before), Count(r, before, Advance), Count(r, before, Resync));
    }
  }

  /** The last event's share in the run and its tallies. */
  lemma RunLast(r: Rt, events: seq<Event>, mid: Rt)
    requires events != [] && mid == Run(r, events[..|events| - 1])
    ensures var before, e := events[..|events| - 1], events[|events| - 1];
            && Run(r, events) == Step(mid, e)
            && LastTick(r, events) == (if e.TickEvent? then Clamped(mid, e.now) else LastTick(r, before))
            && Count(r, events, Advance) == Count(r, before, Advance) + Tallied(mid, e, Advance)
            && Count(r, events, Resync) == Count(r, before, Resync) + Tallied(mid, e, Resync)
            && (SteadyClock(r, events) ==> SteadyClock(r, before) && Steady(mid, LastTick(r, before), e))
  {
    RunKeeps(r, events[..|events| - 1]);
  }

  lemma FrameBounds(r: Rt, last: U64, advances: nat, resyncs: nat)
    requires Accounted(r, last, advances, resyncs) && FrameIs(r, last)
    ensures advances + resyncs + r.dropped <= r.frame <= advances + 2 * resyncs + r.dropped
  {
    var p, low, high := r.framePeriod, advances + resyncs + r.dropped, advances + 2 * resyncs + r.dropped;
    assert p * (1 + low) == p * low + p;
    DivBetween(last - r.origin, p, low, high);
  }

  /**
   On a clock that never goes back, over any run of successful ticks and requests:
   the frame number is accounted for by advances, resyncs and dropped deadlines
   (so the dropped counter never wraps); after every tick the sleep is positive, at
   most a period, and ends at the deadline; and a tick can only be refused by the
   first overflow guard, never by the second.
   */
  lemma DeadlinesKept(sceneCount: Size, origin: U64, framePeriod: U64, scenePeriod: U64, minChange: U64, events: seq<Event>)
    requires InitAccepts(sceneCount, origin, framePeriod, scenePeriod)
    requires SteadyClock(Started(sceneCount, origin, framePeriod, scenePeriod, minChange), events)
    ensures var r := Started(sceneCount, origin, framePeriod, scenePeriod, minChange);
            var after := Run(r, events);
            var advances, resyncs := Count(r, events, Advance), Count(r, events, Resync);
            && advances + resyncs + after.dropped <= after.frame <= advances + 2 * resyncs + after.dropped
            && LastTick(r, events) < after.nextDeadline <= LastTick(r, events) + framePeriod
            && (events != [] && events[|events| - 1].TickEvent? ==>
                  0 < after.sleep <= framePeriod && LastTick(r, events) + after.sleep == after.nextDeadline)
            && forall now: U64 :: DeadlineOutcome(after, now) == Refused ==> now > U64_MAX - framePeriod
  {
    var r := Started(sceneCount, origin, framePeriod, scenePeriod, minChange);
    RunAccounted(r, events);
    RunKeeps(r, events);
    FrameBounds(Run(r, events), LastTick(r, events), Count(r, events, Advance), Count(r, events, Resync));
  }

  /** A tick refused at `now` leaves the deadline alone, and from then on so is every later one. */
  predicate Exhausted(r: Rt, now: U64) {
    Usable(r) && r.origin <= now && DeadlineOutcome(r, now).Refused?
  }

  lemma RefusedAgain(r: Rt, now: U64, e: Event)
    requires Exhausted(r, now) && (e.TickEvent? ==> now <= Clamped(r, e.now))
    ensures Exhausted(Step(r, e), now)
    ensures e.TickEvent? ==> !TickOk(r, e.now)
    ensures Step(r, e).nextDeadline == r.nextDeadline && Step(r, e).sleep == r.sleep && Step(r, e).dropped == r.dropped
  {
  }

  /**
   Once a tick has been refused, on a clock that does not go back behind it, no later tick
   succeeds and the deadline, the sleep and the dropped counter stand still: every successful
   tick of a run on a non-decreasing clock lies before the first refused one.
   */
  lemma {:induction false} RefusedForever(r: Rt, now: U64, events: seq<Event>, k: nat)
    requires Exhausted(r, now) && k < |events|
    requires forall j | 0 <= j < |events| && events[j].TickEvent? :: now <= Clamped(r, events[j].now)
    ensures Exhausted(Run(r, events[..k]), now)
    ensures events[k].TickEvent? ==> !TickOk(Run(r, events[..k]), events[k].now)
    ensures Run(r, events[..k]).nextDeadline == r.nextDeadline && Run(r, events[..k]).dropped == r.dropped
  {
    if k > 0 {
      RefusedForever(r, now, events, k - 1);
      RunKeeps(r, events[..k - 1]);
      assert events[..k][..k - 1] == events[..k - 1];
      RefusedAgain(Run(r, events[..k - 1]), now, events[k - 1]);
    }
    RunKeeps(r, events[..k]);
    RefusedAgain(Run(r, events[..k]), now, events[k]);
  }

  // ------------------------------------------------------ attract schedule

  /** A run of ticks alone, each at most `gap` after the one before (the first after the origin). */
  predicate RegularTicks(origin: U64, clocks: seq<U64>, gap: nat) {
    clocks == [] ||
    (var last := |clocks| - 1;
     RegularTicks(origin, clocks[..last], gap) &&
     Latest(origin, clocks[..last]) <= clocks[last] <= Latest(origin, clocks[..last]) + gap)
  }

  function Latest(origin: U64, clocks: seq<U64>): U64 {
    if clocks == [] then origin else clocks[|clocks| - 1]
  }

  function TickAll(r: Rt, clocks: seq<U64>): Rt {
    if clocks == [] then r else Tick(TickAll(r, clocks[..|clocks| - 1]), clocks[|clocks| - 1])
  }

  /** The scheduler shows the clock's scene, and last changed at most `gap` into the current scene slot. */
  predicate OnSchedule(r: Rt, now: U64, gap: nat) {
    && Usable(r) && r.origin <= now && !r.holdActive
    && r.sceneIndex == Automatic(r, now)
    && (r.hadChange ==> r.lastChange - r.origin <= r.scenePeriod * Quot(now - r.origin, r.scenePeriod) + gap)
  }

  /** Two readings at most `gap` apart: a later slot begins at most `gap` before the later reading. */
  lemma Slots(p: nat, early: nat, late: nat, gap: nat)
    requires p > 0 && early <= late <= early + gap
    ensures p * Quot(early, p) <= p * Quot(late, p) <= late
    ensures Quot(early, p) != Quot(late, p) ==> p * Quot(early, p) + p <= late <= p * Quot(late, p) + gap
  {
    DivBounds(early, p);
    DivBounds(late, p);
    DivMonotone(early, late, p);
    SlotsOf(p, Quot(early, p), Quot(late, p), early, late, gap);
  }

  lemma SlotsOf(p: nat, q: nat, q': nat, early: nat, late: nat, gap: nat)
    requires early <= late <= early + gap && p * q <= early < p * q + p && p * q' <= late && q <= q'
    ensures p * q <= p * q'
    ensures q != q' ==> p * q + p <= late <= p * q' + gap
  {
    MulLe(q, q', p);
    if q != q' {
      MulLe(q + 1, q', p);
      assert (q + 1) * p == p * q + p;
    }
  }

  lemma TickOnSchedule(r: Rt, last: U64, now: U64, gap: nat)
    requires OnSchedule(r, last, gap) && last <= now <= last + gap && r.scenePeriod >= r.minChange + gap
    ensures OnSchedule(TickScene(r, now), now, gap)
  {
    Slots(r.scenePeriod, last - r.origin, now - r.origin, gap);
  }

  /**
   With no manual requests, ticks at most `gap` apart and scenes that last at least
   the cooldown plus `gap`, the guard never bites: after every tick the scene is the
   stateless schedule's.
   */
  lemma {:induction false} AttractSchedule(r: Rt, clocks: seq<U64>, gap: nat)
    requires Usable(r) && r.sceneIndex == 0 && !r.hadChange && !r.holdActive
    requires RegularTicks(r.origin, clocks, gap) && r.scenePeriod >= r.minChange + gap
    ensures SameSettings(r, TickAll(r, clocks)) && OnSchedule(TickAll(r, clocks), Latest(r.origin, clocks), gap)
  {
    if clocks == [] {
      DivIs(0, r.scenePeriod, 0);
    } else {
      var last := |clocks| - 1;
      AttractSchedule(r, clocks[..last], gap);
      var before := TickAll(r, clocks[..last]);
      TickOnSchedule(before, Latest(r.origin, clocks[..last]), clocks[last], gap);
      StepKeeps(before, TickEvent(clocks[last]));
      DeadlineKeepsSchedule(TickScene(before, clocks[last]), clocks[last], gap);
    }
  }

  /** From init on: after any regular ticks the scene is the one whose turn the clock says it is. */
  lemma ScheduledTurn(t: Rt, now: U64, gap: nat, turn: nat)
    requires OnSchedule(t, now, gap) && TurnAt(t, now, turn)
    ensures t.sceneIndex == turn % t.sceneCount
  {
    DivIs(now - t.origin, t.scenePeriod, turn);
  }

  lemma {:induction false} AttractFromInit(sceneCount: Size, origin: U64, framePeriod: U64, scenePeriod: U64, minChange: U64, clocks: seq<U64>, gap: nat, turn: nat)
    requires InitAccepts(sceneCount, origin, framePeriod, scenePeriod)
    requires RegularTicks(origin, clocks, gap) && scenePeriod >= minChange + gap
    requires turn * scenePeriod <= Latest(origin, clocks) - origin < turn * scenePeriod + scenePeriod
    ensures TickAll(Started(sceneCount, origin, framePeriod, scenePeriod, minChange), clocks).sceneIndex == turn % sceneCount
  {
    var r := Started(sceneCount, origin, framePeriod, scenePeriod, minChange);
    AttractSchedule(r, clocks, gap);
    ScheduledTurn(TickAll(r, clocks), Latest(origin, clocks), gap, turn);
  }

  lemma DeadlineKeepsSchedule(r: Rt, now: U64, gap: nat)
    requires OnSchedule(r, now, gap)
    ensures OnSchedule(TickDeadline(r, now), now, gap)
  {
  }

  /**
   A previous request undoes a next request, and the other way round, exactly when the
   index sum it forms fits a size_t. Every scene count up to half the range always does.
   */
  lemma PreviousUndoesNext(index: Size, count: Size)
    requires index < count
    ensures PreviousIndex(NextIndex(index, count), count) == index <==> NextIndex(index, count) + count - 1 < SIZE_RANGE
    ensures NextIndex(PreviousIndex(index, count), count) == index <==> index + count - 1 < SIZE_RANGE
  {
    NextIs(index, count);
    PreviousIs(NextIndex(index, count), count);
    PreviousIs(index, count);
    NextIs(PreviousIndex(index, count), count);
  }

  lemma NextIs(index: Size, count: Size)
    requires index < count
    ensures NextIndex(index, count) == if index + 1 == count then 0 else index + 1
  {
    Wraps(index + 1, count);
  }

  /** The previous index; a sum that wraps misses it by the wrapped amount. */
  lemma PreviousIs(index: Size, count: Size)
    requires index < count
    ensures index + count - 1 < SIZE_RANGE ==> PreviousIndex(index, count) == if index == 0 then count - 1 else index - 1
    ensures index + count - 1 >= SIZE_RANGE ==> PreviousIndex(index, count) == index + count - 1 - SIZE_RANGE
  {
    if index + count - 1 < SIZE_RANGE {
      Wraps(index + count - 1, count);
    } else {
      assert (index + count - 1) % SIZE_RANGE == index + count - 1 - SIZE_RANGE;
      Wraps(index + count - 1 - SIZE_RANGE, count);
    }
  }

  lemma Wraps(sum: int, count: Size)
    requires 0 < count && 0 <= sum < 2 * count && sum < SIZE_RANGE
    ensures sum % SIZE_RANGE % count == if sum < count then sum else sum - count
  {
    ModIs(sum, count, if sum < count then 0 else 1);
  }
}
