/**
 The cart's main loop: tick, requests, fade begin / blend / advance, steady render.
 What a viewer sees is a sequence of frames; the loop is specified by which frame
 may follow which, over every run with any clock readings and button presses.
 */
module DisplayLoop {
  import opened Arith
  import opened Runtime
  import opened Words
  import opened Canvas
  import opened Transition

  const SIGNAL_HOLD: U64 := 3600 * 1_000_000_000
  const PRESS_HOLD: U64 := 8 * 1_000_000_000

  datatype Press = NoPress | PressNext | PressPrevious | PressQuit | OtherPress

  /** One iteration's outside world: two clock readings, the signal flag and the polled action. */
  datatype Input = Input(now: U64, signalled: bool, press: Press, later: U64)

  /** A shown frame: a scene at a frame number, or step `step` of a fade whose endpoints were sampled at `number`. */
  datatype Shown = Steady(scene: nat, number: nat) | Fading(from: nat, to: nat, step: nat, number: nat)

  /** The loop's variables; `sampled` is the frame number at which the fade endpoints were last rendered. */
  datatype Loop = Loop(rt: Rt, fade: Fade, displayed: nat, sampled: nat)

  datatype Outcome = Halted | Ran(loop: Loop, shown: Shown, again: bool)

  /** The scheduler after this iteration's requests. */
  function Requested(r: Rt, input: Input): Rt {
    var r1 := if input.signalled then RequestNext(r, input.now, SIGNAL_HOLD) else r;
    match input.press
    case PressNext => RequestNext(r1, input.now, PRESS_HOLD)
    case PressPrevious => RequestPrevious(r1, input.now, PRESS_HOLD)
    case _ => r1
  }

  function Scheduled(l: Loop, input: Input): Rt {
    Requested(Tick(l.rt, input.now), input)
  }

  /** The fade part of an iteration: start one if the scheduler moved and none is in flight. */
  function WithFade(l: Loop, r: Rt): Loop {
    if r.sceneIndex != l.displayed && !l.fade.active then
      l.(rt := r, fade := Rendered(Begun(l.displayed, r.sceneIndex)), sampled := r.frame)
    else l.(rt := r)
  }

  function Frame(l: Loop): Shown {
    if l.fade.active then Fading(l.fade.from, l.fade.to, l.fade.elapsed, l.sampled)
    else Steady(l.displayed, l.rt.frame)
  }

  function AfterShow(l: Loop): Loop {
    if !l.fade.active then l
    else
      var next := Advanced(l.fade);
      l.(fade := next, displayed := if next.active then l.displayed else l.fade.to)
  }

  /** One iteration of the loop. */
  function Iteration(l: Loop, input: Input): Outcome {
    if !TickOk(l.rt, input.now) then Halted
    else
      var ready := WithFade(l, Scheduled(l, input));
      var after := AfterShow(ready);
      Ran(after.(rt := Tick(after.rt, input.later)), Frame(ready),
          TickOk(after.rt, input.later) && !input.press.PressQuit?)
  }

  /** Every frame a run shows. */
  function Play(l: Loop, inputs: seq<Input>): seq<Shown>
    decreases |inputs|
  {
    if inputs == [] then []
    else
      match Iteration(l, inputs[0])
      case Halted => []
      case Ran(next, shown, again) => [shown] + if again then Play(next, inputs[1..]) else []
  }

  function Boot(r: Rt): Loop {
    Loop(r, Fade(0, 0, 0, false, false), r.sceneIndex, 0)
  }

  /** Which frame may follow which. */
  predicate Follows(f: Shown, g: Shown) {
    match f
    case Steady(a, _) => Opens(a, g)
    case Fading(a, b, k, n) => if k + 1 < FRAMES then g == Fading(a, b, k + 1, n) else Opens(b, g)
  }

  /** `g` shows scene `a` steadily, or is the first frame of a fade out of it. */
  predicate Opens(a: nat, g: Shown) {
    match g
    case Steady(s, _) => s == a
    case Fading(from, to, step, _) => from == a && to != a && step == 0
  }

  /** Between iterations a fade in flight has shown 1 to 14 of its frames, leaving the displayed scene. */
  predicate LoopInv(l: Loop) {
    l.fade.active ==>
      0 < l.fade.elapsed < FRAMES && l.fade.from == l.displayed && l.fade.to != l.displayed && l.fade.ready
  }

  /** `g` may be the next frame shown from `l`. */
  predicate Expects(l: Loop, g: Shown) {
    if l.fade.active then g == Fading(l.fade.from, l.fade.to, l.fade.elapsed, l.sampled) else Opens(l.displayed, g)
  }

  lemma IterationShows(l: Loop, input: Input)
    requires LoopInv(l) && Iteration(l, input).Ran?
    ensures var o := Iteration(l, input);
            && LoopInv(o.loop) && Expects(l, o.shown)
            && forall g :: Expects(o.loop, g) ==> Follows(o.shown, g)
  {
  }

  lemma {:induction false} PlayFollows(l: Loop, inputs: seq<Input>)
    requires LoopInv(l)
    ensures Play(l, inputs) != [] ==> Expects(l, Play(l, inputs)[0])
    ensures forall k | 0 < k < |Play(l, inputs)| :: Follows(Play(l, inputs)[k - 1], Play(l, inputs)[k])
    decreases |inputs|
  {
    if inputs != [] && Iteration(l, inputs[0]).Ran? {
      IterationShows(l, inputs[0]);
      PlayFollows(Iteration(l, inputs[0]).loop, inputs[1..]);
    }
  }

  /** Over every run there is never a hard cut, and a fade is never interrupted or resampled. */
  lemma NoHardCuts(r: Rt, inputs: seq<Input>, k: nat)
    requires 0 < k < |Play(Boot(r), inputs)|
    ensures Follows(Play(Boot(r), inputs)[k - 1], Play(Boot(r), inputs)[k])
    ensures Opens(r.sceneIndex, Play(Boot(r), inputs)[0])
  {
    PlayFollows(Boot(r), inputs);
  }

  /** A fade that starts at frame `i` shows all of its steps in order, for as long as the run lasts. */
  lemma {:induction false} FadeRunsThrough(l: Loop, inputs: seq<Input>, i: nat, d: nat)
    requires LoopInv(l)
    requires d < FRAMES && i + d < |Play(l, inputs)|
    requires Play(l, inputs)[i].Fading? && Play(l, inputs)[i].step == 0
    ensures Play(l, inputs)[i + d] == Play(l, inputs)[i].(step := d)
  {
    if d > 0 {
      FadeRunsThrough(l, inputs, i, d - 1);
      PlayFollows(l, inputs);
      assert Follows(Play(l, inputs)[i + d - 1], Play(l, inputs)[i + d]);
    }
  }

  /** Fade starts are at least 15 frames apart. */
  lemma FadeStartsApart(l: Loop, inputs: seq<Input>, i: nat, j: nat)
    requires LoopInv(l) && i < j < |Play(l, inputs)|
    requires Play(l, inputs)[i].Fading? && Play(l, inputs)[i].step == 0
    requires Play(l, inputs)[j].Fading? && Play(l, inputs)[j].step == 0
    ensures j - i >= FRAMES
  {
    if j - i < FRAMES {
      FadeRunsThrough(l, inputs, i, j - i);
    }
  }

  // ---------------------------------------------------------- frame numbers

  /** The frame number of a reading: the whole frame periods since the origin. */
  predicate NumberedAt(r: Rt, now: U64, number: nat) {
    var elapsed := if now < r.origin then 0 else now - r.origin;
    number * r.framePeriod <= elapsed < number * r.framePeriod + r.framePeriod
  }

  lemma {:induction false} IterationNumbered(l: Loop, input: Input)
    requires LoopInv(l) && Iteration(l, input).Ran?
    ensures var f := Iteration(l, input).shown;
            f.Steady? || f.step == 0 ==> NumberedAt(l.rt, input.now, f.number)
    ensures SameSettings(l.rt, Iteration(l, input).loop.rt)
  {
    TickNumbered(l.rt, input.now);
    RequestsKeepFrame(Tick(l.rt, input.now), input);
    StepKeeps(Scheduled(l, input), TickEvent(input.later));
    ShownNumber(l, Scheduled(l, input));
  }

  /** What is shown is numbered by the scheduler, unless a fade is already in flight. */
  lemma ShownNumber(l: Loop, r: Rt)
    requires LoopInv(l)
    ensures var f := Frame(WithFade(l, r)); f.Steady? || f.step == 0 ==> f.number == r.frame
  {
  }

  lemma TickNumbered(r: Rt, now: U64)
    requires Usable(r)
    ensures NumberedAt(r, now, Tick(r, now).frame) && SameSettings(r, Tick(r, now))
  {
    StepKeeps(r, TickEvent(now));
    TickFrame(r, now);
    QuotNumbers(Clamped(r, now) - r.origin, r.framePeriod);
  }

  lemma TickFrame(r: Rt, now: U64)
    requires Usable(r)
    ensures Tick(r, now).frame == Quot(Clamped(r, now) - r.origin, r.framePeriod)
  {
  }

  lemma QuotNumbers(elapsed: nat, period: nat)
    requires period > 0
    ensures Quot(elapsed, period) * period <= elapsed < Quot(elapsed, period) * period + period
  {
    DivBounds(elapsed, period);
  }

  lemma RequestsKeepFrame(r: Rt, input: Input)
    ensures Requested(r, input).frame == r.frame && SameSettings(r, Requested(r, input))
  {
    RequestsKeep(r, input.now, SIGNAL_HOLD);
    RequestsKeep(r, input.now, PRESS_HOLD);
    RequestsKeep(RequestNext(r, input.now, SIGNAL_HOLD), input.now, PRESS_HOLD);
  }

  /** Of every run: a steady frame, and the first of a fade, carries the frame number of its own iteration's first reading. */
  lemma {:induction false} ShownNumbers(l: Loop, inputs: seq<Input>, k: nat)
    requires LoopInv(l) && k < |Play(l, inputs)|
    ensures |Play(l, inputs)| <= |inputs|
    ensures var f := Play(l, inputs)[k];
            f.Steady? || f.step == 0 ==> NumberedAt(l.rt, inputs[k].now, f.number)
    decreases |inputs|
  {
    PlayLength(l, inputs);
    IterationNumbered(l, inputs[0]);
    IterationShows(l, inputs[0]);
    if k > 0 {
      ShownNumbers(Iteration(l, inputs[0]).loop, inputs[1..], k - 1);
    }
  }

  lemma {:induction false} PlayLength(l: Loop, inputs: seq<Input>)
    ensures |Play(l, inputs)| <= |inputs|
    decreases |inputs|
  {
    if inputs != [] && Iteration(l, inputs[0]).Ran? {
      PlayLength(Iteration(l, inputs[0]).loop, inputs[1..]);
    }
  }

  /** Every later frame of a fade carries the number of the reading at which the fade opened, as many iterations ago as it has steps. */
  lemma {:induction false} FadeNumbers(l: Loop, inputs: seq<Input>, k: nat)
    requires LoopInv(l) && !l.fade.active && k < |Play(l, inputs)| && Play(l, inputs)[k].Fading?
    ensures |Play(l, inputs)| <= |inputs|
    ensures var f := Play(l, inputs)[k];
            && f.step <= k && Play(l, inputs)[k - f.step] == f.(step := 0)
            && NumberedAt(l.rt, inputs[k - f.step].now, f.number)
    decreases k
  {
    ShownNumbers(l, inputs, k);
    if Play(l, inputs)[k].step > 0 {
      PlayFollows(l, inputs);
      assert k > 0;
      assert Follows(Play(l, inputs)[k - 1], Play(l, inputs)[k]);
      FadeNumbers(l, inputs, k - 1);
    }
  }

  // --------------------------------------------------------------- requests

  /** What a signal or a press does after the tick of its iteration, on a scheduler whose index sums fit. */
  lemma RequestsTaken(l: Loop, input: Input)
    requires var r := Tick(l.rt, input.now);
             r.sceneIndex < r.sceneCount && r.sceneIndex + r.sceneCount - 1 < SIZE_RANGE
    ensures var r, s, index, count := Tick(l.rt, input.now), Scheduled(l, input), Tick(l.rt, input.now).sceneIndex, l.rt.sceneCount;
            && (!ChangeAllowed(r, input.now) ==> s == r)
            && (!input.signalled && !input.press.PressNext? && !input.press.PressPrevious? ==> s == r)
            && (ChangeAllowed(r, input.now) && !input.signalled && input.press.PressNext? ==>
                  s.sceneIndex == (if index == count - 1 then 0 else index + 1) && HeldFor(s, input.now, 8_000_000_000))
            && (ChangeAllowed(r, input.now) && !input.signalled && input.press.PressPrevious? ==>
                  s.sceneIndex == (if index == 0 then count - 1 else index - 1) && HeldFor(s, input.now, 8_000_000_000))
            && (ChangeAllowed(r, input.now) && input.signalled && !input.press.PressNext? && !input.press.PressPrevious? ==>
                  s.sceneIndex == (if index == count - 1 then 0 else index + 1) && HeldFor(s, input.now, 3_600_000_000_000))
  {
    var r := Tick(l.rt, input.now);
    StepKeeps(l.rt, TickEvent(input.now));
    if ChangeAllowed(r, input.now) {
      RequestsGo(r, input.now, PRESS_HOLD);
      RequestsGo(r, input.now, SIGNAL_HOLD);
    } else {
      RequestRefused(r, input.now, PRESS_HOLD);
      RequestRefused(r, input.now, SIGNAL_HOLD);
    }
  }

  /** A quit is honoured: the iteration that takes it is the last to show a frame. */
  lemma {:induction false} QuitEnds(l: Loop, inputs: seq<Input>, k: nat)
    requires k < |inputs| && inputs[k].press.PressQuit?
    ensures |Play(l, inputs)| <= k + 1
    decreases k
  {
    if k > 0 && Iteration(l, inputs[0]).Ran? {
      QuitEnds(Iteration(l, inputs[0]).loop, inputs[1..], k - 1);
    }
  }

  // ----------------------------------------------------------- convergence

  /** The loop's state after the inputs, if it never stops. */
  function Continue(l: Loop, inputs: seq<Input>): Loop
    decreases |inputs|
  {
    if inputs == [] then l
    else
      match Iteration(l, inputs[0])
      case Halted => l
      case Ran(next, _, _) => Continue(next, inputs[1..])
  }

  /** Every iteration runs and finds the scheduler on scene `c` after its requests. */
  predicate StaysScheduled(l: Loop, inputs: seq<Input>, c: nat)
    decreases |inputs|
  {
    inputs == [] ||
    (Iteration(l, inputs[0]).Ran? && Scheduled(l, inputs[0]).sceneIndex == c &&
     StaysScheduled(Iteration(l, inputs[0]).loop, inputs[1..], c))
  }

  /** Iterations until scene `c` is on display: the rest of this fade, and another if it leads elsewhere. */
  function Distance(l: Loop, c: nat): nat {
    if l.fade.active then
      (if l.fade.elapsed < FRAMES then FRAMES - l.fade.elapsed else 0) + if l.fade.to == c then 0 else FRAMES
    else if l.displayed == c then 0
    else FRAMES
  }

  lemma IterationApproaches(l: Loop, input: Input, c: nat)
    requires LoopInv(l) && Iteration(l, input).Ran? && Scheduled(l, input).sceneIndex == c
    ensures Distance(l, c) > 0 ==> Distance(Iteration(l, input).loop, c) < Distance(l, c)
    ensures Distance(l, c) == 0 ==> Distance(Iteration(l, input).loop, c) == 0
  {
  }

  /** Once the scheduled scene stays put, it is on display with no fade within 29 iterations, and stays there. */
  lemma {:induction false} DisplayConverges(l: Loop, inputs: seq<Input>, c: nat)
    requires LoopInv(l) && StaysScheduled(l, inputs, c)
    ensures Distance(l, c) <= 2 * FRAMES - 1
    ensures |inputs| >= Distance(l, c) ==> Continue(l, inputs).displayed == c && !Continue(l, inputs).fade.active
    decreases |inputs|
  {
    if inputs != [] {
      IterationShows(l, inputs[0]);
      IterationApproaches(l, inputs[0], c);
      DisplayConverges(Iteration(l, inputs[0]).loop, inputs[1..], c);
    }
  }

  // -------------------------------------------------------------- pictures

  /** A scene renderer: scene and frame number to a picture of a fixed size. */
  type Renderer = (nat, nat) -> Image

  ghost predicate Sized(render: Renderer, count: nat) {
    forall scene, number :: |render(scene, number)| == count
  }

  /** What a shown frame looks like. */
  function Picture(render: Renderer, f: Shown): Image
    requires f.Fading? ==> |render(f.from, f.number)| == |render(f.to, f.number)|
  {
    match f
    case Steady(scene, number) => render(scene, number)
    case Fading(from, to, step, number) => BlendImage(render(from, number), render(to, number), step)
  }

  /** The picture a fade heads for next: its next step, or at the end the target scene as it was sampled. */
  function NextPicture(render: Renderer, f: Shown): Image
    requires f.Fading? && |render(f.from, f.number)| == |render(f.to, f.number)|
  {
    BlendImage(render(f.from, f.number), render(f.to, f.number), f.step + 1)
  }

  /** How far one channel of a scene moves by itself between two frame numbers. */
  function Drift(render: Renderer, scene: nat, before: nat, after: nat, i: nat, c: Channel): int
    requires i < |render(scene, before)| && i < |render(scene, after)|
  {
    Get(render(scene, after)[i], c) - Get(render(scene, before)[i], c)
  }

  /** A frame that opens on scene `a` shows that scene as it is at the frame's own number. */
  lemma OpensOn(render: Renderer, count: nat, a: nat, g: Shown)
    requires Sized(render, count) && Opens(a, g)
    ensures Picture(render, g) == render(a, g.number)
  {
  }

  /**
   Inside a fade the next frame shown is the fade's next picture, each channel within 26
   levels; the fade opens on the outgoing scene and heads for the incoming one, both as sampled.
   */
  lemma FadeFramesClose(render: Renderer, count: nat, f: Shown, g: Shown, i: nat, c: Channel)
    requires Sized(render, count) && i < count && f.Fading? && f.step < FRAMES && Follows(f, g)
    ensures -MAX_LEVELS <= Get(NextPicture(render, f)[i], c) - Get(Picture(render, f)[i], c) <= MAX_LEVELS
    ensures f.step + 1 < FRAMES ==> Picture(render, g) == NextPicture(render, f)
    ensures f.step + 1 == FRAMES ==> NextPicture(render, f) == render(f.to, f.number) && Opens(f.to, g)
    ensures f.step == 0 ==> Picture(render, f) == render(f.from, f.number)
  {
    FadeIsGradual(render(f.from, f.number), render(f.to, f.number), f.step, f.step + 1, i, c);
  }

  const SEAM_LEVELS: int := 3 // the weight still missing on a fade's last frame

  /**
   The exit of a fade: the frame after its last step differs from where the fade was heading by
   exactly the target scene's own drift since it was sampled, so the seam is that drift and at
   most three levels more.
   */
  lemma FadeExitIsDrift(render: Renderer, count: nat, f: Shown, g: Shown, i: nat, c: Channel)
    requires Sized(render, count) && i < count && f.Fading? && f.step + 1 == FRAMES && Follows(f, g)
    ensures var drift := Drift(render, f.to, f.number, g.number, i, c);
            && Get(Picture(render, g)[i], c) - Get(NextPicture(render, f)[i], c) == drift
            && drift - SEAM_LEVELS <= Get(Picture(render, g)[i], c) - Get(Picture(render, f)[i], c) <= drift + SEAM_LEVELS
  {
    OpensOn(render, count, f.to, g);
    var from, to := render(f.from, f.number), render(f.to, f.number);
    BlendChannel(from, to, f.step, i, c);
    BlendChannel(from, to, f.step + 1, i, c);
    BlendedMoves(Get(from[i], c), Get(to[i], c), Weight(f.step), Weight(f.step + 1));
  }

  /**
   Every step a viewer sees: within 26 levels inside a fade, within three of the target's own
   drift at its exit, and exactly the scene's own drift everywhere else, the entry of a fade included.
   */
  lemma EveryStepBounded(render: Renderer, count: nat, f: Shown, g: Shown, i: nat, c: Channel)
    requires Sized(render, count) && i < count && Follows(f, g) && (f.Fading? ==> f.step < FRAMES)
    ensures var step := Get(Picture(render, g)[i], c) - Get(Picture(render, f)[i], c);
            if f.Steady? then step == Drift(render, f.scene, f.number, g.number, i, c)
            else if f.step + 1 < FRAMES then -MAX_LEVELS <= step <= MAX_LEVELS
            else
              var drift := Drift(render, f.to, f.number, g.number, i, c);
              drift - SEAM_LEVELS <= step <= drift + SEAM_LEVELS
  {
    if f.Steady? {
      OpensOn(render, count, f.scene, g);
    } else {
      FadeFramesClose(render, count, f, g, i, c);
      if f.step + 1 == FRAMES {
        FadeExitIsDrift(render, count, f, g, i, c);
      }
    }
  }

  // ------------------------------------------- the scheduler during a fade

  /** At an iteration's first reading some input moves the scheduler exactly when the cooldown since its last change is over. */
  lemma SchedulerCanMove(l: Loop, now: U64, later: U64)
    requires HoldInv(l.rt) && Usable(l.rt) && l.rt.sceneIndex < l.rt.sceneCount && l.rt.sceneCount >= 2 && l.rt.origin <= now
    ensures (exists signalled, press :: Scheduled(l, Input(now, signalled, press, later)).sceneIndex != l.rt.sceneIndex)
       <==> ChangeAllowed(l.rt, now)
  {
    var ticked := Tick(l.rt, now);
    StepRecords(l.rt, TickEvent(now));
    if ChangeAllowed(l.rt, now) {
      if ticked.sceneIndex != l.rt.sceneIndex {
        assert Scheduled(l, Input(now, false, NoPress, later)).sceneIndex != l.rt.sceneIndex;
      } else {
        NextIs(ticked.sceneIndex, ticked.sceneCount);
        assert Scheduled(l, Input(now, false, PressNext, later)).sceneIndex != l.rt.sceneIndex;
      }
    } else {
      forall signalled, press
        ensures Scheduled(l, Input(now, signalled, press, later)).sceneIndex == l.rt.sceneIndex
      {
      }
    }
  }

  /** The two clock readings of an iteration. */
  datatype Reading = Reading(now: U64, later: U64)

  /** Readings that never go back, from `start` on. */
  predicate InOrder(start: U64, readings: seq<Reading>)
    decreases |readings|
  {
    readings == [] || (start <= readings[0].now <= readings[0].later && InOrder(readings[0].later, readings[1..]))
  }

  predicate ReadAt(inputs: seq<Input>, readings: seq<Reading>) {
    |inputs| == |readings| && forall i | 0 <= i < |inputs| :: inputs[i].now == readings[i].now && inputs[i].later == readings[i].later
  }

  /** Iterations at these readings without a signal or a press. */
  function Quietly(readings: seq<Reading>): (r: seq<Input>)
    ensures ReadAt(r, readings)
  {
    seq(|readings|, i requires 0 <= i < |readings| => QuietInput(readings[i]))
  }

  /** All the iterations run: none is halted, and none but the last ends the loop. */
  predicate Lasts(l: Loop, inputs: seq<Input>)
    decreases |inputs|
  {
    inputs == [] ||
    (var o := Iteration(l, inputs[0]);
     o.Ran? && (|inputs| == 1 || (o.again && Lasts(o.loop, inputs[1..]))))
  }

  /**
   Some iteration finds the scheduler off `scene` when it looks whether to fade, or its second
   tick takes it off while another iteration is to come.
   */
  predicate Moves(l: Loop, inputs: seq<Input>, scene: nat)
    decreases |inputs|
  {
    inputs != [] &&
    var o := Iteration(l, inputs[0]);
    o.Ran? &&
    (Scheduled(l, inputs[0]).sceneIndex != scene ||
     (|inputs| > 1 && o.again && (o.loop.rt.sceneIndex != scene || Moves(o.loop, inputs[1..], scene))))
  }

  predicate Schedulable(r: Rt) {
    HoldInv(r) && Usable(r) && r.sceneIndex < r.sceneCount && r.sceneCount >= 2
  }

  /** Same scene, same record of the last change, same settings. */
  predicate Unmoved(r: Rt, t: Rt) {
    && SameSettings(r, t) && HoldInv(t)
    && t.sceneIndex == r.sceneIndex && t.hadChange == r.hadChange && t.lastChange == r.lastChange
  }

  lemma TickUnmoved(r: Rt, now: U64)
    requires HoldInv(r) && Usable(r) && r.origin <= now
    ensures Tick(r, now).sceneIndex == r.sceneIndex ==> Unmoved(r, Tick(r, now))
    ensures !ChangeAllowed(r, now) ==> Tick(r, now).sceneIndex == r.sceneIndex
  {
    StepRecords(r, TickEvent(now));
    StepKeeps(r, TickEvent(now));
  }

  lemma CoolingUnmoved(l: Loop, input: Input)
    requires Schedulable(l.rt) && l.rt.origin <= input.now && !ChangeAllowed(l.rt, input.now)
    ensures Unmoved(l.rt, Scheduled(l, input))
  {
    TickUnmoved(l.rt, input.now);
  }

  lemma {:induction false} InOrderLast(start: U64, readings: seq<Reading>)
    requires InOrder(start, readings) && readings != []
    ensures start <= readings[|readings| - 1].now
    ensures |readings| > 1 ==> readings[0].later <= readings[|readings| - 1].now
    decreases |readings|
  {
    if |readings| > 1 {
      InOrderLast(readings[0].later, readings[1..]);
    }
  }

  /** Within the cooldown nothing moves the scheduler. */
  lemma {:induction false} CoolingHolds(l: Loop, inputs: seq<Input>, readings: seq<Reading>)
    requires Schedulable(l.rt) && readings != [] && InOrder(l.rt.origin, readings) && ReadAt(inputs, readings)
    requires !ChangeAllowed(l.rt, readings[|readings| - 1].now)
    ensures !Moves(l, inputs, l.rt.sceneIndex)
    decreases |readings|
  {
    InOrderLast(l.rt.origin, readings);
    CoolingUnmoved(l, inputs[0]);
    var o := Iteration(l, inputs[0]);
    if |readings| > 1 && o.Ran? {
      TickUnmoved(Scheduled(l, inputs[0]), inputs[0].later);
      InOrderFrom(l.rt.origin, readings[0].later, readings[1..]);
      CoolingHolds(o.loop, inputs[1..], readings[1..]);
    }
  }

  lemma {:induction false} InOrderFrom(early: U64, start: U64, readings: seq<Reading>)
    requires early <= start && InOrder(start, readings)
    ensures InOrder(early, readings)
  {
  }

  function QuietInput(reading: Reading): Input {
    Input(reading.now, false, NoPress, reading.later)
  }

  /** A quiet iteration at these readings that runs on to the next loop state. */
  predicate QuietNext(l: Loop, reading: Reading, next: Loop) {
    var o := Iteration(l, QuietInput(reading));
    o.Ran? && o.again && o.loop == next
  }

  lemma {:induction false} LastsOn(l: Loop, readings: seq<Reading>) returns (next: Loop)
    requires |readings| > 1 && Lasts(l, Quietly(readings))
    ensures QuietNext(l, readings[0], next) && Lasts(next, Quietly(readings[1..]))
  {
    assert Quietly(readings)[1..] == Quietly(readings[1..]);
    next := Iteration(l, Quietly(readings)[0]).loop;
  }

  /** A quiet iteration moves the scheduler, or hands its record on. */
  lemma {:induction false} QuietStep(l: Loop, reading: Reading, next: Loop)
    requires Schedulable(l.rt) && l.rt.origin <= reading.now <= reading.later && QuietNext(l, reading, next)
    ensures Quietened(l, reading, next) ==> Unmoved(l.rt, next.rt)
  {
    var r := Tick(l.rt, reading.now);
    TickUnmoved(l.rt, reading.now);
    if r.sceneIndex == l.rt.sceneIndex {
      TickUnmoved(r, reading.later);
    }
  }

  lemma {:induction false} OneMoves(l: Loop, readings: seq<Reading>) returns (inputs: seq<Input>)
    requires Schedulable(l.rt) && |readings| == 1 && InOrder(l.rt.origin, readings) && Lasts(l, Quietly(readings))
    requires ChangeAllowed(l.rt, readings[0].now)
    ensures ReadAt(inputs, readings) && Moves(l, inputs, l.rt.sceneIndex)
  {
    var now, later := readings[0].now, readings[0].later;
    SchedulerCanMove(l, now, later);
    var signalled, press :| Scheduled(l, Input(now, signalled, press, later)).sceneIndex != l.rt.sceneIndex;
    inputs := [Input(now, signalled, press, later)];
  }

  /** Once the cooldown is over at the last first reading, some input has moved it by then. */
  lemma {:induction false} CooledMoves(l: Loop, readings: seq<Reading>) returns (inputs: seq<Input>)
    requires Schedulable(l.rt) && readings != [] && InOrder(l.rt.origin, readings) && Lasts(l, Quietly(readings))
    requires ChangeAllowed(l.rt, readings[|readings| - 1].now)
    ensures ReadAt(inputs, readings) && Moves(l, inputs, l.rt.sceneIndex)
    decreases |readings|, 1
  {
    if |readings| == 1 {
      inputs := OneMoves(l, readings);
    } else {
      var next := LastsOn(l, readings);
      var rest := CooledRest(l, readings, next);
      inputs := AddQuiet(l, readings, next, rest);
    }
  }

  /** Inputs for the iterations after a quiet first one: moving, if that one did not. */
  lemma {:induction false} CooledRest(l: Loop, readings: seq<Reading>, next: Loop) returns (rest: seq<Input>)
    requires Schedulable(l.rt) && |readings| > 1 && InOrder(l.rt.origin, readings) && ChangeAllowed(l.rt, readings[|readings| - 1].now)
    requires QuietNext(l, readings[0], next) && Lasts(next, Quietly(readings[1..]))
    ensures ReadAt(rest, readings[1..]) && (Quietened(l, readings[0], next) ==> Moves(next, rest, l.rt.sceneIndex))
    decreases |readings|, 0
  {
    rest := Quietly(readings[1..]);
    if Quietened(l, readings[0], next) {
      HandsOn(l, readings, next);
      rest := CooledMoves(next, readings[1..]);
    }
  }

  lemma {:induction false} AddQuiet(l: Loop, readings: seq<Reading>, next: Loop, rest: seq<Input>) returns (inputs: seq<Input>)
    requires |readings| > 1 && QuietNext(l, readings[0], next) && ReadAt(rest, readings[1..])
    requires Quietened(l, readings[0], next) ==> Moves(next, rest, l.rt.sceneIndex)
    ensures ReadAt(inputs, readings) && Moves(l, inputs, l.rt.sceneIndex)
  {
    ReadAtFirst(QuietInput(readings[0]), rest, readings);
    MovesLater(l, readings[0], next, rest, l.rt.sceneIndex);
    inputs := [QuietInput(readings[0])] + rest;
  }

  /** The quiet iteration at a reading left the scheduler where it was. */
  predicate Quietened(l: Loop, reading: Reading, next: Loop) {
    Scheduled(l, QuietInput(reading)).sceneIndex == l.rt.sceneIndex == next.rt.sceneIndex
  }

  lemma {:induction false} HandsOn(l: Loop, readings: seq<Reading>, next: Loop)
    requires Schedulable(l.rt) && |readings| > 1 && InOrder(l.rt.origin, readings)
    requires QuietNext(l, readings[0], next) && Quietened(l, readings[0], next)
    ensures Schedulable(next.rt) && next.rt.sceneIndex == l.rt.sceneIndex && InOrder(next.rt.origin, readings[1..])
    ensures ChangeAllowed(l.rt, readings[|readings| - 1].now) ==> ChangeAllowed(next.rt, readings[1..][|readings| - 2].now)
  {
    QuietStep(l, readings[0], next);
    InOrderFrom(l.rt.origin, readings[0].later, readings[1..]);
  }

  lemma ReadAtFirst(input: Input, rest: seq<Input>, readings: seq<Reading>)
    requires readings != [] && input.now == readings[0].now && input.later == readings[0].later && ReadAt(rest, readings[1..])
    ensures ReadAt([input] + rest, readings)
  {
    forall i | 0 < i < |readings|
      ensures rest[i - 1].now == readings[i].now && rest[i - 1].later == readings[i].later
    {
      assert readings[1..][i - 1] == readings[i];
    }
  }

  /** Moving in the first of several iterations, or after it, is moving. */
  lemma {:induction false} MovesLater(l: Loop, reading: Reading, next: Loop, rest: seq<Input>, scene: nat)
    requires rest != [] && QuietNext(l, reading, next)
    requires Scheduled(l, QuietInput(reading)).sceneIndex != scene || next.rt.sceneIndex != scene || Moves(next, rest, scene)
    ensures Moves(l, [QuietInput(reading)] + rest, scene)
  {
    assert ([QuietInput(reading)] + rest)[1..] == rest;
  }

  lemma {:induction false} QuietRuns(l: Loop, reading: Reading) returns (next: Loop)
    requires Usable(l.rt) && l.rt.origin <= U64_MAX - l.rt.framePeriod
    requires reading.now <= U64_MAX - l.rt.framePeriod && reading.later <= U64_MAX - l.rt.framePeriod
    ensures QuietNext(l, reading, next) && SameSettings(l.rt, next.rt)
  {
    var quiet := QuietInput(reading);
    StepKeeps(l.rt, TickEvent(quiet.now));
    StepKeeps(Scheduled(l, quiet), TickEvent(quiet.later));
    next := Iteration(l, quiet).loop;
  }

  /** Quiet iterations run as long as the clock is a frame period short of its 64-bit end. */
  lemma {:induction false} QuietLasts(l: Loop, readings: seq<Reading>)
    requires Usable(l.rt) && l.rt.origin <= U64_MAX - l.rt.framePeriod
    requires forall i | 0 <= i < |readings| ::
               readings[i].now <= U64_MAX - l.rt.framePeriod && readings[i].later <= U64_MAX - l.rt.framePeriod
    ensures Lasts(l, Quietly(readings))
    decreases |readings|
  {
    if readings != [] {
      var next := QuietRuns(l, readings[0]);
      assert Quietly(readings)[1..] == Quietly(readings[1..]);
      QuietLasts(next, readings[1..]);
    }
  }

  /**
   On readings that never go back, some input moves the scheduler while the given iterations
   last exactly when the cooldown since its last change is over at the last one's first reading.
   */
  lemma {:induction false} MovesExactly(l: Loop, readings: seq<Reading>)
    requires Schedulable(l.rt) && readings != [] && InOrder(l.rt.origin, readings) && Lasts(l, Quietly(readings))
    ensures (exists inputs :: ReadAt(inputs, readings) && Moves(l, inputs, l.rt.sceneIndex))
       <==> ChangeAllowed(l.rt, readings[|readings| - 1].now)
  {
    if ChangeAllowed(l.rt, readings[|readings| - 1].now) {
      var inputs := CooledMoves(l, readings);
    } else {
      forall inputs | ReadAt(inputs, readings)
        ensures !Moves(l, inputs, l.rt.sceneIndex)
      {
        CoolingHolds(l, inputs, readings);
      }
    }
  }

  /** A fade in flight is in flight for as many iterations as it has steps left, and then over. */
  lemma {:induction false} FadeLasts(l: Loop, inputs: seq<Input>)
    requires LoopInv(l) && l.fade.active && Lasts(l, inputs) && |inputs| <= FRAMES - l.fade.elapsed
    ensures var fade := Continue(l, inputs).fade;
            fade.to == l.fade.to && fade.elapsed == l.fade.elapsed + |inputs| && (fade.active <==> fade.elapsed < FRAMES)
    decreases |inputs|
  {
    if inputs != [] {
      IterationShows(l, inputs[0]);
      if |inputs| > 1 {
        FadeLasts(Iteration(l, inputs[0]).loop, inputs[1..]);
      } else {
        assert Continue(Iteration(l, inputs[0]).loop, inputs[1..]) == Iteration(l, inputs[0]).loop;
      }
    }
  }

  /** The scheduler leaves the target of a fade begun in the iteration of `first` before the fade's last look at it. */
  predicate Crossed(l: Loop, first: Input, inputs: seq<Input>) {
    var target, o := Scheduled(l, first).sceneIndex, Iteration(l, first);
    o.Ran? && o.again && (o.loop.rt.sceneIndex != target || Moves(o.loop, inputs, target))
  }

  /**
   When another change can arrive before a fade completes. A fade begins in the iteration of
   `first` and is in flight for the fourteen iterations after it; some input moves the
   scheduler off its target by then exactly when the fifteenth iteration is first read with the
   cooldown since the scheduler's last change over.
   */
  lemma {:induction false} CrossedExactly(l: Loop, first: Input, readings: seq<Reading>)
    requires Schedulable(Scheduled(l, first)) && !l.fade.active && Scheduled(l, first).sceneIndex != l.displayed
    requires Iteration(l, first).Ran? && Iteration(l, first).again && Lasts(Iteration(l, first).loop, Quietly(readings))
    requires |readings| == FRAMES - 1 && Scheduled(l, first).origin <= first.later && InOrder(first.later, readings)
    ensures var fade := Iteration(l, first).loop.fade;
            fade.active && fade.elapsed == 1 && fade.to == Scheduled(l, first).sceneIndex
    ensures (exists inputs :: ReadAt(inputs, readings) && Crossed(l, first, inputs))
       <==> ChangeAllowed(Scheduled(l, first), readings[FRAMES - 2].now)
  {
    var r, o := Scheduled(l, first), Iteration(l, first);
    TickUnmoved(r, first.later);
    InOrderLast(first.later, readings);
    InOrderFrom(r.origin, first.later, readings);
    if o.loop.rt.sceneIndex != r.sceneIndex {
      assert Crossed(l, first, Quietly(readings));
    } else {
      MovesExactly(o.loop, readings);
      forall inputs
        ensures Crossed(l, first, inputs) <==> Moves(o.loop, inputs, o.loop.rt.sceneIndex)
      {
      }
    }
  }

  /** A tick that finds its scene already on show, by hold or by clock, and its deadlines in range. */
  predicate Quiet(r: Rt, now: U64) {
    && Usable(r) && r.origin <= now <= U64_MAX - r.framePeriod && r.nextDeadline <= U64_MAX - r.framePeriod
    && if r.holdActive && now < r.holdUntil then r.manualScene == r.sceneIndex else Automatic(r, now) == r.sceneIndex
  }

  lemma QuietTick(r: Rt, now: U64)
    requires Quiet(r, now)
    ensures var t := Tick(r, now);
            && TickOk(r, now) && SameSettings(r, t)
            && t.sceneIndex == r.sceneIndex && t.lastChange == r.lastChange && t.hadChange == r.hadChange
            && t.manualScene == r.manualScene && t.holdUntil == r.holdUntil && t.holdActive == (r.holdActive && now < r.holdUntil)
            && t.nextDeadline <= if now < r.nextDeadline then r.nextDeadline else now + r.framePeriod
  {
  }

  const SLOW_START: Rt := Started(6, 0, 33_333_333, 8_000_000_000, MIN_CHANGE_NS)
  const FIRST: Input := Input(1_000_000_000, false, PressNext, 1_000_000_000)
  const SECOND: Input := Input(1_600_000_000, false, PressNext, 1_600_000_000)

  lemma FirstPress(l: Loop)
    requires l == Boot(l.rt) && SameSettings(SLOW_START, l.rt) && l.rt.sceneIndex == 0 && l.rt.nextDeadline <= 2_000_000_000
    requires !l.rt.holdActive && !l.rt.hadChange
    ensures var o := Iteration(l, FIRST);
            && o.Ran? && o.loop.fade == Fade(0, 1, 1, true, true) && SameSettings(SLOW_START, o.loop.rt)
            && o.loop.rt.sceneIndex == 1 && o.loop.rt.manualScene == 1 && o.loop.rt.holdActive && o.loop.rt.holdUntil == 9_000_000_000
            && o.loop.rt.hadChange && o.loop.rt.lastChange == 1_000_000_000 && o.loop.rt.nextDeadline <= 2_000_000_000
  {
    assert Automatic(l.rt, FIRST.now) == 0;
    QuietTick(l.rt, FIRST.now);
    NextIs(0, 6);
    QuietTick(Scheduled(l, FIRST), FIRST.later);
  }

  /** Two presses six tenths of a second apart, on a loop that slow, move the scheduler under a fade in flight. */
  lemma SlowFramesMoveMidFade()
    ensures var l := Continue(Boot(SLOW_START), [FIRST, SECOND]);
            l.fade.active && l.fade.elapsed == 2 && l.fade.to == 1 && l.rt.sceneIndex == 2
  {
    var start := Boot(SLOW_START);
    FirstPress(start);
    SecondPress(Iteration(start, FIRST).loop);
    ContinueTwice(start, FIRST, SECOND);
  }

  lemma ContinueTwice(l: Loop, a: Input, b: Input)
    requires Iteration(l, a).Ran? && Iteration(Iteration(l, a).loop, b).Ran?
    ensures Continue(l, [a, b]) == Iteration(Iteration(l, a).loop, b).loop
  {
    assert [a, b][1..] == [b] && [b][1..] == [];
    var next := Iteration(l, a).loop;
    assert Continue(next, [b]) == Continue(Iteration(next, b).loop, []);
  }

  lemma SecondPress(l: Loop)
    requires l.fade == Fade(0, 1, 1, true, true) && SameSettings(SLOW_START, l.rt)
    requires l.rt.sceneIndex == 1 && l.rt.manualScene == 1 && l.rt.holdActive && l.rt.holdUntil == 9_000_000_000
    requires l.rt.hadChange && l.rt.lastChange == 1_000_000_000 && l.rt.nextDeadline <= 2_000_000_000
    ensures var o := Iteration(l, SECOND);
            o.Ran? && o.loop.rt.sceneIndex == 2 && o.loop.fade == Fade(0, 1, 2, true, true)
  {
    QuietTick(l.rt, SECOND.now);
    NextIs(1, 6);
    QuietTick(Scheduled(l, SECOND), SECOND.later);
  }

  // ------------------------------------------------------------- the loop

  /** The loop's objects and buffers. `canvas` is the buffer the renderers currently draw into. */
  class CartDisplay {
    const render: Renderer
    const runtime: CartRuntime
    const transition: CartTransition
    const low: array<Pixel>
    const lowFrom: array<Pixel>
    const lowTo: array<Pixel>
    var canvas: array<Pixel>
    var displayedScene: nat
    ghost var sampled: nat

    /** The loop's start, lines 223-224: the scheduler's scene on display and no fade. */
    constructor (render: Renderer, runtime: CartRuntime, count: nat)
      requires Sized(render, count)
      ensures Valid() && Cached() && this.render == render && this.runtime == runtime && low.Length == count
      ensures fresh(transition) && fresh(low) && fresh(lowFrom) && fresh(lowTo)
      ensures Value() == Boot(runtime.Value())
    {
      this.render := render;
      this.runtime := runtime;
      transition := new CartTransition();
      var frame := new Pixel[count](_ => 0);
      low := frame;
      canvas := frame;
      lowFrom := new Pixel[count](_ => 0);
      lowTo := new Pixel[count](_ => 0);
      displayedScene := runtime.sceneIndex;
      sampled := 0;
    }

    ghost predicate Valid()
      reads this
    {
      && low != lowFrom && low != lowTo && lowFrom != lowTo
      && low.Length == lowFrom.Length == lowTo.Length
      && Sized(render, low.Length)
      && canvas == low
    }

    ghost function Value(): Loop
      reads this, runtime, transition
    {
      Loop(runtime.Value(), transition.Value(), displayedScene, sampled)
    }

    /** The cached endpoints of a fade in flight are the two scenes at the sampled frame. */
    ghost predicate Cached()
      reads this, transition, lowFrom, lowTo
    {
      transition.active ==>
        lowFrom[..] == render(transition.fromScene, sampled) && lowTo[..] == render(transition.toScene, sampled)
    }

    /** Draw a whole scene into the current canvas. */
    method RenderFrame(scene: nat, number: nat)
      requires |render(scene, number)| == canvas.Length
      modifies canvas
      ensures canvas[..] == render(scene, number)
    {
      var picture := render(scene, number);
      for i := 0 to canvas.Length
        invariant forall k | 0 <= k < i :: canvas[k] == picture[k]
      {
        canvas[i] := picture[i];
      }
    }

    /** `render_scene_into`: draw into another buffer by redirecting the canvas for the call. */
    method RenderSceneInto(destination: array<Pixel>, scene: nat, number: nat)
      requires |render(scene, number)| == destination.Length
      modifies this`canvas, destination
      ensures destination[..] == render(scene, number) && canvas == old(canvas)
    {
      var saved := canvas;
      canvas := destination;
      RenderFrame(scene, number);
      canvas := saved;
    }

    /** Lines 264-275: start a fade when the scheduler has moved and none is in flight. */
    method BeginFade()
      requires Valid() && Cached()
      modifies this, transition, lowFrom, lowTo
      ensures Valid() && Cached() && Value() == WithFade(old(Value()), runtime.Value())
    {
      if runtime.sceneIndex != displayedScene && !transition.active {
        transition.Begin(displayedScene, runtime.sceneIndex);
        if NeedsSources(transition.Value()) {
          RenderSceneInto(lowFrom, transition.fromScene, runtime.frame);
          RenderSceneInto(lowTo, transition.toScene, runtime.frame);
          transition.MarkSourcesRendered();
          sampled := runtime.frame;
        }
      }
    }

    /** Lines 276-285: show the next fade step, or the displayed scene. */
    method Show()
      requires Valid() && Cached()
      modifies this, transition, low
      ensures Valid() && Cached() && Value() == AfterShow(old(Value()))
      ensures low[..] == Picture(render, Frame(old(Value())))
    {
      if transition.active {
        Blend(low, lowFrom, lowTo, transition.elapsedFrames);
        transition.Advance();
        if !transition.active {
          displayedScene := transition.toScene;
        }
      } else {
        RenderFrame(displayedScene, runtime.frame);
      }
    }

    /** Lines 237-258: the signal flag, then the polled action; `quit` ends the loop after this iteration. */
    method TakeRequests(input: Input) returns (quit: bool)
      modifies runtime
      ensures runtime.Value() == Requested(old(runtime.Value()), input) && quit == input.press.PressQuit?
    {
      if input.signalled { runtime.NextAt(input.now, SIGNAL_HOLD); }
      quit := false;
      if input.press == PressQuit {
        quit := true;
      } else if input.press == PressNext {
        runtime.NextAt(input.now, PRESS_HOLD);
      } else if input.press == PressPrevious {
        runtime.PreviousAt(input.now, PRESS_HOLD);
      }
    }

    /** Lines 229-305: one iteration; `ok` says it was not halted by the first tick. */
    method Iterate(input: Input) returns (ok: bool, again: bool)
      requires Valid() && Cached()
      modifies this, runtime, transition, low, lowFrom, lowTo
      ensures Valid() && Cached()
      ensures ok == Iteration(old(Value()), input).Ran?
      ensures ok ==> Iteration(old(Value()), input) == Ran(Value(), Iteration(old(Value()), input).shown, again)
      ensures ok ==> low[..] == Picture(render, Iteration(old(Value()), input).shown)
    {
      ok := runtime.TickAt(input.now);
      if !ok { return false, false; }
      var quit := TakeRequests(input);
      BeginFade();
      Show();
      var later := runtime.TickAt(input.later);
      again := later && !quit;
    }
  }
}
