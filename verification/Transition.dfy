/** The crossfade: its state machine, the fixed-point smoothstep weight, and the blend. */
module Transition {
  import opened Arith
  import opened Canvas

  const FRAMES: nat := 15
  const WEIGHT_MAX: nat := 256
  const FIXED_ONE: nat := 1024
  const MAX_LEVELS: int := 26 // largest channel move between adjacent fade frames

  /** `struct cart_transition` as a value. */
  datatype Fade = Fade(from: nat, to: nat, elapsed: nat, active: bool, ready: bool)

  function Begun(from: nat, to: nat): Fade {
    Fade(from, to, 0, from != to, false)
  }

  function Advanced(f: Fade): Fade {
    if !f.active then f
    else f.(elapsed := f.elapsed + 1, active := f.elapsed + 1 < FRAMES)
  }

  /** `cart_transition_sources_need_render`. */
  predicate NeedsSources(f: Fade) {
    f.active && !f.ready
  }

  function Rendered(f: Fade): Fade {
    if f.active then f.(ready := true) else f
  }

  /** The crossfade object. */
  class CartTransition {
    var fromScene: nat
    var toScene: nat
    var elapsedFrames: nat
    var active: bool
    var sourcesReady: bool

    function Value(): Fade
      reads this
    {
      Fade(fromScene, toScene, elapsedFrames, active, sourcesReady)
    }

    /** All fields zero: no fade. */
    constructor ()
      ensures Value() == Fade(0, 0, 0, false, false)
    {
      fromScene, toScene, elapsedFrames, active, sourcesReady := 0, 0, 0, false, false;
    }

    method Begin(from: nat, to: nat)
      modifies this
      ensures Value() == Begun(from, to)
    {
      fromScene := from;
      toScene := to;
      elapsedFrames := 0;
      active := from != to;
      sourcesReady := false;
    }

    method Advance()
      modifies this
      ensures Value() == Advanced(old(Value()))
    {
      if !active { return; }
      elapsedFrames := elapsedFrames + 1;
      if elapsedFrames >= FRAMES { active := false; }
    }

    method MarkSourcesRendered()
      modifies this
      ensures Value() == Rendered(old(Value()))
    {
      if active { sourcesReady := true; }
    }
  }

  /** The eased weight of each fade step, `EaseWeight`'s values written out. */
  const WEIGHTS: seq<nat> := [0, 3, 12, 26, 45, 66, 90, 115, 141, 166, 189, 211, 229, 243, 253]

  function Weight(step: nat): (w: nat)
    ensures w <= WEIGHT_MAX
  {
    if step < FRAMES then WEIGHTS[step] else WEIGHT_MAX
  }

  /** `cart_transition_weight`: 3t^2 - 2t^3 in fixed point, rounded to 0..256. */
  method EaseWeight(step: nat) returns (w: nat)
    ensures w == Weight(step)
  {
    if step == 0 { return 0; }
    if step >= FRAMES { return WEIGHT_MAX; }
    var t := step * FIXED_ONE / FRAMES;
    SmoothstepValues(step);
    var eased := Smoothstep(t);
    eased := (eased * WEIGHT_MAX + FIXED_ONE / 2) / FIXED_ONE;
    if eased > WEIGHT_MAX { eased := WEIGHT_MAX; }
    return eased;
  }

  function Smoothstep(t: nat): nat
    requires t <= FIXED_ONE
  {
    MulLe(t, FIXED_ONE, 2 * t * t);
    (3 * t * t * FIXED_ONE - 2 * t * t * t) / (FIXED_ONE * FIXED_ONE)
  }

  const TIMES: seq<nat> := [0, 68, 136, 204, 273, 341, 409, 477, 546, 614, 682, 750, 819, 887, 955]
  const EASED: seq<nat> := [0, 12, 49, 105, 179, 265, 359, 459, 562, 662, 757, 843, 917, 973, 1010]

  lemma SmoothstepValues(step: nat)
    requires step < FRAMES
    ensures step * FIXED_ONE / FRAMES == TIMES[step] <= FIXED_ONE
    ensures Smoothstep(TIMES[step]) == EASED[step]
  {
    assert Smoothstep(0) == 0;
    assert Smoothstep(68) == 12;
    assert Smoothstep(136) == 49;
    assert Smoothstep(204) == 105;
    assert Smoothstep(273) == 179;
    assert Smoothstep(341) == 265;
    assert Smoothstep(409) == 359;
    assert Smoothstep(477) == 459;
    assert Smoothstep(546) == 562;
    assert Smoothstep(614) == 662;
    assert Smoothstep(682) == 757;
    assert Smoothstep(750) == 843;
    assert Smoothstep(819) == 917;
    assert Smoothstep(887) == 973;
    assert Smoothstep(955) == 1010;
  }

  /** The weight rises from exactly 0 to exactly 256, never falls, and rises by at most 26 a frame. */
  lemma WeightStep(step: nat)
    ensures Weight(step) <= Weight(step + 1) <= Weight(step) + MAX_LEVELS
    ensures Weight(0) == 0 && (step >= FRAMES <==> Weight(step) == WEIGHT_MAX)
  {
  }

  /** At every step the weight is within one of 256 times the smoothstep of step / 15, which is (45 k^2 - 2 k^3) / 3375. */
  lemma WeightNearSmoothstep(k: nat)
    requires k <= 15
    ensures -3375 < 3375 * Weight(k) - 256 * (45 * k * k - 2 * k * k * k) < 3375
  {
  }

  lemma {:induction false} WeightMonotone(j: nat, k: nat)
    requires j <= k
    ensures Weight(j) <= Weight(k)
  {
    if j < k {
      WeightMonotone(j, k - 1);
      WeightStep(k - 1);
    }
  }

  type Image = seq<Pixel>

  /** What `cart_transition_blend` leaves in the destination. */
  function BlendImage(from: Image, to: Image, step: nat): (r: Image)
    requires |from| == |to|
    ensures |r| == |from|
  {
    var w := Weight(step);
    if w == 0 then from
    else if w >= WEIGHT_MAX then to
    else seq(|from|, i requires 0 <= i < |from| => Mix(from[i], to[i], w))
  }

  /** `cart_transition_blend` over pixel buffers that do not overlap. */
  method Blend(destination: array<Pixel>, from: array<Pixel>, to: array<Pixel>, step: nat)
    requires destination.Length == from.Length == to.Length
    requires destination != from && destination != to
    modifies destination
    ensures destination[..] == BlendImage(from[..], to[..], step)
  {
    var amount := EaseWeight(step);
    var count := destination.Length;
    for index := 0 to count
      invariant forall i | 0 <= i < index ::
        destination[i] == if amount == 0 then from[i] else if amount >= WEIGHT_MAX then to[i] else Mix(from[i], to[i], amount)
      invariant from[..] == old(from[..]) && to[..] == old(to[..])
    {
      if amount == 0 {
        destination[index] := from[index];
      } else if amount >= WEIGHT_MAX {
        destination[index] := to[index];
      } else {
        destination[index] := Mix(from[index], to[index], amount);
      }
    }
    assert destination[..] == BlendImage(from[..], to[..], step);
  }

  /** Every channel of every blended pixel is the interpolation at the step's weight, shortcuts included. */
  lemma BlendChannel(from: Image, to: Image, step: nat, i: nat, c: Channel)
    requires |from| == |to| && i < |from|
    ensures Get(BlendImage(from, to, step)[i], c) == Blended(Get(from[i], c), Get(to[i], c), Weight(step))
  {
    var w := Weight(step);
    if 0 < w < WEIGHT_MAX {
      assert BlendImage(from, to, step)[i] == Mix(from[i], to[i], w);
      MixChannel(from[i], to[i], w, c);
    }
  }

  /** Channel `c` of pixel `i` on frame `step` of a fade. */
  function FadeChannel(from: Image, to: Image, step: nat, i: nat, c: Channel): nat
    requires |from| == |to| && i < |from|
  {
    Get(BlendImage(from, to, step)[i], c)
  }

  /**
   Between any two images each channel of each pixel stays between its ends, moves
   only toward the target as the fade goes on, and moves at most 26 levels a frame.
   */
  lemma FadeIsGradual(from: Image, to: Image, j: nat, k: nat, i: nat, c: Channel)
    requires |from| == |to| && i < |from| && j <= k
    ensures Get(from[i], c) <= Get(to[i], c) ==>
              Get(from[i], c) <= FadeChannel(from, to, j, i, c) <= FadeChannel(from, to, k, i, c) <= Get(to[i], c)
    ensures Get(to[i], c) <= Get(from[i], c) ==>
              Get(to[i], c) <= FadeChannel(from, to, k, i, c) <= FadeChannel(from, to, j, i, c) <= Get(from[i], c)
    ensures k == j + 1 ==> -MAX_LEVELS <= FadeChannel(from, to, k, i, c) - FadeChannel(from, to, j, i, c) <= MAX_LEVELS
  {
    BlendChannel(from, to, j, i, c);
    BlendChannel(from, to, k, i, c);
    WeightMonotone(j, k);
    BlendedBetween(Get(from[i], c), Get(to[i], c), Weight(j));
    BlendedBetween(Get(from[i], c), Get(to[i], c), Weight(k));
    BlendedMoves(Get(from[i], c), Get(to[i], c), Weight(j), Weight(k));
    WeightStep(j);
  }

  predicate AllOpaque(image: Image) {
    forall i | 0 <= i < |image| :: Opaque(image[i])
  }

  /** Per-pixel mixing with no copy shortcuts. */
  function MixImage(from: Image, to: Image, step: nat): Image
    requires |from| == |to|
  {
    seq(|from|, i requires 0 <= i < |from| => Mix(from[i], to[i], Weight(step)))
  }

  /** The copy shortcuts agree with per-pixel mixing exactly when the copied image is opaque. */
  lemma ShortcutsAgree(from: Image, to: Image, step: nat)
    requires |from| == |to|
    ensures BlendImage(from, to, step) == MixImage(from, to, step) <==>
            (Weight(step) == 0 ==> AllOpaque(from)) && (Weight(step) == WEIGHT_MAX ==> AllOpaque(to))
  {
    forall i | 0 <= i < |from|
      ensures Weight(step) == 0 ==> (MixImage(from, to, step)[i] == from[i] <==> Opaque(from[i]))
      ensures Weight(step) == WEIGHT_MAX ==> (MixImage(from, to, step)[i] == to[i] <==> Opaque(to[i]))
    {
      MixEnds(from[i], to[i]);
    }
    if BlendImage(from, to, step) == MixImage(from, to, step) {
      assert forall i | 0 <= i < |from| :: BlendImage(from, to, step)[i] == MixImage(from, to, step)[i];
    } else {
      var i :| 0 <= i < |from| && BlendImage(from, to, step)[i] != MixImage(from, to, step)[i];
    }
  }
}
