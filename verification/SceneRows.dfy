/**
 The six animated backgrounds. Each pixel is a colour chosen by integer arithmetic on
 the column, the row and the frame number over a 2048-entry sine table. The code
 computes in C ints on the frame number modulo 65536; the reference computes in
 unbounded integers on the full frame number.
 */
module SceneRows {
  import opened Arith
  import opened Canvas
  import WorkerPool

  const WIDTH: int := 320
  const HEIGHT: int := 180
  const PERIOD: int := 65536
  const TABLE: int := 2048
  const SCENES: nat := 6
  const BUBBLES: int := 7

  const PALETTE: seq<Pixel> := [
    0xffb8a9f5, 0xffe8d6ff, 0xffffffff, 0xffface5b, 0xffe8bc49,
    0xffff8cc5, 0xffff6c9d, 0xffc8f7ff, 0xffa82a6b, 0xffa147f4]

  /** A C int: any arithmetic step that leaves the range is an error. */
  newtype Int = x: int | -0x8000_0000 <= x <= 0x7fff_ffff

  /** A table entry scaled by 1024 and truncated, for a table bounded by one. */
  type Sine = v: int | -1024 <= v <= 1024

  type Sines = s: seq<Sine> | |s| == TABLE witness seq(TABLE, _ => 0)

  /** A colour, or two palette entries and the weight `mix` is called with. */
  datatype Shade = Solid(index: nat) | Mixed(from: nat, to: nat, weight: int)

  predicate InPalette(s: Shade) {
    match s
    case Solid(i) => i < |PALETTE|
    case Mixed(a, b, _) => a < |PALETTE| && b < |PALETTE|
  }

  /** The pixel of a shade, through the clamping wrapper around `cart_mix`. */
  function Colour(s: Shade): Pixel
    requires InPalette(s)
  {
    match s
    case Solid(i) => PALETTE[i]
    case Mixed(a, b, w) => Mix(PALETTE[a], PALETTE[b], if w < 0 then 0 else w)
  }

  // ------------------------------------------------------------- reference

  function Sin(sines: Sines, x: int): Sine {
    sines[x % TABLE]
  }

  function Square(x: int): int {
    x * x
  }

  function Abs(x: int): int {
    if x < 0 then -x else x
  }

  function Band(d: int, warp: int, t: int): (r: nat)
    ensures r < 8
  {
    (d + warp / 128 - t * 8) / 16 % 8
  }

  /** A sixteenth of the squared distance from the centre. */
  function Distance(x: int, y: int): int {
    (Square(x - 160) + Square(y - 90)) / 16
  }

  function Candy(sines: Sines, x: int, y: int, t: int): Shade {
    var d := Distance(x, y);
    var warp := Sin(sines, x * 9 + t * 11) + Sin(sines, y * 13 - t * 7);
    var band := Band(d, warp, t);
    Mixed(band % 5, (band + 1) % 5, (Sin(sines, d * 5 + t * 17) + 1024) / 8)
  }

  function Checker(sines: Sines, x: int, y: int, t: int): Shade {
    var yy := y + Sin(sines, x * 10 + t * 14) / 256;
    var xx := x + Sin(sines, y * 13 - t * 9) / 256;
    var glow := (Sin(sines, x * 6 + y * 8 + t * 12) + 1024) / 16;
    if (xx / 8 + yy / 8) % 2 == 1 then Mixed(0, 2, glow) else Mixed(4, 5, glow)
  }

  /** An amplitude scaled by a table entry, `>> 10`. */
  function Sway(sine: int, amplitude: int): int {
    sine * amplitude / 1024
  }

  function BubbleX(sines: Sines, t: int, i: int): int {
    160 + Sway(Sin(sines, i * 273 + (7 + i) * t), 45 + i * 5)
  }

  function BubbleY(sines: Sines, t: int, i: int): int {
    90 + Sway(Sin(sines, i * 411 + (9 + i) * t), 28 + i * 4)
  }

  /** The strength of one bubble at a distance. */
  function Pull(i: nat, dx: int, dy: int): (r: nat)
    ensures r <= (9000 + i * 700) / 18
  {
    SquareSign(dx);
    SquareSign(dy);
    PullBound(9000 + i * 700, 18 + Square(dx) + Square(dy));
    (9000 + i * 700) / (18 + Square(dx) + Square(dy))
  }

  function Field(sines: Sines, x: int, y: int, t: int, n: nat): nat {
    if n == 0 then 0
    else Field(sines, x, y, t, n - 1) + Pull(n - 1, x - BubbleX(sines, t, n - 1), y - BubbleY(sines, t, n - 1))
  }

  function Bubbles(sines: Sines, x: int, y: int, t: int): Shade {
    var field := Field(sines, x, y, t, BUBBLES);
    var wave := (Sin(sines, x * 8 - y * 6 + t * 18) + 1024) / 32;
    if field > 22 then Mixed(1, 5, (field * 9 + wave) % 256) else Mixed(8, 6, wave)
  }

  function Ribbons(sines: Sines, x: int, y: int, t: int): Shade {
    var d1 := Abs(y - (90 + Sin(sines, x * 12 + t * 13) / 32));
    var d2 := Abs(y - (90 + Sin(sines, x * 9 - t * 17 + 500) / 16));
    if d2 < 5 then Mixed(6, 2, d2 * 45)
    else if d1 < 8 then Mixed(0, 2, d1 * 30)
    else Mixed(3, 1, Trunc(y * 255, HEIGHT))
  }

  function Chrome(sines: Sines, x: int, y: int): Shade {
    if y < 95 then Mixed(8, 0, (Sin(sines, x * 5 + y * 4) + 1024) / 16)
    else
      var z := y - 94;
      if z * 13 % 32 < 2 || Abs(Trunc((x - 160) * 90, z + 8)) % 42 < 2 then Solid(2) else Mixed(6, 8, z)
  }

  function Sugar(sines: Sines, x: int, y: int, t: int): Shade {
    var v := (Sin(sines, x * 10 + t * 13) + Sin(sines, y * 14 - t * 9) + Sin(sines, (x + y) * 7 + t * 5) + 3072) / 12;
    var stripe := (x + y + Sin(sines, t * 17 + x * 3) / 128) / 8 % 4;
    Mixed(stripe % 5, (stripe + 2) % 5, v % 256)
  }

  /** Scene `which` at a pixel of an unbounded frame number. */
  function Scene(which: nat, sines: Sines, x: int, y: int, frame: int): (s: Shade)
    ensures InPalette(s)
  {
    match which
    case 0 => Candy(sines, x, y, frame)
    case 1 => Checker(sines, x, y, frame)
    case 2 => Bubbles(sines, x, y, frame)
    case 3 => Ribbons(sines, x, y, frame)
    case 4 => Chrome(sines, x, y)
    case _ => Sugar(sines, x, y, frame)
  }

  lemma SquareSign(x: int)
    ensures Square(x) >= 0
  {
  }

  lemma SquareBound(x: int, b: int)
    requires -b <= x <= b
    ensures 0 <= Square(x) <= b * b
  {
    var a := Abs(x);
    MulLe(a, b, a);
    MulLe(a, b, b);
    assert Square(x) == a * a;
  }

  lemma PullBound(a: nat, b: int)
    requires b >= 18
    ensures 0 <= a / b <= a / 18
  {
    DivBounds(a, b);
    MulLe(18, b, a / b);
    DivIs(18 * (a / b), 18, a / b);
    DivMonotone(18 * (a / b), a, 18);
  }

  // -------------------------------------------------------------- in range

  /** Every weight handed to `mix` for a pixel of the canvas is in 0..256: no clamp engages. */
  lemma WeightsInRange(which: nat, sines: Sines, x: int, y: int, frame: int)
    requires 0 <= y < HEIGHT
    ensures Scene(which, sines, x, y, frame).Mixed? ==> 0 <= Scene(which, sines, x, y, frame).weight <= 256
  {
  }

  // ---------------------------------------------------------- periodicity

  /** The table does not see whole periods of the frame number. */
  lemma SinPeriodic(sines: Sines, a: int, k: int, t: int, q: int)
    ensures Sin(sines, a + k * (t + PERIOD * q)) == Sin(sines, a + k * t)
  {
    assert k * (t + PERIOD * q) == k * t + TABLE * (32 * (k * q));
    ShiftMod(a + k * t, 32 * (k * q));
  }

  lemma ShiftMod(a: int, m: int)
    ensures (a + TABLE * m) % TABLE == a % TABLE
  {
  }

  lemma BandPeriodic(d: int, warp: int, t: int, q: int)
    ensures Band(d, warp, t + PERIOD * q) == Band(d, warp, t)
  {
    var a := d + warp / 128 - t * 8;
    assert d + warp / 128 - (t + PERIOD * q) * 8 == a - 16 * (32768 * q);
    assert (a - 16 * (32768 * q)) / 16 == a / 16 - 8 * (4096 * q);
  }

  lemma CandyPeriodic(sines: Sines, x: int, y: int, t: int, q: int)
    ensures Candy(sines, x, y, t + PERIOD * q) == Candy(sines, x, y, t)
  {
    var d := Distance(x, y);
    SinPeriodic(sines, x * 9, 11, t, q);
    SinPeriodic(sines, y * 13, -7, t, q);
    SinPeriodic(sines, d * 5, 17, t, q);
    BandPeriodic(d, Sin(sines, x * 9 + t * 11) + Sin(sines, y * 13 - t * 7), t, q);
  }

  lemma CheckerPeriodic(sines: Sines, x: int, y: int, t: int, q: int)
    ensures Checker(sines, x, y, t + PERIOD * q) == Checker(sines, x, y, t)
  {
    SinPeriodic(sines, x * 10, 14, t, q);
    SinPeriodic(sines, y * 13, -9, t, q);
    SinPeriodic(sines, x * 6 + y * 8, 12, t, q);
  }

  lemma BubblePeriodic(sines: Sines, t: int, q: int, i: int)
    ensures BubbleX(sines, t + PERIOD * q, i) == BubbleX(sines, t, i)
    ensures BubbleY(sines, t + PERIOD * q, i) == BubbleY(sines, t, i)
  {
    SinPeriodic(sines, i * 273, 7 + i, t, q);
    SinPeriodic(sines, i * 411, 9 + i, t, q);
  }

  lemma {:induction false} FieldPeriodic(sines: Sines, x: int, y: int, t: int, q: int, n: nat)
    ensures Field(sines, x, y, t + PERIOD * q, n) == Field(sines, x, y, t, n)
  {
    if n > 0 {
      FieldPeriodic(sines, x, y, t, q, n - 1);
      BubblePeriodic(sines, t, q, n - 1);
    }
  }

  lemma BubblesPeriodic(sines: Sines, x: int, y: int, t: int, q: int)
    ensures Bubbles(sines, x, y, t + PERIOD * q) == Bubbles(sines, x, y, t)
  {
    FieldPeriodic(sines, x, y, t, q, BUBBLES);
    SinPeriodic(sines, x * 8 - y * 6, 18, t, q);
  }

  lemma RibbonsPeriodic(sines: Sines, x: int, y: int, t: int, q: int)
    ensures Ribbons(sines, x, y, t + PERIOD * q) == Ribbons(sines, x, y, t)
  {
    SinPeriodic(sines, x * 12, 13, t, q);
    SinPeriodic(sines, x * 9 + 500, -17, t, q);
  }

  lemma SugarPeriodic(sines: Sines, x: int, y: int, t: int, q: int)
    ensures Sugar(sines, x, y, t + PERIOD * q) == Sugar(sines, x, y, t)
  {
    SinPeriodic(sines, x * 10, 13, t, q);
    SinPeriodic(sines, y * 14, -9, t, q);
    SinPeriodic(sines, (x + y) * 7, 5, t, q);
    SinPeriodic(sines, x * 3, 17, t, q);
  }

  /** Reducing the frame number modulo 65536 changes no pixel of any scene. */
  lemma ScenePeriodic(which: nat, sines: Sines, x: int, y: int, frame: int)
    ensures Scene(which, sines, x, y, frame % PERIOD) == Scene(which, sines, x, y, frame)
  {
    var t, q := frame % PERIOD, frame / PERIOD;
    assert frame == t + PERIOD * q;
    match which {
      case 0 => CandyPeriodic(sines, x, y, t, q);
      case 1 => CheckerPeriodic(sines, x, y, t, q);
      case 2 => BubblesPeriodic(sines, x, y, t, q);
      case 3 => RibbonsPeriodic(sines, x, y, t, q);
      case 4 =>
      case _ => SugarPeriodic(sines, x, y, t, q);
    }
  }

  // -------------------------------------------------- the C code, in C ints

  predicate OnCanvas(x: Int, y: Int) {
    0 <= x < 320 && 0 <= y < 180
  }

  predicate Phase(t: Int) {
    0 <= t < 65536
  }

  /** `si`: masking a C int by 2047 is reduction modulo 2048. */
  function Si(sines: Sines, x: Int): (r: Int)
    ensures r as int == Sin(sines, x as int)
  {
    sines[x % 2048] as Int
  }

  function AbsInt(x: Int): (r: Int)
    requires x > -0x8000_0000
    ensures r as int == Abs(x as int)
  {
    if x < 0 then -x else x
  }

  method DistanceOf(x: Int, y: Int) returns (d: Int)
    requires OnCanvas(x, y)
    ensures 0 <= d <= 2106 && d as int == Distance(x as int, y as int)
  {
    SquareBound(x as int - 160, 160);
    SquareBound(y as int - 90, 90);
    var dx, dy := x - 160, y - 90;
    d := (dx * dx + dy * dy) / 16;
  }

  /** Masking twice by 2047 is masking once. */
  lemma MaskTwice(x: int)
    ensures x % TABLE % TABLE == x % TABLE
  {
  }

  method WarpOf(sines: Sines, x: Int, y: Int, t: Int) returns (warp: Int)
    requires OnCanvas(x, y) && Phase(t)
    ensures warp as int == Sin(sines, x as int * 9 + t as int * 11) + Sin(sines, y as int * 13 - t as int * 7)
  {
    MaskTwice(x as int * 9 + t as int * 11);
    MaskTwice(y as int * 13 - t as int * 7);
    warp := Si(sines, (x * 9 + t * 11) % 2048) + Si(sines, (y * 13 - t * 7) % 2048);
  }

  method BandOf(d: Int, warp: Int, t: Int) returns (band: Int)
    requires 0 <= d <= 2106 && -2048 <= warp <= 2048 && Phase(t)
    ensures 0 <= band < 8 && band as int == Band(d as int, warp as int, t as int)
  {
    band := (d + warp / 128 - t * 8) / 16 % 8;
  }

  /** `scene_candy` at one pixel. */
  method CandyAt(sines: Sines, x: Int, y: Int, t: Int) returns (s: Shade)
    requires OnCanvas(x, y) && Phase(t)
    ensures s == Candy(sines, x as int, y as int, t as int)
  {
    var d := DistanceOf(x, y);
    var warp := WarpOf(sines, x, y, t);
    var band := BandOf(d, warp, t);
    var glow := GlowOf(sines, d, t);
    s := Mixed((band % 5) as nat, ((band + 1) % 5) as nat, glow as int);
  }

  method GlowOf(sines: Sines, d: Int, t: Int) returns (glow: Int)
    requires 0 <= d <= 2106 && Phase(t)
    ensures glow as int == (Sin(sines, d as int * 5 + t as int * 17) + 1024) / 8
  {
    glow := (Si(sines, d * 5 + t * 17) + 1024) / 8;
  }

  lemma Parity(a: int, b: int)
    ensures (a + b) % 2 == 1 <==> a % 2 != b % 2
  {
  }

  /** `scene_checker` at one pixel; the low bit of an exclusive or is whether the low bits differ. */
  method CheckerAt(sines: Sines, x: Int, y: Int, t: Int) returns (s: Shade)
    requires OnCanvas(x, y) && Phase(t)
    ensures s == Checker(sines, x as int, y as int, t as int)
  {
    var yy := y + Si(sines, x * 10 + t * 14) / 256;
    var xx := x + Si(sines, y * 13 - t * 9) / 256;
    Parity(xx as int / 8, yy as int / 8);
    var q := xx / 8 % 2 != yy / 8 % 2;
    var glow := (Si(sines, x * 6 + y * 8 + t * 12) + 1024) / 16;
    s := Mixed(if q then 0 else 4, if q then 2 else 5, glow as int);
  }

  /** `scene_ribbons` at one pixel: later stripes paint over earlier ones. */
  method RibbonsAt(sines: Sines, x: Int, y: Int, t: Int) returns (s: Shade)
    requires OnCanvas(x, y) && Phase(t)
    ensures s == Ribbons(sines, x as int, y as int, t as int)
  {
    var wave := 90 + Si(sines, x * 12 + t * 13) / 32;
    var wave2 := 90 + Si(sines, x * 9 - t * 17 + 500) / 16;
    var d1, d2 := AbsInt(y - wave), AbsInt(y - wave2);
    s := Mixed(3, 1, (y * 255 / 180) as int);
    if d1 < 8 { s := Mixed(0, 2, (d1 * 30) as int); }
    if d2 < 5 { s := Mixed(6, 2, (d2 * 45) as int); }
  }

  /** `scene_chrome` at one pixel. C division truncates, so the sign of the column offset is set aside. */
  method ChromeAt(sines: Sines, x: Int, y: Int) returns (s: Shade)
    requires OnCanvas(x, y)
    ensures s == Chrome(sines, x as int, y as int)
  {
    if y < 95 {
      s := Mixed(8, 0, ((Si(sines, x * 5 + y * 4) + 1024) / 16) as int);
      return;
    }
    var z := y - 94;
    var horizon := z * 13 % 32 < 2;
    var offset, scale := (x - 160) * 90, z + 8;
    assert z >= 1 && scale >= 9;
    QuotLe(Abs(offset as int), scale as int);
    var van := if offset >= 0 then offset / scale else -(-offset / scale);
    var vertical := AbsInt(van) % 42 < 2;
    s := if horizon || vertical then Solid(2) else Mixed(6, 8, z as int);
  }

  /** `scene_sugar` at one pixel. */
  method SugarAt(sines: Sines, x: Int, y: Int, t: Int) returns (s: Shade)
    requires OnCanvas(x, y) && Phase(t)
    ensures s == Sugar(sines, x as int, y as int, t as int)
  {
    var a, b, c := Si(sines, x * 10 + t * 13), Si(sines, y * 14 - t * 9), Si(sines, (x + y) * 7 + t * 5);
    var v := (a + b + c + 3072) / 12;
    var stripe := (x + y + Si(sines, t * 17 + x * 3) / 128) / 8 % 4;
    s := Mixed((stripe % 5) as nat, ((stripe + 2) % 5) as nat, (v % 256) as int);
  }

  // --------------------------------------------------------------- bubbles

  lemma MulRange(a: int, b: int, c: int)
    requires 0 <= a <= b && 0 <= c
    ensures 0 <= c * a <= c * b
  {
  }

  lemma SwayRange(sine: Sine, amplitude: int)
    requires amplitude >= 0
    ensures -1024 * amplitude <= sine * amplitude <= 1024 * amplitude
    ensures -amplitude <= Sway(sine, amplitude) <= amplitude
  {
    MulLe(-1024, sine, amplitude);
    MulLe(sine, 1024, amplitude);
    DivBetween(sine * amplitude, 1024, -amplitude, amplitude);
  }

  /** The centre of bubble `i`. */
  method Centre(sines: Sines, t: Int, i: Int) returns (cx: Int, cy: Int)
    requires 0 <= i < 7 && Phase(t)
    ensures cx as int == BubbleX(sines, t as int, i as int) && 85 <= cx <= 235
    ensures cy as int == BubbleY(sines, t as int, i as int) && 38 <= cy <= 142
  {
    MulRange(7 + i as int, 13, t as int);
    MulRange(9 + i as int, 15, t as int);
    var sx, sy := Si(sines, t * (7 + i) + i * 273), Si(sines, t * (9 + i) + i * 411);
    SwayRange(sx as int, 45 + i as int * 5);
    SwayRange(sy as int, 28 + i as int * 4);
    cx := 160 + sx * (45 + i * 5) / 1024;
    cy := 90 + sy * (28 + i * 4) / 1024;
  }

  /** The centres of all bubbles, computed once per call. */
  method Centres(sines: Sines, t: Int) returns (cxs: array<Int>, cys: array<Int>)
    requires Phase(t)
    ensures fresh(cxs) && fresh(cys) && CentresOf(sines, t, cxs[..], cys[..])
  {
    cxs, cys := new Int[7](_ => 0), new Int[7](_ => 0);
    var i: Int := 0;
    while i < 7
      invariant 0 <= i <= 7 && cxs != cys
      invariant forall k: Int | 0 <= k < i :: CentreOk(sines, t, k, cxs[k], cys[k])
    {
      var cx, cy := Centre(sines, t, i);
      cxs[i], cys[i] := cx, cy;
      i := i + 1;
    }
  }

  ghost predicate CentreOk(sines: Sines, t: Int, i: Int, cx: Int, cy: Int) {
    && cx as int == BubbleX(sines, t as int, i as int) && 85 <= cx <= 235
    && cy as int == BubbleY(sines, t as int, i as int) && 38 <= cy <= 142
  }

  ghost predicate CentresOf(sines: Sines, t: Int, cxs: seq<Int>, cys: seq<Int>) {
    |cxs| == |cys| == 7 && forall k: Int | 0 <= k < 7 :: CentreOk(sines, t, k, cxs[k], cys[k])
  }

  /** One bubble's share of the field. */
  method PullAt(i: Int, dx: Int, dy: Int) returns (pull: Int)
    requires 0 <= i < 7 && -320 <= dx <= 320 && -180 <= dy <= 180
    ensures pull as int == Pull(i as nat, dx as int, dy as int) && 0 <= pull <= 733
  {
    SquareBound(dx as int, 320);
    SquareBound(dy as int, 180);
    PullBound(9000 + i as int * 700, 18 + Square(dx as int) + Square(dy as int));
    pull := (9000 + i * 700) / (18 + dx * dx + dy * dy);
  }

  method FieldAt(sines: Sines, x: Int, y: Int, t: Int, cxs: array<Int>, cys: array<Int>) returns (field: Int)
    requires OnCanvas(x, y) && Phase(t) && CentresOf(sines, t, cxs[..], cys[..])
    ensures field as int == Field(sines, x as int, y as int, t as int, BUBBLES) && 0 <= field <= 733 * 7
  {
    field := 0;
    var i: Int := 0;
    while i < 7
      invariant 0 <= i <= 7 && 0 <= field <= 733 * i
      invariant field as int == Field(sines, x as int, y as int, t as int, i as nat)
    {
      assert CentreOk(sines, t, i, cxs[..][i], cys[..][i]);
      field := AddPull(sines, x, y, t, i, cxs[i], cys[i], field);
      i := i + 1;
    }
  }

  method AddPull(sines: Sines, x: Int, y: Int, t: Int, i: Int, cx: Int, cy: Int, field: Int) returns (sum: Int)
    requires OnCanvas(x, y) && 0 <= i < 7 && CentreOk(sines, t, i, cx, cy) && 0 <= field <= 733 * i
    requires field as int == Field(sines, x as int, y as int, t as int, i as nat)
    ensures sum as int == Field(sines, x as int, y as int, t as int, i as nat + 1) && 0 <= sum <= 733 * (i + 1)
  {
    var pull := PullAt(i, x - cx, y - cy);
    sum := field + pull;
  }

  /** `scene_bubbles` at one pixel. */
  method BubblesAt(sines: Sines, x: Int, y: Int, t: Int, cxs: array<Int>, cys: array<Int>) returns (s: Shade)
    requires OnCanvas(x, y) && Phase(t) && CentresOf(sines, t, cxs[..], cys[..])
    ensures s == Bubbles(sines, x as int, y as int, t as int)
  {
    var field := FieldAt(sines, x, y, t, cxs, cys);
    var wave := (Si(sines, x * 8 - y * 6 + t * 18) + 1024) / 32;
    s := if field > 22 then Mixed(1, 5, ((field * 9 + wave) % 256) as int) else Mixed(8, 6, wave as int);
  }

  // ------------------------------------------------------------------ rows

  /** The pixel at offset `i` of the canvas on the full frame number. */
  function PixelAt(which: nat, sines: Sines, frame: nat, i: nat): Pixel {
    Colour(Scene(which, sines, i % WIDTH, i / WIDTH, frame))
  }

  /** A canvas after rows `first..end` have been drawn. */
  function Drawn(low: seq<Pixel>, which: nat, sines: Sines, frame: nat, first: int, end: int): (r: seq<Pixel>)
    ensures |r| == |low|
  {
    seq(|low|, i requires 0 <= i < |low| =>
      if first * WIDTH <= i < end * WIDTH then PixelAt(which, sines, frame, i) else low[i])
  }

  /** One pixel of one scene on the reduced frame number. */
  method ShadeAt(which: nat, sines: Sines, x: Int, y: Int, t: Int, cxs: array<Int>, cys: array<Int>) returns (s: Shade)
    requires OnCanvas(x, y) && Phase(t) && CentresOf(sines, t, cxs[..], cys[..])
    ensures s == Scene(which, sines, x as int, y as int, t as int)
  {
    match which {
      case 0 => s := CandyAt(sines, x, y, t);
      case 1 => s := CheckerAt(sines, x, y, t);
      case 2 => s := BubblesAt(sines, x, y, t, cxs, cys);
      case 3 => s := RibbonsAt(sines, x, y, t);
      case 4 => s := ChromeAt(sines, x, y);
      case _ => s := SugarAt(sines, x, y, t);
    }
  }

  /**
   `render_legacy_scene` in its row phase: the rows asked for, no other, hold the scene on
   the full frame number, though all arithmetic is done in C ints on its residue.
   */
  method RenderRows(low: array<Pixel>, which: int, sines: Sines, first: Int, end: Int, frame: nat)
    requires low.Length == WIDTH * HEIGHT && 0 <= first && end <= 180
    modifies low
    ensures 0 <= which < SCENES ==> low[..] == Drawn(old(low[..]), which, sines, frame, first as int, end as int)
    ensures !(0 <= which < SCENES) ==> low[..] == old(low[..])
  {
    if which < 0 || which >= SCENES {
      return;
    }
    var t := (frame % PERIOD) as Int;
    var cxs, cys := Centres(sines, t);
    var y := first;
    while y < end
      invariant first <= y && (first <= end ==> y <= end) && (end < first ==> y == first)
      invariant CentresOf(sines, t, cxs[..], cys[..])
      invariant low[..] == Drawn(old(low[..]), which, sines, frame, first as int, y as int)
    {
      DrawRow(low, which, sines, y, frame, t, cxs, cys);
      DrawnJoins(old(low[..]), which, sines, frame, first as int, y as int, y as int + 1);
      y := y + 1;
    }
    assert end < first ==> Drawn(old(low[..]), which, sines, frame, first as int, end as int) == old(low[..]);
  }

  /** Drawing adjacent bands one after the other is drawing their union. */
  lemma DrawnJoins(low: seq<Pixel>, which: nat, sines: Sines, frame: nat, first: int, middle: int, end: int)
    requires first <= middle <= end
    ensures Drawn(Drawn(low, which, sines, frame, first, middle), which, sines, frame, middle, end)
         == Drawn(low, which, sines, frame, first, end)
    ensures Drawn(Drawn(low, which, sines, frame, middle, end), which, sines, frame, first, middle)
         == Drawn(low, which, sines, frame, first, end)
  {
  }

  method PixelOf(which: nat, sines: Sines, x: Int, y: Int, frame: nat, t: Int, cxs: array<Int>, cys: array<Int>)
    returns (p: Pixel)
    requires OnCanvas(x, y) && t as int == frame % PERIOD && CentresOf(sines, t, cxs[..], cys[..])
    ensures p == PixelAt(which, sines, frame, y as int * WIDTH + x as int)
  {
    ScenePeriodic(which, sines, x as int, y as int, frame);
    PixelAtRow(which, sines, frame, x as int, y as int);
    var s := ShadeAt(which, sines, x, y, t, cxs, cys);
    p := Colour(s);
  }

  lemma PixelAtRow(which: nat, sines: Sines, frame: nat, x: nat, y: nat)
    requires x < WIDTH
    ensures PixelAt(which, sines, frame, y * WIDTH + x) == Colour(Scene(which, sines, x, y, frame))
  {
    DivIs(y * WIDTH + x, WIDTH, y);
    ModIs(y * WIDTH + x, WIDTH, y);
  }

  /** The inner loop: one row, left to right. */
  method DrawRow(low: array<Pixel>, which: nat, sines: Sines, y: Int, frame: nat, t: Int, cxs: array<Int>, cys: array<Int>)
    requires low.Length == WIDTH * HEIGHT && 0 <= y < 180 && t as int == frame % PERIOD
    requires low as object !in {cxs, cys} && CentresOf(sines, t, cxs[..], cys[..])
    modifies low
    ensures low[..] == Drawn(old(low[..]), which, sines, frame, y as int, y as int + 1)
  {
    var x: Int := 0;
    while x < 320
      invariant 0 <= x <= 320 && CentresOf(sines, t, cxs[..], cys[..])
      invariant forall i | 0 <= i < low.Length ::
                  low[i] == if y as int * WIDTH <= i < y as int * WIDTH + x as int then PixelAt(which, sines, frame, i) else old(low[i])
    {
      var p := PixelOf(which, sines, x, y, frame, t, cxs, cys);
      low[y * 320 + x] := p;
      x := x + 1;
    }
  }

  // ------------------------------------------------------- with the workers

  /** A row of a scene, and the row job that draws it into the canvas every slot shares. */
  function SceneRow(which: nat, sines: Sines, frame: nat, y: nat): WorkerPool.Row {
    seq(WIDTH, (x: nat) => Colour(Scene(which, sines, x, y, frame)))
  }

  function SceneJob(which: nat, sines: Sines): WorkerPool.RowJob {
    (slot: nat, generation: nat, y: nat) => SceneRow(which, sines, generation, y)
  }

  lemma SceneJobInline(which: nat, sines: Sines, r: WorkerPool.Request, y: nat)
    requires r.job == SceneJob(which, sines) && |r.slots| > 0 && y < HEIGHT
    ensures WorkerPool.SlotBlind(r)
    ensures WorkerPool.Inline(HEIGHT, r)[y] == SceneRow(which, sines, r.generation, y)
  {
  }

  /**
   In every run of the pool, once a dispatched scene has returned, the canvas holds what a
   single call over all rows draws on the frame number the dispatch carried.
   */
  lemma PoolDrawsScene(c: WorkerPool.Config, states: seq<WorkerPool.State>, actions: seq<WorkerPool.Action>, k: nat,
                       which: nat, sines: Sines, low: seq<Pixel>, x: nat, y: nat)
    requires c.Valid() && c.rows == HEIGHT && WorkerPool.IsRun(c, states, actions)
    requires k < |states| && states[k].main.Idle? && states[k].history != []
    requires states[k].history[|states[k].history| - 1].job == SceneJob(which, sines)
    requires |low| == WIDTH * HEIGHT && x < WIDTH && y < HEIGHT
    ensures var frame := states[k].history[|states[k].history| - 1].generation;
            && |states[k].image| == HEIGHT && |states[k].image[y]| == WIDTH
            && states[k].image[y][x] == Drawn(low, which, sines, frame, 0, HEIGHT)[y * WIDTH + x]
  {
    WorkerPool.DispatchComplete(c, states, actions, k);
    var last := states[k].history[|states[k].history| - 1];
    SceneJobInline(which, sines, last, y);
    PixelAtRow(which, sines, last.generation, x, y);
  }
}
