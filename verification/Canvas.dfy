/** Pixels as 32-bit words (red in the low byte, alpha in the high byte) and their mixing. */
module Canvas {
  import opened Arith

  const OPAQUE: int := 0xff00_0000

  type Pixel = p: int | 0 <= p <= 0xffff_ffff

  datatype Channel = Red | Green | Blue

  /** One colour channel of a pixel, `(p >> shift) & 0xff`. */
  function Get(p: Pixel, c: Channel): (r: nat)
    ensures r <= 255
  {
    match c
    case Red => p % 0x100
    case Green => p / 0x100 % 0x100
    case Blue => p / 0x1_0000 % 0x100
  }

  predicate Opaque(p: Pixel) {
    p >= OPAQUE
  }

  function Clamp(value: int): (r: int)
    ensures 0 <= r <= 255
  {
    if value < 0 then 0 else if value > 255 then 255 else value
  }

  /** `cart_rgba`: the bytes occupy disjoint bits, so or-ing them is adding them. */
  function Rgba(red: int, green: int, blue: int): Pixel {
    Clamp(red) + Clamp(green) * 0x100 + Clamp(blue) * 0x1_0000 + OPAQUE
  }

  /** One channel of `cart_mix` before clamping; `>>` on a negative int is floor division. */
  function Blended(from: int, to: int, amount: int): int {
    from + (to - from) * amount / 256
  }

  /** `cart_mix`. */
  function Mix(from: Pixel, to: Pixel, amount: nat): Pixel {
    var w := if amount > 256 then 256 else amount;
    Rgba(Blended(Get(from, Red), Get(to, Red), w),
         Blended(Get(from, Green), Get(to, Green), w),
         Blended(Get(from, Blue), Get(to, Blue), w))
  }

  /** Packing and unpacking a pixel undo each other on the colour channels. */
  lemma GetRgba(red: int, green: int, blue: int)
    ensures Get(Rgba(red, green, blue), Red) == Clamp(red)
    ensures Get(Rgba(red, green, blue), Green) == Clamp(green)
    ensures Get(Rgba(red, green, blue), Blue) == Clamp(blue)
    ensures Opaque(Rgba(red, green, blue))
  {
  }

  /** A pixel is its channels and its alpha byte. */
  lemma Unpack(p: Pixel)
    ensures p == Get(p, Red) + Get(p, Green) * 0x100 + Get(p, Blue) * 0x1_0000 + p / 0x100_0000 * 0x100_0000
  {
    var q := p / 0x100;
    assert p / 0x1_0000 == q / 0x100 && p / 0x100_0000 == q / 0x100 / 0x100;
  }

  /** Weighted mixing is a floor of an interpolation: it stays between the ends. */
  lemma BlendedBetween(from: int, to: int, w: int)
    requires 0 <= w <= 256
    ensures from <= to ==> from <= Blended(from, to, w) <= to
    ensures to <= from ==> to <= Blended(from, to, w) <= from
  {
    var d := to - from;
    if d >= 0 {
      MulLe(0, w, d);
      MulLe(w, 256, d);
      assert 0 <= d * w <= d * 256;
    } else {
      MulLe(0, w, -d);
      MulLe(w, 256, -d);
      assert d * 256 <= d * w <= 0;
    }
  }

  /** A mixed channel is the interpolation in 256ths rounded down. */
  lemma BlendedFloor(from: int, to: int, w: int)
    ensures 256 * (Blended(from, to, w) - from) <= (to - from) * w < 256 * (Blended(from, to, w) - from) + 256
  {
    DivBounds((to - from) * w, 256);
  }

  /** Raising the weight moves a channel toward the target, by at most the rise in weight. */
  lemma BlendedMoves(from: int, to: int, w: int, w': int)
    requires -255 <= to - from <= 255 && w <= w'
    ensures from <= to ==> 0 <= Blended(from, to, w') - Blended(from, to, w) <= w' - w
    ensures to <= from ==> 0 <= Blended(from, to, w) - Blended(from, to, w') <= w' - w
  {
    var d, rise := to - from, w' - w;
    assert d * w' == d * w + d * rise;
    if d >= 0 {
      MulLe(0, rise, d);
      MulLe(d, 255, rise);
    } else {
      MulLe(0, rise, -d);
      MulLe(-d, 255, rise);
      assert d * rise == -((-d) * rise);
    }
  }

  /** Mixing by any weight up to 256: every channel is the interpolation, never clamped. */
  lemma MixChannel(from: Pixel, to: Pixel, w: nat, c: Channel)
    requires w <= 256
    ensures Get(Mix(from, to, w), c) == Blended(Get(from, c), Get(to, c), w)
    ensures 0 <= Blended(Get(from, c), Get(to, c), w) <= 255
  {
    BlendedBetween(Get(from, Red), Get(to, Red), w);
    BlendedBetween(Get(from, Green), Get(to, Green), w);
    BlendedBetween(Get(from, Blue), Get(to, Blue), w);
    GetRgba(Blended(Get(from, Red), Get(to, Red), w), Blended(Get(from, Green), Get(to, Green), w),
            Blended(Get(from, Blue), Get(to, Blue), w));
  }

  predicate SameColour(p: Pixel, q: Pixel) {
    Get(p, Red) == Get(q, Red) && Get(p, Green) == Get(q, Green) && Get(p, Blue) == Get(q, Blue)
  }

  /** An opaque pixel is the only opaque one of its colour. */
  lemma OpaqueIs(p: Pixel, q: Pixel)
    requires Opaque(p) && SameColour(p, q)
    ensures p == q <==> Opaque(q)
  {
    Unpack(p);
    Unpack(q);
    assert p / 0x100_0000 == 255 && (q / 0x100_0000 == 255 <==> Opaque(q));
  }

  lemma MixOpaque(from: Pixel, to: Pixel, amount: nat)
    ensures Opaque(Mix(from, to, amount))
  {
  }

  /** At the ends mixing returns the end pixel exactly when that pixel is opaque. */
  lemma MixEnds(from: Pixel, to: Pixel)
    ensures Mix(from, to, 0) == from <==> Opaque(from)
    ensures Mix(from, to, 256) == to <==> Opaque(to)
  {
    MixedEnd(from, to, 0, from);
    MixedEnd(from, to, 256, to);
  }

  lemma MixedEnd(from: Pixel, to: Pixel, w: nat, end: Pixel)
    requires (w == 0 && end == from) || (w == 256 && end == to)
    ensures Mix(from, to, w) == end <==> Opaque(end)
  {
    MixChannel(from, to, w, Red);
    MixChannel(from, to, w, Green);
    MixChannel(from, to, w, Blue);
    EndChannel(Get(from, Red), Get(to, Red));
    EndChannel(Get(from, Green), Get(to, Green));
    EndChannel(Get(from, Blue), Get(to, Blue));
    MixOpaque(from, to, w);
    OpaqueIs(Mix(from, to, w), end);
  }

  lemma EndChannel(from: int, to: int)
    ensures Blended(from, to, 0) == from && Blended(from, to, 256) == to
  {
  }
}
