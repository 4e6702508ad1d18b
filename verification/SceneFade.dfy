/** The display loop with the animated backgrounds as its renderer. */
module SceneFade {
  import opened Canvas
  import opened Transition
  import opened SceneRows
  import opened DisplayLoop

  const PIXELS: nat := 57600

  /** All rows of a scene on a frame number. */
  function Background(sines: Sines, scene: nat, number: nat): (r: Image)
    ensures |r| == PIXELS
  {
    seq(PIXELS, (i: nat) => PixelAt(scene, sines, number, i))
  }

  function Backgrounds(sines: Sines): Renderer {
    (scene: nat, number: nat) => Background(sines, scene, number)
  }

  /** Six entries of the table, `(int)(sinf(index * 2 pi / 2048) * 1024)`. */
  predicate SineEntries(sines: Sines) {
    && sines[1989] == -184 && sines[689] == 876 && sines[1590] == -1009
    && sines[106] == 327 && sines[584] == 999 && sines[1845] == -597
  }

  /** Column 221 of row 53. */
  const SPOT: nat := 53 * 320 + 221

  /** A pixel of the candy scene from the table entries it looks up. */
  lemma CandyFrom(sines: Sines, x: int, y: int, t: int, d: int, a: Sine, b: Sine, c: Sine)
    requires d == SceneRows.Distance(x, y)
    requires a == Sin(sines, x * 9 + t * 11) && b == Sin(sines, y * 13 - t * 7) && c == Sin(sines, d * 5 + t * 17)
    ensures Candy(sines, x, y, t) == Mixed(Band(d, a + b, t) % 5, (Band(d, a + b, t) + 1) % 5, (c + 1024) / 8)
  {
  }

  lemma SinAt(sines: Sines, x: int, index: nat)
    requires index < TABLE && x % TABLE == index
    ensures Sin(sines, x) == sines[index]
  {
  }

  /** The candy scene is deep blue there on frame 0. */
  lemma SpotBefore(sines: Sines)
    requires SineEntries(sines)
    ensures Candy(sines, 221, 53, 0) == Mixed(4, 0, 1)
  {
    SinAt(sines, 221 * 9 + 0 * 11, 1989);
    SinAt(sines, 53 * 13 - 0 * 7, 689);
    SinAt(sines, 318 * 5 + 0 * 17, 1590);
    CandyFrom(sines, 221, 53, 0, 318, -184, 876, -1009);
  }

  /** Half a second on it is pink. */
  lemma SpotAfter(sines: Sines)
    requires SineEntries(sines)
    ensures Candy(sines, 221, 53, 15) == Mixed(0, 1, 53)
  {
    SinAt(sines, 221 * 9 + 15 * 11, 106);
    SinAt(sines, 53 * 13 - 15 * 7, 584);
    SinAt(sines, 318 * 5 + 15 * 17, 1845);
    CandyFrom(sines, 221, 53, 15, 318, 327, 999, -597);
  }

  /** The red there on any frame, from the shade and the red of its two palette entries. */
  lemma SpotRed(sines: Sines, frame: nat, a: nat, b: nat, w: nat, from: nat, to: nat)
    requires a < |PALETTE| && b < |PALETTE| && w <= 256 && Candy(sines, 221, 53, frame) == Mixed(a, b, w)
    requires Get(PALETTE[a], Red) == from && Get(PALETTE[b], Red) == to
    ensures Get(Background(sines, 0, frame)[SPOT], Red) == Blended(from, to, w)
  {
    PixelAtRow(0, sines, frame, 221, 53);
    MixChannel(PALETTE[a], PALETTE[b], w, Red);
  }

  lemma PaletteReds()
    ensures Get(PALETTE[4], Red) == 73 && Get(PALETTE[0], Red) == 245 && Get(PALETTE[1], Red) == 255
  {
  }

  lemma BlendedReds()
    ensures Blended(73, 245, 1) == 73 && Blended(245, 255, 53) == 247
  {
  }

  /**
   A fade into the candy scene sampled on frame 0 ends on frame 15: at one pixel the frame after
   its last step jumps by at least 171 of 255 levels of red.
   */
  lemma FadeExitCanJump(sines: Sines)
    requires SineEntries(sines)
    ensures var render, f, g := Backgrounds(sines), Fading(1, 0, FRAMES - 1, 0), Steady(0, 15);
            && Sized(render, PIXELS) && Follows(f, g)
            && Get(Picture(render, g)[SPOT], Red) == 247 && Get(Picture(render, f)[SPOT], Red) <= 76
  {
    var render, f, g := Backgrounds(sines), Fading(1, 0, FRAMES - 1, 0), Steady(0, 15);
    SpotBefore(sines);
    SpotAfter(sines);
    PaletteReds();
    BlendedReds();
    SpotRed(sines, 0, 4, 0, 1, 73, 245);
    SpotRed(sines, 15, 0, 1, 53, 245, 255);
    FadeExitIsDrift(render, PIXELS, f, g, SPOT, Red);
  }
}
