/**
 Pixels of every scene worked out on a sawtooth table, whose entry at an index is that index
 less 1024: no two lookups agree by accident, so each factor and shift has its say.
 */
module SceneSamples {
  import opened Canvas
  import opened SceneRows

  const SAW: Sines := seq(TABLE, (i: nat) => SawEntry(i))

  function SawEntry(i: nat): Sine {
    if i < 2048 then i - 1024 else 0
  }

  lemma SawAt(x: int, value: int)
    requires -1024 <= value < 1024 && (x - value - 1024) % TABLE == 0
    ensures Sin(SAW, x) == value
  {
    assert x % TABLE == value + 1024;
  }

  lemma CandySample()
    ensures Candy(SAW, 37, 141, 101) == Mixed(3, 4, 139) && Candy(SAW, 300, 10, 1777) == Mixed(0, 1, 183)
  {
    CandySampleEarly();
    CandySampleLate();
  }

  lemma CandySampleEarly()
    ensures Candy(SAW, 37, 141, 101) == Mixed(3, 4, 139)
  {
    var d := Distance(37, 141);
    assert d == 1108;
    SawAt(37 * 9 + 101 * 11, 420);
    SawAt(141 * 13 - 101 * 7, 102);
    SawAt(d * 5 + 101 * 17, 89);
    assert Band(d, 522, 101) == 3;
  }

  lemma CandySampleLate()
    ensures Candy(SAW, 300, 10, 1777) == Mixed(0, 1, 183)
  {
  }

  lemma CheckerSample()
    ensures Checker(SAW, 37, 141, 101) == Mixed(0, 2, 32) && Checker(SAW, 300, 10, 1777) == Mixed(4, 5, 42)
  {
  }

  lemma RibbonsSample()
    ensures Ribbons(SAW, 37, 141, 101) == Mixed(3, 1, 199) && Ribbons(SAW, 0, 56, 5) == Mixed(0, 2, 120)
    ensures Ribbons(SAW, 0, 47, 5) == Mixed(6, 2, 180)
  {
  }

  lemma ChromeSample()
    ensures Chrome(SAW, 37, 41) == Mixed(8, 0, 21) && Chrome(SAW, 300, 141) == Mixed(6, 8, 47) && Chrome(SAW, 10, 120) == Mixed(6, 8, 26)
    ensures Chrome(SAW, 37, 99) == Solid(2) && Chrome(SAW, 160, 100) == Solid(2)
  {
  }

  lemma SugarSample()
    ensures Sugar(SAW, 37, 141, 101) == Mixed(3, 0, 118)
  {
  }

  lemma SugarSampleLate()
    ensures Sugar(SAW, 300, 10, 1777) == Mixed(2, 4, 239)
  {
  }

  /** One more bubble's pull on the pixel. */
  lemma SawPull(i: nat, x: int, y: int, t: int, cx: int, cy: int, before: nat, pull: nat)
    requires Field(SAW, x, y, t, i) == before && BubbleX(SAW, t, i) == cx && BubbleY(SAW, t, i) == cy
    requires Pull(i, x - cx, y - cy) == pull
    ensures Field(SAW, x, y, t, i + 1) == before + pull
  {
  }

  /** Where a bubble is, from the two entries it looks up. */
  lemma CentreFrom(i: nat, t: int, a: Sine, b: Sine)
    requires Sin(SAW, i * 273 + (7 + i) * t) == a && Sin(SAW, i * 411 + (9 + i) * t) == b
    ensures BubbleX(SAW, t, i) == 160 + a * (45 + i * 5) / 1024 && BubbleY(SAW, t, i) == 90 + b * (28 + i * 4) / 1024
  {
  }

  lemma Centre0()
    ensures BubbleX(SAW, 100, 0) == 145 && BubbleY(SAW, 100, 0) == 86
  {
    SawAt(0 * 273 + (7 + 0) * 100, -324);
    SawAt(0 * 411 + (9 + 0) * 100, -124);
    CentreFrom(0, 100, -324, -124);
  }

  lemma Centre1()
    ensures BubbleX(SAW, 100, 1) == 162 && BubbleY(SAW, 100, 1) == 102
  {
    SawAt(1 * 273 + (7 + 1) * 100, 49);
    SawAt(1 * 411 + (9 + 1) * 100, 387);
    CentreFrom(1, 100, 49, 387);
  }

  lemma Centre2()
    ensures BubbleX(SAW, 100, 2) == 182 && BubbleY(SAW, 100, 2) == 121
  {
    SawAt(2 * 273 + (7 + 2) * 100, 422);
    SawAt(2 * 411 + (9 + 2) * 100, 898);
    CentreFrom(2, 100, 422, 898);
  }

  lemma Centre3()
    ensures BubbleX(SAW, 100, 3) == 206 && BubbleY(SAW, 100, 3) == 65
  {
    SawAt(3 * 273 + (7 + 3) * 100, 795);
    SawAt(3 * 411 + (9 + 3) * 100, -639);
    CentreFrom(3, 100, 795, -639);
  }

  lemma Centre4()
    ensures BubbleX(SAW, 100, 4) == 104 && BubbleY(SAW, 100, 4) == 84
  {
    SawAt(4 * 273 + (7 + 4) * 100, -880);
    SawAt(4 * 411 + (9 + 4) * 100, -128);
    CentreFrom(4, 100, -880, -128);
  }

  lemma Centre5()
    ensures BubbleX(SAW, 100, 5) == 125 && BubbleY(SAW, 100, 5) == 107
  {
    SawAt(5 * 273 + (7 + 5) * 100, -507);
    SawAt(5 * 411 + (9 + 5) * 100, 383);
    CentreFrom(5, 100, -507, 383);
  }

  lemma Centre6()
    ensures BubbleX(SAW, 100, 6) == 150 && BubbleY(SAW, 100, 6) == 135
  {
    SawAt(6 * 273 + (7 + 6) * 100, -134);
    SawAt(6 * 411 + (9 + 6) * 100, 894);
    CentreFrom(6, 100, -134, 894);
  }

  lemma BubbleCentres()
    ensures BubbleX(SAW, 100, 0) == 145 && BubbleY(SAW, 100, 0) == 86
    ensures BubbleX(SAW, 100, 1) == 162 && BubbleY(SAW, 100, 1) == 102
    ensures BubbleX(SAW, 100, 2) == 182 && BubbleY(SAW, 100, 2) == 121
    ensures BubbleX(SAW, 100, 3) == 206 && BubbleY(SAW, 100, 3) == 65
    ensures BubbleX(SAW, 100, 4) == 104 && BubbleY(SAW, 100, 4) == 84
    ensures BubbleX(SAW, 100, 5) == 125 && BubbleY(SAW, 100, 5) == 107
    ensures BubbleX(SAW, 100, 6) == 150 && BubbleY(SAW, 100, 6) == 135
  {
    Centre0();
    Centre1();
    Centre2();
    Centre3();
    Centre4();
    Centre5();
    Centre6();
  }

  lemma BubblePulls()
    ensures Pull(0, 25, 14) == 10 && Pull(1, 8, -2) == 112 && Pull(2, -12, -21) == 17 && Pull(3, -36, 35) == 4
    ensures Pull(4, 66, 16) == 2 && Pull(5, 45, -7) == 5 && Pull(6, 20, -35) == 8
  {
  }

  lemma FieldSample()
    ensures Field(SAW, 170, 100, 100, 7) == 158
  {
    BubbleCentres();
    BubblePulls();
    SawPull(0, 170, 100, 100, 145, 86, 0, 10);
    SawPull(1, 170, 100, 100, 162, 102, 10, 112);
    SawPull(2, 170, 100, 100, 182, 121, 122, 17);
    SawPull(3, 170, 100, 100, 206, 65, 139, 4);
    SawPull(4, 170, 100, 100, 104, 84, 143, 2);
    SawPull(5, 170, 100, 100, 125, 107, 145, 5);
    SawPull(6, 170, 100, 100, 150, 135, 150, 8);
  }

  lemma BubblesFrom(x: int, y: int, t: int, field: nat, sine: Sine)
    requires Field(SAW, x, y, t, BUBBLES) == field && Sin(SAW, x * 8 - y * 6 + t * 18) == sine
    ensures Bubbles(SAW, x, y, t) ==
            var wave := (sine + 1024) / 32; if field > 22 then Mixed(1, 5, (field * 9 + wave) % 256) else Mixed(8, 6, wave)
  {
  }

  lemma BubblesSample()
    ensures Bubbles(SAW, 170, 100, 100) == Mixed(1, 5, 158)
  {
    FieldSample();
    SawAt(170 * 8 - 100 * 6 + 100 * 18, -512);
    BubblesFrom(170, 100, 100, 158, -512);
  }

  lemma FarPulls()
    ensures Pull(0, -135, -76) == 0 && Pull(1, -152, -92) == 0 && Pull(2, -172, -111) == 0 && Pull(3, -196, -55) == 0
    ensures Pull(4, -94, -74) == 0 && Pull(5, -115, -97) == 0 && Pull(6, -140, -125) == 0
  {
  }

  lemma FarField()
    ensures Field(SAW, 10, 10, 100, 7) == 0
  {
    BubbleCentres();
    FarPulls();
    SawPull(0, 10, 10, 100, 145, 86, 0, 0);
    SawPull(1, 10, 10, 100, 162, 102, 0, 0);
    SawPull(2, 10, 10, 100, 182, 121, 0, 0);
    SawPull(3, 10, 10, 100, 206, 65, 0, 0);
    SawPull(4, 10, 10, 100, 104, 84, 0, 0);
    SawPull(5, 10, 10, 100, 125, 107, 0, 0);
    SawPull(6, 10, 10, 100, 150, 135, 0, 0);
  }

  lemma BubblesFarSample()
    ensures Bubbles(SAW, 10, 10, 100) == Mixed(8, 6, 56)
  {
    FarField();
    SawAt(10 * 8 - 10 * 6 + 100 * 18, 796);
    BubblesFrom(10, 10, 100, 0, 796);
  }

  /** One pixel of each scene by its number. */
  lemma SceneSample()
    ensures Scene(0, SAW, 37, 141, 101) == Mixed(3, 4, 139)
    ensures Scene(1, SAW, 37, 141, 101) == Mixed(0, 2, 32)
    ensures Scene(2, SAW, 170, 100, 100) == Mixed(1, 5, 158)
    ensures Scene(3, SAW, 0, 56, 5) == Mixed(0, 2, 120)
    ensures Scene(4, SAW, 300, 141, 0) == Mixed(6, 8, 47)
    ensures Scene(5, SAW, 37, 141, 101) == Mixed(3, 0, 118)
  {
    CandySample();
    CheckerSample();
    BubblesSample();
    RibbonsSample();
    ChromeSample();
    SugarSample();
  }
}
