/** All 26 blends as relations between two colours and a third, the whole-colour blends included: which colour gives
    luminosity, saturation and hue, and how a colour out of range is drawn back. */
module BlendColours {
  import opened Reals
  import opened Blends
  import opened BlendTable
  import opened Composite

  function Weighted(c: Triple): real {
    (30.0 * c[0] + 59.0 * c[1] + 11.0 * c[2]) / 100.0
  }

  function Far(x: real, y: real): real {
    if x < y then y - x else x - y
  }

  /** The largest distance between two channels. */
  function Span(c: Triple): real {
    Greater(Greater(Far(c[0], c[1]), Far(c[1], c[2])), Far(c[0], c[2]))
  }

  /** The colour of the given luminosity whose channels lie about it as those of `hue` lie about its own, q times as
      far. */
  function Aim(l: real, hue: Triple, q: real): Triple {
    var w := Weighted(hue);
    [l + Times(q, hue[0] - w), l + Times(q, hue[1] - w), l + Times(q, hue[2] - w)]
  }

  /** f is as far as the colour goes, from its luminosity l towards itself, without a channel below 0. */
  predicate StaysAbove(l: real, c: Triple, f: real) {
    && Unit(f) && (forall k :: 0 <= k < 3 ==> Toward(l, c[k], f) >= 0.0)
    && (f < 1.0 ==> exists k :: 0 <= k < 3 && c[k] < l && Toward(l, c[k], f) == 0.0)
  }

  /** g is as far as it goes without a channel above 1. */
  predicate StaysBelow(l: real, c: Triple, g: real) {
    && Unit(g) && (forall k :: 0 <= k < 3 ==> Toward(l, c[k], g) <= 1.0)
    && (g < 1.0 ==> exists k :: 0 <= k < 3 && c[k] > l && Toward(l, c[k], g) == 1.0)
  }

  /** `out` has the luminosity of one colour, the hue of another and the span of a third: scaled to that span, and
      drawn back towards the luminosity as far as its lowest channel needs, and again as far as its highest did. */
  predicate Recoloured(out: Triple, lum: Triple, sat: Triple, hue: Triple, q: real, f: real, g: real) {
    var l := Weighted(lum);
    var aim := Aim(l, hue, q);
    && InRange(out) && Weighted(out) == l
    && q >= 0.0 && (Span(hue) > 0.0 ==> q * Span(hue) == Span(sat))
    && StaysAbove(l, aim, f) && StaysBelow(l, aim, g)
    && out == [Toward(l, aim[0], f * g), Toward(l, aim[1], f * g), Toward(l, aim[2], f * g)]
  }

  /** What the result r of a blend is to the backdrop cb and the source cs. */
  ghost predicate BlendOf(sqrt: real -> real, m: Blend, cb: Triple, cs: Triple, r: Triple) {
    match m
    case HueBlend => exists q, f, g :: Recoloured(r, cb, cb, cs, q, f, g)
    case SaturationBlend => exists q, f, g :: Recoloured(r, cb, cs, cb, q, f, g)
    case ColorBlend => exists q, f, g :: Recoloured(r, cb, cs, cs, q, f, g)
    case LuminosityBlend => exists q, f, g :: Recoloured(r, cs, cb, cb, q, f, g)
    case DarkerColorBlend => r == if Weighted(cs) < Weighted(cb) - 1.0 / 32768.0 then cs else cb
    case LighterColorBlend => r == if Weighted(cs) > Weighted(cb) + 1.0 / 32768.0 then cs else cb
    case _ =>
      && Blended(sqrt, m, cb[0], cs[0], r[0]) && Blended(sqrt, m, cb[1], cs[1], r[1])
      && Blended(sqrt, m, cb[2], cs[2], r[2])
  }

  lemma LumIsWeighted(c: Triple)
    ensures Lum(c) == Weighted(c)
  {
  }

  lemma SatIsSpan(c: Triple)
    ensures Sat(c) == Span(c) >= 0.0
  {
  }

  lemma TowardTwice(l: real, v: real, f: real, g: real)
    ensures Toward(l, Toward(l, v, f), g) == Toward(l, v, f * g)
  {
  }

  lemma TowardAll(l: real, v: real)
    ensures Toward(l, v, 1.0) == v
  {
  }

  /** A pull draws every channel towards l by one factor. */
  lemma PullOnce(c: Triple, l: real, p: real, q: real) returns (f: real)
    requires 0.0 <= p <= q && q > 0.0
    ensures f == p / q && PullAll(c, l, p, q) == [Toward(l, c[0], f), Toward(l, c[1], f), Toward(l, c[2], f)]
  {
    f := p / q;
    Quotient(p, q);
    PullIsToward(c[0], l, p, q);
    PullIsToward(c[1], l, p, q);
    PullIsToward(c[2], l, p, q);
    hide Pull, Toward;
  }

  lemma PullIsToward(v: real, l: real, p: real, q: real)
    requires q != 0.0
    ensures Pull(v, l, p, q) == Toward(l, v, p / q)
  {
    PullIsScaled(v, l, p, q);
    hide Pull;
  }

  lemma ClipScales(c: Triple) returns (f: real, g: real)
    requires Unit(Lum(c))
    ensures Clippable(c) && StaysAbove(Lum(c), c, f) && StaysBelow(Lum(c), c, g)
    ensures ClipColor(c) == [Toward(Lum(c), c[0], f * g), Toward(Lum(c), c[1], f * g), Toward(Lum(c), c[2], f * g)]
  {
    hide Lum, PullAll, Toward, StaysAbove, StaysBelow;
    ClipInRange(c);
    LumBetween(c);
    var l, n, x := Lum(c), MinOf(c), MaxOf(c);
    var low: Triple := c;
    f, g := 1.0, 1.0;
    if n < 0.0 {
      f := PullOnce(c, l, l, l - n);
      low := PullAll(c, l, l, l - n);
      ReachesZero(c, l, f);
    } else {
      AllToward(l, c);
      NothingBelow(c, l);
    }
    var out: Triple := low;
    if x > 1.0 {
      g := PullOnce(low, l, 1.0 - l, x - l);
      out := PullAll(low, l, 1.0 - l, x - l);
      ReachesOne(c, l, g);
    } else {
      AllToward(l, low);
      NothingAbove(c, l);
    }
    TowardTwice(l, c[0], f, g);
    TowardTwice(l, c[1], f, g);
    TowardTwice(l, c[2], f, g);
  }

  /** Drawing the least channel to 0 leaves none below. */
  lemma ReachesZero(c: Triple, l: real, f: real)
    requires Unit(l) && MinOf(c) < 0.0 && f == l / (l - MinOf(c))
    ensures StaysAbove(l, c, f)
  {
    hide Toward;
    Quotient(l, l - MinOf(c));
    forall k | 0 <= k < 3
      ensures Toward(l, c[k], f) >= 0.0 && (c[k] == MinOf(c) ==> Toward(l, c[k], f) == 0.0)
    {
      NoLower(MinOf(c), c[k], l, f);
    }
    var k := if c[0] == MinOf(c) then 0 else if c[1] == MinOf(c) then 1 else 2;
    assert c[k] < l && Toward(l, c[k], f) == 0.0;
  }

  lemma NoLower(n: real, v: real, l: real, f: real)
    requires 0.0 <= f && n <= v && f * (l - n) == l
    ensures Toward(l, v, f) >= 0.0 && (v == n ==> Toward(l, v, f) == 0.0)
  {
    Scale(l - v, l - n, f);
    assert Toward(l, v, f) == l - (l - v) * f;
  }

  /** Drawing the greatest channel to 1 leaves none above. */
  lemma ReachesOne(c: Triple, l: real, g: real)
    requires Unit(l) && MaxOf(c) > 1.0 && g == (1.0 - l) / (MaxOf(c) - l)
    ensures StaysBelow(l, c, g)
  {
    hide Toward;
    Quotient(1.0 - l, MaxOf(c) - l);
    forall k | 0 <= k < 3
      ensures Toward(l, c[k], g) <= 1.0 && (c[k] == MaxOf(c) ==> Toward(l, c[k], g) == 1.0)
    {
      NoHigher(MaxOf(c), c[k], l, g);
    }
    var k := if c[0] == MaxOf(c) then 0 else if c[1] == MaxOf(c) then 1 else 2;
    assert c[k] > l && Toward(l, c[k], g) == 1.0;
  }

  lemma NoHigher(x: real, v: real, l: real, g: real)
    requires 0.0 <= g && v <= x && g * (x - l) == 1.0 - l
    ensures Toward(l, v, g) <= 1.0 && (v == x ==> Toward(l, v, g) == 1.0)
  {
    Scale(v - l, x - l, g);
    assert Toward(l, v, g) == l + (v - l) * g;
  }

  lemma NothingBelow(c: Triple, l: real)
    requires MinOf(c) >= 0.0
    ensures StaysAbove(l, c, 1.0)
  {
  }

  lemma NothingAbove(c: Triple, l: real)
    requires MaxOf(c) <= 1.0
    ensures StaysBelow(l, c, 1.0)
  {
  }

  lemma AllToward(l: real, c: Triple)
    ensures c == [Toward(l, c[0], 1.0), Toward(l, c[1], 1.0), Toward(l, c[2], 1.0)]
  {
    TowardAll(l, c[0]);
    TowardAll(l, c[1]);
    TowardAll(l, c[2]);
    hide Toward;
  }

  lemma SetLumScales(c: Triple, l: real) returns (f: real, g: real)
    requires Unit(l)
    ensures var s := Shift(c, l - Lum(c));
            && InRange(SetLum(c, l)) && Lum(SetLum(c, l)) == l && StaysAbove(l, s, f) && StaysBelow(l, s, g)
            && SetLum(c, l) == [Toward(l, s[0], f * g), Toward(l, s[1], f * g), Toward(l, s[2], f * g)]
  {
    hide Lum, ClipColor, Clippable, Toward, StaysAbove, StaysBelow;
    ShiftLum(c, l - Lum(c));
    f, g := ClipScales(Shift(c, l - Lum(c)));
    SetLumIsExact(c, l);
  }

  /** Set-saturation scales every offset from the luminosity by one factor. */
  lemma SetSatScales(c: Triple, s: real) returns (q: real)
    requires s >= 0.0
    ensures q >= 0.0 && (Sat(c) > 0.0 ==> q * Sat(c) == s)
    ensures forall k :: 0 <= k < 3 ==> SetSat(c, s)[k] - Lum(SetSat(c, s)) == Times(q, c[k] - Lum(c))
  {
    hide Stretched, SetSat, Lum, Times;
    q := 0.0;
    LumBetween(c);
    if MinOf(c) < MaxOf(c) {
      q := Ratio(s, MaxOf(c) - MinOf(c));
    }
    SetSatOffset(c, s, q, 0);
    SetSatOffset(c, s, q, 1);
    SetSatOffset(c, s, q, 2);
    var d := SetSat(c, s);
    OffsetScales(d, c, MinOf(c), q);
  }

  lemma Ratio(s: real, d: real) returns (q: real)
    requires s >= 0.0 && d > 0.0
    ensures q == s / d && q >= 0.0 && q * d == s
  {
    q := s / d;
    AboveOne(s, d);
    Sign(q, d);
  }

  lemma SetSatOffset(c: Triple, s: real, q: real, k: int)
    requires 0 <= k < 3 && (MinOf(c) < MaxOf(c) ==> q == s / (MaxOf(c) - MinOf(c)))
    ensures SetSat(c, s)[k] == Times(q, c[k] - MinOf(c))
  {
    hide SetSat;
    SetSatIsLinear(c, s, k);
    if MinOf(c) < MaxOf(c) {
      StretchIsScaled(c[k], MinOf(c), MaxOf(c), s);
    } else {
      assert c[k] - MinOf(c) == 0.0;
    }
    hide Stretched;
  }

  lemma StretchIsScaled(v: real, lo: real, hi: real, s: real)
    requires lo < hi
    ensures Stretched(v, lo, hi, s) == Times(s / (hi - lo), v - lo)
  {
  }

  lemma OffsetScales(d: Triple, c: Triple, lo: real, q: real)
    requires forall k :: 0 <= k < 3 ==> d[k] == Times(q, c[k] - lo)
    ensures forall k :: 0 <= k < 3 ==> d[k] - Lum(d) == Times(q, c[k] - Lum(c))
  {
    var x, y, z := Times(q, c[0]), Times(q, c[1]), Times(q, c[2]);
    assert d[0] == x - q * lo && d[1] == y - q * lo && d[2] == z - q * lo;
    assert Lum(d) == 0.3 * x + 0.59 * y + 0.11 * z - q * lo;
    TimesLum(q, c);
    forall k | 0 <= k < 3
      ensures d[k] - Lum(d) == Times(q, c[k] - Lum(c))
    {
      TimesLess(Lum(c), c[k], q);
    }
  }

  lemma TimesLum(q: real, c: Triple)
    ensures Times(q, Lum(c)) == 0.3 * Times(q, c[0]) + 0.59 * Times(q, c[1]) + 0.11 * Times(q, c[2])
  {
  }

  lemma AimIsShifted(c: Triple, hue: Triple, l: real, q: real)
    requires forall k :: 0 <= k < 3 ==> c[k] - Lum(c) == Times(q, hue[k] - Lum(hue))
    ensures Shift(c, l - Lum(c)) == Aim(l, hue, q)
  {
    hide Lum, Weighted, Times;
    LumIsWeighted(hue);
    var d := l - Lum(c);
    assert c[0] + d == l + Times(q, hue[0] - Lum(hue));
    assert c[1] + d == l + Times(q, hue[1] - Lum(hue));
    assert c[2] + d == l + Times(q, hue[2] - Lum(hue));
  }

  /** Setting the saturation and then the luminosity of a colour. */
  lemma RecolouredBySatAndLum(lum: Triple, sat: Triple, hue: Triple) returns (q: real, f: real, g: real)
    requires Unit(Lum(lum))
    ensures Recoloured(SetLum(SetSat(hue, Sat(sat)), Lum(lum)), lum, sat, hue, q, f, g)
  {
    hide SetLum, SetSat, Lum, Sat, Weighted, Span, Times, Toward, Aim, Shift, StaysAbove, StaysBelow;
    LumIsWeighted(lum);
    SatIsSpan(hue);
    SatIsSpan(sat);
    q := SetSatScales(hue, Sat(sat));
    var c := SetSat(hue, Sat(sat));
    f, g := SetLumScales(c, Lum(lum));
    AimIsShifted(c, hue, Lum(lum), q);
    LumIsWeighted(SetLum(c, Lum(lum)));
  }

  /** Setting the luminosity of a colour alone keeps its saturation with its hue. */
  lemma RecolouredByLum(lum: Triple, hue: Triple) returns (f: real, g: real)
    requires Unit(Lum(lum))
    ensures Recoloured(SetLum(hue, Lum(lum)), lum, hue, hue, 1.0, f, g)
  {
    hide SetLum, Lum, Weighted, Span, Toward, Aim, Shift, StaysAbove, StaysBelow;
    LumIsWeighted(lum);
    f, g := SetLumScales(hue, Lum(lum));
    OnceItself(hue);
    AimIsShifted(hue, hue, Lum(lum), 1.0);
    LumIsWeighted(SetLum(hue, Lum(lum)));
  }

  lemma OnceItself(c: Triple)
    ensures forall k :: 0 <= k < 3 ==> c[k] - Lum(c) == Times(1.0, c[k] - Lum(c))
  {
    hide Lum;
  }

  /** Every blend is computed as its relation says. */
  lemma ApplyIsBlendOf(sqrt: real -> real, m: Blend, cb: Triple, cs: Triple)
    requires InRange(cb) && InRange(cs)
    ensures BlendOf(sqrt, m, cb, cs, Apply(sqrt, m, cb, cs))
  {
    hide Channel, Blended, SetLum, SetSat, Sat, Lum, Weighted, Recoloured;
    LumInRange(cb);
    LumInRange(cs);
    match m
    case HueBlend => var _, _, _ := RecolouredBySatAndLum(cb, cb, cs);
    case SaturationBlend => var _, _, _ := RecolouredBySatAndLum(cb, cs, cb);
    case ColorBlend => var _, _ := RecolouredByLum(cb, cs);
    case LuminosityBlend => var _, _ := RecolouredByLum(cs, cb);
    case DarkerColorBlend =>
      LumIsWeighted(cb);
      LumIsWeighted(cs);
    case LighterColorBlend =>
      LumIsWeighted(cb);
      LumIsWeighted(cs);
    case _ =>
      ChannelIsBlended(sqrt, m, cb[0], cs[0]);
      ChannelIsBlended(sqrt, m, cb[1], cs[1]);
      ChannelIsBlended(sqrt, m, cb[2], cs[2]);
  }

  // ---- one result ------------------------------------------------------------------------------

  /** The relation leaves every blend, whole-colour ones included, one result. */
  lemma BlendOfIsOne(sqrt: real -> real, m: Blend, cb: Triple, cs: Triple, r: Triple, r': Triple)
    requires InRange(cb) && InRange(cs) && BlendOf(sqrt, m, cb, cs, r) && BlendOf(sqrt, m, cb, cs, r')
    ensures r == r'
  {
    hide Blended, Recoloured, Weighted;
    match m
    case HueBlend => RecolouredOnce(r, r', cb, cb, cs);
    case SaturationBlend => RecolouredOnce(r, r', cb, cs, cb);
    case ColorBlend => RecolouredOnce(r, r', cb, cs, cs);
    case LuminosityBlend => RecolouredOnce(r, r', cs, cb, cb);
    case DarkerColorBlend =>
    case LighterColorBlend =>
    case _ =>
      BlendedIsOne(sqrt, m, cb[0], cs[0], r[0], r'[0]);
      BlendedIsOne(sqrt, m, cb[1], cs[1], r[1], r'[1]);
      BlendedIsOne(sqrt, m, cb[2], cs[2], r[2], r'[2]);
  }

  lemma RecolouredOnce(r: Triple, r': Triple, lum: Triple, sat: Triple, hue: Triple)
    requires exists q, f, g :: Recoloured(r, lum, sat, hue, q, f, g)
    requires exists q, f, g :: Recoloured(r', lum, sat, hue, q, f, g)
    ensures r == r'
  {
    hide Weighted, Span, Toward, StaysAbove, StaysBelow, Aim;
    var q, f, g :| Recoloured(r, lum, sat, hue, q, f, g);
    var q', f', g' :| Recoloured(r', lum, sat, hue, q', f', g');
    var l := Weighted(lum);
    AimOnce(l, sat, hue, q, q');
    NoFurtherAbove(l, Aim(l, hue, q), f, f');
    NoFurtherAbove(l, Aim(l, hue, q), f', f);
    NoFurtherBelow(l, Aim(l, hue, q), g, g');
    NoFurtherBelow(l, Aim(l, hue, q), g', g);
    SameColour(r, r', l, Aim(l, hue, q), f, f', g, g');
  }

  lemma SameColour(r: Triple, r': Triple, l: real, c: Triple, f: real, f': real, g: real, g': real)
    requires f == f' && g == g'
    requires r == [Toward(l, c[0], f * g), Toward(l, c[1], f * g), Toward(l, c[2], f * g)]
    requires r' == [Toward(l, c[0], f' * g'), Toward(l, c[1], f' * g'), Toward(l, c[2], f' * g')]
    ensures r == r'
  {
    hide Toward, Times;
    TimesIs(f, g);
    TimesIs(f', g');
    assert r[0] == r'[0] && r[1] == r'[1] && r[2] == r'[2];
  }

  lemma TimesIs(a: real, b: real)
    ensures a * b == Times(a, b)
  {
  }

  lemma AimOnce(l: real, sat: Triple, hue: Triple, q: real, q': real)
    requires Span(hue) > 0.0 ==> q * Span(hue) == Span(sat) && q' * Span(hue) == Span(sat)
    ensures Aim(l, hue, q) == Aim(l, hue, q')
  {
    hide Span, Weighted, Times;
    if Span(hue) > 0.0 {
      SameFactor(q, q', Span(hue), Span(sat));
    } else {
      FlatHue(hue);
      TimesLess(hue[0], hue[0], q);
      TimesLess(hue[0], hue[0], q');
    }
  }

  lemma FlatHue(hue: Triple)
    requires Span(hue) <= 0.0
    ensures hue[0] == hue[1] == hue[2] == Weighted(hue)
  {
  }

  lemma NoFurtherAbove(l: real, c: Triple, f: real, f': real)
    requires StaysAbove(l, c, f) && StaysAbove(l, c, f')
    ensures f' <= f
  {
    hide Toward;
    if f < f' {
      var k :| 0 <= k < 3 && c[k] < l && Toward(l, c[k], f) == 0.0;
      FurtherDown(l, c[k], f, f');
    }
  }

  lemma NoFurtherBelow(l: real, c: Triple, g: real, g': real)
    requires StaysBelow(l, c, g) && StaysBelow(l, c, g')
    ensures g' <= g
  {
    hide Toward;
    if g < g' {
      var k :| 0 <= k < 3 && c[k] > l && Toward(l, c[k], g) == 1.0;
      FurtherUp(l, c[k], g, g');
    }
  }

  lemma FurtherDown(l: real, v: real, f: real, f': real)
    requires v < l && f < f'
    ensures Toward(l, v, f') < Toward(l, v, f)
  {
    TimesPositive(f' - f, l - v);
    assert Toward(l, v, f) - Toward(l, v, f') == (f' - f) * (l - v);
  }

  lemma FurtherUp(l: real, v: real, f: real, f': real)
    requires v > l && f < f'
    ensures Toward(l, v, f') > Toward(l, v, f)
  {
    TimesPositive(f' - f, v - l);
    assert Toward(l, v, f') - Toward(l, v, f) == (f' - f) * (v - l);
  }
}
