/** The 26 blend functions over exact colours, and the facts that keep them inside the unit range
    (W3C Compositing and Blending Level 1, section 10, and the extended Photoshop set). */
module Blends {
  import opened Basics
  import opened Reals

  type Triple = c: seq<real> | |c| == 3 witness [0.0, 0.0, 0.0]

  predicate Unit(v: real) {
    0.0 <= v <= 1.0
  }

  predicate InRange(c: Triple) {
    Unit(c[0]) && Unit(c[1]) && Unit(c[2])
  }

  function Lesser(a: real, b: real): real {
    if a < b then a else b
  }

  function Greater(a: real, b: real): real {
    if a < b then b else a
  }

  // ---- separable blends ------------------------------------------------------------------

  function Multiply(cb: real, cs: real): real {
    cb * cs
  }

  function Screen(cb: real, cs: real): real {
    cb + cs - cb * cs
  }

  function HardLight(cb: real, cs: real): real {
    if cs <= 0.5 then Multiply(cb, 2.0 * cs) else Screen(cb, 2.0 * cs - 1.0)
  }

  function Overlay(cb: real, cs: real): real {
    HardLight(cs, cb)
  }

  function ColorDodge(cb: real, cs: real): real {
    if cb == 0.0 then 0.0 else if cs == 1.0 then 1.0 else Lesser(1.0, cb / (1.0 - cs))
  }

  function ColorBurn(cb: real, cs: real): real {
    if cs == 0.0 then 0.0 else if cb == 1.0 then 1.0 else 1.0 - Lesser(1.0, (1.0 - cb) / cs)
  }

  /** The curve soft light bends a backdrop towards. */
  function SoftCurve(sqrt: real -> real, cb: real): real {
    if cb <= 0.25 then ((16.0 * cb - 12.0) * cb + 4.0) * cb else sqrt(cb)
  }

  function SoftLight(sqrt: real -> real, cb: real, cs: real): real {
    if cs <= 0.5 then cb - (1.0 - 2.0 * cs) * cb * (1.0 - cb)
    else cb + (2.0 * cs - 1.0) * (SoftCurve(sqrt, cb) - cb)
  }

  function Difference(cb: real, cs: real): real {
    if cb - cs < 0.0 then cs - cb else cb - cs
  }

  function Exclusion(cb: real, cs: real): real {
    cb + cs - 2.0 * cb * cs
  }

  function LinearBurn(cb: real, cs: real): real {
    Greater(cb + cs - 1.0, 0.0)
  }

  function LinearDodge(cb: real, cs: real): real {
    Lesser(cb + cs, 1.0)
  }

  function VividLight(cb: real, cs: real): real {
    if cs <= 0.5 then ColorBurn(cb, 2.0 * cs) else ColorDodge(cb, 2.0 * cs - 1.0)
  }

  function LinearLight(cb: real, cs: real): real {
    Lesser(Greater(cb + 2.0 * cs - 1.0, 0.0), 1.0)
  }

  function PinLight(cb: real, cs: real): real {
    if cs <= 0.5 then Lesser(cb, 2.0 * cs) else Greater(cb, 2.0 * cs - 1.0)
  }

  function HardMix(cb: real, cs: real): real {
    if cb + cs > 1.0 + 1.0 / 512.0 then 1.0 else 0.0
  }

  function Subtract(cb: real, cs: real): real {
    Greater(cb - cs, 0.0)
  }

  function Divide(cb: real, cs: real): real {
    if cs == 0.0 then if cb == 0.0 then 0.0 else 1.0 else Lesser(cb / cs, 1.0)
  }

  // ---- whole-colour blends -----------------------------------------------------------------

  function Lum(c: Triple): real {
    0.3 * c[0] + 0.59 * c[1] + 0.11 * c[2]
  }

  function MinOf(c: Triple): real {
    Lesser(Lesser(c[0], c[1]), c[2])
  }

  function MaxOf(c: Triple): real {
    Greater(Greater(c[0], c[1]), c[2])
  }

  /** A channel pulled towards l by the factor p / q. */
  function Pull(v: real, l: real, p: real, q: real): real
    requires q != 0.0
  {
    l + (v - l) * p / q
  }

  function PullAll(c: Triple, l: real, p: real, q: real): Triple
    requires q != 0.0
  {
    [Pull(c[0], l, p, q), Pull(c[1], l, p, q), Pull(c[2], l, p, q)]
  }

  /** No pull divides by zero. */
  predicate Clippable(c: Triple) {
    (MinOf(c) < 0.0 ==> MinOf(c) < Lum(c)) && (MaxOf(c) > 1.0 ==> Lum(c) < MaxOf(c))
  }

  /** Both pulls use the luminosity, minimum and maximum of the colour as it came in. */
  function ClipColor(c: Triple): Triple
    requires Clippable(c)
  {
    var l, n, x := Lum(c), MinOf(c), MaxOf(c);
    var low := if n < 0.0 then PullAll(c, l, l, l - n) else c;
    if x > 1.0 then PullAll(low, l, 1.0 - l, x - l) else low
  }

  function Shift(c: Triple, d: real): Triple {
    [c[0] + d, c[1] + d, c[2] + d]
  }

  function SetLum(c: Triple, l: real): Triple
    requires Unit(l)
  {
    ShiftLum(c, l - Lum(c));
    LumBetween(Shift(c, l - Lum(c)));
    ClipColor(Shift(c, l - Lum(c)))
  }

  function Sat(c: Triple): real {
    MaxOf(c) - MinOf(c)
  }

  /** Channel i ranks at or above channel j; equal channels rank by index. */
  predicate Ranks(c: Triple, i: int, j: int)
    requires 0 <= i < 3 && 0 <= j < 3
  {
    c[i] > c[j] || (c[i] == c[j] && i >= j)
  }

  function TopIndex(c: Triple): (i: int)
    ensures 0 <= i < 3
  {
    if Ranks(c, 0, 1) && Ranks(c, 0, 2) then 0 else if Ranks(c, 1, 0) && Ranks(c, 1, 2) then 1 else 2
  }

  function BottomIndex(c: Triple): (i: int)
    ensures 0 <= i < 3
  {
    if Ranks(c, 1, 0) && Ranks(c, 2, 0) then 0 else if Ranks(c, 0, 1) && Ranks(c, 2, 1) then 1 else 2
  }

  /** The three ranks are three different channels. */
  lemma RanksArePermutation(c: Triple)
    ensures TopIndex(c) != BottomIndex(c)
    ensures var mid := 3 - TopIndex(c) - BottomIndex(c); 0 <= mid < 3 && mid != TopIndex(c) && mid != BottomIndex(c)
    ensures c[TopIndex(c)] == MaxOf(c) && c[BottomIndex(c)] == MinOf(c)
  {
  }

  /** A channel between lo and hi stretched to lie between 0 and s. */
  function Stretched(v: real, lo: real, hi: real, s: real): real
    requires lo < hi
  {
    (v - lo) * s / (hi - lo)
  }

  /** Stretches a colour's channels to run from 0 to s: a flat colour goes to black. */
  function SetSat(c: Triple, s: real): Triple {
    RanksArePermutation(c);
    var top, bottom := TopIndex(c), BottomIndex(c);
    var mid := 3 - top - bottom;
    var black: Triple := [0.0, 0.0, 0.0];
    if c[top] > c[bottom] then black[mid := Stretched(c[mid], c[bottom], c[top], s)][top := s] else black
  }

  function Hue(cb: Triple, cs: Triple): Triple
    requires Unit(Lum(cb))
  {
    SetLum(SetSat(cs, Sat(cb)), Lum(cb))
  }

  function Saturation(cb: Triple, cs: Triple): Triple
    requires Unit(Lum(cb))
  {
    SetLum(SetSat(cb, Sat(cs)), Lum(cb))
  }

  function Color(cb: Triple, cs: Triple): Triple
    requires Unit(Lum(cb))
  {
    SetLum(cs, Lum(cb))
  }

  function Luminosity(cb: Triple, cs: Triple): Triple
    requires Unit(Lum(cs))
  {
    SetLum(cb, Lum(cs))
  }

  const COLOR_TIE := 1.0 / 32768.0

  function DarkerColor(cb: Triple, cs: Triple): Triple {
    if Lum(cs) < Lum(cb) - COLOR_TIE then cs else cb
  }

  function LighterColor(cb: Triple, cs: Triple): Triple {
    if Lum(cs) > Lum(cb) + COLOR_TIE then cs else cb
  }

  // ---- real arithmetic ---------------------------------------------------------------------

  lemma TimesOfComplements(a: real, t: real)
    ensures Times(1.0 - a, 1.0 - t) == 1.0 - a - t + Times(a, t)
  {
  }

  lemma WeightedStays(a: real, b: real, t: real)
    requires Unit(a) && Unit(b) && Unit(t)
    ensures Unit(a - Times(a, t) + Times(b, t))
  {
    hide Times;
    TimesShrinks(a, t);
    TimesShrinks(b, t);
    TimesShrinks(1.0 - a, 1.0 - t);
    TimesOfComplements(a, t);
  }

  /** A point between two numbers of the unit range lies in it. */
  lemma Between(a: real, b: real, t: real)
    requires Unit(a) && Unit(b) && Unit(t)
    ensures Unit(a + t * (b - a))
  {
    WeightedStays(a, b, t);
    assert a + t * (b - a) == a - Times(a, t) + Times(b, t);
  }

  lemma Quotient(a: real, b: real)
    requires a >= 0.0 && b > 0.0
    ensures a / b >= 0.0 && (a <= b ==> a / b <= 1.0) && a / b * b == a
  {
    var q := a / b;
    assert q * b == a;
    Sign(q, b);
    assert (1.0 - q) * b == b - a;
    if a <= b {
      Sign(1.0 - q, b);
    }
  }

  lemma Sign(q: real, b: real)
    requires b > 0.0 && q * b >= 0.0
    ensures q >= 0.0
  {
  }

  // ---- luminosity --------------------------------------------------------------------------

  lemma LumBetween(c: Triple)
    ensures MinOf(c) <= Lum(c) <= MaxOf(c)
  {
  }

  lemma ShiftLum(c: Triple, d: real)
    ensures Lum(Shift(c, d)) == Lum(c) + d
  {
  }

  lemma PullIsScaled(v: real, l: real, p: real, q: real)
    requires q != 0.0
    ensures Pull(v, l, p, q) == l + (v - l) * (p / q)
  {
  }

  /** Pulling every channel towards the luminosity keeps it. */
  lemma PullKeepsLum(c: Triple, p: real, q: real)
    requires q != 0.0
    ensures Lum(PullAll(c, Lum(c), p, q)) == Lum(c)
  {
  }

  // ---- every separable blend stays in the unit range -----------------------------------------

  lemma ScreenStays(cb: real, cs: real)
    requires Unit(cb) && Unit(cs)
    ensures Unit(Screen(cb, cs))
  {
    Between(cb, 1.0, cs);
    assert Screen(cb, cs) == cb + cs * (1.0 - cb);
  }

  lemma HardLightStays(cb: real, cs: real)
    requires Unit(cb) && Unit(cs)
    ensures Unit(HardLight(cb, cs))
  {
    if cs <= 0.5 {
      Product(cb, 2.0 * cs);
    } else {
      ScreenStays(cb, 2.0 * cs - 1.0);
    }
  }

  lemma DodgeStays(cb: real, cs: real)
    requires Unit(cb) && Unit(cs)
    ensures Unit(ColorDodge(cb, cs))
  {
    if cs < 1.0 {
      Quotient(cb, 1.0 - cs);
    }
  }

  lemma BurnStays(cb: real, cs: real)
    requires Unit(cb) && Unit(cs)
    ensures Unit(ColorBurn(cb, cs))
  {
    if cs > 0.0 {
      Quotient(1.0 - cb, cs);
    }
  }

  lemma RootStays(sqrt: real -> real, v: real)
    requires IsSqrt(sqrt) && Unit(v)
    ensures Unit(sqrt(v))
  {
    var r := sqrt(v);
    assert r >= 0.0 && r * r == v;
    if r > 1.0 {
      Scale(1.0, r, r);
    }
  }

  /** Both arms of the soft-light curve stay in the unit range, and they meet at a quarter. */
  lemma CurveStays(sqrt: real -> real, cb: real)
    requires IsSqrt(sqrt) && Unit(cb)
    ensures Unit(SoftCurve(sqrt, cb))
    ensures SoftCurve(sqrt, 0.25) == sqrt(0.25)
  {
    RootStays(sqrt, cb);
    var h := sqrt(0.25);
    assert h >= 0.0 && h * h == 0.25;
    assert (h - 0.5) * (h + 0.5) == h * h - 0.25;
    if h > 0.5 {
      Scale(0.5, h, h);
    }
    if cb <= 0.25 {
      CubicStays(cb);
    }
  }

  lemma CubicStays(cb: real)
    requires 0.0 <= cb <= 0.25
    ensures Unit(((16.0 * cb - 12.0) * cb + 4.0) * cb)
  {
    var e := 12.0 - 16.0 * cb;
    Scale(0.0, e, cb);
    Scale(e, 12.0, cb);
    var p := e * cb;
    assert 0.0 <= p <= 3.0;
    var k := 4.0 - p;
    Scale(0.0, k, cb);
    Scale(k, 4.0, cb);
    var d := k * cb;
    assert 0.0 <= d <= 1.0;
    assert (16.0 * cb - 12.0) * cb == -p;
  }

  function Toward(a: real, b: real, t: real): real {
    a + t * (b - a)
  }

  lemma TowardStays(a: real, b: real, t: real)
    requires Unit(a) && Unit(b) && Unit(t)
    ensures Unit(Toward(a, b, t))
  {
    Between(a, b, t);
  }

  /** Both arms of soft light go from the backdrop towards another colour. */
  lemma SoftLightStays(sqrt: real -> real, cb: real, cs: real)
    requires IsSqrt(sqrt) && Unit(cb) && Unit(cs)
    ensures Unit(SoftLight(sqrt, cb, cs))
  {
    hide Toward, SoftLight, SoftCurve, IsSqrt;
    if cs <= 0.5 {
      var square, t := cb * cb, 1.0 - 2.0 * cs;
      Product(cb, cb);
      TowardStays(cb, square, t);
      SoftDarker(sqrt, cb, cs, square, t);
    } else {
      var curve, t := SoftCurve(sqrt, cb), 2.0 * cs - 1.0;
      CurveStays(sqrt, cb);
      TowardStays(cb, curve, t);
      SoftLighter(sqrt, cb, cs, curve, t);
    }
  }

  lemma SoftDarker(sqrt: real -> real, cb: real, cs: real, square: real, t: real)
    requires cs <= 0.5 && square == cb * cb && t == 1.0 - 2.0 * cs
    ensures SoftLight(sqrt, cb, cs) == Toward(cb, square, t)
  {
    assert cb * (1.0 - cb) == cb - square;
    var gap := cb - square;
    assert SoftLight(sqrt, cb, cs) == cb - t * cb * (1.0 - cb) == cb - t * gap;
    assert Toward(cb, square, t) == cb + t * (-gap);
  }

  lemma SoftLighter(sqrt: real -> real, cb: real, cs: real, curve: real, t: real)
    requires cs > 0.5 && curve == SoftCurve(sqrt, cb) && t == 2.0 * cs - 1.0
    ensures SoftLight(sqrt, cb, cs) == Toward(cb, curve, t)
  {
  }

  lemma ExclusionStays(cb: real, cs: real)
    requires Unit(cb) && Unit(cs)
    ensures Unit(Exclusion(cb, cs))
  {
    Between(cb, 1.0 - cb, cs);
    assert Exclusion(cb, cs) == cb + cs * (1.0 - cb - cb);
  }

  lemma DivideStays(cb: real, cs: real)
    requires Unit(cb) && Unit(cs)
    ensures Unit(Divide(cb, cs))
  {
  }

  lemma VividLightStays(cb: real, cs: real)
    requires Unit(cb) && Unit(cs)
    ensures Unit(VividLight(cb, cs))
  {
    if cs <= 0.5 {
      BurnStays(cb, 2.0 * cs);
    } else {
      DodgeStays(cb, 2.0 * cs - 1.0);
    }
  }

  /** Burn is the complement-dual of dodge everywhere except over white with a black source. */
  lemma BurnIsDualOfDodge(cb: real, cs: real)
    requires Unit(cb) && Unit(cs)
    ensures ColorBurn(cb, cs) == 1.0 - ColorDodge(1.0 - cb, 1.0 - cs) <==> !(cb == 1.0 && cs == 0.0)
  {
  }

  // ---- the clip ------------------------------------------------------------------------------

  predicate Within(c: Triple, lo: real, hi: real) {
    lo <= c[0] <= hi && lo <= c[1] <= hi && lo <= c[2] <= hi
  }

  /** A pull towards l by p / q, at most 1, moves a channel no further from l and keeps its side. */
  lemma PullShrinks(v: real, l: real, p: real, q: real, lo: real, hi: real)
    requires 0.0 <= p <= q && q > 0.0 && lo <= v <= hi && lo <= l <= hi
    ensures Pull(lo, l, p, q) <= Pull(v, l, p, q) <= Pull(hi, l, p, q)
    ensures lo <= Pull(lo, l, p, q) <= l <= Pull(hi, l, p, q) <= hi
  {
    hide Pull, Times;
    var k := PullFactor(v, lo, hi, l, p, q);
    ScaledOrder(lo - l, v - l, hi - l, k);
  }

  /** A pull by p / q is scaling by one factor of the unit range. */
  lemma PullFactor(u: real, v: real, w: real, l: real, p: real, q: real) returns (k: real)
    requires 0.0 <= p <= q && q > 0.0
    ensures Unit(k) && Pull(u, l, p, q) == l + Times(u - l, k)
    ensures Pull(v, l, p, q) == l + Times(v - l, k) && Pull(w, l, p, q) == l + Times(w - l, k)
  {
    k := p / q;
    Quotient(p, q);
    PullIsScaled(u, l, p, q);
    PullIsScaled(v, l, p, q);
    PullIsScaled(w, l, p, q);
  }

  lemma ScaledOrder(a: real, b: real, e: real, k: real)
    requires a <= b <= e && a <= 0.0 <= e && Unit(k)
    ensures a <= Times(a, k) <= Times(b, k) <= Times(e, k) <= e && Times(a, k) <= 0.0 <= Times(e, k)
  {
    hide Times;
    TimesOrder(a, b, k);
    TimesOrder(b, e, k);
    TimesShrinksUp(-a, k);
    TimesShrinksUp(e, k);
    TimesLess(a, 0.0, k);
    TimesOrder(a, 0.0, k);
  }

  lemma PullAllShrinks(c: Triple, p: real, q: real, lo: real, hi: real)
    requires 0.0 <= p <= q && q > 0.0 && Within(c, lo, hi)
    ensures lo <= Lum(c) <= hi && lo <= Pull(lo, Lum(c), p, q) && Pull(hi, Lum(c), p, q) <= hi
    ensures Within(PullAll(c, Lum(c), p, q), Pull(lo, Lum(c), p, q), Pull(hi, Lum(c), p, q))
    ensures Lum(PullAll(c, Lum(c), p, q)) == Lum(c)
  {
    LumBetween(c);
    PullKeepsLum(c, p, q);
    var l := Lum(c);
    hide Lum, Pull;
    PullShrinks(c[0], l, p, q, lo, hi);
    PullShrinks(c[1], l, p, q, lo, hi);
    PullShrinks(c[2], l, p, q, lo, hi);
  }

  lemma PullEnds(l: real, e: real)
    ensures l - e != 0.0 ==> Pull(e, l, l, l - e) == 0.0
    ensures e - l != 0.0 ==> Pull(e, l, 1.0 - l, e - l) == 1.0
  {
    if e - l != 0.0 {
      PullIsScaled(e, l, l, l - e);
      PullIsScaled(e, l, 1.0 - l, e - l);
      assert l / (l - e) * (l - e) == l;
      assert (1.0 - l) / (e - l) * (e - l) == 1.0 - l;
    }
  }

  /** The low clip: the luminosity stays and no channel is left below zero. */
  lemma LowClip(c: Triple, l: real, n: real, x: real)
    requires l == Lum(c) && Unit(l) && Within(c, n, x) && n < 0.0
    ensures Within(PullAll(c, l, l, l - n), 0.0, x) && Lum(PullAll(c, l, l, l - n)) == l
  {
    PullEnds(l, n);
    PullAllShrinks(c, l, l - n, n, x);
    hide Lum, Pull, PullAll;
  }

  /** The high clip: the luminosity stays and no channel is left above one. */
  lemma HighClip(c: Triple, l: real, lo: real, x: real)
    requires l == Lum(c) && Unit(l) && Within(c, lo, x) && x > 1.0 && lo >= 0.0
    ensures Within(PullAll(c, l, 1.0 - l, x - l), lo, 1.0) && Lum(PullAll(c, l, 1.0 - l, x - l)) == l
  {
    PullEnds(l, x);
    PullAllShrinks(c, 1.0 - l, x - l, lo, x);
    hide Lum, Pull, PullAll;
  }

  /** The clip is defined on every colour but the flat ones outside the unit range. */
  lemma ClippableUnlessFlat(c: Triple)
    ensures Clippable(c) <==> c[0] != c[1] || c[1] != c[2] || Unit(c[0])
  {
    LumBetween(c);
  }

  lemma ClipInRange(c: Triple)
    requires Unit(Lum(c))
    ensures Clippable(c) && InRange(ClipColor(c))
  {
    LumBetween(c);
    var l, n, x := Lum(c), MinOf(c), MaxOf(c);
    assert Within(c, n, x);
    hide Lum, MinOf, MaxOf, PullAll;
    var low := if n < 0.0 then PullAll(c, l, l, l - n) else c;
    var lo := if n < 0.0 then 0.0 else n;
    if n < 0.0 {
      LowClip(c, l, n, x);
    }
    assert Within(low, lo, x) && Lum(low) == l;
    if x > 1.0 {
      HighClip(low, l, lo, x);
    }
  }

  /** Clipping keeps the luminosity of every colour it is defined on, also when both pulls fire, and brings the
      channels into the unit range exactly when the luminosity lies in it. */
  lemma ClipColorKeepsLum(c: Triple)
    requires Clippable(c)
    ensures Lum(ClipColor(c)) == Lum(c)
    ensures InRange(ClipColor(c)) <==> Unit(Lum(c))
  {
    var l, n, x := Lum(c), MinOf(c), MaxOf(c);
    var low := if n < 0.0 then PullAll(c, l, l, l - n) else c;
    if n < 0.0 {
      PullKeepsLum(c, l, l - n);
    }
    if x > 1.0 {
      PullKeepsLum(low, 1.0 - l, x - l);
    }
    if Unit(l) {
      ClipInRange(c);
    }
    hide PullAll, MinOf, MaxOf;
    if InRange(ClipColor(c)) {
      LumInRange(ClipColor(c));
    }
  }

  /** Set-luminosity gives exactly the luminosity asked for, inside the unit range. */
  lemma SetLumIsExact(c: Triple, l: real)
    requires Unit(l)
    ensures Lum(SetLum(c, l)) == l && InRange(SetLum(c, l))
  {
    ShiftLum(c, l - Lum(c));
    ClipColorKeepsLum(Shift(c, l - Lum(c)));
  }

  lemma LumInRange(c: Triple)
    requires InRange(c)
    ensures Unit(Lum(c))
  {
  }

  /** Hue, saturation and colour keep the backdrop's luminosity, luminosity takes the source's, and all
      four stay in the unit range. */
  lemma WholeColourBlends(cb: Triple, cs: Triple)
    requires InRange(cb) && InRange(cs)
    ensures Unit(Lum(cb)) && Unit(Lum(cs))
    ensures Lum(Hue(cb, cs)) == Lum(cb) && InRange(Hue(cb, cs))
    ensures Lum(Saturation(cb, cs)) == Lum(cb) && InRange(Saturation(cb, cs))
    ensures Lum(Color(cb, cs)) == Lum(cb) && InRange(Color(cb, cs))
    ensures Lum(Luminosity(cb, cs)) == Lum(cs) && InRange(Luminosity(cb, cs))
  {
    LumInRange(cb);
    LumInRange(cs);
    SetLumIsExact(SetSat(cs, Sat(cb)), Lum(cb));
    SetLumIsExact(SetSat(cb, Sat(cs)), Lum(cb));
    SetLumIsExact(cs, Lum(cb));
    SetLumIsExact(cb, Lum(cs));
  }

  // ---- set-saturation ------------------------------------------------------------------------

  /** Whatever the ties, set-saturation is one linear stretch of the channels: the minimum goes to 0 and
      the maximum to s. A flat colour goes to black. */
  lemma SetSatIsLinear(c: Triple, s: real, i: int)
    requires 0 <= i < 3
    ensures MaxOf(c) > MinOf(c) ==> SetSat(c, s)[i] == Stretched(c[i], MinOf(c), MaxOf(c), s)
    ensures MaxOf(c) == MinOf(c) ==> SetSat(c, s)[i] == 0.0
  {
    hide Stretched;
    RanksArePermutation(c);
    if MaxOf(c) > MinOf(c) {
      StretchedEnds(MinOf(c), MaxOf(c), s);
    }
  }

  lemma StretchedEnds(lo: real, hi: real, s: real)
    requires lo < hi
    ensures Stretched(lo, lo, hi, s) == 0.0 && Stretched(hi, lo, hi, s) == s
  {
  }

  lemma StretchedOrder(a: real, b: real, lo: real, hi: real, s: real)
    requires lo < hi && s >= 0.0 && a <= b
    ensures Stretched(a, lo, hi, s) <= Stretched(b, lo, hi, s)
  {
  }

  /** A colour that is not flat gets saturation exactly s, keeps its channel order, and runs from 0 to s. */
  lemma SetSatIsExact(c: Triple, s: real)
    requires s >= 0.0
    ensures MaxOf(c) > MinOf(c) ==> Sat(SetSat(c, s)) == s
    ensures MaxOf(c) == MinOf(c) ==> SetSat(c, s) == [0.0, 0.0, 0.0]
    ensures forall i :: 0 <= i < 3 ==> 0.0 <= SetSat(c, s)[i] <= s
    ensures forall i, j :: 0 <= i < 3 && 0 <= j < 3 && c[i] <= c[j] ==> SetSat(c, s)[i] <= SetSat(c, s)[j]
  {
    RanksArePermutation(c);
    forall i | 0 <= i < 3 ensures 0.0 <= SetSat(c, s)[i] <= s {
      SetSatOrders(c, s, BottomIndex(c), i);
      SetSatOrders(c, s, i, TopIndex(c));
    }
    forall i, j | 0 <= i < 3 && 0 <= j < 3 && c[i] <= c[j] ensures SetSat(c, s)[i] <= SetSat(c, s)[j] {
      SetSatOrders(c, s, i, j);
    }
  }

  lemma SetSatOrders(c: Triple, s: real, i: int, j: int)
    requires s >= 0.0 && 0 <= i < 3 && 0 <= j < 3 && c[i] <= c[j]
    ensures SetSat(c, s)[i] <= SetSat(c, s)[j]
    ensures SetSat(c, s)[BottomIndex(c)] == 0.0 && SetSat(c, s)[TopIndex(c)] <= s
  {
    SetSatIsLinear(c, s, i);
    SetSatIsLinear(c, s, j);
    RanksArePermutation(c);
    if MaxOf(c) > MinOf(c) {
      StretchedOrder(c[i], c[j], MinOf(c), MaxOf(c), s);
      StretchedEnds(MinOf(c), MaxOf(c), s);
      SetSatIsLinear(c, s, TopIndex(c));
      SetSatIsLinear(c, s, BottomIndex(c));
    }
    hide SetSat, MaxOf, MinOf, Stretched;
  }
}
