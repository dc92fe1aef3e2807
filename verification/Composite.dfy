/** Premultiplied source-over compositing under any of the 26 blends, one layer or a whole stack
    (W3C Compositing and Blending Level 1, sections 9 and 10). */
module Composite {
  import opened Basics
  import opened Reals
  import opened Blends

  /** Premultiplied red, green, blue and alpha. */
  type Pixel = p: seq<real> | |p| == 4 witness [0.0, 0.0, 0.0, 0.0]

  datatype Blend =
    | Normal | MultiplyBlend | ScreenBlend | OverlayBlend | Darken | Lighten | ColorDodgeBlend | ColorBurnBlend
    | HardLightBlend | SoftLightBlend | DifferenceBlend | ExclusionBlend | HueBlend | SaturationBlend | ColorBlend
    | LuminosityBlend | LinearBurnBlend | LinearDodgeBlend | DarkerColorBlend | LighterColorBlend | VividLightBlend
    | LinearLightBlend | PinLightBlend | HardMixBlend | SubtractBlend | DivideBlend
  {
    predicate NonSeparable() {
      HueBlend? || SaturationBlend? || ColorBlend? || LuminosityBlend? || DarkerColorBlend? || LighterColorBlend?
    }
  }

  /** A separable blend on one channel. */
  function Channel(sqrt: real -> real, m: Blend, cb: real, cs: real): real
    requires !m.NonSeparable()
  {
    match m
    case Normal => cs
    case MultiplyBlend => Multiply(cb, cs)
    case ScreenBlend => Screen(cb, cs)
    case OverlayBlend => Overlay(cb, cs)
    case Darken => Lesser(cb, cs)
    case Lighten => Greater(cb, cs)
    case ColorDodgeBlend => ColorDodge(cb, cs)
    case ColorBurnBlend => ColorBurn(cb, cs)
    case HardLightBlend => HardLight(cb, cs)
    case SoftLightBlend => SoftLight(sqrt, cb, cs)
    case DifferenceBlend => Difference(cb, cs)
    case ExclusionBlend => Exclusion(cb, cs)
    case LinearBurnBlend => LinearBurn(cb, cs)
    case LinearDodgeBlend => LinearDodge(cb, cs)
    case VividLightBlend => VividLight(cb, cs)
    case LinearLightBlend => LinearLight(cb, cs)
    case PinLightBlend => PinLight(cb, cs)
    case HardMixBlend => HardMix(cb, cs)
    case SubtractBlend => Subtract(cb, cs)
    case DivideBlend => Divide(cb, cs)
  }

  /** B(Cb, Cs) on unpremultiplied colours. */
  function Apply(sqrt: real -> real, m: Blend, cb: Triple, cs: Triple): Triple
    requires InRange(cb) && InRange(cs)
  {
    LumInRange(cb);
    LumInRange(cs);
    match m
    case HueBlend => Hue(cb, cs)
    case SaturationBlend => Saturation(cb, cs)
    case ColorBlend => Color(cb, cs)
    case LuminosityBlend => Luminosity(cb, cs)
    case DarkerColorBlend => DarkerColor(cb, cs)
    case LighterColorBlend => LighterColor(cb, cs)
    case _ => [Channel(sqrt, m, cb[0], cs[0]), Channel(sqrt, m, cb[1], cs[1]), Channel(sqrt, m, cb[2], cs[2])]
  }

  lemma ChannelStays(sqrt: real -> real, m: Blend, cb: real, cs: real)
    requires !m.NonSeparable() && IsSqrt(sqrt) && Unit(cb) && Unit(cs)
    ensures Unit(Channel(sqrt, m, cb, cs))
  {
    match m
    case MultiplyBlend => Product(cb, cs);
    case ScreenBlend => ScreenStays(cb, cs);
    case OverlayBlend => HardLightStays(cs, cb);
    case ColorDodgeBlend => DodgeStays(cb, cs);
    case ColorBurnBlend => BurnStays(cb, cs);
    case HardLightBlend => HardLightStays(cb, cs);
    case SoftLightBlend => SoftLightStays(sqrt, cb, cs);
    case ExclusionBlend => ExclusionStays(cb, cs);
    case VividLightBlend => VividLightStays(cb, cs);
    case DivideBlend => DivideStays(cb, cs);
    case _ =>
  }

  /** Every blend maps colours of the unit range to colours of the unit range. */
  lemma BlendStays(sqrt: real -> real, m: Blend, cb: Triple, cs: Triple)
    requires IsSqrt(sqrt) && InRange(cb) && InRange(cs)
    ensures InRange(Apply(sqrt, m, cb, cs))
  {
    hide Channel, Hue, Saturation, Color, Luminosity, Lum;
    if m.NonSeparable() {
      WholeColourBlends(cb, cs);
    } else {
      ChannelStays(sqrt, m, cb[0], cs[0]);
      ChannelStays(sqrt, m, cb[1], cs[1]);
      ChannelStays(sqrt, m, cb[2], cs[2]);
    }
  }

  // ---- one layer ---------------------------------------------------------------------------

  /** Colour never exceeds alpha, and alpha never exceeds one. */
  predicate Valid(p: Pixel) {
    0.0 <= p[3] <= 1.0 && 0.0 <= p[0] <= p[3] && 0.0 <= p[1] <= p[3] && 0.0 <= p[2] <= p[3]
  }

  const CLEAR: Pixel := [0.0, 0.0, 0.0, 0.0]

  function Unpremultiply(p: Pixel): Triple {
    if p[3] == 0.0 then [0.0, 0.0, 0.0] else [p[0] / p[3], p[1] / p[3], p[2] / p[3]]
  }

  /** The layer opacity folded into the source, colour and alpha alike. */
  function Fade(p: Pixel, opacity: real): Pixel {
    [p[0] * opacity, p[1] * opacity, p[2] * opacity, p[3] * opacity]
  }

  /** The three terms of a composited channel, added left to right. */
  function Mix(alphaS: real, alphaB: real, cs: real, cb: real, blended: real): real {
    alphaS * (1.0 - alphaB) * cs + alphaS * alphaB * blended + (1.0 - alphaS) * alphaB * cb
  }

  function UnionAlpha(alphaS: real, alphaB: real): real {
    alphaS + alphaB * (1.0 - alphaS)
  }

  function CompositeOver(sqrt: real -> real, a: Pixel, b: Pixel, opacity: real, m: Blend): Pixel
    requires Valid(a) && Valid(b) && Unit(opacity)
  {
    FadeStays(b, opacity);
    var s := Fade(b, opacity);
    UnpremultiplyStays(s);
    UnpremultiplyStays(a);
    var cs, cb := Unpremultiply(s), Unpremultiply(a);
    var blended := Apply(sqrt, m, cb, cs);
    [Mix(s[3], a[3], cs[0], cb[0], blended[0]),
     Mix(s[3], a[3], cs[1], cb[1], blended[1]),
     Mix(s[3], a[3], cs[2], cb[2], blended[2]),
     UnionAlpha(s[3], a[3])]
  }

  lemma FadeStays(p: Pixel, opacity: real)
    requires Valid(p) && Unit(opacity)
    ensures Valid(Fade(p, opacity))
  {
    FadeOrder(p[0], p[3], opacity);
    FadeOrder(p[1], p[3], opacity);
    FadeOrder(p[2], p[3], opacity);
    Product(p[3], opacity);
  }

  lemma FadeOrder(c: real, alpha: real, opacity: real)
    requires 0.0 <= c <= alpha && Unit(opacity)
    ensures 0.0 <= c * opacity <= alpha * opacity
  {
    Scale(0.0, c, opacity);
    Scale(c, alpha, opacity);
  }

  lemma UnpremultiplyStays(p: Pixel)
    requires Valid(p)
    ensures InRange(Unpremultiply(p))
  {
    if p[3] != 0.0 {
      Quotient(p[0], p[3]);
      Quotient(p[1], p[3]);
      Quotient(p[2], p[3]);
      var q0, q1, q2 := p[0] / p[3], p[1] / p[3], p[2] / p[3];
      assert Unpremultiply(p) == [q0, q1, q2];
    }
  }

  /** The three terms weigh the colours by three areas that add up to the union of the alphas. */
  lemma MixAreas(alphaS: real, alphaB: real, cs: real, cb: real, blended: real, x: real, y: real, z: real)
    requires x == Times(alphaS, 1.0 - alphaB) && y == Times(alphaS, alphaB) && z == Times(1.0 - alphaS, alphaB)
    ensures Mix(alphaS, alphaB, cs, cb, blended) == Times(x, cs) + Times(y, blended) + Times(z, cb)
    ensures UnionAlpha(alphaS, alphaB) == x + y + z
  {
  }

  lemma MixStays(alphaS: real, alphaB: real, cs: real, cb: real, blended: real)
    requires Unit(alphaS) && Unit(alphaB) && Unit(cs) && Unit(cb) && Unit(blended)
    ensures 0.0 <= Mix(alphaS, alphaB, cs, cb, blended) <= UnionAlpha(alphaS, alphaB) <= 1.0
  {
    hide Times, Mix;
    var x, y, z := Times(alphaS, 1.0 - alphaB), Times(alphaS, alphaB), Times(1.0 - alphaS, alphaB);
    MixAreas(alphaS, alphaB, cs, cb, blended, x, y, z);
    Between(alphaS, 1.0, alphaB);
    hide UnionAlpha;
    TimesShrinksUp(alphaS, 1.0 - alphaB);
    TimesShrinksUp(alphaS, alphaB);
    TimesShrinksUp(1.0 - alphaS, alphaB);
    TimesShrinksUp(x, cs);
    TimesShrinksUp(y, blended);
    TimesShrinksUp(z, cb);
  }

  /** One composite keeps premultiplied pixels premultiplied, under every blend. */
  lemma CompositeStays(sqrt: real -> real, a: Pixel, b: Pixel, opacity: real, m: Blend)
    requires IsSqrt(sqrt) && Valid(a) && Valid(b) && Unit(opacity)
    ensures Valid(CompositeOver(sqrt, a, b, opacity, m))
  {
    FadeStays(b, opacity);
    var s := Fade(b, opacity);
    UnpremultiplyStays(s);
    UnpremultiplyStays(a);
    var cs, cb := Unpremultiply(s), Unpremultiply(a);
    BlendStays(sqrt, m, cb, cs);
    var blended := Apply(sqrt, m, cb, cs);
    hide Apply, Unpremultiply, Fade, Mix, UnionAlpha;
    MixStays(s[3], a[3], cs[0], cb[0], blended[0]);
    MixStays(s[3], a[3], cs[1], cb[1], blended[1]);
    MixStays(s[3], a[3], cs[2], cb[2], blended[2]);
  }

  // ---- stacks ------------------------------------------------------------------------------

  datatype Layer = Layer(pixel: Pixel, opacity: real, blend: Blend) {
    predicate Fit() {
      Valid(pixel) && Unit(opacity)
    }
  }

  predicate AllFit(layers: seq<Layer>) {
    forall k :: 0 <= k < |layers| ==> layers[k].Fit()
  }

  /** The stack folded bottom up over a backdrop: whatever the layers, opacities and blends, every level
      is a valid premultiplied pixel. */
  ghost function Flatten(sqrt: real -> real, a: Pixel, layers: seq<Layer>): (r: Pixel)
    requires IsSqrt(sqrt) && Valid(a) && AllFit(layers)
    ensures Valid(r)
    decreases |layers|
  {
    if layers == [] then a
    else
      var below, top := Flatten(sqrt, a, layers[..|layers| - 1]), layers[|layers| - 1];
      assert top.Fit();
      CompositeStays(sqrt, below, top.pixel, top.opacity, top.blend);
      CompositeOver(sqrt, below, top.pixel, top.opacity, top.blend)
  }

  // ---- Porter-Duff over ----------------------------------------------------------------------

  /** One channel of a source of the given alpha over a backdrop. */
  function OverChannel(a: real, s: real, alpha: real): real {
    s + a * (1.0 - alpha)
  }

  /** Source over backdrop on premultiplied values. */
  function Over(a: Pixel, s: Pixel): Pixel {
    [OverChannel(a[0], s[0], s[3]), OverChannel(a[1], s[1], s[3]), OverChannel(a[2], s[2], s[3]),
     OverChannel(a[3], s[3], s[3])]
  }

  lemma OverAssociates(a: Pixel, b: Pixel, c: Pixel)
    ensures Over(Over(a, b), c) == Over(a, Over(b, c))
  {
    hide OverChannel;
    ChannelAssociates(a[0], b[0], c[0], b[3], c[3]);
    ChannelAssociates(a[1], b[1], c[1], b[3], c[3]);
    ChannelAssociates(a[2], b[2], c[2], b[3], c[3]);
    ChannelAssociates(a[3], b[3], c[3], b[3], c[3]);
  }

  lemma ChannelAssociates(a: real, b: real, c: real, beta: real, gamma: real)
    ensures OverChannel(OverChannel(a, b, beta), c, gamma)
         == OverChannel(a, OverChannel(b, c, gamma), OverChannel(beta, gamma, gamma))
  {
  }

  /** Multiplying an unpremultiplied channel by its alpha gives the premultiplied channel back. */
  lemma Premultiply(p: Pixel, ch: int)
    requires Valid(p) && 0 <= ch < 3
    ensures Unpremultiply(p)[ch] * p[3] == p[ch]
  {
  }

  lemma MixNormal(alphaS: real, alphaB: real, cs: real, cb: real, s: real, a: real)
    requires cs * alphaS == s && cb * alphaB == a
    ensures Mix(alphaS, alphaB, cs, cb, cs) == OverChannel(a, s, alphaS)
    ensures UnionAlpha(alphaS, alphaB) == OverChannel(alphaB, alphaS, alphaS)
  {
  }

  lemma NormalChannel(s: Pixel, a: Pixel, ch: int)
    requires Valid(s) && Valid(a) && 0 <= ch < 3
    ensures Mix(s[3], a[3], Unpremultiply(s)[ch], Unpremultiply(a)[ch], Unpremultiply(s)[ch])
            == OverChannel(a[ch], s[ch], s[3])
    ensures UnionAlpha(s[3], a[3]) == OverChannel(a[3], s[3], s[3])
  {
    Premultiply(s, ch);
    Premultiply(a, ch);
    MixNormal(s[3], a[3], Unpremultiply(s)[ch], Unpremultiply(a)[ch], s[ch], a[ch]);
    hide Mix, Unpremultiply, OverChannel, UnionAlpha;
  }

  /** The normal blend at any opacity is Porter-Duff over on premultiplied values. */
  lemma NormalIsOver(sqrt: real -> real, a: Pixel, b: Pixel, opacity: real)
    requires Valid(a) && Valid(b) && Unit(opacity)
    ensures CompositeOver(sqrt, a, b, opacity, Normal) == Over(a, Fade(b, opacity))
  {
    hide Mix, Fade, Unpremultiply, OverChannel, UnionAlpha, Valid;
    var s := Fade(b, opacity);
    FadeStays(b, opacity);
    UnpremultiplyStays(s);
    UnpremultiplyStays(a);
    NormalChannel(s, a, 0);
    NormalChannel(s, a, 1);
    NormalChannel(s, a, 2);
  }

  /** At zero opacity every blend leaves the backdrop as it is. */
  lemma ZeroOpacityIsNothing(sqrt: real -> real, a: Pixel, b: Pixel, m: Blend)
    requires Valid(a) && Valid(b)
    ensures CompositeOver(sqrt, a, b, 0.0, m) == a
  {
    var s := Fade(b, 0.0);
    assert s == CLEAR;
    UnpremultiplyStays(s);
    UnpremultiplyStays(a);
    var blended := Apply(sqrt, m, Unpremultiply(a), Unpremultiply(s));
    forall ch | 0 <= ch < 3 ensures Mix(0.0, a[3], Unpremultiply(s)[ch], Unpremultiply(a)[ch], blended[ch]) == a[ch] {
      Premultiply(a, ch);
    }
    hide Mix, Apply, Unpremultiply;
  }

  lemma FadedColor(p: Pixel, opacity: real)
    requires Valid(p) && p[3] == 1.0 && 0.0 < opacity <= 1.0
    ensures Unpremultiply(Fade(p, opacity)) == p[..3]
  {
    FadedChannel(p[0], p[3], opacity);
    FadedChannel(p[1], p[3], opacity);
    FadedChannel(p[2], p[3], opacity);
    var f := Fade(p, opacity);
    assert f[3] == p[3] * opacity && f[3] != 0.0;
    assert Unpremultiply(f) == [p[0] * opacity / (p[3] * opacity), p[1] * opacity / (p[3] * opacity),
                                p[2] * opacity / (p[3] * opacity)];
    assert Unpremultiply(f)[0] == p[0] && Unpremultiply(f)[1] == p[1] && Unpremultiply(f)[2] == p[2];
    assert p[..3] == [p[0], p[1], p[2]] == Unpremultiply(f);
  }

  lemma FadedChannel(c: real, alpha: real, opacity: real)
    requires alpha == 1.0 && opacity > 0.0
    ensures c * opacity / (alpha * opacity) == c
  {
  }

  lemma OpaqueColor(p: Pixel)
    requires Valid(p) && p[3] == 1.0
    ensures InRange(p[..3]) && Unpremultiply(p) == p[..3]
  {
  }

  lemma OpaqueUnion(p: Pixel, opacity: real)
    requires Valid(p) && p[3] == 1.0
    ensures Fade(p, opacity)[3] == opacity && UnionAlpha(opacity, 1.0) == 1.0
  {
  }

  lemma OpaqueMix(opacity: real, cs: real, cb: real, blended: real)
    ensures Mix(opacity, 1.0, cs, cb, blended) == cb + opacity * (blended - cb)
  {
  }

  /** Over an opaque backdrop an opaque layer shows its blend, faded in by the opacity. */
  lemma OpaqueShowsTheBlend(sqrt: real -> real, a: Pixel, b: Pixel, opacity: real, m: Blend)
    requires Valid(a) && Valid(b) && a[3] == 1.0 && b[3] == 1.0 && 0.0 < opacity <= 1.0
    ensures InRange(a[..3]) && InRange(b[..3])
    ensures var out := CompositeOver(sqrt, a, b, opacity, m);
            && out[3] == 1.0
            && forall k :: 0 <= k < 3 ==> out[k] == a[k] + opacity * (Apply(sqrt, m, a[..3], b[..3])[k] - a[k])
  {
    hide Apply, Mix, UnionAlpha, Fade, Unpremultiply;
    FadedColor(b, opacity);
    OpaqueColor(a);
    OpaqueUnion(b, opacity);
    var blended := Apply(sqrt, m, a[..3], b[..3]);
    OpaqueMix(opacity, b[0], a[0], blended[0]);
    OpaqueMix(opacity, b[1], a[1], blended[1]);
    OpaqueMix(opacity, b[2], a[2], blended[2]);
  }

  lemma ClearMix(alpha: real, cs: real, cb: real, blended: real, s: real)
    requires cs * alpha == s
    ensures Mix(alpha, 0.0, cs, cb, blended) == s
  {
  }

  lemma ClearUnion(alpha: real)
    ensures UnionAlpha(alpha, 0.0) == alpha
  {
  }

  /** Over nothing a layer shows itself, faded, under every blend. */
  lemma OverNothing(sqrt: real -> real, b: Pixel, opacity: real, m: Blend)
    requires Valid(b) && Unit(opacity)
    ensures CompositeOver(sqrt, CLEAR, b, opacity, m) == Fade(b, opacity)
  {
    hide Apply, Mix, UnionAlpha, Unpremultiply, Fade;
    FadeStays(b, opacity);
    var s := Fade(b, opacity);
    UnpremultiplyStays(s);
    UnpremultiplyStays(CLEAR);
    var cs, none := Unpremultiply(s), Unpremultiply(CLEAR);
    var blended := Apply(sqrt, m, none, cs);
    Premultiply(s, 0);
    Premultiply(s, 1);
    Premultiply(s, 2);
    ClearMix(s[3], cs[0], none[0], blended[0], s[0]);
    ClearMix(s[3], cs[1], none[1], blended[1], s[1]);
    ClearMix(s[3], cs[2], none[2], blended[2], s[2]);
    ClearUnion(s[3]);
    assert CompositeOver(sqrt, CLEAR, b, opacity, m) == [s[0], s[1], s[2], s[3]];
  }

  predicate AllNormal(layers: seq<Layer>) {
    forall k :: 0 <= k < |layers| ==> layers[k].blend == Normal
  }

  /** A run of normal layers over a backdrop is the run flattened by itself, laid over the backdrop. */
  lemma {:induction false} NormalRunFlattens(sqrt: real -> real, a: Pixel, layers: seq<Layer>)
    requires IsSqrt(sqrt) && Valid(a) && AllFit(layers) && AllNormal(layers)
    ensures Flatten(sqrt, a, layers) == Over(a, Flatten(sqrt, CLEAR, layers))
    decreases |layers|
  {
    if layers == [] {
      assert Flatten(sqrt, CLEAR, []) == CLEAR;
      assert Over(a, CLEAR) == a;
    } else {
      var front, top := layers[..|layers| - 1], layers[|layers| - 1];
      NormalRunFlattens(sqrt, a, front);
      assert top.Fit() && top.blend == Normal;
      var below, alone := Flatten(sqrt, a, front), Flatten(sqrt, CLEAR, front);
      NormalIsOver(sqrt, below, top.pixel, top.opacity);
      NormalIsOver(sqrt, alone, top.pixel, top.opacity);
      hide CompositeOver, Over, Fade, Valid;
      OverAssociates(a, alone, Fade(top.pixel, top.opacity));
    }
  }

  /** Flattening any contiguous run of normal layers first, into one normal layer at full opacity, leaves
      the whole stack's result unchanged. */
  lemma FlatteningARunChangesNothing(sqrt: real -> real, a: Pixel, under: seq<Layer>, run: seq<Layer>,
                                     above: seq<Layer>)
    requires IsSqrt(sqrt) && Valid(a) && AllFit(under) && AllFit(run) && AllFit(above) && AllNormal(run)
    ensures var merged := Layer(Flatten(sqrt, CLEAR, run), 1.0, Normal);
            && AllFit(under + run + above) && AllFit(under + [merged] + above)
            && Flatten(sqrt, a, under + run + above) == Flatten(sqrt, a, under + [merged] + above)
  {
    var merged := Layer(Flatten(sqrt, CLEAR, run), 1.0, Normal);
    var base := Flatten(sqrt, a, under);
    FlattenSplits(sqrt, a, under, run);
    FlattenSplits(sqrt, a, under, [merged]);
    FlattenSplits(sqrt, a, under + run, above);
    FlattenSplits(sqrt, a, under + [merged], above);
    NormalRunFlattens(sqrt, base, run);
    OneNormalLayer(sqrt, base, merged);
  }

  lemma OneNormalLayer(sqrt: real -> real, base: Pixel, l: Layer)
    requires IsSqrt(sqrt) && Valid(base) && l.Fit() && l.opacity == 1.0 && l.blend == Normal
    ensures Flatten(sqrt, base, [l]) == Over(base, l.pixel)
  {
    assert [l][..0] == [];
    assert Flatten(sqrt, base, []) == base;
    assert Fade(l.pixel, 1.0) == l.pixel;
    NormalIsOver(sqrt, base, l.pixel, 1.0);
    hide CompositeOver;
  }

  lemma {:induction false} FlattenSplits(sqrt: real -> real, a: Pixel, under: seq<Layer>, above: seq<Layer>)
    requires IsSqrt(sqrt) && Valid(a) && AllFit(under) && AllFit(above)
    ensures AllFit(under + above)
    ensures Flatten(sqrt, a, under + above) == Flatten(sqrt, Flatten(sqrt, a, under), above)
    decreases |above|
  {
    hide CompositeOver, Valid;
    assert AllFit(under + above);
    if above == [] {
      assert under + above == under;
    } else {
      var front := above[..|above| - 1];
      FlattenSplits(sqrt, a, under, front);
      assert (under + above)[..|under + above| - 1] == under + front;
    }
  }
}
