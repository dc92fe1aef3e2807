/** Compositing in terms of the blends' relations: what a layer over a backdrop gives, in plain arithmetic. */
module BlendLayers {
  import opened Reals
  import opened Blends
  import opened BlendColours
  import opened BlendTable
  import opened Composite

  function Colour(p: Pixel): Triple
    requires p[3] != 0.0
  {
    [p[0] / p[3], p[1] / p[3], p[2] / p[3]]
  }

  /** An opaque layer over an opaque backdrop gives its blend of the two colours. */
  lemma OpaqueBlends(sqrt: real -> real, a: Pixel, b: Pixel, m: Blend)
    requires Valid(a) && Valid(b) && a[3] == 1.0 && b[3] == 1.0
    ensures var out := CompositeOver(sqrt, a, b, 1.0, m);
            out[3] == 1.0 && BlendOf(sqrt, m, a[..3], b[..3], out[..3])
  {
    hide Apply, BlendOf, CompositeOver;
    OpaqueShowsTheBlend(sqrt, a, b, 1.0, m);
    ApplyIsBlendOf(sqrt, m, a[..3], b[..3]);
    assert CompositeOver(sqrt, a, b, 1.0, m)[..3] == Apply(sqrt, m, a[..3], b[..3]);
  }

  /** Whatever the alphas: where both show, the blend of the two colours, and each by itself where only it does. */
  lemma EveryBlend(sqrt: real -> real, a: Pixel, b: Pixel, opacity: real, m: Blend) returns (r: Triple)
    requires Valid(a) && Valid(b) && 0.0 < opacity <= 1.0 && a[3] > 0.0 && b[3] > 0.0
    ensures BlendOf(sqrt, m, Colour(a), Colour(b), r)
    ensures var out, alpha := CompositeOver(sqrt, a, b, opacity, m), b[3] * opacity;
            && out[3] == 1.0 - (1.0 - a[3]) * (1.0 - alpha)
            && forall k :: 0 <= k < 3 ==>
                 out[k] == (1.0 - a[3]) * (b[k] * opacity) + (1.0 - alpha) * a[k] + alpha * a[3] * r[k]
  {
    hide Apply, BlendOf, Mix, UnionAlpha, Valid, Unpremultiply, Fade, Colour;
    FadeStays(b, opacity);
    var s := Fade(b, opacity);
    FadedIs(b, opacity);
    UnpremultiplyStays(s);
    UnpremultiplyStays(a);
    ColourOfFaded(b, opacity);
    ColourIs(a);
    var cs, cb := Unpremultiply(s), Unpremultiply(a);
    r := Apply(sqrt, m, cb, cs);
    ApplyIsBlendOf(sqrt, m, cb, cs);
    MixedChannel(s, a, 0, r[0]);
    MixedChannel(s, a, 1, r[1]);
    MixedChannel(s, a, 2, r[2]);
    UnionIs(s[3], a[3]);
  }

  lemma FadedIs(b: Pixel, opacity: real)
    ensures forall k :: 0 <= k < 4 ==> Fade(b, opacity)[k] == b[k] * opacity
  {
  }

  lemma ColourIs(p: Pixel)
    requires p[3] != 0.0
    ensures Unpremultiply(p) == Colour(p)
  {
  }

  lemma ColourOfFaded(b: Pixel, opacity: real)
    requires opacity > 0.0 && b[3] > 0.0
    ensures Unpremultiply(Fade(b, opacity)) == Colour(b)
  {
    hide Fade, Unpremultiply;
    FadedIs(b, opacity);
    var f := Fade(b, opacity);
    SameQuotient(b[0], b[3], opacity, f[0], f[3]);
    SameQuotient(b[1], b[3], opacity, f[1], f[3]);
    SameQuotient(b[2], b[3], opacity, f[2], f[3]);
    ColourIs(f);
  }

  lemma SameQuotient(c: real, alpha: real, opacity: real, d: real, beta: real)
    requires alpha > 0.0 && opacity > 0.0 && d == c * opacity && beta == alpha * opacity
    ensures beta > 0.0 && d / beta == c / alpha
  {
    TimesPositive(alpha, opacity);
    var x, y := c / alpha, d / beta;
    assert x * alpha == c && y * beta == d;
    assert x * beta == (x * alpha) * opacity;
    SameFactor(x, y, beta, d);
  }

  lemma MixedChannel(s: Pixel, a: Pixel, k: int, r: real)
    requires Valid(s) && Valid(a) && 0 <= k < 3
    ensures Mix(s[3], a[3], Unpremultiply(s)[k], Unpremultiply(a)[k], r)
            == (1.0 - a[3]) * s[k] + (1.0 - s[3]) * a[k] + s[3] * a[3] * r
  {
    hide Mix, Unpremultiply, Valid;
    Premultiply(s, k);
    Premultiply(a, k);
    MixIs(s[3], a[3], Unpremultiply(s)[k], Unpremultiply(a)[k], r, s[k], a[k]);
  }

  lemma MixIs(alphaS: real, alphaB: real, cs: real, cb: real, r: real, s: real, a: real)
    requires cs * alphaS == s && cb * alphaB == a
    ensures Mix(alphaS, alphaB, cs, cb, r) == (1.0 - alphaB) * s + (1.0 - alphaS) * a + alphaS * alphaB * r
  {
    assert alphaS * (1.0 - alphaB) * cs == (1.0 - alphaB) * s;
    assert (1.0 - alphaS) * alphaB * cb == (1.0 - alphaS) * a;
  }

  lemma UnionIs(alphaS: real, alphaB: real)
    ensures UnionAlpha(alphaS, alphaB) == 1.0 - (1.0 - alphaB) * (1.0 - alphaS)
  {
  }
}
