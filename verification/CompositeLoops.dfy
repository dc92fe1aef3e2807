/** The in-place forms of clip-colour, set-saturation and compositing, over local arrays. */
module CompositeLoops {
  import opened Basics
  import opened Blends
  import opened BlendColours
  import opened BlendLayers
  import opened Composite

  /** Pulls each channel in turn towards l. */
  method PullEach(ch: array<real>, l: real, p: real, q: real)
    requires ch.Length == 3 && q != 0.0
    modifies ch
    ensures ch[..] == PullAll(old(ch[..]), l, p, q)
  {
    hide Pull;
    var i := 0;
    while i < 3
      invariant 0 <= i <= 3
      invariant forall j :: 0 <= j < 3 ==> ch[j] == if j < i then Pull(old(ch[j]), l, p, q) else old(ch[j])
    {
      ch[i] := Pull(ch[i], l, p, q);
      i := i + 1;
    }
  }

  method ClipColorInPlace(ch: array<real>)
    requires ch.Length == 3 && Clippable(ch[..])
    modifies ch
    ensures ch[..] == ClipColor(old(ch[..]))
    ensures Lum(ch[..]) == old(Lum(ch[..])) && (InRange(ch[..]) <==> old(Unit(Lum(ch[..]))))
  {
    hide Lum, PullAll;
    ghost var c: Triple := ch[..];
    LumBetween(c);
    ClipColorKeepsLum(c);
    var l := Lum(ch[..]);
    var n := Lesser(Lesser(ch[0], ch[1]), ch[2]);
    var x := Greater(Greater(ch[0], ch[1]), ch[2]);
    if n < 0.0 {
      PullEach(ch, l, l, l - n);
    }
    if x > 1.0 {
      PullEach(ch, l, 1.0 - l, x - l);
    }
  }

  method SetSatOf(c: Triple, s: real) returns (res: Triple)
    ensures res == SetSat(c, s)
  {
    hide Stretched;
    RanksArePermutation(c);
    var imax := if Ranks(c, 0, 1) && Ranks(c, 0, 2) then 0 else if Ranks(c, 1, 0) && Ranks(c, 1, 2) then 1 else 2;
    var imin := if Ranks(c, 1, 0) && Ranks(c, 2, 0) then 0 else if Ranks(c, 0, 1) && Ranks(c, 2, 1) then 1 else 2;
    var imid := 3 - imax - imin;
    var out := new real[3](_ => 0.0);
    var cmax, cmin := c[imax], c[imin];
    if cmax > cmin {
      out[imid] := Stretched(c[imid], cmin, cmax, s);
      out[imax] := s;
    } else {
      out[imid] := 0.0;
      out[imax] := 0.0;
    }
    out[imin] := 0.0;
    res := out[..];
    assert imax == TopIndex(c) && imin == BottomIndex(c);
    assert |res| == 3 && res[imax] == SetSat(c, s)[imax] && res[imin] == SetSat(c, s)[imin]
           && res[imid] == SetSat(c, s)[imid];
  }

  method CompositePixels(sqrt: real -> real, a: Pixel, b: Pixel, opacity: real, m: Blend) returns (res: Pixel)
    requires Valid(a) && Valid(b) && Unit(opacity)
    ensures res == CompositeOver(sqrt, a, b, opacity, m)
    ensures IsSqrt(sqrt) ==> Valid(res)
    ensures a[3] == b[3] == opacity == 1.0 ==> res[3] == 1.0 && BlendOf(sqrt, m, a[..3], b[..3], res[..3])
  {
    hide BlendOf, Apply, Mix, Fade, Unpremultiply, UnionAlpha, Valid, IsSqrt;
    FadeStays(b, opacity);
    var bs := Fade(b, opacity);
    var alphaS, alphaB := bs[3], a[3];
    UnpremultiplyStays(bs);
    UnpremultiplyStays(a);
    var cs, cb := Unpremultiply(bs), Unpremultiply(a);
    var blended := Apply(sqrt, m, cb, cs);
    var alphaO := UnionAlpha(alphaS, alphaB);
    var out := new real[4](_ => 0.0);
    var ch := 0;
    while ch < 3
      invariant 0 <= ch <= 3
      invariant forall j :: 0 <= j < ch ==> out[j] == Mix(alphaS, alphaB, cs[j], cb[j], blended[j])
    {
      out[ch] := MixTerms(alphaS, alphaB, cs[ch], cb[ch], blended[ch]);
      ch := ch + 1;
    }
    out[3] := alphaO;
    res := out[..];
    if IsSqrt(sqrt) {
      CompositeStays(sqrt, a, b, opacity, m);
    }
    if a[3] == b[3] == opacity == 1.0 {
      OpaqueBlends(sqrt, a, b, m);
    }
  }

  method MixTerms(alphaS: real, alphaB: real, cs: real, cb: real, blended: real) returns (v: real)
    ensures v == Mix(alphaS, alphaB, cs, cb, blended)
  {
    var term1 := alphaS * (1.0 - alphaB) * cs;
    var term2 := alphaS * alphaB * blended;
    var term3 := (1.0 - alphaS) * alphaB * cb;
    v := term1 + term2 + term3;
  }
}
