/** What the separable blends do at their neutral and extreme sources, how they mirror and undo one another, and
    what a run of darker-colour or lighter-colour layers ends with. */
module BlendLaws {
  import opened Reals
  import opened Blends

  /** Each blend's neutral source leaves the backdrop alone. */
  lemma NeutralSources(sqrt: real -> real, cb: real)
    requires Unit(cb)
    ensures Multiply(cb, 1.0) == Screen(cb, 0.0) == Difference(cb, 0.0) == Exclusion(cb, 0.0) == cb
    ensures ColorDodge(cb, 0.0) == ColorBurn(cb, 1.0) == LinearDodge(cb, 0.0) == LinearBurn(cb, 1.0) == cb
    ensures Subtract(cb, 0.0) == Divide(cb, 1.0) == cb
    ensures HardLight(cb, 0.5) == SoftLight(sqrt, cb, 0.5) == VividLight(cb, 0.5) == LinearLight(cb, 0.5)
            == PinLight(cb, 0.5) == cb
    ensures Overlay(0.5, cb) == cb
  {
  }

  /** Black and white sources. */
  lemma ExtremeSources(sqrt: real -> real, cb: real)
    requires Unit(cb)
    ensures Multiply(cb, 0.0) == HardLight(cb, 0.0) == LinearBurn(cb, 0.0) == ColorBurn(cb, 0.0) == Subtract(cb, 1.0)
            == PinLight(cb, 0.0) == 0.0
    ensures Screen(cb, 1.0) == HardLight(cb, 1.0) == LinearDodge(cb, 1.0) == PinLight(cb, 1.0) == 1.0
    ensures Difference(cb, 1.0) == Exclusion(cb, 1.0) == 1.0 - cb
    ensures ColorDodge(cb, 1.0) == Divide(cb, 0.0) == (if cb == 0.0 then 0.0 else 1.0)
    ensures SoftLight(sqrt, cb, 0.0) == cb * cb && SoftLight(sqrt, cb, 1.0) == SoftCurve(sqrt, cb)
  {
  }

  /** Screening is multiplying the complements, adding is burning them, and the lights are their own mirror. */
  lemma ComplementMirrors(cb: real, cs: real)
    requires Unit(cb) && Unit(cs)
    ensures Screen(cb, cs) == 1.0 - Multiply(1.0 - cb, 1.0 - cs)
    ensures HardLight(cb, cs) == 1.0 - HardLight(1.0 - cb, 1.0 - cs)
    ensures Overlay(cb, cs) == 1.0 - Overlay(1.0 - cb, 1.0 - cs)
    ensures LinearDodge(cb, cs) == 1.0 - LinearBurn(1.0 - cb, 1.0 - cs)
    ensures LinearLight(cb, cs) == 1.0 - LinearLight(1.0 - cb, 1.0 - cs)
    ensures PinLight(cb, cs) == 1.0 - PinLight(1.0 - cb, 1.0 - cs)
    ensures Subtract(cb, cs) == 1.0 - LinearDodge(1.0 - cb, cs)
  {
  }

  /** Vivid light is its own mirror except at the two corners where burn and dodge decide black and white by
      the order of their tests. */
  lemma VividLightMirrors(cb: real, cs: real)
    requires Unit(cb) && Unit(cs)
    ensures VividLight(cb, cs) == 1.0 - VividLight(1.0 - cb, 1.0 - cs)
            <==> !(cb == 1.0 && cs == 0.0) && !(cb == 0.0 && cs == 1.0)
  {
  }

  /** Linear light is linear burn below the middle and linear dodge above it. */
  lemma LinearLightArms(cb: real, cs: real)
    requires Unit(cb) && Unit(cs)
    ensures LinearLight(cb, cs) == if cs <= 0.5 then LinearBurn(cb, 2.0 * cs) else LinearDodge(cb, 2.0 * cs - 1.0)
  {
  }

  /** Blends that do not tell source from backdrop, and what exclusion takes away. */
  lemma Symmetries(cb: real, cs: real)
    ensures Multiply(cb, cs) == Multiply(cs, cb) && Screen(cb, cs) == Screen(cs, cb)
    ensures Difference(cb, cs) == Difference(cs, cb) && Exclusion(cb, cs) == Exclusion(cs, cb)
    ensures Exclusion(cb, cs) == Screen(cb, cs) - Multiply(cb, cs)
    ensures Difference(cb, cs) == Subtract(cb, cs) + Subtract(cs, cb)
  {
  }

  /** On 8-bit levels hard mix is white exactly above the anti-diagonal: the allowance is less than a level. */
  lemma HardMixOnLevels(i: nat, j: nat)
    requires i <= 255 && j <= 255
    ensures HardMix(i as real / 255.0, j as real / 255.0) == if i + j > 255 then 1.0 else 0.0
  {
  }

  /** Dodge brightens: times the complement of the source it gives the backdrop back, unless it clipped. */
  lemma DodgeUndone(cb: real, cs: real)
    requires Unit(cb) && 0.0 <= cs < 1.0
    ensures var d := ColorDodge(cb, cs); d >= cb && (d * (1.0 - cs) == cb || (d == 1.0 && cb >= 1.0 - cs))
  {
    Quotient(cb, 1.0 - cs);
    QuotientGrows(cb, 1.0 - cs);
  }

  /** Burn darkens: its complement times the source gives the backdrop's complement back, unless it clipped. */
  lemma BurnUndone(cb: real, cs: real)
    requires Unit(cb) && 0.0 < cs <= 1.0
    ensures var b := ColorBurn(cb, cs); b <= cb && ((1.0 - b) * cs == 1.0 - cb || (b == 0.0 && 1.0 - cb >= cs))
  {
    Quotient(1.0 - cb, cs);
    QuotientGrows(1.0 - cb, cs);
  }

  lemma DivideUndone(cb: real, cs: real)
    requires Unit(cb) && 0.0 < cs <= 1.0
    ensures var q := Divide(cb, cs); q >= cb && (q * cs == cb || (q == 1.0 && cb >= cs))
  {
    Quotient(cb, cs);
    QuotientGrows(cb, cs);
  }

  lemma QuotientGrows(a: real, b: real)
    requires a >= 0.0 && 0.0 < b <= 1.0
    ensures a / b >= a
    ensures a > b ==> a / b > 1.0
  {
    var q := a / b;
    assert q * b == a;
    Scale(b, 1.0, q);
  }

  predicate Tied(cb: Triple, cs: Triple) {
    -COLOR_TIE <= Lum(cs) - Lum(cb) <= COLOR_TIE
  }

  /** Darker and lighter colour applied twice are applied once. They share the two colours out, and do not tell
      source from backdrop, exactly off a tie. */
  lemma DarkerAndLighterShare(cb: Triple, cs: Triple)
    ensures var d, l := DarkerColor(cb, cs), LighterColor(cb, cs);
            && DarkerColor(d, cs) == d && LighterColor(l, cs) == l
            && ((d, l) == (cb, cs) || (d, l) == (cs, cb) <==> cb == cs || !Tied(cb, cs))
            && (d == DarkerColor(cs, cb) <==> cb == cs || !Tied(cb, cs))
            && (l == LighterColor(cs, cb) <==> cb == cs || !Tied(cb, cs))
  {
  }

  /** The darker-colour blends of `run` over `cb`, one after the other. */
  function DarkerRun(cb: Triple, run: seq<Triple>): Triple {
    if run == [] then cb else DarkerColor(DarkerRun(cb, run[..|run| - 1]), run[|run| - 1])
  }

  function LighterRun(cb: Triple, run: seq<Triple>): Triple {
    if run == [] then cb else LighterColor(LighterRun(cb, run[..|run| - 1]), run[|run| - 1])
  }

  /** A run of darker-colour layers, in whatever order, ends with one of its colours, no more than one tie brighter
      than the darkest of them: ties do not add up along the run. */
  lemma {:induction false} DarkestOfRun(cb: Triple, run: seq<Triple>)
    ensures var r := DarkerRun(cb, run);
            && r in [cb] + run && Lum(r) <= Lum(cb) && forall c :: c in run ==> Lum(r) <= Lum(c) + COLOR_TIE
  {
    hide Lum;
    if run == [] {
    } else {
      var front, last := run[..|run| - 1], run[|run| - 1];
      DarkestOfRun(cb, front);
      assert run == front + [last];
      assert [cb] + run == [cb] + front + [last];
    }
  }

  lemma {:induction false} LightestOfRun(cb: Triple, run: seq<Triple>)
    ensures var r := LighterRun(cb, run);
            && r in [cb] + run && Lum(r) >= Lum(cb) && forall c :: c in run ==> Lum(r) >= Lum(c) - COLOR_TIE
  {
    hide Lum;
    if run == [] {
    } else {
      var front, last := run[..|run| - 1], run[|run| - 1];
      LightestOfRun(cb, front);
      assert run == front + [last];
      assert [cb] + run == [cb] + front + [last];
    }
  }
}
