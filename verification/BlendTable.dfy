/** The separable blends as relations between backdrop, source and result: which formula belongs to which blend, in
    arithmetic on one channel (W3C Compositing and Blending Level 1, section 10, and the extended Photoshop set). */
module BlendTable {
  import opened Reals
  import opened Blends
  import opened Composite

  // ---- one channel -----------------------------------------------------------------------------

  /** What the result r of a separable blend is to the backdrop cb and the source cs. Where the formula divides, the
      quotient is named by what multiplies back. */
  predicate Blended(sqrt: real -> real, m: Blend, cb: real, cs: real, r: real)
    requires !m.NonSeparable()
  {
    match m
    case Normal => r == cs
    case MultiplyBlend => r == cb * cs
    case ScreenBlend => 1.0 - r == (1.0 - cb) * (1.0 - cs)
    case OverlayBlend => if cb <= 0.5 then r == 2.0 * cb * cs else 1.0 - r == 2.0 * (1.0 - cb) * (1.0 - cs)
    case Darken => r <= cb && r <= cs && (r == cb || r == cs)
    case Lighten => r >= cb && r >= cs && (r == cb || r == cs)
    case ColorDodgeBlend => Dodged(cb, cs, r)
    case ColorBurnBlend => Burnt(cb, cs, r)
    case HardLightBlend => if cs <= 0.5 then r == 2.0 * cb * cs else 1.0 - r == 2.0 * (1.0 - cb) * (1.0 - cs)
    case SoftLightBlend =>
      if cs <= 0.5 then r == cb * cb + 2.0 * cs * cb * (1.0 - cb)
      else if cb <= 0.25 then r == cb + (2.0 * cs - 1.0) * (16.0 * cb * cb * cb - 12.0 * cb * cb + 3.0 * cb)
      else r == cb + (2.0 * cs - 1.0) * (sqrt(cb) - cb)
    case DifferenceBlend => r >= 0.0 && (r == cb - cs || r == cs - cb)
    case ExclusionBlend => r == cb * (1.0 - cs) + cs * (1.0 - cb)
    case LinearBurnBlend => if cb + cs <= 1.0 then r == 0.0 else r == cb + cs - 1.0
    case LinearDodgeBlend => if cb + cs >= 1.0 then r == 1.0 else r == cb + cs
    case VividLightBlend => if cs <= 0.5 then Burnt(cb, 2.0 * cs, r) else Dodged(cb, 2.0 * cs - 1.0, r)
    case LinearLightBlend =>
      if cb + 2.0 * cs <= 1.0 then r == 0.0 else if cb + 2.0 * cs >= 2.0 then r == 1.0 else r == cb + 2.0 * cs - 1.0
    case PinLightBlend =>
      if cb > 2.0 * cs then r == 2.0 * cs else if cb < 2.0 * cs - 1.0 then r == 2.0 * cs - 1.0 else r == cb
    case HardMixBlend => if cb + cs > 513.0 / 512.0 then r == 1.0 else r == 0.0
    case SubtractBlend => if cb <= cs then r == 0.0 else r == cb - cs
    case DivideBlend => Divided(cb, cs, r)
  }

  predicate Divided(cb: real, cs: real, r: real) {
    if cb == 0.0 then r == 0.0 else if cb >= cs then r == 1.0 else r * cs == cb
  }

  predicate Dodged(cb: real, cs: real, r: real) {
    if cb == 0.0 then r == 0.0 else if cb + cs >= 1.0 then r == 1.0 else r * (1.0 - cs) == cb
  }

  predicate Burnt(cb: real, cs: real, r: real) {
    if cb + cs <= 1.0 then r == 0.0 else (1.0 - r) * cs == 1.0 - cb
  }

  lemma DodgeIsDodged(cb: real, cs: real)
    requires Unit(cb) && Unit(cs)
    ensures Dodged(cb, cs, ColorDodge(cb, cs))
  {
    if cb != 0.0 && cs != 1.0 {
      AboveOne(cb, 1.0 - cs);
    }
  }

  lemma BurnIsBurnt(cb: real, cs: real)
    requires Unit(cb) && Unit(cs)
    ensures Burnt(cb, cs, ColorBurn(cb, cs))
  {
    if cs != 0.0 && cb != 1.0 {
      AboveOne(1.0 - cb, cs);
    }
  }

  lemma AboveOne(a: real, b: real)
    requires a >= 0.0 && b > 0.0
    ensures a / b * b == a && (a / b >= 1.0 <==> a >= b)
  {
    var q := a / b;
    assert q * b == a;
    if q >= 1.0 {
      Scale(1.0, q, b);
    } else {
      Scale(q, 1.0, b);
    }
  }

  lemma HardLightIs(cb: real, cs: real)
    ensures if cs <= 0.5 then HardLight(cb, cs) == 2.0 * cb * cs
            else 1.0 - HardLight(cb, cs) == 2.0 * (1.0 - cb) * (1.0 - cs)
  {
  }

  lemma SoftLightIs(sqrt: real -> real, cb: real, cs: real)
    ensures cs <= 0.5 ==> SoftLight(sqrt, cb, cs) == cb * cb + 2.0 * cs * cb * (1.0 - cb)
    ensures cs > 0.5 && cb <= 0.25 ==>
              SoftLight(sqrt, cb, cs) == cb + (2.0 * cs - 1.0) * (16.0 * cb * cb * cb - 12.0 * cb * cb + 3.0 * cb)
    ensures cs > 0.5 && cb > 0.25 ==> SoftLight(sqrt, cb, cs) == cb + (2.0 * cs - 1.0) * (sqrt(cb) - cb)
  {
  }

  lemma DivideIsDivided(cb: real, cs: real)
    requires Unit(cb) && Unit(cs)
    ensures Divided(cb, cs, Divide(cb, cs))
  {
    if cs != 0.0 {
      AboveOne(cb, cs);
    }
  }

  lemma PolynomialsAre(cb: real, cs: real)
    ensures 1.0 - Screen(cb, cs) == (1.0 - cb) * (1.0 - cs)
    ensures Exclusion(cb, cs) == cb * (1.0 - cs) + cs * (1.0 - cb)
  {
  }

  /** Each separable blend is computed as its relation says. */
  lemma ChannelIsBlended(sqrt: real -> real, m: Blend, cb: real, cs: real)
    requires !m.NonSeparable() && Unit(cb) && Unit(cs)
    ensures Blended(sqrt, m, cb, cs, Channel(sqrt, m, cb, cs))
  {
    hide ColorDodge, ColorBurn, HardLight, SoftLight, Screen, Exclusion, Divide, Dodged, Burnt, Divided;
    match m
    case ScreenBlend => PolynomialsAre(cb, cs);
    case ExclusionBlend => PolynomialsAre(cb, cs);
    case OverlayBlend => HardLightIs(cs, cb);
    case HardLightBlend => HardLightIs(cb, cs);
    case ColorDodgeBlend => DodgeIsDodged(cb, cs);
    case ColorBurnBlend => BurnIsBurnt(cb, cs);
    case SoftLightBlend => SoftLightIs(sqrt, cb, cs);
    case VividLightBlend =>
      if cs <= 0.5 {
        BurnIsBurnt(cb, 2.0 * cs);
      } else {
        DodgeIsDodged(cb, 2.0 * cs - 1.0);
      }
    case DivideBlend => DivideIsDivided(cb, cs);
    case _ =>
  }

  /** The relation leaves one result. */
  lemma BlendedIsOne(sqrt: real -> real, m: Blend, cb: real, cs: real, r: real, r': real)
    requires !m.NonSeparable() && Unit(cb) && Unit(cs)
    requires Blended(sqrt, m, cb, cs, r) && Blended(sqrt, m, cb, cs, r')
    ensures r == r'
  {
    hide Dodged, Burnt, Divided;
    match m
    case ColorDodgeBlend => DodgedOnce(cb, cs, r, r');
    case ColorBurnBlend => BurntOnce(cb, cs, r, r');
    case VividLightBlend =>
      if cs <= 0.5 {
        BurntOnce(cb, 2.0 * cs, r, r');
      } else {
        DodgedOnce(cb, 2.0 * cs - 1.0, r, r');
      }
    case DivideBlend => DividedOnce(cb, cs, r, r');
    case _ =>
  }

  lemma SameFactor(x: real, y: real, b: real, v: real)
    requires b != 0.0 && x * b == v && y * b == v
    ensures x == y
  {
    assert (x - y) * b == 0.0;
  }

  lemma DividedOnce(cb: real, cs: real, r: real, r': real)
    requires Unit(cb) && Unit(cs) && Divided(cb, cs, r) && Divided(cb, cs, r')
    ensures r == r'
  {
    if cb != 0.0 && cb < cs {
      SameFactor(r, r', cs, cb);
    }
  }

  lemma DodgedOnce(cb: real, cs: real, r: real, r': real)
    requires Unit(cb) && Unit(cs) && Dodged(cb, cs, r) && Dodged(cb, cs, r')
    ensures r == r'
  {
    if cb != 0.0 && cb + cs < 1.0 {
      SameFactor(r, r', 1.0 - cs, cb);
    }
  }

  lemma BurntOnce(cb: real, cs: real, r: real, r': real)
    requires Unit(cb) && Unit(cs) && Burnt(cb, cs, r) && Burnt(cb, cs, r')
    ensures r == r'
  {
    if cb + cs > 1.0 {
      SameFactor(1.0 - r, 1.0 - r', cs, 1.0 - cb);
    }
  }
}
