/** What the facts read from a block mean, field by field: each tag by its number, in either byte order, and each
    orientation by the sides it turns the image to. */
module ExifMeaning {
  import opened Basics
  import opened Exif
  import opened ExifPrinter
  import opened ExifRoundTrip

  /** The sides of the upright image on which TIFF Revision 6.0 puts the first row and the first column of an image
      with orientation v. */
  predicate Stands(o: Orientation, v: nat) {
    && RowSide(o) == (if v in {1, 2} then Top else if v in {3, 4} then Bottom
                      else if v in {5, 8} then Left else Right)
    && ColumnSide(o) == (if v in {1, 4} then Left else if v in {2, 3} then Right
                         else if v in {5, 6} then Top else Bottom)
  }

  lemma OrientationOfSides(v: nat)
    ensures OrientationOf(v).Some? <==> 1 <= v <= 8
    ensures OrientationOf(v).Some? ==> Stands(OrientationOf(v).value, v)
  {
  }

  /** Every orientation value: the one the reader reports puts the first row and column on the sides that value
      stands for, there is none for the values outside 1 to 8, and from 5 on width and height change places. */
  lemma OrientationMeans(v: nat, xres: Option<(nat, nat)>, unit: Option<nat>, colorSpace: Option<nat>)
    requires v < 0x1_0000 && RationalFits(xres) && Wide(unit) && Wide(colorSpace)
    ensures var o := Parse(BuildLe(Some(v), xres, unit, colorSpace)).orientation;
            && (o.Some? <==> 1 <= v <= 8)
            && (o.Some? ==> Stands(o.value, v) && (RowSide(o.value) in {Left, Right} <==> v >= 5))
  {
    hide BuildLe, Parse;
    ParseInvertsBuildLe(Some(v), xres, unit, colorSpace);
    OrientationListed(v);
    OrientationOfSides(v);
  }

  /** How many bytes one value of each field type takes (TIFF Revision 6.0, section 2). */
  lemma TypeSizes()
    ensures TypeSize(1) == TypeSize(2) == TypeSize(6) == TypeSize(7) == 1
    ensures TypeSize(3) == TypeSize(8) == 2
    ensures TypeSize(4) == TypeSize(9) == TypeSize(11) == 4
    ensures TypeSize(5) == TypeSize(10) == TypeSize(12) == 8
    ensures forall t: nat :: t == 0 || t > 12 ==> TypeSize(t) == 0
  {
  }

  // ---- a document with every field -------------------------------------------------------------

  function ShortIn(e: Endian, tag: nat, v: nat): Field
    requires v < 0x1_0000
  {
    Plain(tag, 3, 1, Put16(e, v) + [0, 0])
  }

  function FractionIs(e: Endian, tag: nat, num: nat, den: nat): Field
    requires num < 0x1_0000_0000 && den < 0x1_0000_0000
  {
    Plain(tag, 5, 1, Put32(e, num) + Put32(e, den))
  }

  /** Orientation, the two resolutions, their unit, and the colour space in the sub-directory. */
  function Full(e: Endian, v: nat, x: (nat, nat), y: (nat, nat), unit: nat, colorSpace: nat): Document
    requires v < 0x1_0000 && unit < 0x1_0000 && colorSpace < 0x1_0000
    requires RationalFits(Some(x)) && RationalFits(Some(y))
  {
    Document([ShortIn(e, 274, v), FractionIs(e, 282, x.0, x.1), FractionIs(e, 283, y.0, y.1), ShortIn(e, 296, unit),
              Pointer], Some([ShortIn(e, 40961, colorSpace)]))
  }

  lemma ShortFits(e: Endian, tag: nat, v: nat)
    requires v < 0x1_0000 && tag < 0x1_0000
    ensures var f := ShortIn(e, tag, v); FieldFits(f) && Inline(f) && ShortOf(e, f) == v
  {
  }

  lemma FractionFits(e: Endian, tag: nat, num: nat, den: nat)
    requires num < 0x1_0000_0000 && den < 0x1_0000_0000 && tag < 0x1_0000
    ensures var f := FractionIs(e, tag, num, den);
            && FieldFits(f) && !Inline(f) && |f.payload| == 8
            && FractionOf(e, f) == if den == 0 then None else Some(num as real / den as real)
  {
    var f := FractionIs(e, tag, num, den);
    assert f.payload[4..] == Put32(e, den);
    assert LongOf(e, f.payload) == num && LongOf(e, f.payload[4..]) == den;
  }

  lemma BlocksGrow(fs: seq<Field>, f: Field)
    requires AllFit(fs) && FieldFits(f)
    ensures AllFit(fs + [f]) && |Blocks(fs + [f])| == |Blocks(fs)| + if Inline(f) then 0 else |f.payload|
  {
    hide FieldFits, Inline;
    assert (fs + [f])[..|fs|] == fs;
  }

  lemma NoBlocksYet()
    ensures AllFit([]) && Blocks([]) == []
  {
  }

  lemma FullFits(e: Endian, v: nat, x: (nat, nat), y: (nat, nat), unit: nat, colorSpace: nat)
    requires v < 0x1_0000 && unit < 0x1_0000 && colorSpace < 0x1_0000
    requires RationalFits(Some(x)) && RationalFits(Some(y))
    ensures DocumentFits(Full(e, v, x, y, unit, colorSpace))
  {
    hide Blocks, AllFit, FieldFits, Inline, ShortIn, FractionIs;
    var a, b, c := ShortIn(e, 274, v), FractionIs(e, 282, x.0, x.1), FractionIs(e, 283, y.0, y.1);
    var d, s := ShortIn(e, 296, unit), ShortIn(e, 40961, colorSpace);
    ShortFits(e, 274, v);
    FractionFits(e, 282, x.0, x.1);
    FractionFits(e, 283, y.0, y.1);
    ShortFits(e, 296, unit);
    ShortFits(e, 40961, colorSpace);
    PointerFits();
    NoBlocksYet();
    BlocksGrow([], a);
    BlocksGrow([], s);
    assert [] + [a] == [a] && [] + [s] == [s];
    BlocksGrow([a], b);
    BlocksGrow([a] + [b], c);
    BlocksGrow([a] + [b] + [c], d);
    BlocksGrow([a] + [b] + [c] + [d], Pointer);
    assert [a] + [b] + [c] + [d] + [Pointer] == [a, b, c, d, Pointer];
    NotPointer(e, 40961, colorSpace);
  }

  lemma PointerFits()
    ensures FieldFits(Pointer) && Inline(Pointer)
  {
  }

  lemma NotPointer(e: Endian, tag: nat, v: nat)
    requires v < 0x1_0000
    ensures Pointer !in [ShortIn(e, tag, v)]
  {
  }

  lemma LastOfFive(fs: seq<Field>, test: Field -> bool)
    requires |fs| == 5
    ensures LastWhere(fs, test)
            == if test(fs[4]) then Some(fs[4]) else if test(fs[3]) then Some(fs[3]) else if test(fs[2]) then Some(fs[2])
               else if test(fs[1]) then Some(fs[1]) else if test(fs[0]) then Some(fs[0]) else None
  {
    assert fs[..5] == fs;
    LastOf(fs, 4, test);
    LastOf(fs, 3, test);
    LastOf(fs, 2, test);
    LastOf(fs, 1, test);
    LastOf(fs, 0, test);
  }

  lemma FullLasts(e: Endian, v: nat, x: (nat, nat), y: (nat, nat), unit: nat, colorSpace: nat)
    requires v < 0x1_0000 && unit < 0x1_0000 && colorSpace < 0x1_0000
    requires RationalFits(Some(x)) && RationalFits(Some(y))
    ensures var d := Full(e, v, x, y, unit, colorSpace);
            && LastWhere(d.main, IsOrientation) == Some(ShortIn(e, 274, v))
            && LastWhere(d.main, IsXResolution) == Some(FractionIs(e, 282, x.0, x.1))
            && LastWhere(d.main, IsYResolution) == Some(FractionIs(e, 283, y.0, y.1))
            && LastWhere(d.main, IsUnit) == Some(ShortIn(e, 296, unit))
            && Pointer in d.main && LastWhere(d.sub.value, IsColorSpace) == Some(ShortIn(e, 40961, colorSpace))
  {
    hide LastWhere;
    var fs, sub := Full(e, v, x, y, unit, colorSpace).main, Full(e, v, x, y, unit, colorSpace).sub.value;
    LastOfFive(fs, IsOrientation);
    LastOfFive(fs, IsXResolution);
    LastOfFive(fs, IsYResolution);
    LastOfFive(fs, IsUnit);
    assert sub[..1] == sub;
    LastOf(sub, 0, IsColorSpace);
  }

  function Density(x: (nat, nat), unit: nat): Option<real> {
    if x.1 == 0 || (unit != 2 && unit != 3) then None
    else if unit == 3 then Some(x.0 as real / x.1 as real * 2.54)
    else Some(x.0 as real / x.1 as real)
  }

  /** A block with every field, in either byte order: what each of its values is read as. */
  lemma EveryFactRead(e: Endian, v: nat, x: (nat, nat), y: (nat, nat), unit: nat, colorSpace: nat)
    requires v < 0x1_0000 && unit < 0x1_0000 && colorSpace < 0x1_0000
    requires RationalFits(Some(x)) && RationalFits(Some(y))
    ensures DocumentFits(Full(e, v, x, y, unit, colorSpace))
    ensures var facts := Parse(Print(e, Full(e, v, x, y, unit, colorSpace)));
            && (facts.orientation.Some? <==> 1 <= v <= 8)
            && (facts.orientation.Some? ==> Stands(facts.orientation.value, v))
            && facts.dpiX == Density(x, unit) && facts.dpiY == Density(y, unit)
            && facts.colorSpace == Some(if colorSpace == 1 then Srgb else if colorSpace == 65535 then Uncalibrated
                                        else Other(colorSpace))
  {
    hide Print, ParseTiff, DocumentFits, Full, Stated, Density;
    FullFits(e, v, x, y, unit, colorSpace);
    ParseInvertsPrint(e, Full(e, v, x, y, unit, colorSpace));
    FullStated(e, v, x, y, unit, colorSpace);
    OrientationOfSides(v);
    ColorSpaceIs(colorSpace);
  }

  lemma FullStated(e: Endian, v: nat, x: (nat, nat), y: (nat, nat), unit: nat, colorSpace: nat)
    requires v < 0x1_0000 && unit < 0x1_0000 && colorSpace < 0x1_0000
    requires RationalFits(Some(x)) && RationalFits(Some(y))
    ensures Stated(e, Full(e, v, x, y, unit, colorSpace))
            == Facts(OrientationOf(v), Density(x, unit), Density(y, unit), Some(ColorSpaceOf(colorSpace)))
  {
    hide LastWhere, ShortOf, FractionOf, OrientationOf, ColorSpaceOf, Ratio, FieldFits, Inline, Full, ShortIn,
      FractionIs, Density, Scaled, ToInch;
    FullLasts(e, v, x, y, unit, colorSpace);
    FullHasSub(e, v, x, y, unit, colorSpace);
    ShortFits(e, 274, v);
    FractionFits(e, 282, x.0, x.1);
    FractionFits(e, 283, y.0, y.1);
    ShortFits(e, 296, unit);
    ShortFits(e, 40961, colorSpace);
    DensityIs(x, unit);
    DensityIs(y, unit);
  }

  lemma FullHasSub(e: Endian, v: nat, x: (nat, nat), y: (nat, nat), unit: nat, colorSpace: nat)
    requires v < 0x1_0000 && unit < 0x1_0000 && colorSpace < 0x1_0000
    requires RationalFits(Some(x)) && RationalFits(Some(y))
    ensures Full(e, v, x, y, unit, colorSpace).sub.Some?
  {
  }

  lemma DensityIs(x: (nat, nat), unit: nat)
    ensures Scaled(if x.1 == 0 then None else Some(x.0 as real / x.1 as real), ToInch(Some(unit))) == Density(x, unit)
  {
  }
}
