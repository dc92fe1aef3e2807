/** What a printed document says, field by field with the last one winning, and the proof that reading
    the print returns exactly that. */
module ExifRoundTrip {
  import opened Basics
  import opened Exif
  import opened ExifPrinter

  // ---- what the fields mean ------------------------------------------------------------------

  /** The last field the test picks. */
  function LastWhere(fs: seq<Field>, test: Field -> bool): (r: Option<Field>)
    ensures r.Some? ==> r.value in fs && test(r.value)
    ensures r.None? ==> forall f :: f in fs ==> !test(f)
  {
    if fs == [] then None
    else if test(fs[|fs| - 1]) then Some(fs[|fs| - 1])
    else LastWhere(fs[..|fs| - 1], test)
  }

  predicate IsOrientation(f: Field) {
    f.Plain? && f.tag == 0x0112 && f.fieldType == SHORT
  }

  predicate IsXResolution(f: Field) {
    f.Plain? && f.tag == 0x011A
  }

  predicate IsYResolution(f: Field) {
    f.Plain? && f.tag == 0x011B
  }

  predicate IsUnit(f: Field) {
    f.Plain? && f.tag == 0x0128 && f.fieldType == SHORT
  }

  predicate IsColorSpace(f: Field) {
    f.Plain? && f.tag == 0xA001 && f.fieldType == SHORT
  }

  /** The first number of a short field. */
  function ShortOf(e: Endian, f: Field): nat {
    if f.Plain? && |f.payload| >= 2 then Pair(e, f.payload[0], f.payload[1]) else 0
  }

  function LongOf(e: Endian, b: Bytes): nat {
    if |b| >= 4 then Quad(e, b[0], b[1], b[2], b[3]) else 0
  }

  /** The first fraction of a rational field, unless it has none or its denominator is zero. */
  function FractionOf(e: Endian, f: Field): Option<real> {
    if f.Pointer? || f.fieldType != RATIONAL || f.count == 0 || |f.payload| < 8 || LongOf(e, f.payload[4..]) == 0
      then None
    else Some(Ratio(LongOf(e, f.payload), LongOf(e, f.payload[4..])))
  }

  function OrientationIn(e: Endian, fs: seq<Field>): Option<Orientation> {
    match LastWhere(fs, IsOrientation) case None => None case Some(f) => OrientationOf(ShortOf(e, f))
  }

  function FractionIn(e: Endian, fs: seq<Field>, test: Field -> bool): Option<real> {
    match LastWhere(fs, test) case None => None case Some(f) => FractionOf(e, f)
  }

  function UnitIn(e: Endian, fs: seq<Field>): Option<nat> {
    match LastWhere(fs, IsUnit) case None => None case Some(f) => Some(ShortOf(e, f))
  }

  function ColorSpaceIn(e: Endian, fs: seq<Field>): Option<ColorSpace> {
    match LastWhere(fs, IsColorSpace) case None => None case Some(f) => Some(ColorSpaceOf(ShortOf(e, f)))
  }

  /** The facts a document states. */
  function Stated(e: Endian, d: Document): Facts {
    Facts(OrientationIn(e, d.main),
          Scaled(FractionIn(e, d.main, IsXResolution), ToInch(UnitIn(e, d.main))),
          Scaled(FractionIn(e, d.main, IsYResolution), ToInch(UnitIn(e, d.main))),
          if Pointer in d.main && d.sub.Some? then ColorSpaceIn(e, d.sub.value) else None)
  }

  // ---- values read in place --------------------------------------------------------------------

  lemma ReadShort(buf: Bytes, e: Endian, f: Field, off: nat, sub: nat)
    requires FieldFits(f) && f.Plain? && f.fieldType == SHORT && sub < 0x1_0000_0000
             && Holds(buf, off, Value(e, f, sub))
    ensures U16(buf, e, off) == Some(ShortOf(e, f))
  {
  }

  lemma ReadLong(buf: Bytes, e: Endian, off: nat, b: Bytes)
    requires |b| >= 4 && Holds(buf, off, b)
    ensures U32(buf, e, off) == Some(LongOf(e, b))
  {
  }

  lemma ReadFraction(buf: Bytes, e: Endian, f: Field, off: nat, sub: nat)
    requires FieldFits(f) && f.Plain? && sub < 0x1_0000_0000 && Holds(buf, off, Value(e, f, sub))
    ensures ReadRational(buf, e, Entry(f.tag, f.fieldType, f.count, off)) == FractionOf(e, f)
  {
    if f.fieldType == RATIONAL && f.count > 0 {
      var p := f.payload;
      assert |p| == 8 * f.count && |p| >= 8;
      assert p == p[..4] + p[4..];
      HoldsSplit(buf, off, p[..4], p[4..]);
      ReadLong(buf, e, off, p);
      ReadLong(buf, e, off + 4, p[4..]);
      hide LongOf, U32, Holds, Ratio;
    }
  }

  // ---- the walk reads what is stated -----------------------------------------------------------

  /** What the walk over the first k fields should have gathered. */
  function StatedBy(e: Endian, fs: seq<Field>, sub: nat): Gathered {
    Gathered(OrientationIn(e, fs), FractionIn(e, fs, IsXResolution), FractionIn(e, fs, IsYResolution), UnitIn(e, fs),
             if Pointer in fs then Some(sub) else None)
  }

  lemma LastOf(fs: seq<Field>, k: nat, test: Field -> bool)
    requires k < |fs|
    ensures LastWhere(fs[..k + 1], test) == if test(fs[k]) then Some(fs[k]) else LastWhere(fs[..k], test)
  {
    assert fs[..k + 1][..k] == fs[..k];
  }

  lemma GatherField(buf: Bytes, e: Endian, fs: seq<Field>, k: nat, entry: Entry, sub: nat)
    requires k < |fs| && FieldFits(fs[k]) && sub < 0x1_0000_0000 && Holds(buf, entry.valueOff, Value(e, fs[k], sub))
    requires entry == match fs[k] case Pointer => Entry(0x8769, LONG, 1, entry.valueOff)
                                  case Plain(tag, t, n, _) => Entry(tag, t, n, entry.valueOff)
    ensures Gather(buf, e, StatedBy(e, fs[..k], sub), entry) == StatedBy(e, fs[..k + 1], sub)
  {
    hide LastWhere, Holds, Put32, ReadRational, FractionOf, U16, U32, ShortOf, TypeSize;
    var f := fs[k];
    LastOf(fs, k, IsOrientation);
    LastOf(fs, k, IsXResolution);
    LastOf(fs, k, IsYResolution);
    LastOf(fs, k, IsUnit);
    assert fs[..k + 1] == fs[..k] + [f];
    if f.Pointer? {
      Read32(buf, e, entry.valueOff, sub);
    } else {
      if f.fieldType == SHORT {
        ReadShort(buf, e, f, entry.valueOff, sub);
      }
      ReadFraction(buf, e, f, entry.valueOff, sub);
    }
  }

  lemma {:induction false} GatheredIsStated(buf: Bytes, e: Endian, fs: seq<Field>, at: nat, sub: nat, k: nat)
    requires DirectoryFits(fs, at) && sub < 0x1_0000_0000 && Printed(buf, e, fs, at, sub) && k <= |fs|
    ensures GatherAll(buf, e, EntriesOf(fs, at)[..k]) == StatedBy(e, fs[..k], sub)
  {
    hide Printed, DirectoryFits, Gather, ValueAt, ReadEntry, Holds, Value, StatedBy;
    FitsParts(fs, at);
    if k > 0 {
      GatheredIsStated(buf, e, fs, at, sub, k - 1);
      assert EntriesOf(fs, at)[..k][..k - 1] == EntriesOf(fs, at)[..k - 1];
      EntryRead(buf, e, fs, at, sub, k - 1);
      GatherField(buf, e, fs, k - 1, EntriesOf(fs, at)[k - 1], sub);
    } else {
      NothingStated(e, sub);
      assert fs[..0] == [] && EntriesOf(fs, at)[..0] == [];
    }
  }

  lemma FitsParts(fs: seq<Field>, at: nat)
    requires DirectoryFits(fs, at)
    ensures AllFit(fs)
  {
  }

  lemma NothingStated(e: Endian, sub: nat)
    ensures StatedBy(e, [], sub) == BLANK
  {
  }

  lemma {:induction false} ColorIsStated(buf: Bytes, e: Endian, fs: seq<Field>, at: nat, k: nat)
    requires DirectoryFits(fs, at) && Printed(buf, e, fs, at, 0) && k <= |fs| && Pointer !in fs
    ensures ColorSpaceAll(buf, e, EntriesOf(fs, at)[..k]) == ColorSpaceIn(e, fs[..k])
  {
    hide Printed, DirectoryFits, ValueAt, ReadEntry, Holds, Value, U16, LastWhere, ShortOf;
    FitsParts(fs, at);
    if k > 0 {
      ColorIsStated(buf, e, fs, at, k - 1);
      assert EntriesOf(fs, at)[..k][..k - 1] == EntriesOf(fs, at)[..k - 1];
      EntryRead(buf, e, fs, at, 0, k - 1);
      LastOf(fs, k - 1, IsColorSpace);
      var f := fs[k - 1];
      assert f.Plain?;
      if f.fieldType == SHORT {
        ReadShort(buf, e, f, ValueAt(fs, k - 1, at), 0);
      }
    } else {
      NoColorStated(e);
      assert fs[..0] == [] && EntriesOf(fs, at)[..0] == [];
    }
  }

  lemma NoColorStated(e: Endian)
    ensures ColorSpaceIn(e, []) == None
  {
  }

  /** Reading a printed document, in either byte order, returns exactly the facts it states. */
  lemma ParseInvertsPrint(e: Endian, d: Document)
    requires DocumentFits(d)
    ensures ParseTiff(Print(e, d)) == Some(Stated(e, d))
  {
    hide Print, Printed, GatherAll, ColorSpaceAll, LastWhere, EntryOf, PutDirectory, Blocks, StatedBy, FieldFits,
      AllFit, ByteOrder, U16, U32, Scaled, ToInch, FractionIn, UnitIn, OrientationIn, ColorSpaceIn, Directory;
    var buf, main := Print(e, d), d.main;
    PrintParts(e, d);
    DirectoryRead(buf, e, main, MAIN_AT, SubAt(d));
    GatheredIsStated(buf, e, main, MAIN_AT, SubAt(d), |main|);
    assert EntriesOf(main, MAIN_AT)[..|main|] == EntriesOf(main, MAIN_AT) && main[..|main|] == main;
    StatedByParts(e, main, SubAt(d));
    if Pointer in main {
      SubRead(e, d);
    }
  }

  /** When a printed document reads back with densities: its fraction counts in inches also when no unit field
      is there, and it is dropped exactly under a unit other than inch and centimetre. */
  lemma AbsentUnitIsInch(e: Endian, d: Document)
    requires DocumentFits(d)
    ensures var facts, unit := ParseTiff(Print(e, d)), UnitIn(e, d.main);
            var x, y := FractionIn(e, d.main, IsXResolution), FractionIn(e, d.main, IsYResolution);
            && facts.Some?
            && (unit in {None, Some(2)} ==> facts.value.dpiX == x && facts.value.dpiY == y)
            && (facts.value.dpiX.Some? <==> x.Some? && unit in {None, Some(2), Some(3)})
            && (facts.value.dpiY.Some? <==> y.Some? && unit in {None, Some(2), Some(3)})
  {
    hide Print, ParseTiff, DocumentFits, FractionIn, UnitIn, OrientationIn, ColorSpaceIn;
    ParseInvertsPrint(e, d);
  }

  lemma StatedByParts(e: Endian, fs: seq<Field>, sub: nat)
    ensures StatedBy(e, fs, sub) == Gathered(OrientationIn(e, fs), FractionIn(e, fs, IsXResolution),
                                             FractionIn(e, fs, IsYResolution),
                                             UnitIn(e, fs), if Pointer in fs then Some(sub) else None)
  {
  }

  /** What lies behind the pointer: the colour space of the sub-directory, or nothing at the end of the block. */
  lemma SubRead(e: Endian, d: Document)
    requires DocumentFits(d)
    ensures ColorSpaceAll(Print(e, d), e, Directory(Print(e, d), e, SubAt(d)))
            == if d.sub.Some? then ColorSpaceIn(e, d.sub.value) else None
  {
    hide Print, Printed, LastWhere, EntryOf, PutDirectory, Blocks, FieldFits, AllFit, ByteOrder, U32, ColorSpaceIn;
    var buf := Print(e, d);
    PrintParts(e, d);
    match d.sub
    case None =>
      assert Directory(buf, e, SubAt(d)) == [];
    case Some(fs) =>
      DirectoryRead(buf, e, fs, SubAt(d), 0);
      ColorIsStated(buf, e, fs, SubAt(d), |fs|);
      assert EntriesOf(fs, SubAt(d))[..|fs|] == EntriesOf(fs, SubAt(d)) && fs[..|fs|] == fs;
  }

  /** The header and the directories lie where the reader looks for them. */
  lemma PrintParts(e: Endian, d: Document)
    requires DocumentFits(d)
    ensures var buf := Print(e, d);
            && |buf| >= 8 && ByteOrder(buf) == Some(e) && U16(buf, e, 2) == Some(42) && U32(buf, e, 4) == Some(MAIN_AT)
            && Printed(buf, e, d.main, MAIN_AT, SubAt(d))
            && (d.sub.None? ==> |buf| == SubAt(d))
            && (d.sub.Some? ==> Printed(buf, e, d.sub.value, SubAt(d), 0))
  {
    hide PutFields, Put16, Put32, Blocks, DirectorySize;
    var head, main := Header(e), PutDirectory(e, d.main, MAIN_AT, SubAt(d));
    var rest: Bytes := match d.sub case None => [] case Some(fs) => PutDirectory(e, fs, SubAt(d), 0);
    var buf := Print(e, d);
    hide PutDirectory, Header;
    assert buf[0..0 + |buf|] == buf;
    HoldsSplit(buf, 0, head + main, rest);
    HoldsSplit(buf, 0, head, main);
    HeaderRead(buf, e);
  }

  lemma HeaderRead(buf: Bytes, e: Endian)
    requires Holds(buf, 0, Header(e))
    ensures |buf| >= 8 && ByteOrder(buf) == Some(e) && U16(buf, e, 2) == Some(42) && U32(buf, e, 4) == Some(MAIN_AT)
  {
  }

  // ---- the minimal little-endian block ---------------------------------------------------------

  /** A short value left-justified in the four value bytes. */
  function PackShort(v: nat): (b: Bytes)
    requires v < 0x1_0000
    ensures |b| == 4
  {
    Put16(Little, v) + [0, 0]
  }

  predicate Wide(v: Option<nat>) {
    v.Some? ==> v.value < 0x1_0000
  }

  predicate RationalFits(x: Option<(nat, nat)>) {
    x.Some? ==> x.value.0 < 0x1_0000_0000 && x.value.1 < 0x1_0000_0000
  }

  function One<T>(o: Option<T>): nat {
    if o.Some? then 1 else 0
  }

  function EntryBytes(tag: nat, t: nat, value: Bytes): (b: Bytes)
    requires tag < 0x1_0000 && t < 0x1_0000 && |value| == 4
    ensures |b| == 12
  {
    Put16(Little, tag) + Put16(Little, t) + Put32(Little, 1) + value
  }

  function ShortEntry(tag: nat, v: Option<nat>): Bytes
    requires tag < 0x1_0000 && Wide(v)
  {
    match v case None => [] case Some(s) => EntryBytes(tag, SHORT, PackShort(s))
  }

  function FractionEntry(x: Option<(nat, nat)>, at: nat): Bytes
    requires at < 0x1_0000_0000
  {
    if x.Some? then EntryBytes(0x011A, RATIONAL, Put32(Little, at)) else []
  }

  function PointerEntry(present: bool, at: nat): Bytes
    requires at < 0x1_0000_0000
  {
    if present then EntryBytes(0x8769, LONG, Put32(Little, at)) else []
  }

  function Fraction(x: Option<(nat, nat)>): (b: Bytes)
    requires RationalFits(x)
    ensures |b| == if x.Some? then 8 else 0
  {
    match x case None => [] case Some(r) => Put32(Little, r.0) + Put32(Little, r.1)
  }

  /** Where the main directory ends: its out-of-line values start there. */
  function DirectoryEnd(orientation: Option<nat>, xres: Option<(nat, nat)>, unit: Option<nat>,
                        colorSpace: Option<nat>): nat {
    8 + 2 + 12 * (One(orientation) + One(xres) + One(unit) + One(colorSpace)) + 4
  }

  function MainDirectory(orientation: Option<nat>, xres: Option<(nat, nat)>, unit: Option<nat>,
                         colorSpace: Option<nat>): Bytes
    requires Wide(orientation) && RationalFits(xres) && Wide(unit) && Wide(colorSpace)
  {
    var end := DirectoryEnd(orientation, xres, unit, colorSpace);
    Put16(Little, One(orientation) + One(xres) + One(unit) + One(colorSpace))
    + (ShortEntry(0x0112, orientation) + FractionEntry(xres, end) + ShortEntry(0x0128, unit)
       + PointerEntry(colorSpace.Some?, end + |Fraction(xres)|))
    + Put32(Little, 0) + Fraction(xres)
  }

  function SubDirectory(colorSpace: Option<nat>): Bytes
    requires Wide(colorSpace) && colorSpace.Some?
  {
    Put16(Little, 1) + ShortEntry(0xA001, colorSpace) + Put32(Little, 0)
  }

  /** An orientation, an X resolution, its unit and a colour space, each when given: header, directory in
      ascending tag order, the fraction after it, then the sub-directory. */
  function BuildLe(orientation: Option<nat>, xres: Option<(nat, nat)>, unit: Option<nat>,
                   colorSpace: Option<nat>): Bytes
    requires Wide(orientation) && RationalFits(xres) && Wide(unit) && Wide(colorSpace)
  {
    [0x49, 0x49] + Put16(Little, 42) + Put32(Little, 8) + MainDirectory(orientation, xres, unit, colorSpace)
    + if colorSpace.Some? then SubDirectory(colorSpace) else []
  }

  function ShortField(tag: nat, v: Option<nat>): (fs: seq<Field>)
    requires Wide(v)
  {
    match v case None => [] case Some(s) => [Plain(tag, SHORT, 1, PackShort(s))]
  }

  function FractionField(x: Option<(nat, nat)>): (fs: seq<Field>)
    requires RationalFits(x)
  {
    if x.Some? then [Plain(0x011A, RATIONAL, 1, Fraction(x))] else []
  }

  function PointerField(present: bool): seq<Field> {
    if present then [Pointer] else []
  }

  function DocumentOf(orientation: Option<nat>, xres: Option<(nat, nat)>, unit: Option<nat>,
                      colorSpace: Option<nat>): Document
    requires Wide(orientation) && RationalFits(xres) && Wide(unit) && Wide(colorSpace)
  {
    Document(ShortField(0x0112, orientation) + FractionField(xres) + ShortField(0x0128, unit)
             + PointerField(colorSpace.Some?),
             if colorSpace.Some? then Some(ShortField(0xA001, colorSpace)) else None)
  }

  /** A field or none. */
  type Maybe = fs: seq<Field> | |fs| <= 1 && AllFit(fs)

  function PutMaybe(fs: Maybe, block: nat, sub: nat): Bytes
    requires block < 0x1_0000_0000 && sub < 0x1_0000_0000
  {
    if fs == [] then [] else PutField(Little, fs[0], block, sub)
  }

  function BlockOf(fs: Maybe): Bytes {
    if fs == [] || Inline(fs[0]) then [] else fs[0].payload
  }

  lemma Append(fs: seq<Field>, extra: Maybe, base: nat, sub: nat)
    requires AllFit(fs) && sub < 0x1_0000_0000 && base + |Blocks(fs)| + |BlockOf(extra)| < 0x1_0000_0000
    ensures AllFit(fs + extra) && Blocks(fs + extra) == Blocks(fs) + BlockOf(extra)
    ensures PutFields(Little, fs + extra, base, sub)
            == PutFields(Little, fs, base, sub) + PutMaybe(extra, base + |Blocks(fs)|, sub)
  {
    hide PutField, FieldFits, Inline;
    if extra == [] {
      assert fs + extra == fs;
    } else {
      assert (fs + extra)[..|fs|] == fs;
    }
  }

  lemma ShortPart(tag: nat, v: Option<nat>, block: nat, sub: nat)
    requires tag < 0x1_0000 && Wide(v) && block < 0x1_0000_0000 && sub < 0x1_0000_0000
    ensures var fs := ShortField(tag, v);
            && |fs| == One(v) && AllFit(fs) && BlockOf(fs) == [] && Pointer !in fs
            && PutMaybe(fs, block, sub) == ShortEntry(tag, v)
  {
  }

  lemma FractionPart(x: Option<(nat, nat)>, block: nat, sub: nat)
    requires RationalFits(x) && block < 0x1_0000_0000 && sub < 0x1_0000_0000
    ensures var fs := FractionField(x);
            && |fs| == One(x) && AllFit(fs) && BlockOf(fs) == Fraction(x)
            && PutMaybe(fs, block, sub) == FractionEntry(x, block)
  {
  }

  lemma PointerPart(present: bool, block: nat, sub: nat)
    requires block < 0x1_0000_0000 && sub < 0x1_0000_0000
    ensures var fs := PointerField(present);
            && |fs| == (if present then 1 else 0) && AllFit(fs) && BlockOf(fs) == []
            && PutMaybe(fs, block, sub) == PointerEntry(present, sub)
  {
  }

  /** One more field without an out-of-line value. */
  lemma AppendInline(fs: seq<Field>, extra: Maybe, base: nat, sub: nat, tail: Bytes, front: Bytes, last: Bytes)
    requires AllFit(fs) && Blocks(fs) == tail && BlockOf(extra) == [] && sub < 0x1_0000_0000
             && base + |tail| < 0x1_0000_0000
    requires PutFields(Little, fs, base, sub) == front && PutMaybe(extra, base + |tail|, sub) == last
    ensures AllFit(fs + extra) && Blocks(fs + extra) == tail && PutFields(Little, fs + extra, base, sub) == front + last
  {
    hide PutMaybe, BlockOf, PutFields, Blocks, AllFit;
    Append(fs, extra, base, sub);
    assert tail + [] == tail;
  }

  /** Four fields in a row, of which only the second has an out-of-line value. */
  lemma FourParts(a: Maybe, b: Maybe, c: Maybe, d: Maybe, base: nat, sub: nat, tail: Bytes,
                  pa: Bytes, pb: Bytes, pc: Bytes, pd: Bytes)
    requires BlockOf(a) == BlockOf(c) == BlockOf(d) == [] && BlockOf(b) == tail
    requires sub < 0x1_0000_0000 && base + |tail| < 0x1_0000_0000
    requires PutMaybe(a, base, sub) == pa && PutMaybe(b, base, sub) == pb
    requires PutMaybe(c, base + |tail|, sub) == pc && PutMaybe(d, base + |tail|, sub) == pd
    ensures AllFit(a + b + c + d) && Blocks(a + b + c + d) == tail
    ensures PutFields(Little, a + b + c + d, base, sub) == pa + pb + pc + pd
  {
    hide PutMaybe, BlockOf, PutFields, Blocks, AllFit;
    Alone(a, base, sub);
    Append(a, b, base, sub);
    assert [] + tail == tail;
    assert Blocks(a + b) == tail && PutFields(Little, a + b, base, sub) == pa + pb;
    AppendInline(a + b, c, base, sub, tail, pa + pb, pc);
    AppendInline(a + b + c, d, base, sub, tail, pa + pb + pc, pd);
  }

  lemma Alone(a: Maybe, base: nat, sub: nat)
    requires BlockOf(a) == [] && base < 0x1_0000_0000 && sub < 0x1_0000_0000
    ensures AllFit(a) && Blocks(a) == [] && PutFields(Little, a, base, sub) == PutMaybe(a, base, sub)
  {
  }

  lemma MainPart(orientation: Option<nat>, xres: Option<(nat, nat)>, unit: Option<nat>, colorSpace: Option<nat>)
    requires Wide(orientation) && RationalFits(xres) && Wide(unit) && Wide(colorSpace)
    ensures var fs := DocumentOf(orientation, xres, unit, colorSpace).main;
            var base := DirectoryEnd(orientation, xres, unit, colorSpace);
            && |fs| == One(orientation) + One(xres) + One(unit) + One(colorSpace)
            && AllFit(fs) && Blocks(fs) == Fraction(xres)
            && PutFields(Little, fs, base, base + |Fraction(xres)|)
               == ShortEntry(0x0112, orientation) + FractionEntry(xres, base) + ShortEntry(0x0128, unit)
                + PointerEntry(colorSpace.Some?, base + |Fraction(xres)|)
  {
    hide PackShort, PutFields, Blocks, PutMaybe, BlockOf, ShortEntry, FractionEntry, PointerEntry, AllFit, Inline;
    var base, tail := DirectoryEnd(orientation, xres, unit, colorSpace), Fraction(xres);
    var sub := base + |tail|;
    ShortPart(0x0112, orientation, base, sub);
    FractionPart(xres, base, sub);
    ShortPart(0x0128, unit, sub, sub);
    PointerPart(colorSpace.Some?, sub, sub);
    var a, b, c, d := ShortField(0x0112, orientation), FractionField(xres), ShortField(0x0128, unit),
      PointerField(colorSpace.Some?);
    hide ShortField, FractionField, PointerField, Fraction;
    FourParts(a, b, c, d, base, sub, tail, ShortEntry(0x0112, orientation), FractionEntry(xres, base),
              ShortEntry(0x0128, unit), PointerEntry(colorSpace.Some?, sub));
  }

  lemma MainIsPrinted(orientation: Option<nat>, xres: Option<(nat, nat)>, unit: Option<nat>, colorSpace: Option<nat>)
    requires Wide(orientation) && RationalFits(xres) && Wide(unit) && Wide(colorSpace)
    ensures var fs := DocumentOf(orientation, xres, unit, colorSpace).main;
            && DirectoryFits(fs, MAIN_AT)
            && MAIN_AT + DirectorySize(fs) < 200
            && PutDirectory(Little, fs, MAIN_AT, MAIN_AT + DirectorySize(fs))
              == MainDirectory(orientation, xres, unit, colorSpace)
  {
    hide Put16, Put32, PutFields, Blocks, ShortEntry, FractionEntry, PointerEntry, Fraction, ShortField, FractionField,
      PointerField;
    MainPart(orientation, xres, unit, colorSpace);
    hide DocumentOf, AllFit;
  }

  lemma SubIsPrinted(colorSpace: Option<nat>, at: nat)
    requires Wide(colorSpace) && colorSpace.Some? && at < 200
    ensures var fs := ShortField(0xA001, colorSpace);
            && DirectoryFits(fs, at) && Pointer !in fs
            && PutDirectory(Little, fs, at, 0) == SubDirectory(colorSpace)
  {
    hide Put16, Put32, PutFields, Blocks, PutMaybe, BlockOf, ShortEntry, PackShort, Inline, AllFit, ShortField;
    var fs := ShortField(0xA001, colorSpace);
    ShortPart(0xA001, colorSpace, at + 18, 0);
    Alone(fs, at + 18, 0);
    var entry := ShortEntry(0xA001, colorSpace);
    assert Put16(Little, 1) + entry + Put32(Little, 0) + [] == Put16(Little, 1) + entry + Put32(Little, 0);
  }

  /** The minimal block is the print of its document. */
  lemma BuildLeIsPrint(orientation: Option<nat>, xres: Option<(nat, nat)>, unit: Option<nat>, colorSpace: Option<nat>)
    requires Wide(orientation) && RationalFits(xres) && Wide(unit) && Wide(colorSpace)
    ensures DocumentFits(DocumentOf(orientation, xres, unit, colorSpace))
    ensures BuildLe(orientation, xres, unit, colorSpace)
            == Print(Little, DocumentOf(orientation, xres, unit, colorSpace))
  {
    hide Put16, Put32, MainDirectory, SubDirectory, PutDirectory, DirectorySize, AllFit, DirectoryFits;
    MainIsPrinted(orientation, xres, unit, colorSpace);
    var d := DocumentOf(orientation, xres, unit, colorSpace);
    FitsParts(d.main, MAIN_AT);
    if colorSpace.Some? {
      SubIsPrinted(colorSpace, MAIN_AT + DirectorySize(d.main));
    }
  }

  /** What the minimal block is built to say: the resolution scaled from its unit to inches, and no Y resolution. */
  function Intended(orientation: Option<nat>, xres: Option<(nat, nat)>, unit: Option<nat>,
                    colorSpace: Option<nat>): Facts {
    Facts(match orientation case None => None
                            case Some(v) => if 1 <= v <= 8 then Some(ORIENTATIONS[v - 1]) else None,
          match xres case None => None
                     case Some((num, den)) =>
                       if den == 0 || !(unit == None || unit == Some(2) || unit == Some(3)) then None
                       else if unit == Some(3) then Some(num as real / den as real * 2.54)
                       else Some(num as real / den as real),
          None,
          match colorSpace case None => None
                           case Some(v) => Some(if v == 1 then Srgb else if v == 65535 then Uncalibrated else Other(v)))
  }

  /** The orientations 1 to 8 of TIFF Revision 6.0, tag 274, named by the sides of the first row and column. */
  const ORIENTATIONS := [TopLeft, TopRight, BottomRight, BottomLeft, LeftTop, RightTop, RightBottom, LeftBottom]

  lemma OrientationListed(v: nat)
    ensures OrientationOf(v) == if 1 <= v <= 8 then Some(ORIENTATIONS[v - 1]) else None
  {
  }

  lemma ShortBack(tag: nat, v: Option<nat>)
    requires Wide(v) && v.Some?
    ensures ShortOf(Little, ShortField(tag, v)[0]) == v.value
  {
  }

  lemma FractionBack(x: Option<(nat, nat)>)
    requires RationalFits(x) && x.Some?
    ensures FractionOf(Little, FractionField(x)[0])
            == if x.value.1 == 0 then None else Some(Ratio(x.value.0, x.value.1))
  {
  }

  function Pick(fs: Maybe, test: Field -> bool): Option<Field> {
    if fs != [] && test(fs[0]) then Some(fs[0]) else None
  }

  function OrElse(a: Option<Field>, b: Option<Field>): Option<Field> {
    if a.Some? then a else b
  }

  lemma LastOfTwo(fs: seq<Field>, extra: Maybe, test: Field -> bool)
    ensures LastWhere(fs + extra, test) == OrElse(Pick(extra, test), LastWhere(fs, test))
  {
    if extra == [] {
      assert fs + extra == fs;
    } else {
      assert (fs + extra)[..|fs|] == fs;
    }
  }

  lemma LastOfOne(fs: Maybe, test: Field -> bool)
    ensures LastWhere(fs, test) == Pick(fs, test)
  {
  }

  lemma LastOfFour(a: Maybe, b: Maybe, c: Maybe, d: Maybe, test: Field -> bool)
    ensures LastWhere(a + b + c + d, test)
            == OrElse(Pick(d, test), OrElse(Pick(c, test), OrElse(Pick(b, test), Pick(a, test))))
  {
    LastOfOne(a, test);
    hide LastWhere, Pick, AllFit;
    LastOfTwo(a, b, test);
    LastOfTwo(a + b, c, test);
    LastOfTwo(a + b + c, d, test);
  }

  lemma Picks(orientation: Option<nat>, xres: Option<(nat, nat)>, unit: Option<nat>, colorSpace: Option<nat>)
    requires Wide(orientation) && RationalFits(xres) && Wide(unit)
    ensures var a, b, c, d := ShortField(0x0112, orientation), FractionField(xres), ShortField(0x0128, unit),
            PointerField(colorSpace.Some?);
            && |a| <= 1 && |b| <= 1 && |c| <= 1 && AllFit(a) && AllFit(b) && AllFit(c) && AllFit(d)
            && Pick(b, IsOrientation) == Pick(c, IsOrientation) == Pick(d, IsOrientation) == None
            && Pick(a, IsXResolution) == Pick(c, IsXResolution) == Pick(d, IsXResolution) == None
            && Pick(a, IsYResolution) == Pick(b, IsYResolution) == Pick(c, IsYResolution) == Pick(d, IsYResolution)
              == None
            && Pick(a, IsUnit) == Pick(b, IsUnit) == Pick(d, IsUnit) == None
            && (Pointer in a + b + c + d <==> colorSpace.Some?)
  {
  }

  lemma MainStated(orientation: Option<nat>, xres: Option<(nat, nat)>, unit: Option<nat>, colorSpace: Option<nat>)
    requires Wide(orientation) && RationalFits(xres) && Wide(unit) && Wide(colorSpace)
    ensures var fs := DocumentOf(orientation, xres, unit, colorSpace).main;
            && LastWhere(fs, IsOrientation) == Pick(ShortField(0x0112, orientation), IsOrientation)
            && LastWhere(fs, IsXResolution) == Pick(FractionField(xres), IsXResolution)
            && LastWhere(fs, IsYResolution) == None
            && LastWhere(fs, IsUnit) == Pick(ShortField(0x0128, unit), IsUnit)
            && (Pointer in fs <==> colorSpace.Some?)
  {
    Picks(orientation, xres, unit, colorSpace);
    hide LastWhere, Pick, ShortField, FractionField, PointerField, AllFit;
    var a, b, c, d := ShortField(0x0112, orientation), FractionField(xres), ShortField(0x0128, unit),
      PointerField(colorSpace.Some?);
    LastOfFour(a, b, c, d, IsOrientation);
    LastOfFour(a, b, c, d, IsXResolution);
    LastOfFour(a, b, c, d, IsYResolution);
    LastOfFour(a, b, c, d, IsUnit);
  }

  lemma MainFacts(orientation: Option<nat>, xres: Option<(nat, nat)>, unit: Option<nat>, colorSpace: Option<nat>)
    requires Wide(orientation) && RationalFits(xres) && Wide(unit) && Wide(colorSpace)
    ensures var fs := DocumentOf(orientation, xres, unit, colorSpace).main;
            && OrientationIn(Little, fs) == (match orientation case None => None case Some(v) => OrientationOf(v))
            && UnitIn(Little, fs) == unit
            && FractionIn(Little, fs, IsYResolution) == None
            && FractionIn(Little, fs, IsXResolution)
               == if xres.Some? && xres.value.1 != 0 then Some(Ratio(xres.value.0, xres.value.1)) else None
  {
    MainStated(orientation, xres, unit, colorSpace);
    if orientation.Some? { ShortBack(0x0112, orientation); }
    if unit.Some? { ShortBack(0x0128, unit); }
    if xres.Some? { FractionBack(xres); }
    hide LastWhere, ShortOf, FractionOf, PackShort, Fraction, OrientationOf, DocumentOf, Ratio;
  }

  lemma ColorFact(colorSpace: Option<nat>)
    requires Wide(colorSpace) && colorSpace.Some?
    ensures ColorSpaceIn(Little, ShortField(0xA001, colorSpace)) == Some(ColorSpaceOf(colorSpace.value))
  {
  }

  lemma Scaling(r: real, unit: Option<nat>)
    ensures Scaled(Some(r), ToInch(unit))
            == if unit == Some(3) then Some(r * 2.54) else if unit == None || unit == Some(2) then Some(r) else None
  {
  }

  lemma ColorSpaceIs(v: nat)
    ensures ColorSpaceOf(v) == if v == 1 then Srgb else if v == 65535 then Uncalibrated else Other(v)
  {
  }

  lemma RatioIs(num: nat, den: nat)
    requires den != 0
    ensures Ratio(num, den) == num as real / den as real
  {
  }

  lemma StatedIsIntended(orientation: Option<nat>, xres: Option<(nat, nat)>, unit: Option<nat>, colorSpace: Option<nat>)
    requires Wide(orientation) && RationalFits(xres) && Wide(unit) && Wide(colorSpace)
    ensures Stated(Little, DocumentOf(orientation, xres, unit, colorSpace))
            == Intended(orientation, xres, unit, colorSpace)
  {
    hide OrientationIn, UnitIn, FractionIn, ColorSpaceIn, LastWhere, Pick, ShortField, FractionField, PointerField,
      ColorSpaceOf, OrientationOf, Ratio, AllFit, Blocks, ShortOf, FractionOf, PackShort, Fraction;
    MainStated(orientation, xres, unit, colorSpace);
    MainFacts(orientation, xres, unit, colorSpace);
    if orientation.Some? { OrientationListed(orientation.value); }
    if colorSpace.Some? {
      ColorFact(colorSpace);
      ColorSpaceIs(colorSpace.value);
    }
    if xres.Some? && xres.value.1 != 0 {
      RatioIs(xres.value.0, xres.value.1);
      Scaling(Ratio(xres.value.0, xres.value.1), unit);
    }
    hide ToInch;
  }

  /** The reader inverts the builder, for every choice of its arguments. */
  lemma ParseInvertsBuildLe(orientation: Option<nat>, xres: Option<(nat, nat)>, unit: Option<nat>,
                            colorSpace: Option<nat>)
    requires Wide(orientation) && RationalFits(xres) && Wide(unit) && Wide(colorSpace)
    ensures Parse(BuildLe(orientation, xres, unit, colorSpace)) == Intended(orientation, xres, unit, colorSpace)
  {
    hide Print, Stated, Intended, BuildLe, ParseTiff, DocumentFits, DocumentOf;
    BuildLeIsPrint(orientation, xres, unit, colorSpace);
    ParseInvertsPrint(Little, DocumentOf(orientation, xres, unit, colorSpace));
    StatedIsIntended(orientation, xres, unit, colorSpace);
  }
}
