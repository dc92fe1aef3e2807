/** The lenient EXIF reader: a bounded walk over a TIFF block in either byte order
    (TIFF Revision 6.0, section 2) for orientation, resolution and the colour-space tag. */
module Exif {
  import opened Basics

  type Bytes = seq<byte>

  datatype Endian = Little | Big

  datatype Orientation =
    | TopLeft | TopRight | BottomRight | BottomLeft | LeftTop | RightTop | RightBottom | LeftBottom

  function OrientationOf(v: nat): Option<Orientation> {
    if v == 1 then Some(TopLeft) else if v == 2 then Some(TopRight) else if v == 3 then Some(BottomRight)
    else if v == 4 then Some(BottomLeft) else if v == 5 then Some(LeftTop) else if v == 6 then Some(RightTop)
    else if v == 7 then Some(RightBottom) else if v == 8 then Some(LeftBottom) else None
  }

  datatype Side = Top | Bottom | Left | Right

  /** The side of the upright image on which the first stored row belongs. */
  function RowSide(o: Orientation): Side {
    match o
    case TopLeft => Top
    case TopRight => Top
    case BottomRight => Bottom
    case BottomLeft => Bottom
    case LeftTop => Left
    case RightTop => Right
    case RightBottom => Right
    case LeftBottom => Left
  }

  /** The side of the upright image on which the first stored column belongs. */
  function ColumnSide(o: Orientation): Side {
    match o
    case TopLeft => Left
    case TopRight => Right
    case BottomRight => Right
    case BottomLeft => Left
    case LeftTop => Top
    case RightTop => Top
    case RightBottom => Bottom
    case LeftBottom => Bottom
  }

  datatype ColorSpace = Srgb | Uncalibrated | Other(v: nat)

  function ColorSpaceOf(v: nat): ColorSpace {
    if v == 1 then Srgb else if v == 0xFFFF then Uncalibrated else Other(v)
  }

  datatype Facts = Facts(orientation: Option<Orientation>, dpiX: Option<real>, dpiY: Option<real>,
                         colorSpace: Option<ColorSpace>)

  const NOTHING := Facts(None, None, None, None)

  // ---- bytes -------------------------------------------------------------------------------

  function Pair(e: Endian, a: byte, b: byte): (v: nat)
    ensures v < 0x1_0000
  {
    match e
    case Little => a + 256 * b
    case Big => 256 * a + b
  }

  function Quad(e: Endian, a: byte, b: byte, c: byte, d: byte): (v: nat)
    ensures v < 0x1_0000_0000
  {
    match e
    case Little => Pair(e, a, b) + 0x1_0000 * Pair(e, c, d)
    case Big => 0x1_0000 * Pair(e, a, b) + Pair(e, c, d)
  }

  function U16(buf: Bytes, e: Endian, off: nat): (v: Option<nat>)
    ensures v.Some? ==> v.value < 0x1_0000
  {
    if off + 2 <= |buf| then Some(Pair(e, buf[off], buf[off + 1])) else None
  }

  function U32(buf: Bytes, e: Endian, off: nat): (v: Option<nat>)
    ensures v.Some? ==> v.value < 0x1_0000_0000
  {
    if off + 4 <= |buf| then Some(Quad(e, buf[off], buf[off + 1], buf[off + 2], buf[off + 3])) else None
  }

  // ---- the directory walk --------------------------------------------------------------------

  const SHORT := 3
  const LONG := 4
  const RATIONAL := 5

  function TypeSize(t: nat): nat {
    if t == 1 || t == 2 || t == 6 || t == 7 then 1
    else if t == SHORT || t == 8 then 2
    else if t == LONG || t == 9 || t == 11 then 4
    else if t == RATIONAL || t == 10 || t == 12 then 8
    else 0
  }

  datatype Entry = Entry(tag: nat, fieldType: nat, count: nat, valueOff: nat)

  /** The entry whose twelve bytes start at `at`, its value inline or at the offset it gives. */
  function ReadEntry(buf: Bytes, e: Endian, at: nat): Option<Entry> {
    var tag, t, n := U16(buf, e, at), U16(buf, e, at + 2), U32(buf, e, at + 4);
    if tag.None? || t.None? || n.None? then None
    else if TypeSize(t.value) * n.value <= 4 then Some(Entry(tag.value, t.value, n.value, at + 8))
    else
      match U32(buf, e, at + 8)
      case None => None
      case Some(o) => Some(Entry(tag.value, t.value, n.value, o))
  }

  /** Entries i and on of a directory of n entries, stopping at the first that cannot be read. */
  function EntriesFrom(buf: Bytes, e: Endian, ifd: nat, i: nat, n: nat): (es: seq<Entry>)
    ensures |es| <= if i < n then n - i else 0
    decreases n - i
  {
    if i >= n then []
    else
      match ReadEntry(buf, e, ifd + 2 + 12 * i)
      case None => []
      case Some(entry) => [entry] + EntriesFrom(buf, e, ifd, i + 1, n)
  }

  const MAX_ENTRIES := 512

  function Directory(buf: Bytes, e: Endian, ifd: nat): (es: seq<Entry>)
    ensures |es| <= MAX_ENTRIES
  {
    match U16(buf, e, ifd)
    case None => []
    case Some(n) => EntriesFrom(buf, e, ifd, 0, Min(n, MAX_ENTRIES))
  }

  lemma {:induction false} EntriesInPlace(buf: Bytes, e: Endian, ifd: nat, i: nat, n: nat)
    requires i <= n
    ensures var es := EntriesFrom(buf, e, ifd, i, n);
            && (forall k :: 0 <= k < |es| ==> ReadEntry(buf, e, ifd + 2 + 12 * (i + k)) == Some(es[k]))
            && (|es| < n - i ==> ReadEntry(buf, e, ifd + 2 + 12 * (i + |es|)) == None)
    decreases n - i
  {
    hide ReadEntry;
    if i < n && ReadEntry(buf, e, ifd + 2 + 12 * i).Some? {
      var rest := EntriesFrom(buf, e, ifd, i + 1, n);
      EntriesInPlace(buf, e, ifd, i + 1, n);
      forall k | 0 < k < |rest| + 1
        ensures ReadEntry(buf, e, ifd + 2 + 12 * (i + k)) == Some(EntriesFrom(buf, e, ifd, i, n)[k])
      {
        assert ReadEntry(buf, e, ifd + 2 + 12 * (i + 1 + (k - 1))) == Some(rest[k - 1]);
      }
    }
  }

  /** A directory holds the entries at their twelve-byte places, one after another, and ends only where the declared
      count or the limit does, or where the next entry cannot be read. */
  lemma DirectoryInPlace(buf: Bytes, e: Endian, ifd: nat)
    ensures var es, declared := Directory(buf, e, ifd), U16(buf, e, ifd);
            && (forall k :: 0 <= k < |es| ==> ReadEntry(buf, e, ifd + 2 + 12 * k) == Some(es[k]))
            && |es| <= (if declared.Some? then Min(declared.value, 512) else 0)
            && (declared.Some? && |es| < Min(declared.value, 512) ==>
                  ReadEntry(buf, e, ifd + 2 + 12 * |es|) == None)
  {
    hide ReadEntry;
    if U16(buf, e, ifd).Some? {
      EntriesInPlace(buf, e, ifd, 0, Min(U16(buf, e, ifd).value, MAX_ENTRIES));
    }
  }

  function Ratio(num: nat, den: nat): real
    requires den != 0
  {
    num as real / den as real
  }

  function ReadRational(buf: Bytes, e: Endian, entry: Entry): Option<real> {
    if entry.fieldType != RATIONAL || entry.count == 0 then None
    else
      var num, den := U32(buf, e, entry.valueOff), U32(buf, e, entry.valueOff + 4);
      if num.None? || den.None? || den.value == 0 then None else Some(Ratio(num.value, den.value))
  }

  /** What the walk over the main directory has gathered. */
  datatype Gathered = Gathered(orientation: Option<Orientation>, xres: Option<real>, yres: Option<real>,
                               unit: Option<nat>, pointer: Option<nat>)

  const BLANK := Gathered(None, None, None, None, None)

  function OrientationAt(buf: Bytes, e: Endian, off: nat): Option<Orientation> {
    match U16(buf, e, off)
    case None => None
    case Some(v) => OrientationOf(v)
  }

  function Gather(buf: Bytes, e: Endian, g: Gathered, entry: Entry): Gathered {
    if entry.tag == 0x0112 then
      if entry.fieldType == SHORT then g.(orientation := OrientationAt(buf, e, entry.valueOff)) else g
    else if entry.tag == 0x011A then g.(xres := ReadRational(buf, e, entry))
    else if entry.tag == 0x011B then g.(yres := ReadRational(buf, e, entry))
    else if entry.tag == 0x0128 then
      if entry.fieldType == SHORT then g.(unit := U16(buf, e, entry.valueOff)) else g
    else if entry.tag == 0x8769 then
      if entry.fieldType == LONG then g.(pointer := U32(buf, e, entry.valueOff)) else g
    else g
  }

  function GatherAll(buf: Bytes, e: Endian, entries: seq<Entry>): Gathered {
    if entries == [] then BLANK
    else Gather(buf, e, GatherAll(buf, e, entries[..|entries| - 1]), entries[|entries| - 1])
  }

  function ColorSpaceStep(buf: Bytes, e: Endian, c: Option<ColorSpace>, entry: Entry): Option<ColorSpace> {
    if entry.tag == 0xA001 && entry.fieldType == SHORT then
      match U16(buf, e, entry.valueOff)
      case None => None
      case Some(v) => Some(ColorSpaceOf(v))
    else c
  }

  function ColorSpaceAll(buf: Bytes, e: Endian, entries: seq<Entry>): Option<ColorSpace> {
    if entries == [] then None
    else ColorSpaceStep(buf, e, ColorSpaceAll(buf, e, entries[..|entries| - 1]), entries[|entries| - 1])
  }

  /** Inches: unit 2 or none given as they are, unit 3 (centimetres) scaled, anything else no density. */
  function ToInch(unit: Option<nat>): Option<real> {
    if unit == Some(3) then Some(2.54) else if unit == Some(2) || unit == None then Some(1.0) else None
  }

  function Scaled(res: Option<real>, factor: Option<real>): Option<real> {
    if res.Some? && factor.Some? then Some(res.value * factor.value) else None
  }

  function ByteOrder(buf: Bytes): Option<Endian>
    requires |buf| >= 2
  {
    if buf[0] == 0x49 && buf[1] == 0x49 then Some(Little)
    else if buf[0] == 0x4D && buf[1] == 0x4D then Some(Big)
    else None
  }

  function Report(buf: Bytes, e: Endian, g: Gathered): Facts {
    Facts(g.orientation, Scaled(g.xres, ToInch(g.unit)), Scaled(g.yres, ToInch(g.unit)),
          match g.pointer case None => None case Some(p) => ColorSpaceAll(buf, e, Directory(buf, e, p)))
  }

  /** The whole reader, on any byte string. */
  function ParseTiff(buf: Bytes): Option<Facts> {
    if |buf| < 8 || ByteOrder(buf).None? then None
    else
      var e := ByteOrder(buf).value;
      if U16(buf, e, 2) != Some(42) then None
      else
        var ifd0 := U32(buf, e, 4).value;
        Some(Report(buf, e, GatherAll(buf, e, Directory(buf, e, ifd0))))
  }

  function Parse(buf: Bytes): Facts {
    match ParseTiff(buf)
    case None => NOTHING
    case Some(f) => f
  }

  /** A block of at least eight bytes whose first four are `II*` or `MM*` in the byte order they announce is read, and
      no other; of another nothing is reported. */
  lemma HeaderDecides(buf: Bytes)
    ensures ParseTiff(buf).Some?
            <==> |buf| >= 8 && (buf[..4] == [0x49, 0x49, 42, 0] || buf[..4] == [0x4D, 0x4D, 0, 42])
    ensures ParseTiff(buf).None? ==> Parse(buf) == Facts(None, None, None, None)
  {
    hide Report, GatherAll, Directory;
    if |buf| >= 8 {
      assert buf[..4] == [buf[0], buf[1], buf[2], buf[3]];
    }
  }

  // ---- the loops -----------------------------------------------------------------------------

  method IterIfd(buf: Bytes, e: Endian, ifd: nat) returns (out: seq<Entry>)
    ensures out == Directory(buf, e, ifd)
  {
    hide ReadEntry;
    out := [];
    var declared := U16(buf, e, ifd);
    if declared.None? {
      return;
    }
    var count := Min(declared.value, MAX_ENTRIES);
    var i := 0;
    while i < count
      invariant 0 <= i <= count
      invariant out + EntriesFrom(buf, e, ifd, i, count) == EntriesFrom(buf, e, ifd, 0, count)
    {
      var entry := ReadEntry(buf, e, ifd + 2 + 12 * i);
      ghost var rest := EntriesFrom(buf, e, ifd, i + 1, count);
      if entry.None? {
        assert out + [] == out;
        return;
      }
      assert out + ([entry.value] + rest) == out + [entry.value] + rest;
      out := out + [entry.value];
      i := i + 1;
    }
    assert out + [] == out;
  }

  method ParseBlock(buf: Bytes) returns (facts: Facts)
    ensures facts == Parse(buf)
  {
    hide Gather, ColorSpaceStep, Directory, ToInch, Scaled, ByteOrder;
    if |buf| < 8 || ByteOrder(buf).None? {
      return NOTHING;
    }
    var e := ByteOrder(buf).value;
    if U16(buf, e, 2) != Some(42) {
      return NOTHING;
    }
    var ifd0 := U32(buf, e, 4).value;
    var entries := IterIfd(buf, e, ifd0);
    var g := BLANK;
    var k := 0;
    while k < |entries|
      invariant 0 <= k <= |entries| && g == GatherAll(buf, e, entries[..k])
    {
      assert entries[..k + 1][..k] == entries[..k];
      g := Gather(buf, e, g, entries[k]);
      k := k + 1;
    }
    assert entries[..k] == entries;
    var color: Option<ColorSpace> := None;
    if g.pointer.Some? {
      var sub := IterIfd(buf, e, g.pointer.value);
      k := 0;
      while k < |sub|
        invariant 0 <= k <= |sub| && color == ColorSpaceAll(buf, e, sub[..k])
      {
        assert sub[..k + 1][..k] == sub[..k];
        color := ColorSpaceStep(buf, e, color, sub[k]);
        k := k + 1;
      }
      assert sub[..k] == sub;
    }
    var factor := ToInch(g.unit);
    return Facts(g.orientation, Scaled(g.xres, factor), Scaled(g.yres, factor), color);
  }
}
