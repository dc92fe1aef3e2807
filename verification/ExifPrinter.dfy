/** Printing a directory, with an optional sub-directory, as a TIFF block in either byte order, and the
    proof that the reader gets back exactly the facts that were printed, the last field winning. */
module ExifPrinter {
  import opened Basics
  import opened Exif

  // ---- numbers -----------------------------------------------------------------------------

  function Put16(e: Endian, v: nat): (b: Bytes)
    requires v < 0x1_0000
    ensures |b| == 2 && Pair(e, b[0], b[1]) == v
  {
    match e
    case Little => [v % 256, v / 256]
    case Big => [v / 256, v % 256]
  }

  function Put32(e: Endian, v: nat): (b: Bytes)
    requires v < 0x1_0000_0000
    ensures |b| == 4 && Quad(e, b[0], b[1], b[2], b[3]) == v
  {
    match e
    case Little => Put16(e, v % 0x1_0000) + Put16(e, v / 0x1_0000)
    case Big => Put16(e, v / 0x1_0000) + Put16(e, v % 0x1_0000)
  }

  /** `part` lies in `buf` from `at` on. */
  ghost predicate Holds(buf: Bytes, at: nat, part: Bytes) {
    at + |part| <= |buf| && buf[at..at + |part|] == part
  }

  lemma Read16(buf: Bytes, e: Endian, at: nat, v: nat)
    requires v < 0x1_0000 && Holds(buf, at, Put16(e, v))
    ensures U16(buf, e, at) == Some(v)
  {
  }

  lemma Read32(buf: Bytes, e: Endian, at: nat, v: nat)
    requires v < 0x1_0000_0000 && Holds(buf, at, Put32(e, v))
    ensures U32(buf, e, at) == Some(v)
  {
  }

  lemma HoldsSplit(buf: Bytes, at: nat, a: Bytes, b: Bytes)
    ensures Holds(buf, at, a + b) <==> Holds(buf, at, a) && Holds(buf, at + |a|, b)
  {
    if Holds(buf, at, a + b) {
      assert buf[at..at + |a|] == buf[at..at + |a + b|][..|a|];
      assert buf[at + |a|..at + |a| + |b|] == buf[at..at + |a + b|][|a|..];
    }
    if Holds(buf, at, a) && Holds(buf, at + |a|, b) {
      assert buf[at..at + |a + b|] == buf[at..at + |a|] + buf[at + |a|..at + |a| + |b|];
    }
  }

  // ---- fields --------------------------------------------------------------------------------

  /** A field with its value bytes, or the pointer to the sub-directory. */
  datatype Field = Plain(tag: nat, fieldType: nat, count: nat, payload: Bytes) | Pointer

  predicate Inline(f: Field) {
    f.Pointer? || TypeSize(f.fieldType) * f.count <= 4
  }

  /** Tag, type and count fit their widths, the payload has the size they say (four bytes when it is
      kept inline), and the pointer tag is left to Pointer. */
  predicate FieldFits(f: Field) {
    f.Pointer? ||
    (&& f.tag < 0x1_0000 && f.fieldType < 0x1_0000 && f.count < 0x1_0000_0000
     && |f.payload| == (if Inline(f) then 4 else TypeSize(f.fieldType) * f.count)
     && !(f.tag == 0x8769 && f.fieldType == LONG))
  }

  predicate AllFit(fs: seq<Field>) {
    forall i :: 0 <= i < |fs| ==> FieldFits(fs[i])
  }

  /** The out-of-line values of the fields, one after another. */
  function Blocks(fs: seq<Field>): Bytes
    requires AllFit(fs)
  {
    if fs == [] then []
    else Blocks(fs[..|fs| - 1]) + if Inline(fs[|fs| - 1]) then [] else fs[|fs| - 1].payload
  }

  /** The twelve bytes of a field whose out-of-line value starts at `block` and whose sub-directory is at `sub`. */
  function PutField(e: Endian, f: Field, block: nat, sub: nat): (b: Bytes)
    requires FieldFits(f) && block < 0x1_0000_0000 && sub < 0x1_0000_0000
    ensures |b| == 12
  {
    match f
    case Pointer => Put16(e, 0x8769) + Put16(e, LONG) + Put32(e, 1) + Put32(e, sub)
    case Plain(tag, t, n, payload) =>
      Put16(e, tag) + Put16(e, t) + Put32(e, n) + if Inline(f) then payload else Put32(e, block)
  }

  /** The entries of a directory whose blocks start at `base`. */
  function PutFields(e: Endian, fs: seq<Field>, base: nat, sub: nat): (b: Bytes)
    requires AllFit(fs) && base + |Blocks(fs)| < 0x1_0000_0000 && sub < 0x1_0000_0000
    ensures |b| == 12 * |fs|
  {
    if fs == [] then []
    else
      var front := fs[..|fs| - 1];
      PutFields(e, front, base, sub) + PutField(e, fs[|fs| - 1], base + |Blocks(front)|, sub)
  }

  function DirectorySize(fs: seq<Field>): nat
    requires AllFit(fs)
  {
    2 + 12 * |fs| + 4 + |Blocks(fs)|
  }

  predicate DirectoryFits(fs: seq<Field>, at: nat) {
    AllFit(fs) && |fs| <= MAX_ENTRIES && at + DirectorySize(fs) < 0x1_0000_0000
  }

  /** A directory at `at`: entry count, entries, no next directory, then the out-of-line values. */
  function PutDirectory(e: Endian, fs: seq<Field>, at: nat, sub: nat): (b: Bytes)
    requires DirectoryFits(fs, at) && sub < 0x1_0000_0000
    ensures |b| == DirectorySize(fs)
  {
    Put16(e, |fs|) + PutFields(e, fs, at + 2 + 12 * |fs| + 4, sub) + Put32(e, 0) + Blocks(fs)
  }

  datatype Document = Document(main: seq<Field>, sub: Option<seq<Field>>)

  const MAIN_AT := 8

  predicate DocumentFits(d: Document) {
    && DirectoryFits(d.main, MAIN_AT)
    && (d.sub.Some? ==> DirectoryFits(d.sub.value, MAIN_AT + DirectorySize(d.main)) && Pointer !in d.sub.value)
  }

  /** Where the sub-directory goes, or the end of the block when there is none. */
  function SubAt(d: Document): nat
    requires DocumentFits(d)
  {
    MAIN_AT + DirectorySize(d.main)
  }

  function Header(e: Endian): (b: Bytes)
    ensures |b| == 8
  {
    (if e == Little then [0x49, 0x49] else [0x4D, 0x4D]) + Put16(e, 42) + Put32(e, MAIN_AT)
  }

  /** The two headers byte by byte, as TIFF Revision 6.0, section 2 gives them. */
  lemma HeaderBytes()
    ensures Header(Little) == [0x49, 0x49, 0x2A, 0x00, 0x08, 0x00, 0x00, 0x00]
    ensures Header(Big) == [0x4D, 0x4D, 0x00, 0x2A, 0x00, 0x00, 0x00, 0x08]
  {
    assert Put16(Little, 42) == [0x2A, 0x00] && Put16(Big, 42) == [0x00, 0x2A];
    assert Put32(Little, 8) == [0x08, 0x00, 0x00, 0x00] && Put32(Big, 8) == [0x00, 0x00, 0x00, 0x08];
  }

  function Print(e: Endian, d: Document): Bytes
    requires DocumentFits(d)
  {
    Header(e) + PutDirectory(e, d.main, MAIN_AT, SubAt(d))
    + match d.sub case None => [] case Some(fs) => PutDirectory(e, fs, SubAt(d), 0)
  }

  // ---- reading a printed directory -----------------------------------------------------------

  /** Where the value of field i is, in a directory at `at`. */
  function ValueAt(fs: seq<Field>, i: nat, at: nat): nat
    requires AllFit(fs) && i < |fs|
  {
    if Inline(fs[i]) then at + 2 + 12 * i + 8 else at + 2 + 12 * |fs| + 4 + |Blocks(fs[..i])|
  }

  function EntryOf(fs: seq<Field>, i: nat, at: nat): Entry
    requires AllFit(fs) && i < |fs|
  {
    match fs[i]
    case Pointer => Entry(0x8769, LONG, 1, ValueAt(fs, i, at))
    case Plain(tag, t, n, _) => Entry(tag, t, n, ValueAt(fs, i, at))
  }

  /** The bytes the value of a field is read from. */
  function Value(e: Endian, f: Field, sub: nat): Bytes
    requires FieldFits(f) && sub < 0x1_0000_0000
  {
    match f
    case Pointer => Put32(e, sub)
    case Plain(_, _, _, payload) => payload
  }

  lemma {:induction false} BlocksPrefix(fs: seq<Field>, i: nat)
    requires AllFit(fs) && i <= |fs|
    ensures AllFit(fs[..i]) && |Blocks(fs[..i])| <= |Blocks(fs)|
    decreases |fs| - i
  {
    if i < |fs| {
      BlocksPrefix(fs, i + 1);
      assert fs[..i + 1][..i] == fs[..i];
    } else {
      assert fs[..i] == fs;
    }
  }

  lemma {:induction false} BlockHeld(buf: Bytes, fs: seq<Field>, base: nat, i: nat)
    requires AllFit(fs) && i < |fs| && !Inline(fs[i]) && Holds(buf, base, Blocks(fs))
    ensures Holds(buf, base + |Blocks(fs[..i])|, fs[i].payload)
    decreases |fs|
  {
    hide Holds, FieldFits, TypeSize;
    var front, f := fs[..|fs| - 1], fs[|fs| - 1];
    var last: Bytes := if Inline(f) then [] else f.payload;
    HoldsSplit(buf, base, Blocks(front), last);
    if i < |fs| - 1 {
      BlockHeld(buf, front, base, i);
      assert front[..i] == fs[..i];
    }
  }

  lemma {:induction false} FieldHeld(buf: Bytes, e: Endian, fs: seq<Field>, at: nat, base: nat, sub: nat, i: nat)
    requires AllFit(fs) && base + |Blocks(fs)| < 0x1_0000_0000 && sub < 0x1_0000_0000 && i < |fs|
    requires Holds(buf, at, PutFields(e, fs, base, sub))
    ensures base + |Blocks(fs[..i])| < 0x1_0000_0000
    ensures Holds(buf, at + 12 * i, PutField(e, fs[i], base + |Blocks(fs[..i])|, sub))
    decreases |fs|
  {
    hide PutField, Holds, Blocks, FieldFits;
    BlocksPrefix(fs, i);
    var front, f := fs[..|fs| - 1], fs[|fs| - 1];
    BlocksPrefix(fs, |fs| - 1);
    HoldsSplit(buf, at, PutFields(e, front, base, sub), PutField(e, f, base + |Blocks(front)|, sub));
    if i < |fs| - 1 {
      FieldHeld(buf, e, front, at, base, sub, i);
      assert front[..i] == fs[..i];
    }
  }

  /** A printed directory lies in the buffer from `at` on, out-of-line values included. */
  ghost predicate Printed(buf: Bytes, e: Endian, fs: seq<Field>, at: nat, sub: nat)
    requires DirectoryFits(fs, at) && sub < 0x1_0000_0000
  {
    Holds(buf, at, PutDirectory(e, fs, at, sub))
  }

  lemma DirectoryParts(buf: Bytes, e: Endian, fs: seq<Field>, at: nat, sub: nat)
    requires DirectoryFits(fs, at) && sub < 0x1_0000_0000 && Printed(buf, e, fs, at, sub)
    ensures U16(buf, e, at) == Some(|fs|)
    ensures Holds(buf, at + 2, PutFields(e, fs, at + 2 + 12 * |fs| + 4, sub))
    ensures Holds(buf, at + 2 + 12 * |fs| + 4, Blocks(fs))
  {
    var a, b, c, d := Put16(e, |fs|), PutFields(e, fs, at + 2 + 12 * |fs| + 4, sub), Put32(e, 0), Blocks(fs);
    HoldsSplit(buf, at, a + b + c, d);
    HoldsSplit(buf, at, a + b, c);
    HoldsSplit(buf, at, a, b);
    Read16(buf, e, at, |fs|);
  }

  lemma EntryRead(buf: Bytes, e: Endian, fs: seq<Field>, at: nat, sub: nat, i: nat)
    requires DirectoryFits(fs, at) && sub < 0x1_0000_0000 && Printed(buf, e, fs, at, sub) && i < |fs|
    ensures ReadEntry(buf, e, at + 2 + 12 * i) == Some(EntryOf(fs, i, at))
    ensures Holds(buf, ValueAt(fs, i, at), Value(e, fs[i], sub))
  {
    hide Blocks, PutField, PutFields, Holds, Printed, ReadEntry, FieldFits, Put32, TypeSize;
    var base := at + 2 + 12 * |fs| + 4;
    DirectoryParts(buf, e, fs, at, sub);
    FieldHeld(buf, e, fs, at + 2, base, sub, i);
    FieldRead(buf, e, fs[i], at + 2 + 12 * i, base + |Blocks(fs[..i])|, sub);
    if !Inline(fs[i]) {
      BlockHeld(buf, fs, base, i);
    }
  }

  /** Twelve printed bytes read back as the entry they came from. */
  lemma FieldRead(buf: Bytes, e: Endian, f: Field, p: nat, block: nat, sub: nat)
    requires FieldFits(f) && block < 0x1_0000_0000 && sub < 0x1_0000_0000 && Holds(buf, p, PutField(e, f, block, sub))
    ensures var off := if Inline(f) then p + 8 else block;
            && ReadEntry(buf, e, p) == Some(if f.Pointer? then Entry(0x8769, LONG, 1, off)
                                            else Entry(f.tag, f.fieldType, f.count, off))
            && (Inline(f) ==> Holds(buf, p + 8, Value(e, f, sub)))
  {
    hide Put16, Put32, Pair, Quad, Holds;
    match f
    case Pointer =>
      HeadRead(buf, e, p, 0x8769, LONG, 1, Put32(e, sub));
    case Plain(tag, t, n, payload) =>
      hide TypeSize;
      HeadRead(buf, e, p, tag, t, n, if Inline(f) then payload else Put32(e, block));
      if !Inline(f) {
        Read32(buf, e, p + 8, block);
      }
  }

  lemma HeadRead(buf: Bytes, e: Endian, p: nat, tag: nat, t: nat, n: nat, rest: Bytes)
    requires tag < 0x1_0000 && t < 0x1_0000 && n < 0x1_0000_0000
    requires Holds(buf, p, Put16(e, tag) + Put16(e, t) + Put32(e, n) + rest)
    ensures U16(buf, e, p) == Some(tag) && U16(buf, e, p + 2) == Some(t) && U32(buf, e, p + 4) == Some(n)
    ensures Holds(buf, p + 8, rest)
  {
    hide Holds, U16, U32;
    var a, b, c := Put16(e, tag), Put16(e, t), Put32(e, n);
    hide Put16, Put32;
    HoldsSplit(buf, p, a + b + c, rest);
    HoldsSplit(buf, p, a + b, c);
    HoldsSplit(buf, p, a, b);
    Read16(buf, e, p, tag);
    Read16(buf, e, p + 2, t);
    Read32(buf, e, p + 4, n);
  }

  function EntriesOf(fs: seq<Field>, at: nat): (es: seq<Entry>)
    requires AllFit(fs)
    ensures |es| == |fs|
  {
    seq(|fs|, i requires 0 <= i < |fs| => EntryOf(fs, i, at))
  }

  lemma {:induction false} EntriesRead(buf: Bytes, e: Endian, fs: seq<Field>, at: nat, sub: nat, i: nat)
    requires DirectoryFits(fs, at) && sub < 0x1_0000_0000 && Printed(buf, e, fs, at, sub) && i <= |fs|
    ensures EntriesFrom(buf, e, at, i, |fs|) == EntriesOf(fs, at)[i..]
    decreases |fs| - i
  {
    hide ReadEntry, Printed, EntryOf, FieldFits, Blocks;
    if i < |fs| {
      EntryRead(buf, e, fs, at, sub, i);
      EntriesRead(buf, e, fs, at, sub, i + 1);
      assert EntriesOf(fs, at)[i..] == [EntriesOf(fs, at)[i]] + EntriesOf(fs, at)[i + 1..];
    }
  }

  lemma DirectoryRead(buf: Bytes, e: Endian, fs: seq<Field>, at: nat, sub: nat)
    requires DirectoryFits(fs, at) && sub < 0x1_0000_0000 && Printed(buf, e, fs, at, sub)
    ensures Directory(buf, e, at) == EntriesOf(fs, at)
  {
    DirectoryParts(buf, e, fs, at, sub);
    EntriesRead(buf, e, fs, at, sub, 0);
    hide Printed, PutFields;
    assert EntriesOf(fs, at)[0..] == EntriesOf(fs, at);
  }
}
