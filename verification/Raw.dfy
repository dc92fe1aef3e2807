/** The raw pixel source and its mirror, the strip assembler, with the transfer of a whole image from one to
    the other in any ordered strips at any row stride. */
module Raw {
  import opened Basics
  import opened RawRows

  datatype Misuse = BeginTwice | NotOpen | NotFullWidth | OutOfOrder | PastExtent | FinishNotOpen | NotCovered

  datatype Error = Unsupported | Malformed | Sequencing(why: Misuse)

  datatype Result<+T> = Ok(value: T) | Err(error: Error)

  /** A writable view: the region it stands for and rows `rowStride` bytes apart. */
  datatype SliceMut = SliceMut(region: Region, format: Format, bytes: array<byte>, rowStride: nat)

  datatype SliceRef = SliceRef(region: Region, format: Format, bytes: Bytes, rowStride: nat)

  /** The stride and the length leave room for every row. */
  predicate Roomy(region: Region, format: Format, len: nat, stride: nat) {
    var n := region.w * format.PixelBytes();
    n <= stride && stride * (if region.h == 0 then 0 else region.h - 1) + n <= len
  }

  // ---- the source ----------------------------------------------------------------------------

  datatype Source = Source(width: nat, height: nat, format: Format, pixels: Bytes) {
    predicate Valid() {
      |pixels| == height * Stride()
    }

    function Stride(): nat {
      width * format.PixelBytes()
    }
  }

  function NewSource(width: nat, height: nat, format: Format, pixels: Bytes): (r: Result<Source>)
    ensures r.Ok? <==> Source(width, height, format, pixels).Valid()
    ensures r.Ok? ==> r.value == Source(width, height, format, pixels)
  {
    assert width * height * format.PixelBytes() == height * (width * format.PixelBytes());
    if |pixels| != width * height * format.PixelBytes() then Err(Malformed)
      else Ok(Source(width, height, format, pixels))
  }

  /** Why a read is refused. */
  function ReadError(src: Source, roi: Region, shrink: nat, region: Region, format: Format, len: nat,
                     stride: nat): Option<Error> {
    if shrink != 1 then Some(Unsupported)
    else if format != src.format then Some(Unsupported)
    else if roi.Intersect(Region(0, 0, src.width, src.height)) != Some(roi) || !Roomy(region, format, len, stride)
      || region != roi
    then Some(Malformed)
    else None
  }

  /** Where the first byte of the region is in the source. */
  function FirstByte(src: Source, roi: Region): int {
    roi.y * src.Stride() + roi.x * src.format.PixelBytes()
  }

  lemma RegionReaches(src: Source, roi: Region)
    requires src.Valid() && roi.Intersect(Region(0, 0, src.width, src.height)) == Some(roi)
    ensures 0 <= FirstByte(src, roi)
    ensures Reaches(|src.pixels|, FirstByte(src, roi), src.Stride(), roi.w * src.format.PixelBytes(), roi.h)
  {
    hide Region.Intersect;
    InsideWhenUnclipped(roi, src.width, src.height);
    var bpp, stride := src.format.PixelBytes(), src.Stride();
    MulMonotone(roi.x + roi.w, src.width, bpp);
    MulMonotone(roi.y + roi.h, src.height, stride);
    Distribute(roi.x, roi.w, bpp);
    Distribute(roi.y, roi.h - 1, stride);
    Distribute(roi.y + (roi.h - 1), 1, stride);
    assert roi.y + (roi.h - 1) + 1 == roi.y + roi.h;
    MulMonotone(0, roi.x, bpp);
    MulMonotone(0, roi.y, stride);
  }

  lemma Distribute(a: int, b: int, c: int)
    ensures (a + b) * c == a * c + b * c
  {
  }

  lemma RoomyReaches(region: Region, format: Format, len: nat, stride: nat)
    requires Roomy(region, format, len, stride)
    ensures Reaches(len, 0, stride, region.w * format.PixelBytes(), region.h)
  {
  }

  method CopyRow(dst: array<byte>, at: nat, src: Bytes, from: nat, n: nat)
    requires at + n <= dst.Length && from + n <= |src|
    modifies dst
    ensures dst[..] == Put(old(dst[..]), at, src[from..from + n])
  {
    forall k | 0 <= k < n {
      dst[at + k] := src[from + k];
    }
    assert forall i :: 0 <= i < dst.Length ==> dst[..][i] == Put(old(dst[..]), at, src[from..from + n])[i];
  }

  /** Byte k of row q of the slice is byte k of the region's row q: the source's rows follow one another, `width`
      pixels of b bytes each, and the region's begin `roi.x` pixels in. */
  ghost predicate ShowsByte(src: Source, roi: Region, bytes: Bytes, stride: nat, q: int, k: int) {
    var b := src.format.PixelBytes();
    var from := ((roi.y + q) * src.width + roi.x) * b + k;
    0 <= q * stride + k < |bytes| && 0 <= from < |src.pixels| && bytes[q * stride + k] == src.pixels[from]
  }

  lemma BlitShows(src: Source, roi: Region, dst: Bytes, stride: nat, q: nat, k: nat)
    requires var n, at := roi.w * src.format.PixelBytes(), FirstByte(src, roi);
             && 0 <= at && n <= stride && q < roi.h && k < n
             && Reaches(|dst|, 0, stride, n, roi.h) && Reaches(|src.pixels|, at, src.Stride(), n, roi.h)
    ensures ShowsByte(src, roi, Blit(dst, stride, roi.w * src.format.PixelBytes(), src.pixels, FirstByte(src, roi),
                                     src.Stride(), roi.h), stride, q, k)
  {
    hide Blit, Reaches;
    var b := src.format.PixelBytes();
    var n, at := roi.w * b, FirstByte(src, roi);
    BlitRow(dst, stride, n, src.pixels, at, src.Stride(), roi.h, q, k);
    RegionIndex(roi.y, q, src.width, roi.x, b);
  }

  lemma AllShown(src: Source, roi: Region, dst: Bytes, stride: nat)
    requires var n, at := roi.w * src.format.PixelBytes(), FirstByte(src, roi);
             && 0 <= at && n <= stride
             && Reaches(|dst|, 0, stride, n, roi.h) && Reaches(|src.pixels|, at, src.Stride(), n, roi.h)
    ensures var n, at := roi.w * src.format.PixelBytes(), FirstByte(src, roi);
            forall q, k :: 0 <= q < roi.h && 0 <= k < n ==>
              ShowsByte(src, roi, Blit(dst, stride, n, src.pixels, at, src.Stride(), roi.h), stride, q, k)
  {
    hide Blit, Reaches, ShowsByte, FirstByte;
    forall q, k | 0 <= q < roi.h && 0 <= k < roi.w * src.format.PixelBytes()
      ensures ShowsByte(src, roi, Blit(dst, stride, roi.w * src.format.PixelBytes(), src.pixels, FirstByte(src, roi),
                                       src.Stride(), roi.h), stride, q, k)
    {
      BlitShows(src, roi, dst, stride, q, k);
    }
  }

  lemma RegionIndex(y: int, q: int, width: int, x: int, b: int)
    ensures ((y + q) * width + x) * b == y * (width * b) + x * b + q * (width * b)
  {
  }

  /** Fills the slice with the region, or refuses and leaves it alone. */
  method ReadRegion(src: Source, roi: Region, shrink: nat, out: SliceMut) returns (r: Result<()>)
    requires src.Valid()
    modifies out.bytes
    ensures r == match ReadError(src, roi, shrink, out.region, out.format, out.bytes.Length, out.rowStride)
                 case None => Ok(()) case Some(e) => Err(e)
    ensures r == Err(Unsupported) <==> shrink != 1 || out.format != src.format
    ensures r.Ok? <==>
              && shrink == 1 && out.format == src.format && out.region == roi
              && roi.w > 0 && roi.h > 0 && 0 <= roi.x && 0 <= roi.y
              && roi.x + roi.w <= src.width && roi.y + roi.h <= src.height
              && roi.w * src.format.PixelBytes() <= out.rowStride
              && out.rowStride * (roi.h - 1) + roi.w * src.format.PixelBytes() <= out.bytes.Length
    ensures r.Ok? ==> forall q, k :: 0 <= q < roi.h && 0 <= k < roi.w * src.format.PixelBytes() ==>
                        ShowsByte(src, roi, out.bytes[..], out.rowStride, q, k)
    ensures r.Err? ==> out.bytes[..] == old(out.bytes[..])
    ensures r.Ok? ==>
              && Reaches(out.bytes.Length, 0, out.rowStride, roi.w * src.format.PixelBytes(), roi.h)
              && 0 <= FirstByte(src, roi)
              && Reaches(|src.pixels|, FirstByte(src, roi), src.Stride(), roi.w * src.format.PixelBytes(), roi.h)
              && out.bytes[..] == Blit(old(out.bytes[..]), out.rowStride, roi.w * src.format.PixelBytes(),
                                       src.pixels, FirstByte(src, roi), src.Stride(), roi.h)
  {
    if shrink != 1 || out.format != src.format {
      return Err(Unsupported);
    }
    if roi.Intersect(Region(0, 0, src.width, src.height)) != Some(roi)
       || !Roomy(out.region, out.format, out.bytes.Length, out.rowStride) || out.region != roi {
      return Err(Malformed);
    }
    RegionReaches(src, roi);
    RoomyReaches(roi, out.format, out.bytes.Length, out.rowStride);
    var n, stride, at := roi.w * src.format.PixelBytes(), src.Stride(), FirstByte(src, roi);
    ghost var was := out.bytes[..];
    CopyRows(out.bytes, out.rowStride, n, src.pixels, at, stride, roi.h);
    AllShown(src, roi, was, out.rowStride);
    return Ok(());
  }

  method CopyRows(dst: array<byte>, dstStride: nat, n: nat, src: Bytes, at: nat, srcStride: nat, h: nat)
    requires Reaches(dst.Length, 0, dstStride, n, h) && Reaches(|src|, at, srcStride, n, h)
    modifies dst
    ensures dst[..] == Blit(old(dst[..]), dstStride, n, src, at, srcStride, h)
  {
    hide Reaches, Put, Blit;
    BlitNone(dst[..], dstStride, n, src, at, srcStride);
    RowReached(dst.Length, 0, dstStride, n, h, 0);
    RowReached(|src|, at, srcStride, n, h, 0);
    var row := 0;
    while row < h
      invariant 0 <= row <= h
      invariant Reaches(dst.Length, 0, dstStride, n, row) && Reaches(|src|, at, srcStride, n, row)
      invariant dst[..] == Blit(old(dst[..]), dstStride, n, src, at, srcStride, row)
    {
      RowReached(dst.Length, 0, dstStride, n, h, row + 1);
      RowReached(|src|, at, srcStride, n, h, row + 1);
      BlitUnfold(old(dst[..]), dstStride, n, src, at, srcStride, row);
      CopyRow(dst, row * dstStride, src, at + row * srcStride, n);
      row := row + 1;
    }
  }

  // ---- the target ----------------------------------------------------------------------------

  datatype TargetInfo = TargetInfo(width: nat, height: nat, format: Format, icc: Option<Bytes>) {
    function Stride(): nat {
      width * format.PixelBytes()
    }
  }

  datatype State =
    | Idle
    | Open(info: TargetInfo, bpp: nat, buffer: array<byte>, rowsFilled: nat)
    | Done(info: TargetInfo, buffer: array<byte>)

  /** The pixel count fits 32 bits and the byte count a machine word. */
  predicate Addressable(info: TargetInfo, wordLimit: nat) {
    info.width * info.height < 0x1_0000_0000 && info.width * info.height * info.format.PixelBytes() < wordLimit
  }

  function BeginError(state: State, info: TargetInfo, wordLimit: nat): Option<Error> {
    if !state.Idle? then Some(Sequencing(BeginTwice))
    else if !Addressable(info, wordLimit) then Some(Malformed)
    else None
  }

  function StripError(state: State, region: Region, data: SliceRef): Option<Error> {
    if !state.Open? then Some(Sequencing(NotOpen))
    else if data.format != state.info.format then Some(Unsupported)
    else if region.x != 0 || region.w != state.info.width then Some(Sequencing(NotFullWidth))
    else if region.y != state.rowsFilled then Some(Sequencing(OutOfOrder))
    else if region.Bottom() > state.info.height then Some(Sequencing(PastExtent))
    else None
  }

  /** The rows a strip of the open target brings. */
  function StripRows(state: State, region: Region, data: SliceRef): Bytes
    requires state.Open? && Reaches(|data.bytes|, 0, data.rowStride, state.info.Stride(), region.h)
  {
    Packed(data.bytes, 0, data.rowStride, state.info.Stride(), region.h)
  }

  function FinishError(state: State): Option<Error> {
    if !state.Open? then Some(Sequencing(FinishNotOpen))
    else if state.rowsFilled != state.info.height then Some(Sequencing(NotCovered))
    else None
  }

  /** Copies h rows to follow the first `at` bytes without a gap. */
  method AppendRows(buffer: array<byte>, at: nat, data: Bytes, stride: nat, n: nat, h: nat)
    requires at + h * n <= buffer.Length && Reaches(|data|, 0, stride, n, h)
    modifies buffer
    ensures buffer[..at + h * n] == old(buffer[..at]) + Packed(data, 0, stride, n, h)
  {
    hide Reaches, Packed;
    PackedNone(data, 0, stride, n);
    var row, end := 0, at;
    while row < h
      invariant 0 <= row <= h && end == at + row * n <= buffer.Length
      invariant Reaches(|data|, 0, stride, n, row)
      invariant buffer[..end] == old(buffer[..at]) + Packed(data, 0, stride, n, row)
    {
      NextRow(row, h, n);
      AppendNext(buffer, end, data, stride, n, row, h, old(buffer[..at]));
      row, end := row + 1, end + n;
    }
  }

  method AppendNext(buffer: array<byte>, end: nat, data: Bytes, stride: nat, n: nat, row: nat, h: nat,
                    ghost front: Bytes)
    requires row < h && end + n <= buffer.Length && Reaches(|data|, 0, stride, n, h)
    requires Reaches(|data|, 0, stride, n, row) && buffer[..end] == front + Packed(data, 0, stride, n, row)
    modifies buffer
    ensures Reaches(|data|, 0, stride, n, row + 1)
    ensures buffer[..end + n] == front + Packed(data, 0, stride, n, row + 1)
  {
    hide Reaches, Packed;
    RowReached(|data|, 0, stride, n, h, row + 1);
    PackedUnfold(data, 0, stride, n, row);
    var from := row * stride;
    AppendRow(buffer, end, data, from, n);
    ghost var rows, added := Packed(data, 0, stride, n, row), data[from..from + n];
    assert front + (rows + added) == front + rows + added;
  }

  lemma NextRow(row: nat, h: nat, n: nat)
    requires row < h
    ensures (row + 1) * n == row * n + n <= h * n
  {
    RowsOrdered(row, h, n);
  }

  method AppendRow(buffer: array<byte>, at: nat, data: Bytes, from: nat, n: nat)
    requires at + n <= buffer.Length && from + n <= |data|
    modifies buffer
    ensures buffer[..at + n] == old(buffer[..at]) + data[from..from + n]
  {
    ghost var filled := buffer[..at];
    CopyRow(buffer, at, data, from, n);
    assert buffer[..at + n] == buffer[..][..at + n] == filled + data[from..from + n];
  }

  class RawTarget {
    /** One past the largest machine word. */
    const wordLimit: nat
    var state: State
    /** The rows of every strip accepted since begin, in order. */
    ghost var accepted: Bytes

    ghost function Frame(): set<object>
      reads this
    {
      match state
      case Idle => {this}
      case Open(_, _, buffer, _) => {this, buffer}
      case Done(_, buffer) => {this, buffer}
    }

    /** The filled rows are exactly the accepted ones; a finished buffer is all of them. */
    ghost predicate Valid()
      reads this, Frame()
    {
      match state
      case Idle => true
      case Open(info, bpp, buffer, rowsFilled) =>
        && bpp == info.format.PixelBytes() && rowsFilled <= info.height
        && buffer.Length == info.height * info.Stride()
        && |accepted| == rowsFilled * info.Stride() <= buffer.Length && buffer[..|accepted|] == accepted
      case Done(info, buffer) =>
        buffer.Length == info.height * info.Stride() && buffer[..] == accepted
    }

    constructor (wordLimit: nat)
      ensures Valid() && state == Idle && this.wordLimit == wordLimit && accepted == []
    {
      this.wordLimit := wordLimit;
      state := Idle;
      accepted := [];
    }

    /** The pixels after a successful finish, and nothing otherwise. */
    function IntoPixels(): (pixels: Bytes)
      requires Valid()
      reads this, Frame()
      ensures pixels == if state.Done? then accepted else []
    {
      match state
      case Done(_, buffer) => buffer[..]
      case _ => []
    }

    method Begin(info: TargetInfo) returns (r: Result<()>)
      requires Valid()
      modifies this
      ensures Valid()
      ensures r == match BeginError(old(state), info, wordLimit) case None => Ok(()) case Some(e) => Err(e)
      ensures r.Ok? <==> old(state).Idle? && info.width * info.height < 0x1_0000_0000
                         && info.width * info.height * info.format.PixelBytes() < wordLimit
      ensures r.Err? ==> state == old(state) && accepted == old(accepted)
      ensures r.Ok? ==> state.Open? && state.info == info && state.rowsFilled == 0
      ensures r.Ok? ==> accepted == [] && fresh(state.buffer)
    {
      if !state.Idle? {
        return Err(Sequencing(BeginTwice));
      }
      if !Addressable(info, wordLimit) {
        return Err(Malformed);
      }
      var len := info.width * info.height * info.format.PixelBytes();
      assert len == info.height * (info.width * info.format.PixelBytes());
      var buffer := new byte[len](_ => 0);
      state := Open(info, info.format.PixelBytes(), buffer, 0);
      accepted := [];
      assert buffer[..0] == [];
      return Ok(());
    }

    /** Takes the next full-width strip, or refuses it and leaves everything alone. A strip that passes the
        checks must hold the rows it claims, since the copy takes them on trust. */
    method WriteStrip(region: Region, data: SliceRef) returns (r: Result<()>)
      requires Valid()
      requires StripError(state, region, data) == None
               ==> Reaches(|data.bytes|, 0, data.rowStride, state.info.Stride(), region.h)
      modifies Frame()
      ensures Valid()
      ensures r == match StripError(old(state), region, data) case None => Ok(()) case Some(e) => Err(e)
      ensures r.Ok? <==>
                && old(state).Open? && data.format == old(state).info.format
                && region.x == 0 && region.w == old(state).info.width && region.y == old(state).rowsFilled
                && region.y + region.h <= old(state).info.height
      ensures r == Err(Unsupported) <==> old(state).Open? && data.format != old(state).info.format
      ensures r.Err? ==> state == old(state) && accepted == old(accepted) && Unmoved(old(state), old(Held()))
      ensures r.Ok? ==> state == old(state).(rowsFilled := region.Bottom())
                        && accepted == old(accepted) + StripRows(old(state), region, data)
    {
      if StripError(state, region, data).Some? {
        return Err(StripError(state, region, data).value);
      }
      var info, buffer := state.info, state.buffer;
      StripFits(info, region);
      hide Reaches;
      AppendRows(buffer, region.y * info.Stride(), data.bytes, data.rowStride, info.Stride(), region.h);
      accepted := accepted + StripRows(state, region, data);
      state := state.(rowsFilled := region.Bottom());
      return Ok(());
    }

    /** Hands the buffer over when every row is covered. A finish out of sequence changes nothing; an early
        one gives the open buffer up. */
    method Finish() returns (r: Result<nat>)
      requires Valid()
      modifies this
      ensures Valid()
      ensures r == match FinishError(old(state))
                   case None => Ok(old(state).info.height * old(state).info.Stride())
                   case Some(e) => Err(e)
      ensures r.Ok? <==> old(state).Open? && old(state).rowsFilled == old(state).info.height
      ensures r.Ok? ==> state == Done(old(state).info, old(state).buffer) && accepted == old(accepted)
                        && |accepted| == old(state).info.height * old(state).info.Stride()
      ensures r.Err? ==> if old(state).Open? then state == Idle else state == old(state) && accepted == old(accepted)
    {
      if !state.Open? {
        return Err(Sequencing(FinishNotOpen));
      }
      var info, buffer, rowsFilled := state.info, state.buffer, state.rowsFilled;
      state := Idle;
      if rowsFilled != info.height {
        return Err(Sequencing(NotCovered));
      }
      assert buffer[..buffer.Length] == buffer[..];
      state := Done(info, buffer);
      return Ok(buffer.Length);
    }

    /** The bytes of the buffer, if there is one. */
    ghost function Held(): Bytes
      reads this, Frame()
    {
      match state
      case Idle => []
      case Open(_, _, buffer, _) => buffer[..]
      case Done(_, buffer) => buffer[..]
    }

    ghost predicate Unmoved(was: State, held: Bytes)
      reads this, Frame()
    {
      state == was && Held() == held
    }
  }

  lemma StripFits(info: TargetInfo, region: Region)
    requires 0 <= region.y && region.Bottom() <= info.height
    ensures region.Bottom() * info.Stride() == region.y * info.Stride() + region.h * info.Stride()
            <= info.height * info.Stride()
  {
  }
}
