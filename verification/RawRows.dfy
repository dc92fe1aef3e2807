/** Regions, pixel formats and strided rows: the geometry shared by the raw pixel source and target. */
module RawRows {
  import opened Basics

  // ---- regions -------------------------------------------------------------------------------

  datatype Region = Region(x: int, y: int, w: nat, h: nat) {
    function Right(): int {
      x + w
    }

    function Bottom(): int {
      y + h
    }

    function Intersect(o: Region): Option<Region> {
      var left, top := Max(x, o.x), Max(y, o.y);
      var r, b := Min(Right(), o.Right()), Min(Bottom(), o.Bottom());
      if left < r && top < b then Some(Region(left, top, r - left, b - top)) else None
    }
  }

  /** A region is its own intersection with an image exactly when it is a non-empty part of it. */
  lemma InsideWhenUnclipped(roi: Region, width: nat, height: nat)
    ensures roi.Intersect(Region(0, 0, width, height)) == Some(roi)
            <==> roi.w > 0 && roi.h > 0 && 0 <= roi.x && 0 <= roi.y && roi.Right() <= width && roi.Bottom() <= height
  {
  }

  // ---- formats -------------------------------------------------------------------------------

  datatype Channels = Gray | GrayA | Rgba | Cmyk | Cmyka {
    function Count(): nat {
      match this
      case Gray => 1
      case GrayA => 2
      case Rgba => 4
      case Cmyk => 4
      case Cmyka => 5
    }
  }

  datatype Depth = U8 | U16 | F16 | F32 {
    function Bytes(): nat {
      match this
      case U8 => 1
      case U16 => 2
      case F16 => 2
      case F32 => 4
    }
  }

  datatype Alpha = NoAlpha | Straight | Premultiplied

  /** Transfer and colour space only ever matter by equality. */
  datatype Format = Format(channels: Channels, depth: Depth, alpha: Alpha, transfer: nat, space: nat) {
    function PixelBytes(): (n: nat)
      ensures 1 <= n <= 20
    {
      channels.Count() * depth.Bytes()
    }
  }

  /** The bytes of a pixel: ink by depth. */
  lemma PixelSizes(f: Format)
    ensures f.PixelBytes()
            == (if f.channels == Gray then 1 else if f.channels == GrayA then 2
                else if f.channels == Cmyka then 5 else 4)
               * (if f.depth == U8 then 1 else if f.depth == F32 then 4 else 2)
  {
  }

  // ---- rows ----------------------------------------------------------------------------------

  type Bytes = seq<byte>

  /** h rows of n bytes, `stride` apart from `at` on, lie within `len` bytes. */
  predicate Reaches(len: nat, at: nat, stride: nat, n: nat, h: nat) {
    h == 0 || at + (h - 1) * stride + n <= len
  }

  lemma RowReached(len: nat, at: nat, stride: nat, n: nat, h: nat, row: nat)
    requires Reaches(len, at, stride, n, h) && row <= h
    ensures Reaches(len, at, stride, n, row)
    ensures row < h ==> at + row * stride + n <= len
  {
    if row < h {
      MulMonotone(row, h - 1, stride);
    }
    if 0 < row {
      MulMonotone(row - 1, h - 1, stride);
    }
  }

  /** The rows packed tightly, one after another. */
  function Packed(bytes: Bytes, at: nat, stride: nat, n: nat, h: nat): (r: Bytes)
    requires Reaches(|bytes|, at, stride, n, h)
    ensures |r| == h * n
  {
    if h == 0 then []
    else
      RowReached(|bytes|, at, stride, n, h, h - 1);
      Packed(bytes, at, stride, n, h - 1) + bytes[at + (h - 1) * stride..at + (h - 1) * stride + n]
  }

  lemma ReachesMore(len: nat, more: nat, at: nat, stride: nat, n: nat, h: nat)
    requires Reaches(len, at, stride, n, h) && len <= more
    ensures Reaches(more, at, stride, n, h)
  {
  }

  lemma SlicePrefix(a: Bytes, m: nat, p: nat, n: nat)
    requires p + n <= m <= |a|
    ensures a[..m][p..p + n] == a[p..p + n]
  {
  }

  /** Packing looks only at the rows. */
  lemma {:induction false} PackedPrefix(a: Bytes, b: Bytes, m: nat, stride: nat, n: nat, h: nat)
    requires m <= |a| && m <= |b| && a[..m] == b[..m] && Reaches(m, 0, stride, n, h)
    ensures Packed(a, 0, stride, n, h) == Packed(b, 0, stride, n, h)
  {
    hide Reaches, Packed;
    ReachesMore(m, |a|, 0, stride, n, h);
    ReachesMore(m, |b|, 0, stride, n, h);
    if h == 0 {
      PackedNone(a, 0, stride, n);
      PackedNone(b, 0, stride, n);
    } else {
      RowReached(m, 0, stride, n, h, h - 1);
      PackedPrefix(a, b, m, stride, n, h - 1);
      PackedUnfold(a, 0, stride, n, h - 1);
      PackedUnfold(b, 0, stride, n, h - 1);
      SlicePrefix(a, m, (h - 1) * stride, n);
      SlicePrefix(b, m, (h - 1) * stride, n);
    }
  }

  function Put(bytes: Bytes, at: nat, part: Bytes): (r: Bytes)
    requires at + |part| <= |bytes|
    ensures |r| == |bytes|
  {
    bytes[..at] + part + bytes[at + |part|..]
  }

  /** `dst` with h rows of n bytes copied in from `src`, each side at its own stride. */
  function Blit(dst: Bytes, dstStride: nat, n: nat, src: Bytes, at: nat, srcStride: nat, h: nat): (r: Bytes)
    requires Reaches(|dst|, 0, dstStride, n, h) && Reaches(|src|, at, srcStride, n, h)
    ensures |r| == |dst|
  {
    if h == 0 then dst
    else
      hide Reaches;
      var last := h - 1;
      RowReached(|dst|, 0, dstStride, n, h, last);
      RowReached(|src|, at, srcStride, n, h, last);
      var to, from := last * dstStride, at + last * srcStride;
      Put(Blit(dst, dstStride, n, src, at, srcStride, last), to, src[from..from + n])
  }

  lemma BlitUnfold(dst: Bytes, dstStride: nat, n: nat, src: Bytes, at: nat, srcStride: nat, h: nat)
    requires Reaches(|dst|, 0, dstStride, n, h + 1) && Reaches(|src|, at, srcStride, n, h + 1)
    ensures Reaches(|dst|, 0, dstStride, n, h) && Reaches(|src|, at, srcStride, n, h)
    ensures at + h * srcStride + n <= |src| && h * dstStride + n <= |dst|
    ensures Blit(dst, dstStride, n, src, at, srcStride, h + 1)
            == Put(Blit(dst, dstStride, n, src, at, srcStride, h), h * dstStride,
                   src[at + h * srcStride..at + h * srcStride + n])
  {
  }

  lemma BlitNone(dst: Bytes, dstStride: nat, n: nat, src: Bytes, at: nat, srcStride: nat)
    ensures Reaches(|dst|, 0, dstStride, n, 0) && Reaches(|src|, at, srcStride, n, 0)
    ensures Blit(dst, dstStride, n, src, at, srcStride, 0) == dst
  {
  }

  lemma PackedUnfold(bytes: Bytes, at: nat, stride: nat, n: nat, h: nat)
    requires Reaches(|bytes|, at, stride, n, h + 1)
    ensures Reaches(|bytes|, at, stride, n, h) && at + h * stride + n <= |bytes|
    ensures Packed(bytes, at, stride, n, h + 1)
            == Packed(bytes, at, stride, n, h) + bytes[at + h * stride..at + h * stride + n]
  {
  }

  lemma PutParts(bytes: Bytes, at: nat, part: Bytes)
    requires at + |part| <= |bytes|
    ensures Put(bytes, at, part)[..at] == bytes[..at] && Put(bytes, at, part)[at..at + |part|] == part
  {
  }

  /** A row put after h rows is packed after them. */
  lemma PutExtends(before: Bytes, row: Bytes, stride: nat, n: nat, h: nat)
    requires |row| == n <= stride && Reaches(|before|, 0, stride, n, h) && h * stride + n <= |before|
    ensures Reaches(|before|, 0, stride, n, h + 1)
    ensures Packed(Put(before, h * stride, row), 0, stride, n, h + 1) == Packed(before, 0, stride, n, h) + row
  {
    assert Reaches(|before|, 0, stride, n, h + 1);
    hide Put, Packed, Reaches;
    var p := h * stride;
    var after := Put(before, p, row);
    PutParts(before, p, row);
    PackedUnfold(after, 0, stride, n, h);
    RowsBefore(p, stride, n, h);
    PackedPrefix(before, after, p, stride, n, h);
  }

  /** Copied rows pack to what the source rows pack to, whatever the strides. */
  lemma {:induction false} BlitPacked(dst: Bytes, dstStride: nat, n: nat, src: Bytes, at: nat, srcStride: nat, h: nat)
    requires Reaches(|dst|, 0, dstStride, n, h) && Reaches(|src|, at, srcStride, n, h) && n <= dstStride
    ensures Packed(Blit(dst, dstStride, n, src, at, srcStride, h), 0, dstStride, n, h)
            == Packed(src, at, srcStride, n, h)
  {
    hide Blit, Put, Packed, Reaches;
    if h > 0 {
      BlitUnfold(dst, dstStride, n, src, at, srcStride, h - 1);
      BlitPacked(dst, dstStride, n, src, at, srcStride, h - 1);
      PackedUnfold(src, at, srcStride, n, h - 1);
      var from := at + (h - 1) * srcStride;
      PutExtends(Blit(dst, dstStride, n, src, at, srcStride, h - 1), src[from..from + n], dstStride, n, h - 1);
    } else {
      PackedNone(Blit(dst, dstStride, n, src, at, srcStride, h), 0, dstStride, n);
      PackedNone(src, at, srcStride, n);
    }
  }

  lemma PackedNone(bytes: Bytes, at: nat, stride: nat, n: nat)
    ensures Reaches(|bytes|, at, stride, n, 0) && Packed(bytes, at, stride, n, 0) == []
  {
  }

  lemma RowsBefore(p: nat, stride: nat, n: nat, h: nat)
    requires n <= stride && p == h * stride
    ensures Reaches(p, 0, stride, n, h)
  {
  }

  lemma PutAt(bytes: Bytes, at: nat, part: Bytes, i: nat)
    requires at + |part| <= |bytes| && i < |bytes|
    ensures Put(bytes, at, part)[i] == if at <= i < at + |part| then part[i - at] else bytes[i]
  {
  }

  /** One step of the copy, seen at byte k of row q. */
  lemma BlitStep(dst: Bytes, dstStride: nat, n: nat, src: Bytes, at: nat, srcStride: nat, h: nat, q: nat, k: nat)
    requires Reaches(|dst|, 0, dstStride, n, h + 1) && Reaches(|src|, at, srcStride, n, h + 1) && n <= dstStride
    requires k < dstStride && q * dstStride + k < |dst|
    ensures Reaches(|dst|, 0, dstStride, n, h) && Reaches(|src|, at, srcStride, n, h)
    ensures at + h * srcStride + n <= |src|
    ensures Blit(dst, dstStride, n, src, at, srcStride, h + 1)[q * dstStride + k]
            == if q == h && k < n then src[at + h * srcStride + k]
               else Blit(dst, dstStride, n, src, at, srcStride, h)[q * dstStride + k]
  {
    hide Blit, Reaches, Put;
    BlitUnfold(dst, dstStride, n, src, at, srcStride, h);
    var p, i, from := h * dstStride, q * dstStride + k, at + h * srcStride;
    PutByte(Blit(dst, dstStride, n, src, at, srcStride, h), src, n, dstStride, p, i, from, h, q, k);
  }

  lemma PutByte(before: Bytes, src: Bytes, n: nat, stride: nat, p: nat, i: nat, from: nat, h: nat, q: nat, k: nat)
    requires p == h * stride && i == q * stride + k && n <= stride && k < stride
    requires p + n <= |before| && i < |before| && from + n <= |src|
    ensures Put(before, p, src[from..from + n])[i] == if q == h && k < n then src[from + k] else before[i]
  {
    InRow(h, q, k, n, stride, p, i);
    PutAt(before, p, src[from..from + n], i);
  }

  /** Byte k of row q, at i, lies in the first n bytes of row h, at p, only when it is one of them. */
  lemma InRow(h: nat, q: nat, k: nat, n: nat, stride: nat, p: nat, i: nat)
    requires k < stride && n <= stride && p == h * stride && i == q * stride + k
    ensures p <= i < p + n <==> q == h && k < n
    ensures q == h ==> i == p + k
  {
    if q < h {
      RowsOrdered(q, h, stride);
    } else if q > h {
      RowsOrdered(h, q, stride);
    }
  }

  /** Byte k of copied row q comes from byte k of row q of the source. */
  lemma {:induction false} BlitRow(dst: Bytes, dstStride: nat, n: nat, src: Bytes, at: nat, srcStride: nat, h: nat,
                                   q: nat, k: nat)
    requires Reaches(|dst|, 0, dstStride, n, h) && Reaches(|src|, at, srcStride, n, h) && n <= dstStride && q < h
             && k < n
    ensures q * dstStride + k < |dst| && at + q * srcStride + k < |src|
    ensures Blit(dst, dstStride, n, src, at, srcStride, h)[q * dstStride + k] == src[at + q * srcStride + k]
  {
    hide Blit, Reaches;
    RowReached(|dst|, 0, dstStride, n, h, q);
    RowReached(|src|, at, srcStride, n, h, q);
    BlitStep(dst, dstStride, n, src, at, srcStride, h - 1, q, k);
    if q < h - 1 {
      BlitRow(dst, dstStride, n, src, at, srcStride, h - 1, q, k);
    }
  }

  /** A byte between or after the copied rows stays. */
  lemma {:induction false} BlitGap(dst: Bytes, dstStride: nat, n: nat, src: Bytes, at: nat, srcStride: nat, h: nat,
                                   q: nat, k: nat)
    requires Reaches(|dst|, 0, dstStride, n, h) && Reaches(|src|, at, srcStride, n, h) && n <= dstStride
    requires k < dstStride && (q >= h || k >= n) && q * dstStride + k < |dst|
    ensures Blit(dst, dstStride, n, src, at, srcStride, h)[q * dstStride + k] == dst[q * dstStride + k]
  {
    if h > 0 {
      hide Reaches, Blit;
      BlitStep(dst, dstStride, n, src, at, srcStride, h - 1, q, k);
      BlitGap(dst, dstStride, n, src, at, srcStride, h - 1, q, k);
    }
  }
}
