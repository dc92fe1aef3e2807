/** Carrying a whole image from the raw source to the raw target strip by strip. */
module RawTransfer {
  import opened Basics
  import opened RawRows
  import opened Raw

  /** A strip of the given number of rows, read into a buffer with `pad` spare bytes after each row. */
  datatype Strip = Strip(rows: nat, pad: nat)

  function Total(strips: seq<Strip>): nat {
    if strips == [] then 0 else Total(strips[..|strips| - 1]) + strips[|strips| - 1].rows
  }

  lemma {:induction false} TotalPrefix(strips: seq<Strip>, k: nat)
    requires k <= |strips|
    ensures Total(strips[..k]) <= Total(strips)
    decreases |strips| - k
  {
    if k < |strips| {
      TotalPrefix(strips, k + 1);
      assert strips[..k + 1][..k] == strips[..k];
    } else {
      assert strips[..k] == strips;
    }
  }

  /** The image fits the target and the strips, none empty, cover its rows exactly. */
  predicate Carries(src: Source, strips: seq<Strip>, wordLimit: nat) {
    && Addressable(TargetInfo(src.width, src.height, src.format, None), wordLimit)
    && (forall k :: 0 <= k < |strips| ==> strips[k].rows > 0)
    && (strips == [] || src.width > 0)
    && Total(strips) == src.height
  }

  /** A region a full row wide holds a tight run of the source's bytes. */
  lemma FullRows(src: Source, y: nat, rows: nat)
    requires src.Valid() && y + rows <= src.height
    ensures y * src.Stride() + rows * src.Stride() == (y + rows) * src.Stride() <= |src.pixels|
    ensures Reaches(|src.pixels|, y * src.Stride(), src.Stride(), src.Stride(), rows)
    ensures Packed(src.pixels, y * src.Stride(), src.Stride(), src.Stride(), rows)
            == src.pixels[y * src.Stride()..(y + rows) * src.Stride()]
  {
    var n := src.Stride();
    assert (y + rows) * n == y * n + rows * n;
    MulMonotone(y + rows, src.height, n);
    TightRows(src.pixels, y * n, n, rows);
  }

  /** Rows without a gap pack to themselves. */
  lemma {:induction false} TightRows(bytes: Bytes, at: nat, n: nat, rows: nat)
    requires at + rows * n <= |bytes|
    ensures Reaches(|bytes|, at, n, n, rows) && Packed(bytes, at, n, n, rows) == bytes[at..at + rows * n]
  {
    hide Packed, Reaches;
    TightReaches(|bytes|, at, n, rows);
    if rows == 0 {
      PackedNone(bytes, at, n, n);
    } else {
      TightRows(bytes, at, n, rows - 1);
      PackedUnfold(bytes, at, n, n, rows - 1);
      var end := at + (rows - 1) * n;
      assert bytes[at..end] + bytes[end..end + n] == bytes[at..end + n];
    }
  }

  lemma TightReaches(len: nat, at: nat, n: nat, rows: nat)
    requires at + rows * n <= len
    ensures Reaches(len, at, n, n, rows)
    ensures rows > 0 ==> (rows - 1) * n + n == rows * n
  {
    assert rows > 0 ==> (rows - 1) * n + n == rows * n;
  }

  /** Reads a full-width strip into a fresh slice with padded rows. */
  method ReadStrip(src: Source, y: nat, strip: Strip) returns (r: Result<SliceRef>)
    requires src.Valid()
    ensures r.Ok? <==> src.width > 0 && strip.rows > 0 && y + strip.rows <= src.height
    ensures r.Ok? ==>
              && r.value.format == src.format
              && Reaches(|r.value.bytes|, 0, r.value.rowStride, src.Stride(), strip.rows)
              && y * src.Stride() <= (y + strip.rows) * src.Stride() <= |src.pixels|
              && Packed(r.value.bytes, 0, r.value.rowStride, src.Stride(), strip.rows)
                 == src.pixels[y * src.Stride()..(y + strip.rows) * src.Stride()]
  {
    hide Region.Intersect, Packed, Blit, Reaches;
    var roi := Region(0, y, src.width, strip.rows);
    var n := src.Stride();
    var stride := n + strip.pad;
    var bytes := new byte[stride * (if strip.rows == 0 then 0 else strip.rows - 1) + n](_ => 0);
    ghost var before := bytes[..];
    InsideWhenUnclipped(roi, src.width, src.height);
    var read := ReadRegion(src, roi, 1, SliceMut(roi, src.format, bytes, stride));
    if read.Err? {
      return Err(read.error);
    }
    FullRows(src, y, strip.rows);
    assert FirstByte(src, roi) == y * n;
    BlitPacked(before, stride, n, src.pixels, y * n, n, strip.rows);
    MulMonotone(y, y + strip.rows, n);
    return Ok(SliceRef(roi, src.format, bytes[..], stride));
  }

  /** Reads one strip and hands it to the target. */
  method CarryStrip(src: Source, target: RawTarget, y: nat, strip: Strip) returns (r: Result<()>)
    requires src.Valid() && target.Valid() && target.state.Open?
    requires target.state.info == TargetInfo(src.width, src.height, src.format, None) && target.state.rowsFilled == y
    modifies target.Frame()
    ensures target.Valid()
    ensures r.Ok? <==> src.width > 0 && strip.rows > 0 && y + strip.rows <= src.height
    ensures r.Ok? ==> && target.state == old(target.state).(rowsFilled := y + strip.rows)
                      && y * src.Stride() <= (y + strip.rows) * src.Stride() <= |src.pixels|
                      && target.accepted == old(target.accepted)
                        + src.pixels[y * src.Stride()..(y + strip.rows) * src.Stride()]
  {
    hide Packed, Reaches;
    var data := ReadStrip(src, y, strip);
    if data.Err? {
      return Err(data.error);
    }
    r := target.WriteStrip(Region(0, y, src.width, strip.rows), data.value);
  }

  /** Every ordered strip partition at every row padding carries the image over exactly, and nothing else
      gets past the checks. */
  lemma TotalNone()
    ensures Total([]) == 0
  {
  }

  lemma TotalNext(strips: seq<Strip>, k: nat)
    requires k < |strips|
    ensures Total(strips[..k + 1]) == Total(strips[..k]) + strips[k].rows <= Total(strips)
  {
    assert strips[..k + 1][..k] == strips[..k];
    TotalPrefix(strips, k + 1);
  }

  lemma Joined(bytes: Bytes, a: nat, b: nat)
    requires a <= b <= |bytes|
    ensures bytes[..a] + bytes[a..b] == bytes[..b]
  {
  }

  method Transfer(src: Source, strips: seq<Strip>, wordLimit: nat) returns (r: Result<Bytes>)
    requires src.Valid()
    ensures r.Ok? <==> Carries(src, strips, wordLimit)
    ensures r.Ok? ==> r.value == src.pixels
  {
    hide Addressable, Total;
    TotalNone();
    var target := new RawTarget(wordLimit);
    var begun := target.Begin(TargetInfo(src.width, src.height, src.format, None));
    if begun.Err? {
      return Err(begun.error);
    }
    var y, k := 0, 0;
    var n := src.Stride();
    while k < |strips|
      invariant 0 <= k <= |strips| && y == Total(strips[..k]) <= src.height
      invariant target.Valid() && fresh(target.Frame()) && target.state.Open?
      invariant target.state.info == TargetInfo(src.width, src.height, src.format, None) && target.state.rowsFilled == y
      invariant y * n <= |src.pixels| && target.accepted == src.pixels[..y * n]
      invariant forall j :: 0 <= j < k ==> strips[j].rows > 0
      invariant k > 0 ==> src.width > 0
    {
      TotalNext(strips, k);
      var carried := CarryStrip(src, target, y, strips[k]);
      if carried.Err? {
        return Err(carried.error);
      }
      Joined(src.pixels, y * n, (y + strips[k].rows) * n);
      y, k := y + strips[k].rows, k + 1;
    }
    assert strips[..k] == strips;
    var finished := target.Finish();
    if finished.Err? {
      return Err(finished.error);
    }
    assert src.pixels[..src.height * n] == src.pixels;
    return Ok(target.IntoPixels());
  }
}
