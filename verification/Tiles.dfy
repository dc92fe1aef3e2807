/** The pixels a quick-selection stroke reads through its lazily filled tile cache. */
module Tiles {
  import opened Basics
  import opened Grid

  /** The injected window reader: (x, y, w, h) to packed RGBA bytes. */
  type Reader = (int, int, int, int) -> seq<byte>

  datatype Source = Source(grid: Grid, tileSize: int, read: Reader)

  /** Tiles across the image, at least one. */
  function TilesX(src: Source): int
    requires src.tileSize >= 1
  {
    var t := (src.grid.w + src.tileSize - 1) / src.tileSize;
    if t == 0 then 1 else t
  }

  function TileKey(src: Source, x: int, y: int): int
    requires src.tileSize >= 1
  {
    (y / src.tileSize) * TilesX(src) + x / src.tileSize
  }

  /** The window a tile is read from. */
  function TileBytes(src: Source, tx: int, ty: int): seq<byte> {
    src.read(tx * src.tileSize, ty * src.tileSize, src.tileSize, src.tileSize)
  }

  /** Four bytes of a tile at a pixel, or nothing when the tile is too short to hold them. */
  function PixelInTile(src: Source, tile: seq<byte>, x: int, y: int): (p: Option<seq<byte>>)
    requires src.tileSize >= 1
    ensures p.Some? ==> |p.value| == 4
  {
    var tx, ty := x / src.tileSize, y / src.tileSize;
    var tw := Min(src.tileSize, src.grid.w - tx * src.tileSize);
    var off := ((y - ty * src.tileSize) * tw + (x - tx * src.tileSize)) * 4;
    if off < 0 || off + 4 > |tile| then None else Some(tile[off..off + 4])
  }

  /** The pixel at a cell, read afresh through the window that holds it. */
  function Pixel(src: Source, i: int): (p: Option<seq<byte>>)
    requires src.tileSize >= 1 && src.grid.Has(i)
    ensures p.Some? ==> |p.value| == 4
  {
    var x, y := src.grid.Col(i), src.grid.Row(i);
    PixelInTile(src, TileBytes(src, x / src.tileSize, y / src.tileSize), x, y)
  }

  ghost predicate Readable(src: Source, i: int)
    requires src.tileSize >= 1
  {
    src.grid.Has(i) && Pixel(src, i).Some?
  }

  // ---- the tile cache refines direct access ------------------------------------------------

  /** Two cells whose tiles share a key lie in the same tile. */
  lemma TileKeyInjective(src: Source, x: int, y: int, x': int, y': int)
    requires src.tileSize >= 1
    requires 0 <= x < src.grid.w && 0 <= x' < src.grid.w && 0 <= y && 0 <= y'
    ensures TileKey(src, x, y) == TileKey(src, x', y') <==>
              x / src.tileSize == x' / src.tileSize && y / src.tileSize == y' / src.tileSize
  {
    TileInRow(src, x);
    TileInRow(src, x');
    RowMajor(TilesX(src), x / src.tileSize, y / src.tileSize);
    RowMajor(TilesX(src), x' / src.tileSize, y' / src.tileSize);
  }

  lemma TileInRow(src: Source, x: int)
    requires src.tileSize >= 1 && 0 <= x < src.grid.w
    ensures 0 <= x / src.tileSize < TilesX(src)
  {
  }

  /** A reader that returns the requested window of `image` (packed RGBA rows), clipped to it. */
  ghost predicate ReadsImage(src: Source, image: seq<byte>) {
    && |image| == 4 * (src.grid.w * src.grid.h)
    && forall x, y, w, h :: 0 <= x < src.grid.w && 0 <= y < src.grid.h && w >= 1 && h >= 1 ==>
         WindowOf(src.grid, image, src.read(x, y, w, h), x, y, Min(w, src.grid.w - x), Min(h, src.grid.h - y))
  }

  ghost predicate WindowOf(g: Grid, image: seq<byte>, window: seq<byte>, x: int, y: int, cw: int, ch: int)
  {
    && |window| == 4 * (cw * ch)
    && forall i, j, c :: 0 <= i < cw && 0 <= j < ch && 0 <= c < 4 ==> ByteAgrees(g, image, window, x, y, cw, i, j, c)
  }

  ghost predicate ByteAgrees(g: Grid, image: seq<byte>, window: seq<byte>, x: int, y: int, cw: int, i: int, j: int,
                             c: int)
  {
    var a, b := (j * cw + i) * 4 + c, g.At(x + i, y + j) * 4 + c;
    0 <= a < |window| && 0 <= b < |image| && window[a] == image[b]
  }

  lemma TileOrigin(x: nat, t: nat)
    requires t >= 1
    ensures 0 <= x / t * t <= x < x / t * t + t
  {
  }

  /** Reading a cell through its tile gives the image's own four bytes. */
  lemma TileReadsImage(src: Source, image: seq<byte>, i: int)
    requires src.tileSize >= 1 && src.grid.Has(i) && ReadsImage(src, image)
    ensures 0 <= 4 * i && 4 * i + 4 <= |image| && Pixel(src, i) == Some(image[4 * i..4 * i + 4])
  {
    CellInside(src.grid, i);
    PixelReadsImage(src, image, src.grid.Col(i), src.grid.Row(i));
  }

  lemma PixelReadsImage(src: Source, image: seq<byte>, x: int, y: int)
    requires src.tileSize >= 1 && 0 <= x < src.grid.w && 0 <= y < src.grid.h && ReadsImage(src, image)
    ensures var i := src.grid.At(x, y);
            && 0 <= 4 * i && 4 * i + 4 <= |image|
            && PixelInTile(src, TileBytes(src, x / src.tileSize, y / src.tileSize), x, y)
              == Some(image[4 * i..4 * i + 4])
  {
    TileOrigin(x, src.tileSize);
    TileOrigin(y, src.tileSize);
    var x0, y0 := x / src.tileSize * src.tileSize, y / src.tileSize * src.tileSize;
    var cw, ch := Min(src.tileSize, src.grid.w - x0), Min(src.tileSize, src.grid.h - y0);
    WindowPixel(src.grid, image, src.read(x0, y0, src.tileSize, src.tileSize), x0, y0, cw, ch, x - x0, y - y0);
  }

  lemma WindowPixel(g: Grid, image: seq<byte>, window: seq<byte>, x: int, y: int, cw: nat, ch: nat, i: nat, j: nat)
    requires WindowOf(g, image, window, x, y, cw, ch) && i < cw && j < ch
    ensures var a, b := (j * cw + i) * 4, g.At(x + i, y + j) * 4;
            && 0 <= a && a + 4 <= |window| && 0 <= b && b + 4 <= |image|
            && window[a..a + 4] == image[b..b + 4]
  {
    OffsetInWindow(cw, ch, i, j);
    assert ByteAgrees(g, image, window, x, y, cw, i, j, 0);
    assert ByteAgrees(g, image, window, x, y, cw, i, j, 1);
    assert ByteAgrees(g, image, window, x, y, cw, i, j, 2);
    assert ByteAgrees(g, image, window, x, y, cw, i, j, 3);
    FourBytes(window, (j * cw + i) * 4, image, g.At(x + i, y + j) * 4);
  }

  lemma OffsetInWindow(cw: nat, ch: nat, di: nat, dj: nat)
    requires di < cw && dj < ch
    ensures 0 <= (dj * cw + di) * 4 && (dj * cw + di) * 4 + 4 <= 4 * (cw * ch)
  {
    MulMonotone(dj + 1, ch, cw);
    MulMonotone(0, dj, cw);
  }

  lemma FourBytes(s: seq<byte>, a: int, t: seq<byte>, b: int)
    requires 0 <= a && a + 4 <= |s| && 0 <= b && b + 4 <= |t|
    requires s[a] == t[b] && s[a + 1] == t[b + 1] && s[a + 2] == t[b + 2] && s[a + 3] == t[b + 3]
    ensures s[a..a + 4] == t[b..b + 4]
  {
  }

  /** The values of one channel over the grid; an unreadable cell has none and counts as 0. */
  ghost function Channel(src: Source, c: int): (vals: seq<int>)
    requires src.tileSize >= 1 && 0 <= c < 4
    ensures |vals| == src.grid.w * src.grid.h
    ensures forall i :: src.grid.Has(i) && Pixel(src, i).Some? ==> vals[i] == Pixel(src, i).value[c]
  {
    seq(src.grid.w * src.grid.h, i requires src.grid.Has(i) =>
      match Pixel(src, i) case Some(p) => p[c] case None => 0)
  }
}
