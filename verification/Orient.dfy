/** Turning stored pixels upright: what each of the eight orientations does to an image, by the sides its first row and
    first column belong on. */
module Orient {
  import opened Basics
  import opened Grid
  import opened Exif

  type Bytes = seq<byte>

  /** The four orientations under which width and height change places. */
  predicate SwapsDimensions(o: Orientation) {
    o.LeftTop? || o.RightTop? || o.RightBottom? || o.LeftBottom?
  }

  /** Which stored pixel of a w by h image is shown at (dx, dy). */
  function SourceOf(o: Orientation, w: int, h: int, dx: int, dy: int): (int, int) {
    match o
    case TopLeft => (dx, dy)
    case TopRight => (w - 1 - dx, dy)
    case BottomRight => (w - 1 - dx, h - 1 - dy)
    case BottomLeft => (dx, h - 1 - dy)
    case LeftTop => (dy, dx)
    case RightTop => (dy, h - 1 - dx)
    case RightBottom => (w - 1 - dy, h - 1 - dx)
    case LeftBottom => (w - 1 - dy, dx)
  }

  function Shown(o: Orientation, w: nat, h: nat): Grid {
    if SwapsDimensions(o) then Grid(h, w) else Grid(w, h)
  }

  // ---- what an orientation means ---------------------------------------------------------------

  /** (x, y) of the shown image lies n lines in from the given side. */
  predicate LinesIn(g: Grid, side: Side, n: int, x: int, y: int) {
    match side
    case Top => y == n
    case Bottom => y == g.h - 1 - n
    case Left => x == n
    case Right => x == g.w - 1 - n
  }

  /** A shown pixel is the stored one whose row and column lie as far in from the sides the orientation names: the
      stored row from the side of row 0, the stored column from the side of column 0. */
  lemma SourceMeans(o: Orientation, w: nat, h: nat, dx: int, dy: int)
    ensures var g, (sx, sy) := Shown(o, w, h), SourceOf(o, w, h, dx, dy);
            && LinesIn(g, RowSide(o), sy, dx, dy) && LinesIn(g, ColumnSide(o), sx, dx, dy)
            && (0 <= dx < g.w && 0 <= dy < g.h <==> 0 <= sx < w && 0 <= sy < h)
  {
  }

  /** Every stored pixel is shown at exactly one place. */
  lemma ShownOnce(o: Orientation, w: nat, h: nat, sx: int, sy: int) returns (x: int, y: int)
    ensures SourceOf(o, w, h, x, y) == (sx, sy)
    ensures forall dx, dy :: SourceOf(o, w, h, dx, dy) == (sx, sy) ==> dx == x && dy == y
    ensures LinesIn(Shown(o, w, h), RowSide(o), sy, x, y) && LinesIn(Shown(o, w, h), ColumnSide(o), sx, x, y)
  {
    match o
    case TopLeft => x, y := sx, sy;
    case TopRight => x, y := w - 1 - sx, sy;
    case BottomRight => x, y := w - 1 - sx, h - 1 - sy;
    case BottomLeft => x, y := sx, h - 1 - sy;
    case LeftTop => x, y := sy, sx;
    case RightTop => x, y := h - 1 - sy, sx;
    case RightBottom => x, y := h - 1 - sy, w - 1 - sx;
    case LeftBottom => x, y := sy, w - 1 - sx;
  }

  /** Width and height change places exactly when row 0 belongs on the left or on the right. */
  lemma SwapsMeans(o: Orientation)
    ensures SwapsDimensions(o) <==> RowSide(o).Left? || RowSide(o).Right?
    ensures SwapsDimensions(o) <==> ColumnSide(o).Top? || ColumnSide(o).Bottom?
  {
  }

  // ---- the pixels ------------------------------------------------------------------------------

  lemma ShownSize(o: Orientation, w: nat, h: nat)
    ensures Shown(o, w, h).w * Shown(o, w, h).h == w * h
  {
  }

  function PixelAt(bytes: Bytes, i: int): Bytes
    requires 0 <= i && 4 * i + 4 <= |bytes|
  {
    bytes[4 * i..4 * i + 4]
  }

  /** Which stored pixel is shown as pixel i. */
  function SourceIndex(o: Orientation, w: nat, h: nat, i: int): (s: int)
    requires Shown(o, w, h).Has(i)
    ensures 0 <= s < w * h
  {
    var g := Shown(o, w, h);
    var (sx, sy) := SourceOf(o, w, h, g.Col(i), g.Row(i));
    SourceInside(o, w, h, i);
    Grid(w, h).At(sx, sy)
  }

  lemma SourceInside(o: Orientation, w: nat, h: nat, i: int)
    requires Shown(o, w, h).Has(i)
    ensures var g := Shown(o, w, h);
            var (sx, sy) := SourceOf(o, w, h, g.Col(i), g.Row(i));
            0 <= sx < w && 0 <= sy < h && Grid(w, h).Has(Grid(w, h).At(sx, sy))
  {
    hide Grid.Col, Grid.Row, Grid.At;
    var g := Shown(o, w, h);
    CellInside(g, i);
    var (sx, sy) := SourceOf(o, w, h, g.Col(i), g.Row(i));
    AtInside(Grid(w, h), sx, sy);
  }

  /** The first n pixels of `out` are the stored ones that belong there. */
  ghost predicate PlacedUpTo(o: Orientation, w: nat, h: nat, rgba: Bytes, out: Bytes, n: int)
    requires |rgba| == |out| == 4 * (w * h)
  {
    forall i :: 0 <= i < n && Shown(o, w, h).Has(i) ==>
      4 * i + 4 <= |out| && 4 * SourceIndex(o, w, h, i) + 4 <= |rgba|
      && PixelAt(out, i) == PixelAt(rgba, SourceIndex(o, w, h, i))
  }

  lemma InBytes(o: Orientation, w: nat, h: nat, i: int)
    requires Shown(o, w, h).Has(i)
    ensures 0 <= i < w * h
  {
    ShownSize(o, w, h);
  }

  /** Pixel d is put in its place after the d before it. */
  lemma PlacedMore(o: Orientation, w: nat, h: nat, rgba: Bytes, before: Bytes, after: Bytes, d: nat)
    requires |rgba| == |before| == |after| == 4 * (w * h) && Shown(o, w, h).Has(d)
    requires PlacedUpTo(o, w, h, rgba, before, d) && d < w * h
    requires PixelAt(after, d) == PixelAt(rgba, SourceIndex(o, w, h, d))
    requires forall i :: 0 <= i < d ==> PixelAt(after, i) == PixelAt(before, i)
    ensures PlacedUpTo(o, w, h, rgba, after, d + 1)
  {
    hide Shown, SourceIndex, PixelAt;
  }

  method CopyPixel(out: array<byte>, d: nat, rgba: Bytes, s: nat)
    requires 4 * d + 4 <= out.Length && 4 * s + 4 <= |rgba|
    modifies out
    ensures PixelAt(out[..], d) == PixelAt(rgba, s)
    ensures forall i :: 0 <= i < d ==> PixelAt(out[..], i) == PixelAt(old(out[..]), i)
  {
    ghost var was := out[..];
    forall k | 0 <= k < 4 {
      out[4 * d + k] := rgba[4 * s + k];
    }
    assert out[..][4 * d..4 * d + 4] == rgba[4 * s..4 * s + 4];
    forall i | 0 <= i < d
      ensures PixelAt(out[..], i) == PixelAt(was, i)
    {
      assert out[..][4 * i..4 * i + 4] == was[4 * i..4 * i + 4];
    }
  }

  method PlaceOne(pixels: array<byte>, rgba: Bytes, w: nat, h: nat, o: Orientation, dx: nat, dy: nat)
    requires |rgba| == pixels.Length == 4 * (w * h) && dx < Shown(o, w, h).w && dy < Shown(o, w, h).h
    requires PlacedUpTo(o, w, h, rgba, pixels[..], Shown(o, w, h).At(dx, dy))
    modifies pixels
    ensures PlacedUpTo(o, w, h, rgba, pixels[..], Shown(o, w, h).At(dx, dy) + 1)
  {
    hide PlacedUpTo, PixelAt, Grid.Col, Grid.Row, SourceOf, Shown;
    ghost var g, was := Shown(o, w, h), pixels[..];
    AtInside(g, dx, dy);
    ghost var d := g.At(dx, dy);
    InBytes(o, w, h, d);
    SourceInside(o, w, h, d);
    var (sx, sy) := SourceOf(o, w, h, dx, dy);
    var dw := if SwapsDimensions(o) then h else w;
    RowIs(o, w, h, dx, dy);
    CopyPixel(pixels, dy * dw + dx, rgba, sy * w + sx);
    PlacedMore(o, w, h, rgba, was, pixels[..], d);
  }

  lemma RowIs(o: Orientation, w: nat, h: nat, dx: nat, dy: nat)
    ensures Shown(o, w, h).At(dx, dy) == dy * (if SwapsDimensions(o) then h else w) + dx
  {
  }

  lemma NextRowStarts(o: Orientation, w: nat, h: nat, y: nat)
    ensures Shown(o, w, h).At(Shown(o, w, h).w, y) == Shown(o, w, h).At(0, y + 1)
    ensures Shown(o, w, h).At(0, 0) == 0 && Shown(o, w, h).At(0, Shown(o, w, h).h) == w * h
  {
    ShownSize(o, w, h);
  }

  lemma NonePlaced(o: Orientation, w: nat, h: nat, rgba: Bytes, out: Bytes)
    requires |rgba| == |out| == 4 * (w * h)
    ensures PlacedUpTo(o, w, h, rgba, out, 0)
  {
  }

  lemma Untouched(w: nat, h: nat, rgba: Bytes)
    requires |rgba| == 4 * (w * h)
    ensures PlacedUpTo(TopLeft, w, h, rgba, rgba, w * h)
  {
    forall i | 0 <= i < w * h && Shown(TopLeft, w, h).Has(i)
      ensures SourceIndex(TopLeft, w, h, i) == i
    {
      CellInside(Grid(w, h), i);
    }
  }

  /** Turns a tightly packed image upright: its extent, and every pixel where its orientation puts it. */
  method ApplyOrientation(rgba: Bytes, w: nat, h: nat, o: Orientation) returns (out: Bytes, dw: nat, dh: nat)
    requires |rgba| == 4 * (w * h)
    ensures Grid(dw, dh) == Shown(o, w, h) && |out| == |rgba|
    ensures PlacedUpTo(o, w, h, rgba, out, w * h)
  {
    dw, dh := if SwapsDimensions(o) then h else w, if SwapsDimensions(o) then w else h;
    if o.TopLeft? {
      Untouched(w, h, rgba);
      return rgba, w, h;
    }
    ShownSize(o, w, h);
    var pixels := new byte[dw * dh * 4](_ => 0);
    hide PlacedUpTo, Grid.At;
    NonePlaced(o, w, h, rgba, pixels[..]);
    NextRowStarts(o, w, h, 0);
    var dy := 0;
    while dy < dh
      invariant 0 <= dy <= dh && PlacedUpTo(o, w, h, rgba, pixels[..], Shown(o, w, h).At(0, dy))
    {
      var dx := 0;
      while dx < dw
        invariant 0 <= dx <= dw && PlacedUpTo(o, w, h, rgba, pixels[..], Shown(o, w, h).At(dx, dy))
      {
        PlaceOne(pixels, rgba, w, h, o, dx, dy);
        NextPixel(o, w, h, dx, dy);
        dx := dx + 1;
      }
      NextRowStarts(o, w, h, dy);
      dy := dy + 1;
    }
    out := pixels[..];
  }

  lemma NextPixel(o: Orientation, w: nat, h: nat, x: nat, y: nat)
    ensures Shown(o, w, h).At(x, y) + 1 == Shown(o, w, h).At(x + 1, y)
  {
  }

  /** In the upright image the pixel of stored row sy and column sx lies sy lines in from the side of row 0 and sx
      lines in from the side of column 0. */
  lemma PixelsStand(rgba: Bytes, w: nat, h: nat, o: Orientation, out: Bytes, sx: int, sy: int) returns (x: int, y: int)
    requires |rgba| == |out| == 4 * (w * h) && PlacedUpTo(o, w, h, rgba, out, w * h) && 0 <= sx < w && 0 <= sy < h
    ensures var g := Shown(o, w, h);
            && 0 <= x < g.w && 0 <= y < g.h
            && LinesIn(g, RowSide(o), sy, x, y) && LinesIn(g, ColumnSide(o), sx, x, y)
            && var to, from := g.At(x, y), Grid(w, h).At(sx, sy);
               0 <= to < w * h && 0 <= from < w * h && PixelAt(out, to) == PixelAt(rgba, from)
  {
    hide Grid.Col, Grid.Row, Grid.At, LinesIn, PixelAt, Shown;
    var g := Shown(o, w, h);
    x, y := ShownOnce(o, w, h, sx, sy);
    SourceMeans(o, w, h, x, y);
    AtInside(g, x, y);
    AtInside(Grid(w, h), sx, sy);
    var i := g.At(x, y);
    InBytes(o, w, h, i);
    assert SourceIndex(o, w, h, i) == Grid(w, h).At(sx, sy);
    assert PixelAt(out, i) == PixelAt(rgba, SourceIndex(o, w, h, i));
  }
}
