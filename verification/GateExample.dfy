/** A small stroke on which a pixel is refused for its alpha alone. */
module GateExample {
  import opened Basics
  import opened Grid
  import opened Tiles
  import opened Statistics
  import opened Growth
  import opened GrowthExamples

  /** A row of two pixels behind a reader with one tile. */
  function Pair(a: seq<byte>, b: seq<byte>): Source {
    Source(Grid(2, 1), 64, (x, y, w, h) => a + b)
  }

  lemma PairPixels(a: seq<byte>, b: seq<byte>)
    requires |a| == |b| == 4
    ensures Pixel(Pair(a, b), 0) == Some(a) && Pixel(Pair(a, b), 1) == Some(b)
    ensures IsLine(Pair(a, b), 2)
  {
    var g := Pair(a, b).grid;
    assert g.Col(0) == 0 && g.Row(0) == 0 && g.Col(1) == 1 && g.Row(1) == 0;
    assert (a + b)[0..4] == a && (a + b)[4..8] == b;
  }

  lemma FirstOnly(vals: seq<int>)
    requires |vals| == 2
    ensures Sum(vals, {0}, 2) == vals[0] && SumSq(vals, {0}, 2) == vals[0] * vals[0]
  {
    assert Sum(vals, {0}, 0) == 0 && SumSq(vals, {0}, 0) == 0;
    assert Sum(vals, {0}, 1) == vals[0];
    assert SumSq(vals, {0}, 1) == vals[0] * vals[0];
    assert Sum(vals, {0}, 2) == Sum(vals, {0}, 1) && SumSq(vals, {0}, 2) == SumSq(vals, {0}, 1);
  }

  lemma FarFromOpaque(t: Tuning)
    requires t.ceiling == 72.0
    ensures !Tolerated(t, 1, 255, 65025, 0)
  {
  }

  /** Beside a painted opaque pixel lies a clear one of the same colour: the dab refuses it. */
  lemma ClearPixelIsRefused(sqrt: real -> real)
    requires IsSqrt(sqrt)
    ensures var src, t := Pair([10, 10, 10, 255], [10, 10, 10, 0]), Defaults(sqrt);
            1 !in Passing(src, t, {0}) && AfterDab(src, t, BLANK, {0}) == Stroke({0}, {0}, {1})
  {
    hide Tolerated, IsLine, Pixel, Passing, AfterDab;
    var a: seq<byte>, b: seq<byte> := [10, 10, 10, 255], [10, 10, 10, 0];
    var src, t := Pair(a, b), Defaults(sqrt);
    PairPixels(a, b);
    LineReads(src, 2);
    FirstOnly([255, 0]);
    PassingMeans(src, t, {0}, 1, [10, 10], [10, 10], [10, 10], [255, 0]);
    FarFromOpaque(t);
    FirstDabOnLine(src, t, 2);
  }

  lemma LineReads(src: Source, n: nat)
    requires src.tileSize >= 1 && IsLine(src, n)
    ensures src.grid.w * src.grid.h == n && forall i :: 0 <= i < n ==> Readable(src, i)
  {
  }
}
