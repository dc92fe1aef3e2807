/** The paint-to-grow selection stroke: coverage and flag planes, reject list, running statistics,
    bounding box and tile cache, all updated in place by one dab after another. */
module QuickSelect {
  import opened Basics
  import opened Reals
  import opened Grid
  import opened Tiles
  import opened Statistics
  import opened Growth

  /** The two flag bits of a pixel. */
  datatype Flags = Flags(painted: bool, rejected: bool)

  datatype Bounds = Bounds(x: int, y: int, w: int, h: int)

  function Elements(s: seq<int>): set<int> {
    set i | i in s
  }

  ghost predicate NoRepeats(s: seq<int>) {
    forall i, j :: 0 <= i < j < |s| ==> s[i] != s[j]
  }

  /** The box touches the set on all four sides and holds all of it; an empty set has an empty box. */
  ghost predicate TightBox(g: Grid, S: set<int>, x0: int, y0: int, x1: int, y1: int) {
    && (forall i :: i in S ==> g.Has(i) && x0 <= g.Col(i) <= x1 && y0 <= g.Row(i) <= y1)
    && (S == {} ==> x1 < x0)
    && (S != {} ==>
          && (exists i :: i in S && g.Has(i) && g.Col(i) == x0)
          && (exists i :: i in S && g.Has(i) && g.Col(i) == x1)
          && (exists i :: i in S && g.Has(i) && g.Row(i) == y0)
          && (exists i :: i in S && g.Has(i) && g.Row(i) == y1))
  }

  class QuickSelectStroke {
    const src: Source
    const tuning: Tuning
    const maxPixels: nat
    const cov: array<byte>
    const flags: array<Flags>
    var count: nat
    var capped: bool
    var minX: int
    var minY: int
    var maxX: int
    var maxY: int
    var n: nat
    var sum: seq<int>
    var sumSq: seq<int>
    var rejects: seq<int>
    var cache: map<int, seq<byte>>
    var sample: seq<byte>
    var mean: seq<real>
    var deviation: seq<real>
    var tolerance: seq<real>
    /** The cells the latest growth put to the gate, in order. */
    ghost var tests: seq<int>

    // ---- abstract state ------------------------------------------------------------------

    ghost function Covered(): set<int>
      reads cov
    {
      set i | 0 <= i < cov.Length && cov[i] != 0
    }

    ghost function Painted(): set<int>
      reads flags
    {
      set i | 0 <= i < flags.Length && flags[i].painted
    }

    ghost function Rejected(): set<int>
      reads flags
    {
      set i | 0 <= i < flags.Length && flags[i].rejected
    }

    ghost function State(): Stroke
      reads `rejects, cov, flags
    {
      Stroke(Covered(), Painted(), Elements(rejects))
    }

    ghost predicate Shape() {
      src.tileSize >= 1 && cov.Length == src.grid.w * src.grid.h && flags.Length == cov.Length
    }

    ghost predicate ZeroOrFull()
      reads cov
    {
      forall i :: 0 <= i < cov.Length ==> cov[i] == 0 || cov[i] == 255
    }

    /** Count, cap and box agree with the coverage plane. */
    ghost predicate PlaneOk()
      reads `count, `capped, `minX, `minY, `maxX, `maxY, cov
    {
      && Shape()
      && ZeroOrFull()
      && count == |Covered()| <= maxPixels
      && (capped ==> count == maxPixels)
      && TightBox(src.grid, Covered(), minX, minY, maxX, maxY)
    }

    /** The running sums are those of the painted cells. */
    ghost predicate StatsOk()
      reads `n, `sum, `sumSq, flags
    {
      && Shape()
      && n == |Painted()|
      && SumsOf(src, Painted(), sum, sumSq)
    }

    /** Every cached tile is what the reader gives for it. */
    ghost predicate CacheOk()
      reads `cache
    {
      && src.tileSize >= 1
      && forall x, y :: 0 <= x < src.grid.w && 0 <= y < src.grid.h && TileKey(src, x, y) in cache ==>
           cache[TileKey(src, x, y)] == TileBytes(src, x / src.tileSize, y / src.tileSize)
    }

    /** The gate in force is the one the painted evidence opens. */
    ghost predicate GateOk()
      reads `mean, `deviation, `tolerance, flags
    {
      && Shape()
      && |mean| == |deviation| == |tolerance| == 4
      && (|Painted()| > 0 ==>
            forall c :: 0 <= c < 4 ==> GateAt(src, tuning, Painted(), mean[c], deviation[c], tolerance[c], c))
    }

    ghost predicate Valid()
      reads `count, `capped, `minX, `minY, `maxX, `maxY, `n, `sum, `sumSq, `cache, `mean, `deviation, `tolerance,
        `rejects
      reads cov, flags
    {
      && PlaneOk() && StatsOk() && CacheOk() && GateOk()
      && NoRepeats(rejects) && Rejected() == Elements(rejects)
      && SetsOk()
    }

    ghost predicate SetsOk()
      requires Shape()
      reads `capped, cov, flags
    {
      StrokeOk(src, Stroke(Covered(), Painted(), Rejected()), capped)
    }

    constructor (src: Source, tuning: Tuning, maxPixels: nat)
      requires src.tileSize >= 1
      ensures Valid() && State() == BLANK && !capped
      ensures this.src == src && this.tuning == tuning && this.maxPixels == maxPixels
      ensures fresh(cov) && fresh(flags)
    {
      this.src, this.tuning, this.maxPixels := src, tuning, maxPixels;
      cov := new byte[src.grid.w * src.grid.h](i => 0);
      flags := new Flags[src.grid.w * src.grid.h](i => Flags(false, false));
      count, capped := 0, false;
      minX, minY, maxX, maxY := 0, 0, -1, -1;
      n, sum, sumSq := 0, [0, 0, 0, 0], [0, 0, 0, 0];
      rejects, cache, sample := [], map[], [0, 0, 0, 0];
      mean, deviation := [0.0, 0.0, 0.0, 0.0], [0.0, 0.0, 0.0, 0.0];
      tolerance := [tuning.base, tuning.base, tuning.base, tuning.base];
      new;
      hide SumsOf, TightBox, GateAt, TileBytes, Readable;
      assert Covered() == {} && Painted() == {} && Rejected() == {};
      NoEvidence(src);
      NoBox(src.grid);
    }

    // ---- the tile cache --------------------------------------------------------------------

    /** Reads a pixel through the cache; the answer is the pixel read afresh. */
    method ReadPixel(x: int, y: int) returns (ok: bool)
      requires CacheOk() && 0 <= x < src.grid.w && 0 <= y < src.grid.h
      modifies this`cache, this`sample
      ensures CacheOk()
      ensures src.grid.Has(src.grid.At(x, y))
      ensures ok <==> Pixel(src, src.grid.At(x, y)).Some?
      ensures ok ==> sample == Pixel(src, src.grid.At(x, y)).value
    {
      AtInside(src.grid, x, y);
      var tx, ty := x / src.tileSize, y / src.tileSize;
      var key := ty * TilesX(src) + tx;
      var tile := [];
      if key in cache {
        tile := cache[key];
      } else {
        tile := src.read(tx * src.tileSize, ty * src.tileSize, src.tileSize, src.tileSize);
        FillKeepsCache(x, y);
        cache := cache[key := tile];
      }
      var tw := Min(src.tileSize, src.grid.w - tx * src.tileSize);
      var off := ((y - ty * src.tileSize) * tw + (x - tx * src.tileSize)) * 4;
      if off < 0 || off + 4 > |tile| {
        return false;
      }
      sample := tile[off..off + 4];
      return true;
    }

    /** Filling one tile leaves every other cached tile as it was. */
    lemma FillKeepsCache(x: int, y: int)
      requires CacheOk() && 0 <= x < src.grid.w && 0 <= y < src.grid.h
      ensures forall x', y' ::
                0 <= x' < src.grid.w && 0 <= y' < src.grid.h && TileKey(src, x', y') == TileKey(src, x, y) ==>
                TileBytes(src, x' / src.tileSize, y' / src.tileSize)
                  == TileBytes(src, x / src.tileSize, y / src.tileSize)
    {
      forall x', y' | 0 <= x' < src.grid.w && 0 <= y' < src.grid.h && TileKey(src, x', y') == TileKey(src, x, y)
        ensures TileBytes(src, x' / src.tileSize, y' / src.tileSize)
                == TileBytes(src, x / src.tileSize, y / src.tileSize)
      {
        TileKeyInjective(src, x, y, x', y');
      }
    }

    // ---- the gate ----------------------------------------------------------------------------

    method RecomputeGate()
      requires StatsOk() && |mean| == |deviation| == |tolerance| == 4
      modifies this`mean, this`deviation, this`tolerance
      ensures GateOk()
    {
      if n == 0 {
        return;
      }
      var c := 0;
      while c < 4
        invariant 0 <= c <= 4 && |mean| == |deviation| == |tolerance| == 4
        invariant forall k :: 0 <= k < c ==> GateAt(src, tuning, Painted(), mean[k], deviation[k], tolerance[k], k)
      {
        hide Channel, Pixel;
        assert SumOf(src, Painted(), sum[c], sumSq[c], c);
        mean := mean[c := Mean(n, sum[c])];
        deviation := deviation[c := tuning.sqrt(Variance(n, sum[c], sumSq[c]))];
        tolerance := tolerance[c := Tolerance(tuning, n, sum[c], sumSq[c])];
        c := c + 1;
      }
    }

    /** Tests the sampled pixel against the gate, channel by channel. */
    method Accepts(ghost i: int) returns (yes: bool)
      requires GateOk() && |Painted()| > 0 && Readable(src, i) && sample == Pixel(src, i).value
      ensures yes <==> i in Passing(src, tuning, Painted())
    {
      var c := 0;
      while c < 4
        invariant 0 <= c <= 4
        invariant forall k :: 0 <= k < c ==> Abs(sample[k] as real - mean[k]) <= tolerance[k]
      {
        if Abs(sample[c] as real - mean[c]) > tolerance[c] {
          assert GateAt(src, tuning, Painted(), mean[c], deviation[c], tolerance[c], c);
          return false;
        }
        c := c + 1;
      }
      assert forall k :: 0 <= k < 4 ==> GateAt(src, tuning, Painted(), mean[k], deviation[k], tolerance[k], k);
      return true;
    }

    // ---- coverage bookkeeping ----------------------------------------------------------------

    /** Covers a cell and clears its refusal. */
    method Cover(idx: int)
      requires Shape() && 0 <= idx < cov.Length && ZeroOrFull()
      modifies cov, flags
      ensures ZeroOrFull()
      ensures Covered() == old(Covered()) + {idx}
      ensures Painted() == old(Painted()) && Rejected() == old(Rejected()) - {idx}
    {
      cov[idx] := 255;
      flags[idx] := flags[idx].(rejected := false);
      assert forall i :: 0 <= i < cov.Length && i != idx ==> cov[i] == old(cov[i]) && flags[i] == old(flags[i]);
    }

    method Select(idx: int, x: int, y: int)
      requires PlaneOk() && src.grid.Has(idx) && x == src.grid.Col(idx) && y == src.grid.Row(idx)
      requires idx !in Covered() && count < maxPixels
      modifies cov, flags, this`count, this`minX, this`minY, this`maxX, this`maxY
      ensures PlaneOk()
      ensures Covered() == old(Covered()) + {idx} && count == old(count) + 1
      ensures Painted() == old(Painted()) && Rejected() == old(Rejected()) - {idx}
    {
      hide TightBox, Grid.Col, Grid.Row;
      ghost var before := Covered();
      Cover(idx);
      count := count + 1;
      BoxAdd(src.grid, before, minX, minY, maxX, maxY, idx);
      Stretch(x, y);
    }

    method Stretch(x: int, y: int)
      modifies this`minX, this`minY, this`maxX, this`maxY
      ensures old(maxX < minX) ==> minX == maxX == x && minY == maxY == y
      ensures old(maxX >= minX) ==> minX == Min(old(minX), x) && minY == Min(old(minY), y)
      ensures old(maxX >= minX) ==> maxX == Max(old(maxX), x) && maxY == Max(old(maxY), y)
    {
      if maxX < minX {
        minX, maxX := x, x;
        minY, maxY := y, y;
      } else {
        if x < minX { minX := x; }
        if x > maxX { maxX := x; }
        if y < minY { minY := y; }
        if y > maxY { maxY := y; }
      }
    }

    /** The tight bounding box of the coverage, or nothing when it is empty. */
    method BoundingBox() returns (b: Option<Bounds>)
      requires PlaneOk()
      ensures b.None? <==> Covered() == {}
      ensures b.Some? ==> var v := b.value;
                TightBox(src.grid, Covered(), v.x, v.y, v.x + v.w - 1, v.y + v.h - 1) && v.w >= 1 && v.h >= 1
    {
      if maxX < minX {
        EmptyBox(src.grid, Covered(), minX, minY, maxX, maxY);
        return None;
      }
      return Some(Bounds(minX, minY, maxX - minX + 1, maxY - minY + 1));
    }

    // ---- painting the disc -------------------------------------------------------------------

    ghost predicate Ready()
      reads `count, `capped, `minX, `minY, `maxX, `maxY, `n, `sum, `sumSq, `cache, cov, flags
    {
      && PlaneOk() && StatsOk() && CacheOk()
      && (forall i :: i in Painted() ==> Readable(src, i))
    }

    lemma FlagAt(idx: int)
      requires Shape() && 0 <= idx < cov.Length
      ensures idx in Covered() <==> cov[idx] != 0
      ensures idx in Painted() <==> flags[idx].painted
    {
    }

    /** The sampled pixel enters the statistics, once. */
    method Paint(idx: int)
      requires StatsOk() && 0 <= idx < flags.Length && idx !in Painted()
      requires Readable(src, idx) && sample == Pixel(src, idx).value
      modifies flags, this`n, this`sum, this`sumSq
      ensures StatsOk() && Painted() == old(Painted()) + {idx} && Rejected() == old(Rejected())
    {
      hide Channel, Pixel, Sum, SumSq, SumOf;
      ghost var before := Painted();
      flags[idx] := flags[idx].(painted := true);
      assert Painted() == before + {idx};
      n := n + 1;
      ghost var sum0, sumSq0 := sum, sumSq;
      AddSample();
      SumsAdd(src, before, sum0, sumSq0, idx, sum, sumSq);
      assert Painted() == before + {idx};
      assert n == |Painted()|;
      assert SumsOf(src, Painted(), sum, sumSq);
    }

    method AddSample()
      requires |sum| == |sumSq| == |sample| == 4
      modifies this`sum, this`sumSq
      ensures Added(old(sum), old(sumSq), sample, sum, sumSq)
    {
      var c := 0;
      while c < 4
        invariant 0 <= c <= 4 && |sum| == |sumSq| == 4
        invariant forall k :: 0 <= k < 4 ==> sum[k] == old(sum)[k] + if k < c then sample[k] else 0
        invariant forall k :: 0 <= k < 4 ==> sumSq[k] == old(sumSq)[k] + if k < c then Square(sample[k]) else 0
      {
        sum := sum[c := sum[c] + sample[c]];
        sumSq := sumSq[c := sumSq[c] + Square(sample[c])];
        c := c + 1;
      }
    }

    /** Reads a pixel not painted before into the statistics; false when it cannot be read. */
    method TakeEvidence(idx: int, x: int, y: int) returns (ok: bool)
      requires Shape() && Ready() && 0 <= x < src.grid.w && 0 <= y < src.grid.h
      requires idx == src.grid.At(x, y) && src.grid.Has(idx)
      modifies flags, this`n, this`sum, this`sumSq, this`cache, this`sample
      ensures Ready() && (ok <==> Readable(src, idx))
      ensures Painted() == old(Painted()) + (if ok then {idx} else {}) && Rejected() == old(Rejected())
    {
      hide Channel, Pixel, SumsOf, CacheOk, PlaneOk, Painted, Rejected, Grid.At, Grid.Col, Grid.Row;
      FlagAt(idx);
      if !flags[idx].painted {
        ok := TakeSample(idx, x, y);
      } else {
        ok := true;
      }
    }

    method TakeSample(idx: int, x: int, y: int) returns (ok: bool)
      requires Shape() && Ready() && 0 <= x < src.grid.w && 0 <= y < src.grid.h
      requires idx == src.grid.At(x, y) && src.grid.Has(idx)
      requires idx !in Painted()
      modifies flags, this`n, this`sum, this`sumSq, this`cache, this`sample
      ensures Ready() && (ok <==> Readable(src, idx))
      ensures Painted() == old(Painted()) + (if ok then {idx} else {}) && Rejected() == old(Rejected())
    {
      hide Channel, Pixel, StatsOk, CacheOk, PlaneOk, Painted, Rejected, Grid.At, Grid.Col, Grid.Row;
      ok := ReadPixel(x, y);
      if ok {
        Paint(idx);
      }
    }

    method MeetCap()
      requires PlaneOk() && count >= maxPixels
      modifies this`capped
      ensures PlaneOk() && capped
    {
      capped := true;
    }

    /** Covers a cell unless the cap is reached; false when it is. */
    method Claim(idx: int, x: int, y: int) returns (ok: bool)
      requires Shape() && Ready() && src.grid.Has(idx) && x == src.grid.Col(idx) && y == src.grid.Row(idx)
      requires Covered() !! Rejected()
      modifies cov, flags, this`count, this`capped, this`minX, this`minY, this`maxX, this`maxY
      ensures Ready() && Covered() !! Rejected() && (!ok ==> capped) && (ok ==> capped == old(capped))
              && count >= old(count)
      ensures Covered() == old(Covered()) + (if ok then {idx} else {})
      ensures Painted() == old(Painted()) && Rejected() == old(Rejected()) - Covered()
    {
      hide PlaneOk, StatsOk, CacheOk, Readable, Covered, Painted, Rejected, Grid.Col, Grid.Row;
      FlagAt(idx);
      ClaimedApart(Covered(), Rejected(), idx);
      if cov[idx] == 0 {
        if count >= maxPixels {
          MeetCap();
          return false;
        }
        SelectPainted(idx, x, y);
      }
      return true;
    }

    /** Covers a cell of the disc; the evidence stays as it was. */
    method SelectPainted(idx: int, x: int, y: int)
      requires Shape() && Ready() && src.grid.Has(idx) && x == src.grid.Col(idx) && y == src.grid.Row(idx)
      requires idx !in Covered() && count < maxPixels
      modifies cov, flags, this`count, this`minX, this`minY, this`maxX, this`maxY
      ensures Ready() && Covered() == old(Covered()) + {idx} && count == old(count) + 1
      ensures Painted() == old(Painted()) && Rejected() == old(Rejected()) - {idx}
    {
      hide PlaneOk, SumsOf, CacheOk, Readable, Covered, Painted, Rejected, Grid.Col, Grid.Row;
      Select(idx, x, y);
    }

    method PaintPixel(cx: real, cy: real, r: real, x: int, y: int, frontier: seq<int>) returns (f: seq<int>)
      requires Shape() && Ready() && 0 <= x < src.grid.w && 0 <= y < src.grid.h && Covered() !! Rejected()
      modifies cov, flags, this`count, this`capped, this`minX, this`minY, this`maxX, this`maxY
      modifies this`n, this`sum, this`sumSq, this`cache, this`sample
      ensures Ready() && Covered() !! Rejected() && (old(capped) ==> capped) && count >= old(count)
      ensures Painted() == old(Painted()) + Dot(cx, cy, r, x, y)
      ensures old(Covered()) <= Covered() <= old(Covered()) + Dot(cx, cy, r, x, y)
      ensures Rejected() == old(Rejected()) - Covered()
      ensures !capped ==> Covered() == old(Covered()) + Dot(cx, cy, r, x, y)
      ensures f == frontier || (Dot(cx, cy, r, x, y) != {} && f == frontier + [src.grid.At(x, y)])
      ensures !capped && f == frontier ==> Dot(cx, cy, r, x, y) == {}
    {
      hide Grid.At, Grid.Col, Grid.Row, Dot, Disc, Readable, Ready, Covered, Painted, Rejected;
      f := frontier;
      ghost var dot := Dot(cx, cy, r, x, y);
      DotIs(cx, cy, r, x, y);
      var dx, dy := x as real - cx, y as real - cy;
      if dx * dx + dy * dy > r * r {
        return;
      }
      var idx := src.grid.At(x, y);
      var ok := TakeEvidence(idx, x, y);
      if !ok {
        return;
      }
      ok := Claim(idx, x, y);
      if !ok {
        return;
      }
      f := f + [idx];
    }

    lemma DotIs(cx: real, cy: real, r: real, x: int, y: int)
      requires src.tileSize >= 1 && 0 <= x < src.grid.w && 0 <= y < src.grid.h
      ensures var i := src.grid.At(x, y);
              && src.grid.Has(i) && src.grid.Col(i) == x && src.grid.Row(i) == y
              && Dot(cx, cy, r, x, y) ==
                 if (x as real - cx) * (x as real - cx) + (y as real - cy) * (y as real - cy) <= r * r
                   && Readable(src, i)
                 then {i} else {}
    {
      AtInside(src.grid, x, y);
    }

    /** The cell at (x, y), when the dab paints it. */
    ghost function Dot(cx: real, cy: real, r: real, x: int, y: int): set<int>
      requires src.tileSize >= 1
    {
      {src.grid.At(x, y)} * Disc(src, cx, cy, r)
    }

    ghost predicate Progress(start: Stroke, done: set<int>, frontier: seq<int>)
      reads `count, `capped, `minX, `minY, `maxX, `maxY, `n, `sum, `sumSq, `cache, cov, flags
    {
      Ready() && PaintedSoFar(start, Stroke(Covered(), Painted(), Rejected()), capped, done, frontier)
    }

    /** The cells of the disc met before (x, y) in row-major order. */
    ghost function Visited(cx: real, cy: real, r: real, x: int, y: int): set<int>
      requires src.tileSize >= 1
    {
      set i | i in Disc(src, cx, cy, r) && (src.grid.Row(i) < y || (src.grid.Row(i) == y && src.grid.Col(i) < x))
    }

    lemma VisitNext(cx: real, cy: real, r: real, x: int, y: int)
      requires src.tileSize >= 1 && 0 <= x < src.grid.w && 0 <= y < src.grid.h
      ensures Visited(cx, cy, r, x + 1, y) == Visited(cx, cy, r, x, y) + Dot(cx, cy, r, x, y)
      ensures Visited(cx, cy, r, x, y) !! Dot(cx, cy, r, x, y)
    {
      AtInside(src.grid, x, y);
      forall i | i in Disc(src, cx, cy, r) && src.grid.Row(i) == y && src.grid.Col(i) == x
        ensures i == src.grid.At(x, y)
      {
        CellInside(src.grid, i);
      }
    }

    /** Cells come in row-major order. */
    lemma VisitedFirst(cx: real, cy: real, r: real, x: int, y: int)
      requires src.tileSize >= 1 && 0 <= x < src.grid.w && 0 <= y < src.grid.h
      ensures forall i :: i in Visited(cx, cy, r, x, y) ==> i < src.grid.At(x, y)
    {
      hide Grid.Col, Grid.Row, Disc;
      forall i | i in Visited(cx, cy, r, x, y)
        ensures i < src.grid.At(x, y)
      {
        DiscCell(src, cx, cy, r, i);
        CellInside(src.grid, i);
        if src.grid.Row(i) < y {
          RowsOrdered(src.grid.Row(i), y, src.grid.w);
        }
      }
    }

    lemma CountsCover()
      requires Ready()
      ensures count == |Covered()| <= maxPixels && (capped ==> count == maxPixels)
    {
    }

    method PaintNext(cx: real, cy: real, r: real, x: int, y: int, frontier: seq<int>, ghost start: Stroke)
      returns (f: seq<int>)
      requires Shape() && 0 <= x < src.grid.w && 0 <= y < src.grid.h
      requires Progress(start, Visited(cx, cy, r, x, y), frontier)
      modifies cov, flags, this`count, this`capped, this`minX, this`minY, this`maxX, this`maxY
      modifies this`n, this`sum, this`sumSq, this`cache, this`sample
      ensures Progress(start, Visited(cx, cy, r, x + 1, y), f) && (old(capped) ==> capped) && count >= old(count)
    {
      hide Grid.At, Grid.Col, Grid.Row, Dot, Visited, Ready, Covered, Painted, Rejected, PaintedSoFar;
      ghost var done, dot, s0, c0 := Visited(cx, cy, r, x, y), Dot(cx, cy, r, x, y),
        Stroke(Covered(), Painted(), Rejected()), capped;
      assert s0.covered !! s0.shell by {
        SoFarDisjoint(start, s0, capped, done, frontier);
      }
      VisitNext(cx, cy, r, x, y);
      DotIs(cx, cy, r, x, y);
      VisitedFirst(cx, cy, r, x, y);
      CountsCover();
      f := PaintPixel(cx, cy, r, x, y, frontier);
      CountsCover();
      if c0 {
        SubsetOfSameSize(s0.covered, Covered());
      }
      PaintOneMore(start, s0, Stroke(Covered(), Painted(), Rejected()), c0, capped, done, dot, src.grid.At(x, y),
                   frontier, f);
    }

    method PaintDisc(cx: real, cy: real, r: real) returns (frontier: seq<int>)
      requires Shape() && Ready() && Covered() !! Rejected() && r >= 0.0
      modifies cov, flags, this`count, this`capped, this`minX, this`minY, this`maxX, this`maxY
      modifies this`n, this`sum, this`sumSq, this`cache, this`sample
      ensures Progress(old(Stroke(Covered(), Painted(), Rejected())), Disc(src, cx, cy, r), frontier)
      ensures (old(capped) ==> capped) && count >= old(count)
    {
      hide Disc, Ready, Covered, Painted, Rejected, Visited, Boxed;
      var x0, x1 := Max(0, (cx - r).Floor), Min(src.grid.w - 1, Ceil(cx + r));
      var y0, y1 := Max(0, (cy - r).Floor), Min(src.grid.h - 1, Ceil(cy + r));
      ghost var start := Stroke(Covered(), Painted(), Rejected());
      frontier := [];
      DiscBoxed(cx, cy, r, x0, x1, y0, y1);
      ScanEnds(cx, cy, r, x0, x1, y0, y1);
      var y := y0;
      while y <= y1
        invariant y0 <= y && y <= Max(y0, y1 + 1)
        invariant Progress(start, Visited(cx, cy, r, x0, y), frontier) && (old(capped) ==> capped)
                  && count >= old(count)
      {
        var x := x0;
        while x <= x1
          invariant x0 <= x && x <= Max(x0, x1 + 1)
          invariant Progress(start, Visited(cx, cy, r, x, y), frontier) && (old(capped) ==> capped)
                    && count >= old(count)
        {
          frontier := PaintNext(cx, cy, r, x, y, frontier, start);
          x := x + 1;
        }
        RowEnds(cx, cy, r, x0, x1, y0, y1, y);
        y := y + 1;
      }
    }

    lemma DiscInBox(cx: real, cy: real, r: real, i: int)
      requires src.tileSize >= 1 && r >= 0.0 && i in Disc(src, cx, cy, r)
      ensures src.grid.Has(i)
      ensures Max(0, (cx - r).Floor) <= src.grid.Col(i) <= Min(src.grid.w - 1, Ceil(cx + r))
      ensures Max(0, (cy - r).Floor) <= src.grid.Row(i) <= Min(src.grid.h - 1, Ceil(cy + r))
    {
      hide Disc, InDisc, Ceil, Grid.Col, Grid.Row;
      DiscCell(src, cx, cy, r, i);
      CellInside(src.grid, i);
      Near(src.grid, cx, cy, r, i);
    }

    ghost predicate Boxed(D: set<int>, x0: int, x1: int, y0: int, y1: int) {
      forall i :: i in D ==>
        src.grid.Has(i) && x0 <= src.grid.Col(i) <= x1 && y0 <= src.grid.Row(i) <= y1
    }

    /** The disc lies in the scanned box, and the scan meets all of it. */
    lemma DiscBoxed(cx: real, cy: real, r: real, x0: int, x1: int, y0: int, y1: int)
      requires src.tileSize >= 1 && r >= 0.0
      requires x0 == Max(0, (cx - r).Floor) && x1 == Min(src.grid.w - 1, Ceil(cx + r))
      requires y0 == Max(0, (cy - r).Floor) && y1 == Min(src.grid.h - 1, Ceil(cy + r))
      ensures Boxed(Disc(src, cx, cy, r), x0, x1, y0, y1)
    {
      hide Disc, Ceil, Grid.Col, Grid.Row;
      forall i | i in Disc(src, cx, cy, r)
        ensures src.grid.Has(i) && x0 <= src.grid.Col(i) <= x1 && y0 <= src.grid.Row(i) <= y1
      {
        DiscInBox(cx, cy, r, i);
      }
    }

    lemma ScanEnds(cx: real, cy: real, r: real, x0: int, x1: int, y0: int, y1: int)
      requires src.tileSize >= 1 && Boxed(Disc(src, cx, cy, r), x0, x1, y0, y1)
      ensures Visited(cx, cy, r, x0, y0) == {}
      ensures Visited(cx, cy, r, x0, Max(y0, y1 + 1)) == Disc(src, cx, cy, r)
    {
    }

    /** A scanned row ends where the next begins. */
    lemma RowEnds(cx: real, cy: real, r: real, x0: int, x1: int, y0: int, y1: int, y: int)
      requires src.tileSize >= 1 && Boxed(Disc(src, cx, cy, r), x0, x1, y0, y1)
      ensures Visited(cx, cy, r, Max(x0, x1 + 1), y) == Visited(cx, cy, r, x0, y + 1)
    {
    }

    // ---- growth ------------------------------------------------------------------------------

    method Unreject(idx: int)
      requires 0 <= idx < flags.Length
      modifies flags
      ensures Rejected() == old(Rejected()) - {idx} && Painted() == old(Painted())
    {
      flags[idx] := flags[idx].(rejected := false);
    }

    method Reject(idx: int)
      requires 0 <= idx < flags.Length
      modifies flags
      ensures Rejected() == old(Rejected()) + {idx} && Painted() == old(Painted())
    {
      flags[idx] := flags[idx].(rejected := true);
    }

    /** The refused cells go back in the queue, and their flags are cleared. */
    method Requeue(frontier: seq<int>) returns (queue: seq<int>)
      requires Shape() && (forall i :: i in rejects ==> 0 <= i < flags.Length) && Rejected() <= Elements(rejects)
      modifies flags, this`rejects
      ensures queue == frontier + old(rejects) && rejects == [] && Rejected() == {} && Painted() == old(Painted())
    {
      queue := frontier;
      var k := 0;
      while k < |rejects|
        invariant 0 <= k <= |rejects| && rejects == old(rejects) && queue == frontier + rejects[..k]
        invariant Rejected() == old(Rejected()) - Elements(rejects[..k]) && Painted() == old(Painted())
      {
        var idx := rejects[k];
        assert idx in rejects;
        Unreject(idx);
        assert rejects[..k + 1] == rejects[..k] + [idx];
        assert Elements(rejects[..k + 1]) == Elements(rejects[..k]) + {idx};
        queue := queue + [idx];
        k := k + 1;
      }
      assert rejects[..k] == rejects;
      rejects := [];
    }

    ghost predicate Growable()
      reads `count, `capped, `minX, `minY, `maxX, `maxY, `n, `sum, `sumSq, `cache, `mean, `deviation, `tolerance,
        `rejects, cov, flags
    {
      && Ready() && GateOk() && n > 0 && Covered() !! Rejected()
      && NoRepeats(rejects) && Elements(rejects) == Rejected()
    }

    /** Growth selects a tested cell. */
    method Admit(q: int, x: int, y: int)
      requires Shape() && Growable() && src.grid.Has(q) && x == src.grid.Col(q) && y == src.grid.Row(q)
      requires q !in Covered() && q !in Rejected() && count < maxPixels
      modifies cov, flags, this`count, this`minX, this`minY, this`maxX, this`maxY
      ensures Growable() && Painted() == old(Painted()) && count == old(count) + 1
      ensures Covered() == old(Covered()) + {q} && Rejected() == old(Rejected())
    {
      hide TightBox, SumsOf, CacheOk, Readable, Grid.Col, Grid.Row, ZeroOrFull, GateAt, NoRepeats;
      Select(q, x, y);
    }

    /** Growth refuses a tested cell. */
    method Refuse(q: int)
      requires Shape() && Growable() && src.grid.Has(q) && q !in Covered() && q !in Rejected()
      modifies flags, this`rejects
      ensures Growable() && Painted() == old(Painted()) && Rejected() == old(Rejected()) + {q}
    {
      hide TightBox, SumsOf, CacheOk, Readable, Grid.Col, Grid.Row, ZeroOrFull, GateAt;
      assert Elements(rejects + [q]) == Elements(rejects) + {q};
      Reject(q);
      rejects := rejects + [q];
    }

    /** Reads a cell and puts it to the gate; nothing when it cannot be read. */
    method Judge(q: int, x: int, y: int) returns (verdict: Option<bool>)
      requires Shape() && Growable() && 0 <= x < src.grid.w && 0 <= y < src.grid.h && q == src.grid.At(x, y)
               && src.grid.Has(q)
      modifies this`cache, this`sample
      ensures Growable()
      ensures verdict.None? <==> !Readable(src, q)
      ensures verdict.Some? ==> (verdict.value <==> q in Passing(src, tuning, Painted()))
    {
      hide TightBox, SumsOf, CacheOk, GateAt, NoRepeats, Passing, Channel, Grid.Col, Grid.Row, Grid.At, ZeroOrFull;
      var ok := ReadPixel(x, y);
      if !ok {
        return None;
      }
      var yes := Accepts(q);
      return Some(yes);
    }

    method StopAtCap()
      requires Shape() && Growable() && count >= maxPixels
      modifies this`capped
      ensures Growable() && capped
    {
      hide TightBox, SumsOf, CacheOk, GateAt, NoRepeats, Readable, Grid.Col, Grid.Row, ZeroOrFull;
      capped := true;
    }

    /** One neighbour of a queued cell: skipped, stopped by the cap, selected and queued, or refused. */
    method TestNeighbour(q: int, x: int, y: int, queue: seq<int>) returns (next: seq<int>)
      requires Shape() && Growable() && 0 <= x < src.grid.w && 0 <= y < src.grid.h && q == src.grid.At(x, y)
      requires !capped && src.grid.Has(q) && x == src.grid.Col(q) && y == src.grid.Row(q)
      modifies cov, flags, this`count, this`capped, this`minX, this`minY, this`maxX, this`maxY
      modifies this`cache, this`sample, this`rejects, this`tests
      ensures Growable() && Painted() == old(Painted())
      ensures capped || SettledIn(src, Covered(), Rejected(), q)
      ensures Move(src, Passing(src, tuning, Painted()), q, old(Covered()), old(Rejected()), queue, old(tests),
                   old(count),
                   Covered(), Rejected(), next, tests, count)
    {
      hide Growable, Passing, Readable, Grid.Col, Grid.Row, Grid.At;
      next := queue;
      if cov[q] != 0 || flags[q].rejected {
        assert SettledIn(src, Covered(), Rejected(), q);
        return;
      }
      if count >= maxPixels {
        StopAtCap();
        return;
      }
      var verdict := Judge(q, x, y);
      if verdict.None? {
        return;
      }
      tests := tests + [q];
      if verdict.value {
        Admit(q, x, y);
        next := queue + [q];
      } else {
        Refuse(q);
      }
    }

    /** Where a growth that started at `start` with queue `seeds` has got to. */
    ghost predicate GrowingFrom(start: Stroke, seeds: seq<int>, count0: nat, queue: seq<int>)
      reads `count, `capped, `minX, `minY, `maxX, `maxY, `n, `sum, `sumSq, `cache, `mean, `deviation, `tolerance,
        `rejects, `tests
      reads cov, flags
    {
      && Shape() && Growable() && Painted() == start.painted
      && Growing(src, Passing(src, tuning, start.painted), Elements(seeds), start.covered, Covered(), Rejected(), queue,
                 tests)
      && |queue| + count0 == |seeds| + count
    }

    /** Tests the four neighbours of a queued cell, stopping when the cap is reached. */
    method Expand(idx: int, head: nat, queue: seq<int>, ghost start: Stroke, ghost seeds: seq<int>, ghost count0: nat)
      returns (next: seq<int>)
      requires Shape() && GrowingFrom(start, seeds, count0, queue) && !capped && src.grid.Has(idx)
      requires head < |queue| && idx == queue[head] && Explored(src, Covered(), Rejected(), queue, head)
      modifies cov, flags, this`count, this`capped, this`minX, this`minY, this`maxX, this`maxY
      modifies this`cache, this`sample, this`rejects, this`tests
      ensures GrowingFrom(start, seeds, count0, next) && queue <= next
      ensures !capped ==> Explored(src, Covered(), Rejected(), next, head + 1)
      ensures count > old(count) || next == queue
    {
      hide Growable, Growing, Passing, Covered, Painted, Rejected, Grid.Col, Grid.Row, Grid.At, Explored, Pixel,
        IsExplored;
      next := queue;
      var x, y := Coordinates(idx);
      NothingExplored(src, Covered(), Rejected(), idx);
      var d := 0;
      while d < 4
        invariant 0 <= d <= 4 && !capped && GrowingFrom(start, seeds, count0, next) && queue <= next
        invariant Explored(src, Covered(), Rejected(), next, head) && next[head] == idx
        invariant IsExplored(src, Covered(), Rejected(), idx, d)
        invariant count > old(count) || next == queue
      {
        var nx, ny := StepX(x, d), StepY(y, d);
        if InBounds(src.grid, nx, ny) {
          var q := src.grid.At(nx, ny);
          NeighbourOf(idx, d);
          ghost var was := next;
          ghost var c0, r0, t0, k0 := Covered(), Rejected(), tests, count;
          next := TestNeighbour(q, nx, ny, next);
          MoveKeepsGrowing(src, Passing(src, tuning, start.painted), Elements(seeds), start.covered, idx, q,
                           c0, r0, was, t0, k0, Covered(), Rejected(), next, tests, count);
          StaysExplored(src, c0, r0, was, Covered(), Rejected(), next, head, idx, d);
          if capped {
            break;
          }
        }
        ExploreNext(src, Covered(), Rejected(), idx, d);
        d := d + 1;
      }
      if !capped {
        ExploredOneMore(src, Covered(), Rejected(), next, head);
      }
    }

    method Coordinates(idx: int) returns (x: int, y: int)
      requires src.grid.Has(idx)
      ensures x == src.grid.Col(idx) && y == src.grid.Row(idx) && InBounds(src.grid, x, y)
    {
      CellInside(src.grid, idx);
      x := idx % src.grid.w;
      RowMajor(src.grid.w, 0, src.grid.Row(idx));
      y := (idx - x) / src.grid.w;
    }

    lemma NeighbourOf(idx: int, d: int)
      requires src.grid.Has(idx) && 0 <= d < 4
               && InBounds(src.grid, StepX(src.grid.Col(idx), d), StepY(src.grid.Row(idx), d))
      ensures var nx, ny := StepX(src.grid.Col(idx), d), StepY(src.grid.Row(idx), d);
              var q := src.grid.At(nx, ny);
              && q == Toward(src.grid, idx, d) && src.grid.Has(q) && src.grid.Adjacent(idx, q)
              && src.grid.Col(q) == nx && src.grid.Row(q) == ny
    {
      AtInside(src.grid, StepX(src.grid.Col(idx), d), StepY(src.grid.Row(idx), d));
      TowardIsAdjacent(src.grid, idx, d);
    }

    /** Breadth-first growth from the queued cells, until the queue is spent or the cap is reached. */
    method Grow(seeds: seq<int>) returns (queue: seq<int>)
      requires Shape() && Growable() && Rejected() == {} && forall i :: i in seeds ==> src.grid.Has(i)
      modifies cov, flags, this`count, this`capped, this`minX, this`minY, this`maxX, this`maxY
      modifies this`cache, this`sample, this`rejects, this`tests
      ensures GrowingFrom(old(State()), seeds, old(count), queue)
      ensures !capped ==> Explored(src, Covered(), Rejected(), queue, |queue|)
      ensures old(capped) ==> capped && Covered() == old(Covered())
    {
      hide Growable, Growing, Passing, Covered, Painted, Rejected, Explored, Grid.Adjacent;
      ghost var start, count0 := State(), count;
      tests := [];
      queue := seeds;
      GrowthStarts(src, Passing(src, tuning, start.painted), seeds, start.covered);
      var head := 0;
      while head < |queue|
        invariant 0 <= head <= |queue| && GrowingFrom(start, seeds, count0, queue)
        invariant !capped ==> Explored(src, Covered(), Rejected(), queue, head)
        invariant old(capped) ==> capped && Covered() == old(Covered())
        decreases maxPixels - count, |queue| - head
      {
        if capped {
          break;
        }
        QueueInGrid(start, seeds, count0, queue, head);
        ghost var c0 := count;
        queue := Expand(queue[head], head, queue, start, seeds, count0);
        CountUnderCap();
        head := head + 1;
      }
    }

    lemma CountUnderCap()
      requires Shape() && Growable()
      ensures count <= maxPixels
    {
    }

    lemma QueueInGrid(start: Stroke, seeds: seq<int>, count0: nat, queue: seq<int>, head: nat)
      requires GrowingFrom(start, seeds, count0, queue) && head < |queue| && forall i :: i in seeds ==> src.grid.Has(i)
      ensures src.grid.Has(queue[head])
    {
      hide Growable, Passing, Closed, Beside, NoRepeats;
      assert queue[head] in Elements(queue);
    }

    /** Paints one dab centred at (cx, cy), grows from it, and says how many pixels were added.
        `queued` is how many cells the growth ever held in its queue. */
    method Dab(cx: real, cy: real, radius: real) returns (added: int, ghost queued: nat)
      requires Valid()
      modifies this, cov, flags
      ensures Valid()
      ensures DabResult(src, tuning, old(State()), Disc(src, cx, cy, Radius(radius)), State(), capped)
      ensures old(capped) ==> capped && Covered() == old(Covered())
      ensures count == |Covered()| <= maxPixels && (capped ==> count == maxPixels)
      ensures added == count - old(count) && NoRepeats(tests)
      ensures queued <= |Disc(src, cx, cy, Radius(radius))| + |old(rejects)| + added
    {
      hide Valid, Ready, Progress, StrokeOk, Covered, Painted, Rejected, Disc, NoRepeats, DabResult;
      Unpack();
      var r := Radius(radius);
      if src.grid.w * src.grid.h == 0 {
        tests := [];
        NoneRepeats(tests);
        EmptyGrid(cx, cy, r);
        EmptyResult(src, tuning, State(), Disc(src, cx, cy, r), capped);
        return 0, 0;
      }
      added, queued := DabInto(cx, cy, r);
    }

    /** The dab on an image that has pixels. */
    method DabInto(cx: real, cy: real, r: real) returns (added: int, ghost queued: nat)
      requires Valid() && r >= 0.0
      modifies this, cov, flags
      ensures Valid() && DabResult(src, tuning, old(State()), Disc(src, cx, cy, r), State(), capped)
      ensures old(capped) ==> capped && Covered() == old(Covered())
      ensures count == |Covered()| <= maxPixels && (capped ==> count == maxPixels)
      ensures added == count - old(count) && NoRepeats(tests)
      ensures queued <= |Disc(src, cx, cy, r)| + |old(rejects)| + added
    {
      hide Valid, Ready, Progress, StrokeOk, Covered, Painted, Rejected, Disc, NoRepeats, DabResult;
      Unpack();
      tests := [];
      NoneRepeats(tests);
      ghost var start, startCapped, D := State(), capped, Disc(src, cx, cy, r);
      var before := count;
      var frontier := PaintDisc(cx, cy, r);
      if n == 0 {
        Quiet(start, startCapped, D, frontier);
        return 0, 0;
      }
      DiscReadable(cx, cy, r);
      queued := Regrow(frontier, start, startCapped, D);
      CappedStays(start);
      return count - before, queued;
    }

    /** A whole stroke: one dab after another on a blank plane. A stroke that meets its cap does so in dab `stop`,
        which leaves it `at`, and keeps that coverage from then on. */
    method PaintStroke(dabs: seq<(real, real, real)>) returns (ghost stop: nat, ghost at: Stroke)
      requires Shape() && Valid() && State() == BLANK && !capped
      modifies this, cov, flags
      ensures Valid() && Painted() == Union(Discs(src, dabs))
      ensures !capped ==> State() == AfterDabs(src, tuning, Discs(src, dabs))
      ensures capped ==> StoppedIn(dabs, stop, at) && Covered() == at.covered && |Covered()| == maxPixels
    {
      hide Valid, Disc, Covered, Painted, Rejected, AfterDab, AfterDabs, Discs, Union, StoppedIn;
      stop, at := 0, BLANK;
      NoDabs(src, tuning);
      var k := 0;
      while k < |dabs|
        invariant 0 <= k <= |dabs| && Valid() && Painted() == Union(Discs(src, dabs[..k]))
        invariant !capped ==> State() == AfterDabs(src, tuning, Discs(src, dabs[..k]))
        invariant capped ==> StoppedIn(dabs, stop, at) && Covered() == at.covered && |Covered()| == maxPixels
      {
        OneMoreDab(src, tuning, dabs, k);
        ghost var start, wasCapped := State(), capped;
        var _, _ := Dab(dabs[k].0, dabs[k].1, dabs[k].2);
        ResultPaints(src, tuning, start, Disc(src, dabs[k].0, dabs[k].1, Radius(dabs[k].2)), State(), capped);
        if capped && !wasCapped {
          stop, at := k, State();
          Stopped(dabs, k, start, State());
        }
        k := k + 1;
      }
      assert dabs[..k] == dabs;
    }

    /** The dabs before `stop` run in full, and that one is cut short by the cap. */
    ghost predicate StoppedIn(dabs: seq<(real, real, real)>, stop: nat, at: Stroke)
      requires Shape()
    {
      stop < |dabs|
      && var (x, y, r) := dabs[stop];
         DabResult(src, tuning, AfterDabs(src, tuning, Discs(src, dabs[..stop])), Disc(src, x, y, Radius(r)), at, true)
    }

    lemma Stopped(dabs: seq<(real, real, real)>, k: nat, start: Stroke, at: Stroke)
      requires Shape() && k < |dabs| && start == AfterDabs(src, tuning, Discs(src, dabs[..k]))
      requires DabResult(src, tuning, start, Disc(src, dabs[k].0, dabs[k].1, Radius(dabs[k].2)), at, true)
      ensures StoppedIn(dabs, k, at)
    {
      hide Disc, AfterDabs, Discs, DabResult;
    }

    lemma DiscReadable(cx: real, cy: real, r: real)
      requires src.tileSize >= 1
      ensures forall i :: i in Disc(src, cx, cy, r) ==> Readable(src, i)
    {
    }

    /** A stroke already at its cap can only keep the coverage it has. */
    lemma CappedStays(start: Stroke)
      requires Valid() && start.covered <= Covered()
      ensures |start.covered| == maxPixels ==> Covered() == start.covered
      ensures count == |Covered()| <= maxPixels && (capped ==> count == maxPixels)
    {
      if |start.covered| == maxPixels {
        SubsetOfSameSize(start.covered, Covered());
      }
    }

    /** The second half of a dab: the gate, the reject shell and the growth. */
    method Regrow(frontier: seq<int>, ghost start: Stroke, ghost startCapped: bool, ghost D: set<int>)
      returns (ghost queued: nat)
      requires Shape() && Progress(start, D, frontier) && n > 0 && |mean| == |deviation| == |tolerance| == 4
      requires StrokeOk(src, start, startCapped) && start.shell == Elements(rejects) && (startCapped ==> capped)
      requires forall i :: i in D ==> Readable(src, i)
      modifies cov, flags, this`count, this`capped, this`minX, this`minY, this`maxX, this`maxY
      modifies this`cache, this`sample, this`rejects, this`tests, this`mean, this`deviation, this`tolerance
      ensures Valid() && DabResult(src, tuning, start, D, State(), capped) && NoRepeats(tests)
      ensures start.covered <= Covered() && (old(capped) ==> capped)
      ensures queued <= |D| + |old(rejects)| + count - old(count)
    {
      hide TightBox, SumsOf, CacheOk, ZeroOrFull, GateAt, Growing, Explored, Covered, Painted, Rejected, NoRepeats,
        DabResult;
      hide StrokeOk, PaintedSoFar;
      ghost var mid, midCapped := Stroke(Covered(), Painted(), Rejected()), capped;
      ghost var shell := rejects;
      ShellInGrid(src, start, startCapped, mid, midCapped, D, frontier, shell);
      RecomputeGate();
      var queue := Requeue(frontier);
      NoneRepeats(rejects);
      assert Elements(rejects) == {};
      queue := Grow(queue);
      DabEnds(src, tuning, start, startCapped, D, mid, midCapped, frontier, shell,
              Covered(), Rejected(), capped, queue, tests);
      Repack();
      return |queue|;
    }

    lemma Repack()
      requires Shape() && Growable() && StrokeOk(src, State(), capped)
      ensures Valid()
    {
    }

    lemma Unpack()
      requires Valid()
      ensures Shape() && Ready() && Covered() !! Rejected() && Rejected() == Elements(rejects) && NoRepeats(rejects)
      ensures |mean| == |deviation| == |tolerance| == 4 && n == |Painted()|
      ensures count == |Covered()| <= maxPixels && (capped ==> count == maxPixels)
      ensures StrokeOk(src, State(), capped)
    {
    }

    /** On an empty grid there is nothing to paint and nothing painted. */
    lemma EmptyGrid(cx: real, cy: real, r: real)
      requires Valid() && src.grid.w * src.grid.h == 0
      ensures Disc(src, cx, cy, r) == {} && State() == BLANK
    {
    }

    /** Nothing readable has been painted yet. */
    lemma Quiet(start: Stroke, startCapped: bool, D: set<int>, frontier: seq<int>)
      requires Shape() && Progress(start, D, frontier) && n == 0 && |mean| == |deviation| == |tolerance| == 4
      requires StrokeOk(src, start, startCapped) && start.shell == Elements(rejects) && NoRepeats(rejects)
      ensures Valid() && DabResult(src, tuning, start, D, State(), capped) && State() == start && D == {}
      ensures count == |start.covered| <= maxPixels && (capped ==> count == maxPixels)
    {
    }
  }

  lemma SubsetOfSameSize(a: set<int>, b: set<int>)
    requires a <= b && |b| <= |a|
    ensures a == b
  {
    assert b == a + (b - a);
    assert |b| == |a| + |b - a|;
  }

  /** The cells each dab of a stroke paints. */
  ghost function Discs(src: Source, dabs: seq<(real, real, real)>): (d: seq<set<int>>)
    requires src.tileSize >= 1
    ensures |d| == |dabs|
  {
    if dabs == [] then []
    else
      var (x, y, r) := dabs[|dabs| - 1];
      Discs(src, dabs[..|dabs| - 1]) + [Disc(src, x, y, Radius(r))]
  }

  function Radius(r: real): (s: real)
    ensures s >= 0.0 && s >= r && (s == r || s == 0.0)
  {
    if r < 0.0 then 0.0 else r
  }

  ghost predicate StrokeOk(src: Source, s: Stroke, capped: bool)
    requires src.tileSize >= 1
  {
    && (forall i :: i in s.covered + s.painted + s.shell ==> Readable(src, i))
    && s.covered !! s.shell
    && (!capped ==> s.painted <= s.covered)
    && (|s.painted| == 0 ==> s.covered == {} && s.shell == {})
  }

  lemma NoDabs(src: Source, t: Tuning)
    requires src.tileSize >= 1
    ensures AfterDabs(src, t, Discs(src, [])) == BLANK && Union(Discs(src, [])) == {}
  {
  }

  lemma OneMoreDab(src: Source, t: Tuning, dabs: seq<(real, real, real)>, k: nat)
    requires src.tileSize >= 1 && k < |dabs|
    ensures var D, ds := Disc(src, dabs[k].0, dabs[k].1, Radius(dabs[k].2)), Discs(src, dabs[..k]);
            && Union(Discs(src, dabs[..k + 1])) == Union(ds) + D
            && AfterDabs(src, t, Discs(src, dabs[..k + 1])) == AfterDab(src, t, AfterDabs(src, t, ds), D)
  {
    hide Disc, AfterDab;
    assert dabs[..k + 1][..k] == dabs[..k];
    var D, ds := Disc(src, dabs[k].0, dabs[k].1, Radius(dabs[k].2)), Discs(src, dabs[..k]);
    assert Discs(src, dabs[..k + 1]) == ds + [D];
    assert (ds + [D])[..|ds|] == ds;
  }

  lemma ResultPaints(src: Source, t: Tuning, s: Stroke, D: set<int>, s': Stroke, capped: bool)
    requires src.tileSize >= 1 && DabResult(src, t, s, D, s', capped)
    ensures s'.painted == s.painted + D && (!capped ==> s' == AfterDab(src, t, s, D))
  {
  }

  /** What a dab makes of a stroke: the full growth, or, when the cap stops it, part of it. Either way what it adds
      beyond the disc is joined to the disc or the refused shell inside itself, nothing is added beyond a disc that
      is not all covered, and of such a disc it covers the first cells in row-major order. */
  ghost predicate DabResult(src: Source, t: Tuning, s: Stroke, D: set<int>, s': Stroke, capped': bool)
    requires src.tileSize >= 1
  {
    && s'.painted == s.painted + D
    && s.covered <= s'.covered <= AfterDab(src, t, s, D).covered
    && Rooted(src.grid, D + s.shell, s'.covered - s.covered - D)
    && (D <= s'.covered || s'.covered <= s.covered + D) && FirstOf(D, s.covered, s'.covered)
    && (!capped' ==> s' == AfterDab(src, t, s, D))
  }

  /** The cells queued for growth lie in the grid, and those refused before are the shell still uncovered. */
  lemma ShellInGrid(src: Source, start: Stroke, startCapped: bool, mid: Stroke, midCapped: bool,
                    D: set<int>, frontier: seq<int>, shell: seq<int>)
    requires src.tileSize >= 1 && StrokeOk(src, start, startCapped) && Elements(shell) == start.shell
    requires PaintedSoFar(start, mid, midCapped, D, frontier) && forall i :: i in D ==> Readable(src, i)
    ensures forall i :: i in frontier + shell ==> src.grid.Has(i)
    ensures forall i :: i in shell ==> src.grid.Has(i)
    ensures mid.shell <= Elements(shell) && mid.covered !! mid.shell
    ensures |frontier| <= |D|
  {
    forall i | i in frontier + shell ensures src.grid.Has(i) {
      if i in frontier {
        assert i in Elements(frontier);
        assert Readable(src, i);
      } else {
        assert i in Elements(shell);
        assert i in start.covered + start.painted + start.shell;
      }
    }
    forall i | i in shell ensures src.grid.Has(i) {
      assert i in frontier + shell;
    }
  }

  lemma DabEnds(src: Source, t: Tuning, start: Stroke, startCapped: bool, D: set<int>, mid: Stroke, midCapped: bool,
                frontier: seq<int>, shell: seq<int>,
                covered: set<int>, rejected: set<int>, capped: bool, queue: seq<int>, tests: seq<int>)
    requires src.tileSize >= 1 && StrokeOk(src, start, startCapped) && Elements(shell) == start.shell
    requires PaintedSoFar(start, mid, midCapped, D, frontier) && forall i :: i in D ==> Readable(src, i)
    requires Growing(src, Passing(src, t, mid.painted), Elements(frontier + shell), mid.covered, covered, rejected,
                     queue, tests)
    requires covered !! rejected && |mid.painted| > 0
    requires (startCapped ==> midCapped) && (midCapped ==> capped && covered == mid.covered)
    requires !capped ==> Explored(src, covered, rejected, queue, |queue|)
    ensures var s := Stroke(covered, mid.painted, rejected);
            StrokeOk(src, s, capped) && DabResult(src, t, start, D, s, capped)
    ensures NoRepeats(tests) && start.covered <= covered
  {
    hide Readable, Explored, Closed, Closure, Rim, Beside, Passing;
    var passing := Passing(src, t, mid.painted);
    assert forall q :: q in passing ==> Readable(src, q) by {
      PassingReadable(src, t, mid.painted);
    }
    assert mid.painted == start.painted + D;
    assert Elements(frontier + shell) == Elements(frontier) + start.shell;
    RootedWithin(src.grid, Elements(frontier + shell), passing - mid.covered, covered - mid.covered);
    if !midCapped {
      assert mid.covered == start.covered + D;
      assert covered - start.covered - D == covered - mid.covered;
      ClosureIsLeast(src.grid, D + start.shell, passing - mid.covered);
      if !capped {
        GrowthEnds(src, passing, D + start.shell, mid.covered, covered, rejected, queue, tests);
        assert covered == mid.covered + (covered - mid.covered);
      } else {
        assert covered - mid.covered <= Grown(src, t, start, D);
      }
    }
    assert DabResult(src, t, start, D, Stroke(covered, mid.painted, rejected), capped);
    forall i | i in covered + mid.painted + rejected ensures Readable(src, i) {
      assert i in start.covered + start.painted + start.shell || i in D || i in passing || i in rejected;
    }
  }

  lemma NoneRepeats(s: seq<int>)
    requires s == []
    ensures NoRepeats(s)
  {
  }

  lemma EmptyResult(src: Source, t: Tuning, s: Stroke, D: set<int>, capped: bool)
    requires src.tileSize >= 1 && |s.painted + D| == 0 && s.covered == {} && s.shell == {}
    ensures DabResult(src, t, s, D, s, capped)
  {
  }

  lemma GrowthStarts(src: Source, passing: set<int>, seeds: seq<int>, base: set<int>)
    requires src.tileSize >= 1
    ensures Growing(src, passing, Elements(seeds), base, base, {}, seeds, [])
    ensures Explored(src, base, {}, seeds, 0)
  {
  }

  /** When every queued cell is explored, growth added exactly the closure and refused exactly its rim. */
  lemma GrowthEnds(src: Source, passing: set<int>, seeds: set<int>, base: set<int>,
                   covered: set<int>, rejected: set<int>, queue: seq<int>, tests: seq<int>)
    requires src.tileSize >= 1 && Growing(src, passing, seeds, base, covered, rejected, queue, tests)
    requires Explored(src, covered, rejected, queue, |queue|)
    requires covered !! rejected && forall q :: q in passing ==> Readable(src, q)
    ensures covered - base == Closure(src.grid, seeds, passing - base)
    ensures rejected == Rim(src, covered, seeds + (covered - base))
  {
    hide Grid.Adjacent, Grid.Col, Grid.Row, Pixel;
    var added := covered - base;
    RootedWithin(src.grid, seeds, passing - base, added);
    forall p, q | (p in seeds || p in added) && src.grid.Adjacent(p, q) ensures SettledIn(src, covered, rejected, q) {
      assert p in Elements(queue);
      var k :| 0 <= k < |queue| && queue[k] == p;
    }
    LeastIsClosure(src.grid, seeds, passing - base, added);
    forall q ensures q in rejected <==> q in Rim(src, covered, seeds + added) {
      if q in Rim(src, covered, seeds + added) {
        assert Beside(src.grid, seeds + added, q);
      }
    }
  }

  /** A cell that growth has nothing left to ask about. */
  ghost predicate SettledIn(src: Source, covered: set<int>, rejected: set<int>, q: int)
    requires src.tileSize >= 1
  {
    q in covered || q in rejected || !Readable(src, q)
  }

  /** The neighbours of p in the first d directions are settled. */
  ghost predicate IsExplored(src: Source, covered: set<int>, rejected: set<int>, p: int, d: int)
    requires src.tileSize >= 1 && src.grid.Has(p)
  {
    forall e :: 0 <= e < d && InBounds(src.grid, StepX(src.grid.Col(p), e), StepY(src.grid.Row(p), e)) ==>
      SettledIn(src, covered, rejected, Toward(src.grid, p, e))
  }

  /** Every neighbour of the first `head` queued cells is settled. */
  ghost predicate Explored(src: Source, covered: set<int>, rejected: set<int>, queue: seq<int>, head: int)
    requires src.tileSize >= 1
  {
    forall k, q :: 0 <= k < head && k < |queue| && src.grid.Adjacent(queue[k], q)
      ==> SettledIn(src, covered, rejected, q)
  }

  lemma ExploreNext(src: Source, covered: set<int>, rejected: set<int>, p: int, d: int)
    requires src.tileSize >= 1 && src.grid.Has(p) && IsExplored(src, covered, rejected, p, d)
    requires InBounds(src.grid, StepX(src.grid.Col(p), d), StepY(src.grid.Row(p), d)) ==>
               SettledIn(src, covered, rejected, Toward(src.grid, p, d))
    ensures IsExplored(src, covered, rejected, p, d + 1)
  {
  }

  lemma ExploredOneMore(src: Source, covered: set<int>, rejected: set<int>, queue: seq<int>, head: nat)
    requires src.tileSize >= 1 && head < |queue| && src.grid.Has(queue[head])
    requires Explored(src, covered, rejected, queue, head) && IsExplored(src, covered, rejected, queue[head], 4)
    ensures Explored(src, covered, rejected, queue, head + 1)
  {
    forall q | src.grid.Adjacent(queue[head], q) ensures SettledIn(src, covered, rejected, q) {
      var d := AdjacentIsToward(src.grid, queue[head], q);
    }
  }

  /** The invariant of growth over plain sets: what was added passes, is queued, and lies in every set closed over
      it; what was refused fails and lies beside the queue; no cell was put to the gate twice. */
  ghost predicate Growing(src: Source, passing: set<int>, seeds: set<int>, base: set<int>,
                          covered: set<int>, rejected: set<int>, queue: seq<int>, tests: seq<int>)
    requires src.tileSize >= 1
  {
    && base <= covered && covered - base <= passing
    && (forall T :: Closed(src.grid, seeds, covered - base, T) ==> covered - base <= T)
    && Elements(queue) == seeds + (covered - base)
    && rejected !! passing && (forall q :: q in rejected ==> Readable(src, q) && Beside(src.grid, Elements(queue), q))
    && Elements(tests) == (covered - base) + rejected && NoRepeats(tests)
  }

  lemma MoveKeepsGrowing(src: Source, passing: set<int>, seeds: set<int>, base: set<int>, p: int, q: int,
                         covered: set<int>, rejected: set<int>, queue: seq<int>, tests: seq<int>, count: nat,
                         covered': set<int>, rejected': set<int>, queue': seq<int>, tests': seq<int>, count': nat)
    requires src.tileSize >= 1 && Growing(src, passing, seeds, base, covered, rejected, queue, tests)
    requires p in queue && src.grid.Adjacent(p, q)
    requires Move(src, passing, q, covered, rejected, queue, tests, count, covered', rejected', queue', tests', count')
    ensures Growing(src, passing, seeds, base, covered', rejected', queue', tests')
    ensures covered <= covered' && rejected <= rejected'
    ensures queue <= queue' && |queue'| - |queue| == count' - count && (count' > count || queue' == queue)
  {
    if tests' != tests {
      assert Elements(tests') == Elements(tests) + {q};
      assert p in Elements(queue);
      if q in passing {
        assert covered' - base == (covered - base) + {q};
        assert Elements(queue') == Elements(queue) + {q};
        forall T | Closed(src.grid, seeds, covered' - base, T)
          ensures covered' - base <= T
        {
          assert Closed(src.grid, seeds, covered - base, T);
          assert covered - base <= T;
        }
        forall s | s in rejected ensures Beside(src.grid, Elements(queue'), s) {
          assert Beside(src.grid, Elements(queue), s);
        }
      }
    }
  }

  /** What is settled stays settled as cells are covered and refused. */
  lemma StaysExplored(src: Source, covered: set<int>, rejected: set<int>, queue: seq<int>,
                      covered': set<int>, rejected': set<int>, queue': seq<int>, head: nat, p: int, d: int)
    requires src.tileSize >= 1 && src.grid.Has(p) && head <= |queue|
    requires covered <= covered' && rejected <= rejected' && queue <= queue'
    requires Explored(src, covered, rejected, queue, head) && IsExplored(src, covered, rejected, p, d)
    ensures Explored(src, covered', rejected', queue', head) && IsExplored(src, covered', rejected', p, d)
  {
    hide Grid.Adjacent, Grid.Col, Grid.Row, Toward, StepX, StepY, InBounds, Readable;
    assert forall q :: SettledIn(src, covered, rejected, q) ==> SettledIn(src, covered', rejected', q);
    forall k, q | 0 <= k < head && k < |queue'| && src.grid.Adjacent(queue'[k], q)
      ensures SettledIn(src, covered', rejected', q)
    {
      assert src.grid.Adjacent(queue[k], q);
    }
  }

  lemma NothingExplored(src: Source, covered: set<int>, rejected: set<int>, p: int)
    requires src.tileSize >= 1 && src.grid.Has(p)
    ensures IsExplored(src, covered, rejected, p, 0)
  {
  }

  /** The change one neighbour test may make. */
  ghost predicate Move(src: Source, passing: set<int>, q: int,
                       covered: set<int>, rejected: set<int>, queue: seq<int>, tests: seq<int>, count: nat,
                       covered': set<int>, rejected': set<int>, queue': seq<int>, tests': seq<int>, count': nat)
    requires src.tileSize >= 1
  {
    || (covered' == covered && rejected' == rejected && queue' == queue && tests' == tests && count' == count)
    || (&& q !in covered && q !in rejected && Readable(src, q) && tests' == tests + [q]
        && if q in passing
           then covered' == covered + {q} && rejected' == rejected && queue' == queue + [q] && count' == count + 1
           else covered' == covered && rejected' == rejected + {q} && queue' == queue && count' == count)
  }

  /** What painting the cells of `done` makes of a stroke that stood at `start`. */
  /** The cells of D newly covered come before, in row-major order, those of D not covered. */
  ghost predicate FirstOf(D: set<int>, before: set<int>, after: set<int>) {
    forall p, q :: p in D && q in D && p < q && q in after && q !in before ==> p in after
  }

  ghost predicate PaintedSoFar(start: Stroke, s: Stroke, capped: bool, done: set<int>, frontier: seq<int>) {
    && s.covered !! s.shell
    && s.painted == start.painted + done
    && start.covered <= s.covered <= start.covered + done
    && s.shell == start.shell - s.covered
    && Elements(frontier) <= done && |frontier| <= |done|
    && (!capped ==> s.covered == start.covered + done && Elements(frontier) == done)
    && FirstOf(done, start.covered, s.covered)
  }

  lemma SoFarDisjoint(start: Stroke, s: Stroke, capped: bool, done: set<int>, frontier: seq<int>)
    requires PaintedSoFar(start, s, capped, done, frontier)
    ensures s.covered !! s.shell
  {
  }

  lemma PaintOneMore(start: Stroke, s: Stroke, s': Stroke, capped: bool, capped': bool,
                     done: set<int>, dot: set<int>, cell: int, frontier: seq<int>, f: seq<int>)
    requires PaintedSoFar(start, s, capped, done, frontier)
    requires (dot == {} || dot == {cell}) && done !! dot && (capped ==> capped')
    requires s'.covered !! s'.shell && s'.painted == s.painted + dot && s'.shell == s.shell - s'.covered
    requires s.covered <= s'.covered <= s.covered + dot
    requires !capped' ==> s'.covered == s.covered + dot
    requires (capped ==> s'.covered == s.covered) && forall i :: i in done ==> i < cell
    requires f == frontier || (dot != {} && f == frontier + [cell])
    requires !capped' && f == frontier ==> dot == {}
    ensures PaintedSoFar(start, s', capped', done + dot, f)
  {
    FrontierGrows(done, dot, cell, frontier, f);
    hide Elements;
    SetsGrow(start.painted, start.covered, start.shell, s.covered, done, dot, s'.covered);
    FirstGrows(start.covered, s.covered, capped, done, dot, cell, s'.covered);
  }

  lemma FirstGrows(before: set<int>, covered: set<int>, capped: bool, done: set<int>, dot: set<int>, cell: int,
                   covered': set<int>)
    requires FirstOf(done, before, covered) && before <= covered && covered <= before + done
    requires (dot == {} || dot == {cell}) && forall i :: i in done ==> i < cell
    requires covered <= covered' <= covered + dot
    requires (!capped ==> covered == before + done) && (capped ==> covered' == covered)
    ensures FirstOf(done + dot, before, covered')
  {
  }

  lemma SetsGrow(p: set<int>, c: set<int>, h: set<int>, c1: set<int>, done: set<int>, dot: set<int>, c2: set<int>)
    requires c <= c1 <= c + done && c1 <= c2 <= c1 + dot
    ensures (p + done) + dot == p + (done + dot)
    ensures c2 <= c + (done + dot)
    ensures h - c1 - c2 == h - c2
    ensures c1 == c + done && c2 == c1 + dot ==> c2 == c + (done + dot)
  {
  }

  lemma FrontierGrows(done: set<int>, dot: set<int>, cell: int, frontier: seq<int>, f: seq<int>)
    requires Elements(frontier) <= done && |frontier| <= |done| && (dot == {} || dot == {cell}) && done !! dot
    requires f == frontier || (dot != {} && f == frontier + [cell])
    ensures Elements(f) <= done + dot && |f| <= |done + dot|
    ensures Elements(frontier) == done && (f == frontier ==> dot == {}) ==> Elements(f) == done + dot
  {
  }

  function Ceil(v: real): int {
    -(-v).Floor
  }

  /** A point of the disc is no further from the centre than the radius along either axis. */
  lemma Near(g: Grid, cx: real, cy: real, r: real, i: int)
    requires r >= 0.0 && g.Has(i) && InDisc(g, cx, cy, r, i)
    ensures (cx - r).Floor <= g.Col(i) <= Ceil(cx + r) && (cy - r).Floor <= g.Row(i) <= Ceil(cy + r)
  {
    hide Grid.Col, Grid.Row;
    var dx, dy := g.Col(i) as real - cx, g.Row(i) as real - cy;
    assert dx * dx + dy * dy <= r * r;
    WithinRadius(dx, dy, r);
    WithinRadius(dy, dx, r);
  }

  lemma WithinRadius(d: real, other: real, r: real)
    requires r >= 0.0 && d * d + other * other <= r * r
    ensures -r <= d <= r
  {
    SquareNotNegative(other);
    if d > r {
      SquareOrder(d, r);
    } else if d < -r {
      SquareOrder(-d, r);
    }
  }

  lemma DiscCell(src: Source, cx: real, cy: real, r: real, i: int)
    requires src.tileSize >= 1 && i in Disc(src, cx, cy, r)
    ensures src.grid.Has(i) && InDisc(src.grid, cx, cy, r, i)
  {
  }

  ghost predicate GateAt(src: Source, t: Tuning, S: set<int>, mean: real, deviation: real, tolerance: real, c: int)
    requires src.tileSize >= 1 && |S| > 0 && 0 <= c < 4
  {
    mean == MeanOf(src, S, c) && deviation == t.sqrt(VarianceOf(src, S, c)) && tolerance == ToleranceOf(src, t, S, c)
  }

  ghost predicate SumOf(src: Source, S: set<int>, sum: int, sumSq: int, c: int)
    requires src.tileSize >= 1 && 0 <= c < 4
  {
    var vals := Channel(src, c);
    sum == Sum(vals, S, |vals|) && sumSq == SumSq(vals, S, |vals|)
  }

  ghost predicate SumsOf(src: Source, S: set<int>, sum: seq<int>, sumSq: seq<int>)
    requires src.tileSize >= 1
  {
    && |sum| == 4 && |sumSq| == 4
    && forall c :: 0 <= c < 4 ==> SumOf(src, S, sum[c], sumSq[c], c)
  }

  ghost predicate Added(sum: seq<int>, sumSq: seq<int>, sample: seq<byte>, sum': seq<int>, sumSq': seq<int>)
    requires |sum| == |sumSq| == |sample| == 4
  {
    && |sum'| == |sumSq'| == 4
    && forall k :: 0 <= k < 4 ==> sum'[k] == sum[k] + sample[k] && sumSq'[k] == sumSq[k] + Square(sample[k])
  }

  lemma SumsAdd(src: Source, S: set<int>, sum: seq<int>, sumSq: seq<int>, i: int, sum': seq<int>, sumSq': seq<int>)
    requires src.tileSize >= 1 && SumsOf(src, S, sum, sumSq) && Readable(src, i) && i !in S
    requires Added(sum, sumSq, Pixel(src, i).value, sum', sumSq')
    ensures SumsOf(src, S + {i}, sum', sumSq')
  {
    forall c | 0 <= c < 4 ensures SumOf(src, S + {i}, sum'[c], sumSq'[c], c) {
      assert SumOf(src, S, sum[c], sumSq[c], c);
      SumAdd(Channel(src, c), S, i, |Channel(src, c)|);
    }
  }

  /** Stretching a tight box to a new cell, or starting it there, keeps it tight. */
  lemma NoBox(g: Grid)
    ensures TightBox(g, {}, 0, 0, -1, -1)
  {
  }

  lemma NoEvidence(src: Source)
    requires src.tileSize >= 1
    ensures SumsOf(src, {}, [0, 0, 0, 0], [0, 0, 0, 0])
  {
    hide Channel, Pixel, Sum, SumSq;
    forall c | 0 <= c < 4 ensures SumOf(src, {}, 0, 0, c) {
      EmptySums(Channel(src, c), |Channel(src, c)|);
    }
  }

  lemma ClaimedApart(C: set<int>, R: set<int>, i: int)
    requires C !! R
    ensures C + {i} !! R - {i} && R - {i} == R - (C + {i}) && R == R - C
    ensures C + {} == C && (i in C ==> C + {i} == C)
  {
  }

  lemma BoxAdd(g: Grid, S: set<int>, x0: int, y0: int, x1: int, y1: int, i: int)
    requires TightBox(g, S, x0, y0, x1, y1) && g.Has(i)
    ensures var x, y := g.Col(i), g.Row(i);
            if x1 < x0 then TightBox(g, S + {i}, x, y, x, y)
            else TightBox(g, S + {i}, Min(x0, x), Min(y0, y), Max(x1, x), Max(y1, y))
  {
    EmptyBox(g, S, x0, y0, x1, y1);
    assert i in S + {i};
    if S != {} {
      var a :| a in S && g.Has(a) && g.Col(a) == x0;
      var b :| b in S && g.Has(b) && g.Col(b) == x1;
      var c :| c in S && g.Has(c) && g.Row(c) == y0;
      var d :| d in S && g.Has(d) && g.Row(d) == y1;
      assert {a, b, c, d} <= S + {i};
    }
  }

  lemma EmptyBox(g: Grid, S: set<int>, x0: int, y0: int, x1: int, y1: int)
    requires TightBox(g, S, x0, y0, x1, y1)
    ensures x1 < x0 <==> S == {}
    ensures S != {} ==> y0 <= y1
  {
  }

  lemma {:induction false} EmptySums(vals: seq<int>, k: nat)
    requires k <= |vals|
    ensures Sum(vals, {}, k) == 0 && SumSq(vals, {}, k) == 0
  {
    if k > 0 {
      EmptySums(vals, k - 1);
    }
  }
}
