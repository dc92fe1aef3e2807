/** Two small strokes on which the selection is not the 4-connected region of tolerated pixels: a wall that is
    stepped over, although the third step of the dab is to grow 4-connected (glue/src/quick-select.ts:326-328), and
    a tolerated pixel beside the selection that stays out. */
module GrowthExamples {
  import opened Basics
  import opened Reals
  import opened Grid
  import opened Tiles
  import opened Statistics
  import opened Growth

  /** A one-row grey image behind an honest reader with one tile. */
  function Row(greys: seq<byte>): Source {
    Source(Grid(|greys|, 1), 64, (x, y, w, h) => Packed(greys))
  }

  function Packed(greys: seq<byte>): (r: seq<byte>)
    ensures |r| == 4 * |greys|
  {
    if greys == [] then [] else
      var v := greys[|greys| - 1];
      Packed(greys[..|greys| - 1]) + [v, v, v, v]
  }

  lemma {:induction false} PackedAt(greys: seq<byte>, i: int)
    requires 0 <= i < |greys|
    ensures Packed(greys)[4 * i..4 * i + 4] == [greys[i], greys[i], greys[i], greys[i]]
  {
    var front := greys[..|greys| - 1];
    if i < |front| {
      PackedAt(front, i);
      assert Packed(greys)[4 * i..4 * i + 4] == Packed(front)[4 * i..4 * i + 4];
    }
  }

  /** The default floor, variance weight and ceiling. */
  function Defaults(sqrt: real -> real): Tuning {
    Tuning(16.0, 1.5, 72.0, sqrt)
  }

  lemma RowPixel(greys: seq<byte>, i: int)
    requires 0 <= i < |greys| <= 64
    ensures Row(greys).grid.Has(i) && Pixel(Row(greys), i) == Some([greys[i], greys[i], greys[i], greys[i]])
    ensures Row(greys).grid.Col(i) == i && Row(greys).grid.Row(i) == 0
  {
    var src := Row(greys);
    AtInside(src.grid, i, 0);
    assert i / 64 == 0;
    PackedAt(greys, i);
  }

  lemma RowAdjacent(greys: seq<byte>, i: int, j: int)
    requires 0 <= i < |greys| <= 64 && 0 <= j < |greys|
    ensures Row(greys).grid.Adjacent(i, j) <==> j == i - 1 || j == i + 1
  {
    RowPixel(greys, i);
    RowPixel(greys, j);
  }

  lemma RowChannel(greys: seq<byte>, c: int)
    requires |greys| <= 64 && 0 <= c < 4
    ensures Channel(Row(greys), c) == greys
  {
    forall i | 0 <= i < |greys| ensures Channel(Row(greys), c)[i] == greys[i] {
      RowPixel(greys, i);
    }
  }

  /** On a grey row the four channels agree, so the gate is one inequality. */
  ghost predicate GreyPasses(greys: seq<byte>, t: Tuning, S: set<int>, i: int)
    requires |S| > 0
  {
    && 0 <= i < |greys|
    && Abs(greys[i] as real - Mean(|S|, Sum(greys, S, |greys|)))
       <= Tolerance(t, |S|, Sum(greys, S, |greys|), SumSq(greys, S, |greys|))
  }

  lemma RowGate(greys: seq<byte>, t: Tuning, S: set<int>, c: int)
    requires |greys| <= 64 && |S| > 0 && 0 <= c < 4
    ensures MeanOf(Row(greys), S, c) == Mean(|S|, Sum(greys, S, |greys|))
    ensures ToleranceOf(Row(greys), t, S, c) == Tolerance(t, |S|, Sum(greys, S, |greys|), SumSq(greys, S, |greys|))
  {
    RowChannel(greys, c);
  }

  lemma RowPasses(greys: seq<byte>, t: Tuning, S: set<int>, i: int)
    requires |greys| <= 64 && |S| > 0 && 0 <= i < |greys|
    ensures Passes(Row(greys), t, S, i) <==> GreyPasses(greys, t, S, i)
  {
    var src := Row(greys);
    RowPixel(greys, i);
    var p := Pixel(src, i).value;
    assert p == [greys[i], greys[i], greys[i], greys[i]];
    assert Readable(src, i);
    forall c | 0 <= c < 4
      ensures Abs(p[c] as real - MeanOf(src, S, c)) <= ToleranceOf(src, t, S, c) <==> GreyPasses(greys, t, S, i)
    {
      RowGate(greys, t, S, c);
      assert p[c] == greys[i];
    }
    if Passes(src, t, S, i) {
      assert Abs(p[0] as real - MeanOf(src, S, 0)) <= ToleranceOf(src, t, S, 0);
    }
  }

  lemma RowPassing(greys: seq<byte>, t: Tuning, S: set<int>)
    requires |greys| <= 64 && |S| > 0
    ensures Passing(Row(greys), t, S) == set i | 0 <= i < |greys| && GreyPasses(greys, t, S, i)
  {
    forall i | 0 <= i < |greys| ensures Passes(Row(greys), t, S, i) <==> GreyPasses(greys, t, S, i) {
      RowPasses(greys, t, S, i);
    }
  }

  /** Consecutive readable cells in one row. */
  ghost predicate IsLine(src: Source, n: nat)
    requires src.tileSize >= 1
  {
    && src.grid.w * src.grid.h == n
    && (forall i :: 0 <= i < n ==> Readable(src, i))
    && (forall i, j :: 0 <= i < n && 0 <= j < n ==> (src.grid.Adjacent(i, j) <==> j == i - 1 || j == i + 1))
  }

  lemma RowIsLine(greys: seq<byte>)
    requires |greys| <= 64
    ensures IsLine(Row(greys), |greys|)
  {
    forall i | 0 <= i < |greys| ensures Readable(Row(greys), i) {
      RowPixel(greys, i);
    }
    forall i, j | 0 <= i < |greys| && 0 <= j < |greys|
      ensures Row(greys).grid.Adjacent(i, j) <==> j == i - 1 || j == i + 1
    {
      RowAdjacent(greys, i, j);
    }
  }

  /** A first dab on the first cell of a line whose second cell is refused. */
  lemma FirstDabOnLine(src: Source, t: Tuning, n: nat)
    requires src.tileSize >= 1 && n >= 2 && IsLine(src, n) && 1 !in Passing(src, t, {0})
    ensures AfterDab(src, t, BLANK, {0}) == Stroke({0}, {0}, {1})
  {
    var g := src.grid;
    assert BLANK.painted + {0} == {0} && BLANK.covered + {0} == {0} && {0} + BLANK.shell == {0};
    var ground := Passing(src, t, {0}) - {0};
    ClosureIsLeast(g, {0}, ground);
    assert Closed(g, {0}, ground, {});
    assert Closure(g, {0}, ground) == {};
    assert {0} + {} == {0};
    LineRim(src, n);
  }

  lemma LineRim(src: Source, n: nat)
    requires src.tileSize >= 1 && n >= 2 && IsLine(src, n)
    ensures Rim(src, {0}, {0}) == {1}
  {
  }

  // ---- growth jumps a refused wall ---------------------------------------------------------

  lemma WallJump(src: Source, t: Tuning)
    requires src.tileSize >= 1 && IsLine(src, 3) && Passing(src, t, {0}) == {0, 2}
    ensures AfterDab(src, t, Stroke({0}, {0}, {1}), {0}).covered == {0, 2}
  {
    var g := src.grid;
    assert {0} + {0} == {0} && {0} + {1} == {0, 1} && {0, 2} - {0} == {2};
    ClosureIsLeast(g, {0, 1}, {2});
    assert g.Adjacent(1, 2);
    assert Closure(g, {0, 1}, {2}) == {2};
  }

  lemma WallHolds(src: Source, t: Tuning)
    requires src.tileSize >= 1 && IsLine(src, 3)
    ensures 2 !in Closure(src.grid, {0}, {0, 2})
  {
    ClosureIsLeast(src.grid, {0}, {0, 2});
    assert Closed(src.grid, {0}, {0, 2}, {0});
  }

  /** After one dab on the first cell of black, light, black only that cell is selected; the same dab
      again adds the third cell, which no walk over tolerated cells joins to the paint. */
  lemma RepeatedDabJumpsWall(sqrt: real -> real)
    requires IsSqrt(sqrt)
    ensures var src, t := Row([0, 200, 0]), Defaults(sqrt);
            var once := AfterDab(src, t, BLANK, {0});
            var twice := AfterDab(src, t, once, {0});
            && once.covered == {0} && twice.covered == {0, 2} && twice.painted == {0}
            && 2 !in Closure(src.grid, {0}, Passing(src, t, {0}))
  {
    var greys: seq<byte> := [0, 200, 0];
    var src, t := Row(greys), Defaults(sqrt);
    RowIsLine(greys);
    RowPassing(greys, t, {0});
    assert Sum(greys, {0}, 3) == 0 && SumSq(greys, {0}, 3) == 0;
    ZeroTolerance(t, sqrt);
    assert Passing(src, t, {0}) == {0, 2};
    FirstDabOnLine(src, t, 3);
    WallJump(src, t);
    WallHolds(src, t);
    assert {0} + {0} == {0};
  }

  lemma ZeroTolerance(t: Tuning, sqrt: real -> real)
    requires IsSqrt(sqrt) && t == Defaults(sqrt)
    ensures Mean(1, 0) == 0.0 && Tolerance(t, 1, 0, 0) == 16.0
  {
    assert Variance(1, 0, 0) == 0.0;
    var d := sqrt(0.0);
    assert d >= 0.0 && d * d == 0.0;
    if d > 0.0 {
      ScaleSign(d, d);
    }
  }

  // ---- a tolerated pixel is never tested again ---------------------------------------------

  lemma LostCell(src: Source, t: Tuning)
    requires src.tileSize >= 1 && IsLine(src, 4) && Passing(src, t, {0, 3}) == {0, 1, 3}
    ensures AfterDab(src, t, Stroke({0}, {0}, {1}), {3}) == Stroke({0, 3}, {0, 3}, {2})
  {
    hide IsLine, Passing, Closure, Rim;
    assert {0} + {3} == {0, 3} && {3} + {1} == {3, 1} && {0, 1, 3} - {0, 3} == {1};
    NothingBeside(src);
    assert {0, 3} + {} == {0, 3} && {3, 1} + {} == {3, 1};
    WideRim(src);
  }

  lemma NothingBeside(src: Source)
    requires src.tileSize >= 1 && IsLine(src, 4)
    ensures Closure(src.grid, {3, 1}, {1}) == {}
  {
    ClosureIsLeast(src.grid, {3, 1}, {1});
    assert !src.grid.Adjacent(3, 1) && !src.grid.Adjacent(1, 1);
    assert Closed(src.grid, {3, 1}, {1}, {});
  }

  lemma WideRim(src: Source)
    requires src.tileSize >= 1 && IsLine(src, 4)
    ensures Rim(src, {0, 3}, {3, 1}) == {2}
  {
  }

  /** Painting the fourth cell widens the tolerance to 46 around a mean of 20, which takes in the second
      cell, refused by the first dab and beside a selected cell; it stays out, and leaves the shell. */
  lemma ToleratedCellStaysOut(sqrt: real -> real)
    requires IsSqrt(sqrt)
    ensures var src, t := Row([0, 20, 200, 40]), Defaults(sqrt);
            var once := AfterDab(src, t, BLANK, {0});
            var twice := AfterDab(src, t, once, {3});
            && 1 in once.shell && 1 in Passing(src, t, twice.painted)
            && 1 !in twice.covered && 1 !in twice.shell && 0 in twice.covered && src.grid.Adjacent(0, 1)
  {
    var greys: seq<byte> := [0, 20, 200, 40];
    var src, t := Row(greys), Defaults(sqrt);
    RowIsLine(greys);
    BlackAndWidened(greys, t, sqrt);
    FirstDabOnLine(src, t, 4);
    LostCell(src, t);
    assert {0} + {3} == {0, 3};
  }

  lemma {:induction false} OnlyFirst(greys: seq<byte>, S: set<int>, k: nat)
    requires 1 <= k <= |greys| && greys[0] == 0 && 0 in S && forall i :: i in S && 0 < i ==> k <= i
    ensures Sum(greys, S, k) == 0 && SumSq(greys, S, k) == 0
  {
    if k > 1 {
      OnlyFirst(greys, S, k - 1);
    } else {
      assert Sum(greys, S, 0) == 0 && SumSq(greys, S, 0) == 0;
    }
  }

  lemma BlackAndWidened(greys: seq<byte>, t: Tuning, sqrt: real -> real)
    requires IsSqrt(sqrt) && t == Defaults(sqrt) && greys == [0, 20, 200, 40]
    ensures 1 !in Passing(Row(greys), t, {0}) && Passing(Row(greys), t, {0, 3}) == {0, 1, 3}
  {
    RowPassing(greys, t, {0});
    RowPassing(greys, t, {0, 3});
    ZeroTolerance(t, sqrt);
    WideTolerance(t, sqrt);
    OnlyFirst(greys, {0}, 4);
    OnlyFirst(greys, {0, 3}, 3);
    assert |{0, 3}| == 2;
  }

  lemma WideTolerance(t: Tuning, sqrt: real -> real)
    requires IsSqrt(sqrt) && t == Defaults(sqrt)
    ensures Mean(2, 40) == 20.0 && Tolerance(t, 2, 40, 1600) == 46.0
  {
    assert Variance(2, 40, 1600) == 400.0;
    var d := sqrt(400.0);
    assert d >= 0.0 && d * d == 400.0;
    SquareOrder(d, 20.0);
    SquareOrder(20.0, d);
  }
}
