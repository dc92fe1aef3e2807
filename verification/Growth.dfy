/** One dab of a quick-selection stroke as a function on sets of cells: the gate the painted
    evidence opens, the growth it allows, and what repeated dabs do. */
module Growth {
  import opened Basics
  import opened Reals
  import opened Grid
  import opened Tiles
  import opened Statistics

  /** Tolerance floor, weight of the deviation, tolerance ceiling, and the square root used. */
  datatype Tuning = Tuning(base: real, weight: real, ceiling: real, sqrt: real -> real)

  function Abs(v: real): real {
    if v < 0.0 then -v else v
  }

  function Mean(n: nat, s: int): real
    requires n > 0
  {
    s as real / n as real
  }

  function Variance(n: nat, s: int, q: int): real
    requires n > 0
  {
    var v := q as real / n as real - Mean(n, s) * Mean(n, s);
    if v < 0.0 then 0.0 else v
  }

  function Tolerance(t: Tuning, n: nat, s: int, q: int): real
    requires n > 0
  {
    var w := t.base + t.weight * t.sqrt(Variance(n, s, q));
    if t.ceiling < w then t.ceiling else w
  }

  // ---- the gate ------------------------------------------------------------------------------

  ghost predicate Evidence(src: Source, S: set<int>) {
    src.tileSize >= 1 && |S| > 0 && forall i :: i in S ==> src.grid.Has(i)
  }

  ghost function MeanOf(src: Source, S: set<int>, c: int): real
    requires src.tileSize >= 1 && |S| > 0 && 0 <= c < 4
  {
    Mean(|S|, Sum(Channel(src, c), S, |Channel(src, c)|))
  }

  ghost function VarianceOf(src: Source, S: set<int>, c: int): real
    requires src.tileSize >= 1 && |S| > 0 && 0 <= c < 4
  {
    Variance(|S|, Sum(Channel(src, c), S, |Channel(src, c)|), SumSq(Channel(src, c), S, |Channel(src, c)|))
  }

  ghost function ToleranceOf(src: Source, t: Tuning, S: set<int>, c: int): real
    requires src.tileSize >= 1 && |S| > 0 && 0 <= c < 4
  {
    Tolerance(t, |S|, Sum(Channel(src, c), S, |Channel(src, c)|), SumSq(Channel(src, c), S, |Channel(src, c)|))
  }

  /** The readable cells every channel of which lies within tolerance of the painted mean. */
  ghost function Passing(src: Source, t: Tuning, painted: set<int>): set<int>
    requires src.tileSize >= 1
  {
    if |painted| == 0 then {} else set i | 0 <= i < src.grid.w * src.grid.h && Passes(src, t, painted, i)
  }

  ghost predicate Passes(src: Source, t: Tuning, painted: set<int>, i: int)
    requires src.tileSize >= 1 && |painted| > 0
  {
    && Readable(src, i)
    && forall c :: 0 <= c < 4 ==>
         Abs(Pixel(src, i).value[c] as real - MeanOf(src, painted, c)) <= ToleranceOf(src, t, painted, c)
  }

  /** The clamp of the variance at zero never acts, and the variance is zero exactly on uniform evidence. */
  lemma VarianceClampIdle(src: Source, S: set<int>, c: int)
    requires Evidence(src, S) && 0 <= c < 4
    ensures var vals := Channel(src, c);
            VarianceOf(src, S, c)
            == SumSq(vals, S, |vals|) as real / |S| as real - MeanOf(src, S, c) * MeanOf(src, S, c)
    ensures VarianceOf(src, S, c) == 0.0 <==> Uniform(Channel(src, c), S)
  {
    var vals := Channel(src, c);
    SpreadOfEvidence(vals, S);
    VarianceSign(|S|, Sum(vals, S, |vals|), SumSq(vals, S, |vals|));
  }

  lemma VarianceSign(n: nat, s: int, q: int)
    requires n > 0 && n * q >= Square(s)
    ensures Variance(n, s, q) == q as real / n as real - Mean(n, s) * Mean(n, s)
    ensures Variance(n, s, q) == 0.0 <==> n * q == Square(s)
  {
  }

  lemma ScaleSign(v: real, p: real)
    requires p > 0.0
    ensures v * p >= 0.0 <==> v >= 0.0
    ensures v * p == 0.0 <==> v == 0.0
  {
  }

  /** The tolerance lies between the floor and the ceiling; it is the floor exactly on uniform evidence
      (when the ceiling and the weight leave room above the floor). */
  lemma ToleranceBetween(src: Source, t: Tuning, S: set<int>, c: int)
    requires Evidence(src, S) && 0 <= c < 4 && IsSqrt(t.sqrt) && t.weight >= 0.0 && t.base <= t.ceiling
    ensures t.base <= ToleranceOf(src, t, S, c) <= t.ceiling
    ensures Uniform(Channel(src, c), S) ==> ToleranceOf(src, t, S, c) == t.base
    ensures t.base < t.ceiling && t.weight > 0.0 && !Uniform(Channel(src, c), S) ==> ToleranceOf(src, t, S, c) > t.base
  {
    VarianceClampIdle(src, S, c);
    var v := VarianceOf(src, S, c);
    var d := t.sqrt(v);
    assert d >= 0.0 && d * d == v;
    assert t.weight * d >= 0.0;
    if d > 0.0 {
      ScaleSign(d, d);
    }
    if t.weight > 0.0 && v > 0.0 {
      assert d != 0.0;
      assert t.weight * d > 0.0;
    }
  }

  /** Without the square root: a distance is tolerated when it is under the ceiling and its excess
      over the floor, squared, is at most the squared weight times the variance. */
  lemma GateWithoutRoot(t: Tuning, n: nat, s: int, q: int, dist: real)
    requires n > 0 && IsSqrt(t.sqrt) && t.weight >= 0.0
    ensures dist <= Tolerance(t, n, s, q) <==>
              dist <= t.ceiling &&
              (dist <= t.base || (dist - t.base) * (dist - t.base) <= t.weight * t.weight * Variance(n, s, q))
  {
    var v := Variance(n, s, q);
    var d := t.sqrt(v);
    assert d >= 0.0 && d * d == v;
    var e, w := dist - t.base, t.weight * d;
    assert w >= 0.0;
    assert w * w == t.weight * t.weight * v by {
      assert w * w == (t.weight * t.weight) * (d * d);
    }
    if e > 0.0 {
      SquareOrder(e, w);
    }
  }

  /** One value of a pixel against the n evidence values of its channel, which add up to s and their squares to q:
      its distance from the mean is at most the ceiling, and at most the floor or else its excess over the floor,
      squared, is at most the squared weight times the variance. */
  predicate Tolerated(t: Tuning, n: nat, s: int, q: int, v: int)
    requires n > 0
  {
    var mean := s as real / n as real;
    var d := if v as real < mean then mean - v as real else v as real - mean;
    var excess := d - t.base;
    && d <= t.ceiling
    && (d <= t.base || excess * excess <= t.weight * t.weight * (q as real / n as real - mean * mean))
  }

  /** The values the cells of S have in one channel. */
  ghost predicate Values(src: Source, S: set<int>, c: int, vals: seq<int>)
    requires src.tileSize >= 1 && 0 <= c < 4
  {
    && |vals| == src.grid.w * src.grid.h
    && forall i :: i in S ==> Readable(src, i) && vals[i] == Pixel(src, i).value[c]
  }

  /** What opening to a cell means: its red, its green, its blue and its alpha are each tolerated by what the painted
      cells have in that channel. */
  lemma PassingMeans(src: Source, t: Tuning, S: set<int>, i: int,
                     reds: seq<int>, greens: seq<int>, blues: seq<int>, alphas: seq<int>)
    requires src.tileSize >= 1 && |S| > 0 && Readable(src, i) && IsSqrt(t.sqrt) && t.weight >= 0.0
    requires Values(src, S, 0, reds) && Values(src, S, 1, greens) && Values(src, S, 2, blues)
    requires Values(src, S, 3, alphas)
    ensures var p, n := Pixel(src, i).value, |S|;
            i in Passing(src, t, S)
            <==> && Tolerated(t, n, Sum(reds, S, |reds|), SumSq(reds, S, |reds|), p[0])
                 && Tolerated(t, n, Sum(greens, S, |greens|), SumSq(greens, S, |greens|), p[1])
                 && Tolerated(t, n, Sum(blues, S, |blues|), SumSq(blues, S, |blues|), p[2])
                 && Tolerated(t, n, Sum(alphas, S, |alphas|), SumSq(alphas, S, |alphas|), p[3])
  {
    hide Tolerated, MeanOf, ToleranceOf, Sum, SumSq, Values, Passing, Close, Pixel;
    ChannelGate(src, t, S, i, 0, reds);
    ChannelGate(src, t, S, i, 1, greens);
    ChannelGate(src, t, S, i, 2, blues);
    ChannelGate(src, t, S, i, 3, alphas);
    FourChannels(src, t, S, i);
  }

  ghost predicate Close(src: Source, t: Tuning, S: set<int>, i: int, c: int)
    requires src.tileSize >= 1 && |S| > 0 && Readable(src, i) && 0 <= c < 4
  {
    Abs(Pixel(src, i).value[c] as real - MeanOf(src, S, c)) <= ToleranceOf(src, t, S, c)
  }

  lemma FourChannels(src: Source, t: Tuning, S: set<int>, i: int)
    requires src.tileSize >= 1 && |S| > 0 && Readable(src, i)
    ensures i in Passing(src, t, S)
            <==> Close(src, t, S, i, 0) && Close(src, t, S, i, 1) && Close(src, t, S, i, 2) && Close(src, t, S, i, 3)
  {
    hide MeanOf, ToleranceOf, Pixel;
    assert i in Passing(src, t, S) <==> Passes(src, t, S, i);
    if Passes(src, t, S, i) {
      forall c | 0 <= c < 4
        ensures Close(src, t, S, i, c)
      {
        assert Abs(Pixel(src, i).value[c] as real - MeanOf(src, S, c)) <= ToleranceOf(src, t, S, c);
      }
      assert Close(src, t, S, i, 0) && Close(src, t, S, i, 1) && Close(src, t, S, i, 2) && Close(src, t, S, i, 3);
    }
  }

  /** The mean and variance in force are those of the values. */
  lemma ValuesSummed(src: Source, S: set<int>, c: int, vals: seq<int>)
    requires src.tileSize >= 1 && |S| > 0 && 0 <= c < 4 && Values(src, S, c, vals)
    ensures var n, s, q := |S|, Sum(vals, S, |vals|), SumSq(vals, S, |vals|);
            && Sum(Channel(src, c), S, |Channel(src, c)|) == s && SumSq(Channel(src, c), S, |Channel(src, c)|) == q
            && Variance(n, s, q) == q as real / n as real - (s as real / n as real) * (s as real / n as real)
  {
    hide Pixel;
    var chan, k := Channel(src, c), |vals|;
    assert forall j :: j in S && 0 <= j < k ==> vals[j] == chan[j];
    SumsAgree(vals, chan, S, k);
    VarianceClampIdle(src, S, c);
  }

  lemma GateMeans(t: Tuning, n: nat, s: int, q: int, v: int)
    requires n > 0 && IsSqrt(t.sqrt) && t.weight >= 0.0
    requires Variance(n, s, q) == q as real / n as real - (s as real / n as real) * (s as real / n as real)
    ensures Abs(v as real - Mean(n, s)) <= Tolerance(t, n, s, q) <==> Tolerated(t, n, s, q, v)
  {
    hide Tolerance, Variance, IsSqrt;
    var d := Abs(v as real - Mean(n, s));
    GateWithoutRoot(t, n, s, q, d);
    assert d == if v as real < s as real / n as real then s as real / n as real - v as real
                else v as real - s as real / n as real;
  }

  lemma ChannelGate(src: Source, t: Tuning, S: set<int>, i: int, c: int, vals: seq<int>)
    requires src.tileSize >= 1 && |S| > 0 && Readable(src, i) && 0 <= c < 4 && IsSqrt(t.sqrt) && t.weight >= 0.0
    requires Values(src, S, c, vals)
    ensures Close(src, t, S, i, c)
            <==> Tolerated(t, |S|, Sum(vals, S, |vals|), SumSq(vals, S, |vals|), Pixel(src, i).value[c])
  {
    hide Tolerated, Pixel, Channel, Sum, SumSq, Variance, Tolerance, Mean, Abs, IsSqrt, Values;
    ValuesSummed(src, S, c, vals);
    GateMeans(t, |S|, Sum(vals, S, |vals|), SumSq(vals, S, |vals|), Pixel(src, i).value[c]);
  }

  // ---- one dab -------------------------------------------------------------------------------

  ghost predicate InDisc(g: Grid, cx: real, cy: real, r: real, i: int)
    requires g.Has(i)
  {
    var dx, dy := g.Col(i) as real - cx, g.Row(i) as real - cy;
    dx * dx + dy * dy <= r * r
  }

  /** The readable cells a dab of radius r paints. */
  ghost function Disc(src: Source, cx: real, cy: real, r: real): set<int>
    requires src.tileSize >= 1
  {
    set i | 0 <= i < src.grid.w * src.grid.h && Readable(src, i) && InDisc(src.grid, cx, cy, r, i)
  }

  /** The disc holds a pixel when it can be read and its centre is no further than r from (cx, cy). */
  lemma DiscMeans(src: Source, cx: real, cy: real, r: real, x: int, y: int)
    requires src.tileSize >= 1 && 0 <= x < src.grid.w && 0 <= y < src.grid.h
    ensures var i := src.grid.At(x, y);
            && src.grid.Has(i)
            && (i in Disc(src, cx, cy, r)
                <==> && Pixel(src, i).Some?
                     && (x as real - cx) * (x as real - cx) + (y as real - cy) * (y as real - cy) <= r * r)
  {
    hide Pixel, Grid.Col, Grid.Row, Grid.At;
    AtInside(src.grid, x, y);
  }

  /** Selected cells, painted cells, and the cells tested and refused by the latest growth. */
  datatype Stroke = Stroke(covered: set<int>, painted: set<int>, shell: set<int>)

  const BLANK := Stroke({}, {}, {})

  ghost predicate Coherent(src: Source, s: Stroke)
    requires src.tileSize >= 1
  {
    && (forall i :: i in s.covered + s.painted + s.shell ==> Readable(src, i))
    && s.covered !! s.shell
    && s.painted <= s.covered
    && (|s.painted| == 0 ==> s.covered == {} && s.shell == {})
  }

  ghost function Ground(src: Source, t: Tuning, s: Stroke, disc: set<int>): set<int>
    requires src.tileSize >= 1
  {
    Passing(src, t, s.painted + disc) - (s.covered + disc)
  }

  /** Cells a dab adds outside its disc: the uncovered passing cells reached from the disc or the old shell. */
  ghost function Grown(src: Source, t: Tuning, s: Stroke, disc: set<int>): set<int>
    requires src.tileSize >= 1
  {
    Closure(src.grid, disc + s.shell, Ground(src, t, s, disc))
  }

  /** The readable cells outside `covered` beside a cell of `from`. */
  ghost function Rim(src: Source, covered: set<int>, from: set<int>): set<int>
    requires src.tileSize >= 1
  {
    set q | 0 <= q < src.grid.w * src.grid.h && Readable(src, q) && q !in covered && Beside(src.grid, from, q)
  }

  ghost predicate Beside(g: Grid, from: set<int>, q: int) {
    exists p :: p in from && g.Adjacent(p, q)
  }

  /** A dab that the pixel cap does not stop. */
  ghost function AfterDab(src: Source, t: Tuning, s: Stroke, disc: set<int>): Stroke
    requires src.tileSize >= 1
  {
    var grown := Grown(src, t, s, disc);
    var covered := s.covered + disc + grown;
    Stroke(covered, s.painted + disc, Rim(src, covered, disc + s.shell + grown))
  }

  ghost predicate ReadableDisc(src: Source, disc: set<int>)
    requires src.tileSize >= 1
  {
    forall i :: i in disc ==> Readable(src, i)
  }

  lemma PassingReadable(src: Source, t: Tuning, painted: set<int>)
    requires src.tileSize >= 1
    ensures forall q :: q in Passing(src, t, painted) ==> Readable(src, q)
  {
  }

  lemma DabKeepsCoherent(src: Source, t: Tuning, s: Stroke, disc: set<int>)
    requires src.tileSize >= 1 && Coherent(src, s) && ReadableDisc(src, disc)
    ensures Coherent(src, AfterDab(src, t, s, disc))
  {
    hide Closed, Reaches, Beside, Passes;
    if |s.painted + disc| == 0 {
      NothingGrows(src, t, s, disc);
    }
    PassingReadable(src, t, s.painted + disc);
  }

  /** Without evidence there is nothing to grow from. */
  lemma NothingGrows(src: Source, t: Tuning, s: Stroke, disc: set<int>)
    requires src.tileSize >= 1 && Coherent(src, s) && |s.painted + disc| == 0
    ensures s.covered == s.shell == disc == {} && Grown(src, t, s, disc) == {} && AfterDab(src, t, s, disc) == BLANK
  {
    hide Readable, Ground;
    assert s.painted + disc == {};
    assert s.painted == {} && disc <= s.painted + disc;
    assert disc + s.shell == {};
    assert Closed(src.grid, disc + s.shell, Ground(src, t, s, disc), {});
    ClosureIsLeast(src.grid, disc + s.shell, Ground(src, t, s, disc));
  }

  /** The refused cells a dab leaves all fail the gate that dab grew under. */
  lemma ShellFailsGate(src: Source, t: Tuning, s: Stroke, disc: set<int>)
    requires src.tileSize >= 1
    ensures AfterDab(src, t, s, disc).shell !! Passing(src, t, s.painted + disc)
  {
    ClosureIsLeast(src.grid, disc + s.shell, Ground(src, t, s, disc));
  }

  /** On a stroke's first dab the selection is the disc and everything 4-connected to it through
      passing cells, and every cell left uncovered beside the selection fails the gate. */
  lemma FirstDabIsConnectedClosure(src: Source, t: Tuning, disc: set<int>)
    requires src.tileSize >= 1
    ensures var s := AfterDab(src, t, BLANK, disc);
            && s.covered == disc + Closure(src.grid, disc, Passing(src, t, disc))
            && forall p, q :: p in s.covered && q !in s.covered && src.grid.Adjacent(p, q) ==>
                 q !in Passing(src, t, disc)
  {
    assert BLANK.painted + disc == disc && BLANK.covered + disc == disc && disc + BLANK.shell == disc;
    ClosureThroughSeeds(src.grid, disc, Passing(src, t, disc));
    ClosureIsLeast(src.grid, disc, Passing(src, t, disc));
  }

  /** Whether a refused cell that the moved gate now tolerates is picked up depends on its neighbours
      alone: one of them must be in the disc, refused before, or itself uncovered and tolerated. */
  lemma RefusedCellRetested(src: Source, t: Tuning, s: Stroke, disc: set<int>, r: int)
    requires src.tileSize >= 1 && Coherent(src, s)
    requires r in s.shell && r !in disc && r in Passing(src, t, s.painted + disc)
    ensures r in AfterDab(src, t, s, disc).covered <==>
              Beside(src.grid, disc + s.shell + Ground(src, t, s, disc), r)
  {
    var g, seeds, ground := src.grid, disc + s.shell, Ground(src, t, s, disc);
    var c := Closure(g, seeds, ground);
    ClosureIsLeast(g, seeds, ground);
    ClosureMember(g, seeds, ground, r);
    if Beside(g, seeds + ground, r) {
      var p :| p in seeds + ground && g.Adjacent(p, r);
      assert g.Adjacent(r, p);
      assert p in seeds || p in c;
    }
  }

  /** Painting again where the brush has already been leaves the gate as it is, and adds nothing exactly
      when no uncovered passing cell lies beside the disc or the refused shell. */
  lemma RepeatedDab(src: Source, t: Tuning, s: Stroke, disc: set<int>)
    requires src.tileSize >= 1 && Coherent(src, s) && disc <= s.painted
    ensures AfterDab(src, t, s, disc).painted == s.painted
    ensures AfterDab(src, t, s, disc).covered == s.covered <==>
              forall q :: q in Passing(src, t, s.painted) - s.covered ==> !Beside(src.grid, disc + s.shell, q)
  {
    var g, seeds, ground := src.grid, disc + s.shell, Ground(src, t, s, disc);
    var c := Closure(g, seeds, ground);
    assert s.painted + disc == s.painted && s.covered + disc == s.covered;
    ClosureIsLeast(g, seeds, ground);
    if forall q :: q in ground ==> !Beside(g, seeds, q) {
      assert Closed(g, seeds, ground, {});
    } else {
      var q :| q in ground && Beside(g, seeds, q);
      assert q in c;
    }
  }

  /** The uncovered passing cells 4-connected to the selection and the disc. */
  ghost function Connected(src: Source, t: Tuning, s: Stroke, disc: set<int>): set<int>
    requires src.tileSize >= 1
  {
    Closure(src.grid, disc + s.covered, Ground(src, t, s, disc))
  }

  /** Whatever a dab adds is 4-connected to the selection or the disc if and only if every uncovered passing cell
      beside the refused shell is. */
  lemma GrowthIsConnected(src: Source, t: Tuning, s: Stroke, disc: set<int>)
    requires src.tileSize >= 1
    ensures Grown(src, t, s, disc) <= Connected(src, t, s, disc) <==>
              forall q :: q in Ground(src, t, s, disc) && Beside(src.grid, s.shell, q)
                ==> q in Connected(src, t, s, disc)
  {
    var g, ground, c := src.grid, Ground(src, t, s, disc), Connected(src, t, s, disc);
    ClosureIsLeast(g, disc + s.shell, ground);
    ClosureIsLeast(g, disc + s.covered, ground);
    if forall q :: q in ground && Beside(g, s.shell, q) ==> q in c {
      forall p, q | (p in disc + s.shell || p in c) && q in ground && g.Adjacent(p, q) ensures q in c {
        if p in s.shell {
          assert Beside(g, s.shell, q);
        }
      }
      assert Closed(g, disc + s.shell, ground, c);
    }
  }

  // ---- runs of dabs --------------------------------------------------------------------------

  ghost function AfterDabs(src: Source, t: Tuning, discs: seq<set<int>>): Stroke
    requires src.tileSize >= 1
  {
    if discs == [] then BLANK
    else AfterDab(src, t, AfterDabs(src, t, discs[..|discs| - 1]), discs[|discs| - 1])
  }

  ghost function Union(discs: seq<set<int>>): set<int> {
    if discs == [] then {} else Union(discs[..|discs| - 1]) + discs[|discs| - 1]
  }

  lemma {:induction false} UnionMember(discs: seq<set<int>>, i: int)
    ensures i in Union(discs) <==> exists k :: 0 <= k < |discs| && i in discs[k]
  {
    if discs != [] {
      UnionMember(discs[..|discs| - 1], i);
    }
  }

  /** The painted evidence of a run, and so every statistic, is the union of its discs. */
  lemma {:induction false} PaintedIsUnion(src: Source, t: Tuning, discs: seq<set<int>>)
    requires src.tileSize >= 1
    ensures AfterDabs(src, t, discs).painted == Union(discs)
  {
    if discs != [] {
      PaintedIsUnion(src, t, discs[..|discs| - 1]);
    }
  }

  /** Two runs that paint the same ground, in any order and with any repeats, open the same gate. */
  lemma GateIgnoresOrder(src: Source, t: Tuning, a: seq<set<int>>, b: seq<set<int>>)
    requires src.tileSize >= 1
    requires forall k :: 0 <= k < |a| ==> a[k] in b
    requires forall k :: 0 <= k < |b| ==> b[k] in a
    ensures AfterDabs(src, t, a).painted == AfterDabs(src, t, b).painted
    ensures Passing(src, t, AfterDabs(src, t, a).painted) == Passing(src, t, AfterDabs(src, t, b).painted)
  {
    PaintedIsUnion(src, t, a);
    PaintedIsUnion(src, t, b);
    forall i ensures i in Union(a) <==> i in Union(b) {
      UnionMember(a, i);
      UnionMember(b, i);
    }
  }

  /** Along a run the selection only grows and the state stays coherent. */
  lemma {:induction false} RunKeepsCoherent(src: Source, t: Tuning, discs: seq<set<int>>)
    requires src.tileSize >= 1 && forall k :: 0 <= k < |discs| ==> ReadableDisc(src, discs[k])
    ensures Coherent(src, AfterDabs(src, t, discs))
    ensures discs != [] ==> AfterDabs(src, t, discs[..|discs| - 1]).covered <= AfterDabs(src, t, discs).covered
  {
    if discs != [] {
      RunKeepsCoherent(src, t, discs[..|discs| - 1]);
      DabKeepsCoherent(src, t, AfterDabs(src, t, discs[..|discs| - 1]), discs[|discs| - 1]);
    }
  }
}
