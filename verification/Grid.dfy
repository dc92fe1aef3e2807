/** A `w` by `h` pixel grid stored row by row, its 4-connectivity, and the closure of a set of
    seed cells under 4-neighbour steps into a set of allowed cells. */
module Grid {
  import opened Basics

  datatype Grid = Grid(w: nat, h: nat) {
    predicate Has(i: int) {
      0 <= i < w * h
    }

    function Col(i: int): int
      requires Has(i)
    {
      i % w
    }

    function Row(i: int): int
      requires Has(i)
    {
      i / w
    }

    function At(x: int, y: int): int {
      y * w + x
    }

    /** Cells whose coordinates differ by one in exactly one direction. */
    predicate Adjacent(a: int, b: int) {
      && Has(a) && Has(b)
      && Dist(Col(a), Col(b)) + Dist(Row(a), Row(b)) == 1
    }
  }

  function Dist(a: int, b: int): nat {
    if a < b then b - a else a - b
  }

  /** A multiple of w that is smaller than w in size is zero. */
  lemma SmallMultiple(w: nat, k: int)
    requires 0 < k * w + w && k * w < w
    ensures k == 0
  {
  }

  lemma RowMajor(w: nat, x: int, y: int)
    requires 0 <= x < w
    ensures (y * w + x) % w == x && (y * w + x) / w == y
  {
    var i := y * w + x;
    var q, r := i / w, i % w;
    assert i == w * q + r;
    assert (q - y) * w == x - r;
    SmallMultiple(w, q - y);
  }

  /** Coordinates inside the grid name a cell of the grid, and the cell gives them back. */
  lemma AtInside(g: Grid, x: int, y: int)
    requires 0 <= x < g.w && 0 <= y < g.h
    ensures g.Has(g.At(x, y)) && g.Col(g.At(x, y)) == x && g.Row(g.At(x, y)) == y
  {
    MulMonotone(0, y, g.w);
    MulMonotone(y + 1, g.h, g.w);
    RowMajor(g.w, x, y);
  }

  /** Every cell of the grid has coordinates inside it, and they name that cell. */
  lemma CellInside(g: Grid, i: int)
    requires g.Has(i)
    ensures 0 <= g.Col(i) < g.w && 0 <= g.Row(i) < g.h && g.At(g.Col(i), g.Row(i)) == i
  {
  }

  /** The neighbours of a pixel are the one to its left, to its right, above and below. */
  lemma NeighboursAre(g: Grid, x: int, y: int, u: int, v: int)
    requires 0 <= x < g.w && 0 <= y < g.h && 0 <= u < g.w && 0 <= v < g.h
    ensures g.Adjacent(g.At(x, y), g.At(u, v))
            <==> (v == y && (u == x - 1 || u == x + 1)) || (u == x && (v == y - 1 || v == y + 1))
  {
    AtInside(g, x, y);
    AtInside(g, u, v);
    hide Grid.Col, Grid.Row, Grid.At;
  }

  /** The x coordinate of the neighbour in direction d: left, right, up, down. */
  function StepX(x: int, d: int): int {
    if d == 0 then x - 1 else if d == 1 then x + 1 else x
  }

  function StepY(y: int, d: int): int {
    if d == 2 then y - 1 else if d == 3 then y + 1 else y
  }

  predicate InBounds(g: Grid, x: int, y: int) {
    0 <= x < g.w && 0 <= y < g.h
  }

  /** The cell one step from `i` in direction `d`, when it is inside the grid. */
  function Toward(g: Grid, i: int, d: int): int
    requires g.Has(i)
  {
    g.At(StepX(g.Col(i), d), StepY(g.Row(i), d))
  }

  /** The four directions reach exactly the adjacent cells. */
  lemma TowardIsAdjacent(g: Grid, i: int, d: int)
    requires g.Has(i) && 0 <= d < 4
    requires InBounds(g, StepX(g.Col(i), d), StepY(g.Row(i), d))
    ensures g.Adjacent(i, Toward(g, i, d))
  {
    AtInside(g, StepX(g.Col(i), d), StepY(g.Row(i), d));
  }

  lemma AdjacentIsToward(g: Grid, a: int, b: int) returns (d: int)
    requires g.Adjacent(a, b)
    ensures 0 <= d < 4
    ensures InBounds(g, StepX(g.Col(a), d), StepY(g.Row(a), d)) && b == Toward(g, a, d)
  {
    CellInside(g, a);
    CellInside(g, b);
    d := if g.Col(b) < g.Col(a) then 0 else if g.Col(b) > g.Col(a) then 1
         else if g.Row(b) < g.Row(a) then 2 else 3;
  }

  /** `T` holds every allowed cell one step from a seed or from `T` itself. */
  ghost predicate Closed(g: Grid, seeds: set<int>, allowed: set<int>, T: set<int>) {
    forall p, q :: (p in seeds || p in T) && q in allowed && g.Adjacent(p, q) ==> q in T
  }

  /** A walk that leaves a seed and then stays on allowed cells. */
  ghost predicate IsWalk(g: Grid, seeds: set<int>, allowed: set<int>, walk: seq<int>) {
    && |walk| >= 2
    && walk[0] in seeds
    && (forall k :: 1 <= k < |walk| ==> walk[k] in allowed)
    && (forall k :: 1 <= k < |walk| ==> g.Adjacent(walk[k - 1], walk[k]))
  }

  ghost predicate Reaches(g: Grid, seeds: set<int>, allowed: set<int>, p: int) {
    exists walk :: IsWalk(g, seeds, allowed, walk) && walk[|walk| - 1] == p
  }

  /** The allowed cells some walk reaches. */
  ghost function Closure(g: Grid, seeds: set<int>, allowed: set<int>): (c: set<int>) {
    set p | p in allowed && Reaches(g, seeds, allowed, p)
  }

  lemma {:induction false} WalkStaysIn(g: Grid, seeds: set<int>, allowed: set<int>, T: set<int>, walk: seq<int>, k: nat)
    requires IsWalk(g, seeds, allowed, walk) && Closed(g, seeds, allowed, T) && 1 <= k < |walk|
    ensures walk[k] in T
  {
    if k > 1 {
      WalkStaysIn(g, seeds, allowed, T, walk, k - 1);
    }
    assert g.Adjacent(walk[k - 1], walk[k]);
  }

  /** One more step from the closure stays in it. */
  lemma StepReaches(g: Grid, seeds: set<int>, allowed: set<int>, p: int, q: int)
    requires p in seeds || Reaches(g, seeds, allowed, p)
    requires q in allowed && g.Adjacent(p, q)
    ensures Reaches(g, seeds, allowed, q)
  {
    if p in seeds {
      assert IsWalk(g, seeds, allowed, [p, q]);
    } else {
      var walk :| IsWalk(g, seeds, allowed, walk) && walk[|walk| - 1] == p;
      var longer := walk + [q];
      assert IsWalk(g, seeds, allowed, longer);
    }
  }

  /** The closure is closed, and every closed set contains it. */
  lemma ClosureIsLeast(g: Grid, seeds: set<int>, allowed: set<int>)
    ensures Closed(g, seeds, allowed, Closure(g, seeds, allowed))
    ensures forall T :: Closed(g, seeds, allowed, T) ==> Closure(g, seeds, allowed) <= T
  {
    var c := Closure(g, seeds, allowed);
    forall p, q | (p in seeds || p in c) && q in allowed && g.Adjacent(p, q) ensures q in c {
      StepReaches(g, seeds, allowed, p, q);
    }
    forall T, p | Closed(g, seeds, allowed, T) && p in c ensures p in T {
      var walk :| IsWalk(g, seeds, allowed, walk) && walk[|walk| - 1] == p;
      WalkStaysIn(g, seeds, allowed, T, walk, |walk| - 1);
    }
  }

  /** A closed set that lies inside every closed set is the closure. */
  lemma LeastIsClosure(g: Grid, seeds: set<int>, allowed: set<int>, S: set<int>)
    requires Closed(g, seeds, allowed, S)
    requires forall T :: Closed(g, seeds, allowed, T) ==> S <= T
    ensures S == Closure(g, seeds, allowed)
  {
    ClosureIsLeast(g, seeds, allowed);
  }

  /** Seeds joined to every cell of S by walks inside S. */
  ghost predicate Rooted(g: Grid, seeds: set<int>, S: set<int>) {
    S <= Closure(g, seeds, S)
  }

  /** A set inside every set closed over its own cells is rooted, and inside every set closed over more. */
  lemma RootedWithin(g: Grid, seeds: set<int>, allowed: set<int>, S: set<int>)
    requires S <= allowed && forall T :: Closed(g, seeds, S, T) ==> S <= T
    ensures Rooted(g, seeds, S)
    ensures forall T :: Closed(g, seeds, allowed, T) ==> S <= T
  {
    ClosureIsLeast(g, seeds, S);
    forall T | Closed(g, seeds, allowed, T)
      ensures S <= T
    {
      assert Closed(g, seeds, S, T);
    }
  }

  /** With a seed set that is itself reachable ground, allowing the seeds changes nothing outside
      them: cells reached from the seeds are the same. */
  lemma ClosureThroughSeeds(g: Grid, seeds: set<int>, allowed: set<int>)
    ensures Closure(g, seeds, allowed - seeds) + seeds == Closure(g, seeds, allowed) + seeds
  {
    var c, d := Closure(g, seeds, allowed - seeds), Closure(g, seeds, allowed);
    ClosureIsLeast(g, seeds, allowed);
    ClosureIsLeast(g, seeds, allowed - seeds);
    assert Closed(g, seeds, allowed - seeds, d);
    assert Closed(g, seeds, allowed, c + seeds);
  }

  /** A cell of the closure has a neighbour that is a seed or an allowed cell, and an allowed cell
      beside a seed is in the closure. */
  lemma ClosureMember(g: Grid, seeds: set<int>, allowed: set<int>, p: int)
    requires p in allowed
    ensures p in Closure(g, seeds, allowed) <==>
              exists q :: (q in seeds || q in Closure(g, seeds, allowed)) && g.Adjacent(q, p)
  {
    var c := Closure(g, seeds, allowed);
    ClosureIsLeast(g, seeds, allowed);
    if p in c && !exists q :: (q in seeds || q in c) && g.Adjacent(q, p) {
      assert Closed(g, seeds, allowed, c - {p});
      assert false;
    }
  }
}
