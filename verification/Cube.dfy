/** Colour cubes: trilinear sampling of an N-lattice and its resampling onto the kernel's 9-lattice, in exact
    arithmetic. */
module Cube {
  import opened Basics
  import opened Reals

  /** Colour values on an N by N by N lattice, red fastest, over an input domain per channel. */
  datatype Table = Table(size: nat, data: seq<real>, min: seq<real>, max: seq<real>) {
    predicate Valid() {
      && 2 <= size <= 256 && |data| == size * size * size * 3
      && |min| == 3 && |max| == 3 && (forall k :: 0 <= k < 3 ==> min[k] < max[k])
    }
  }

  datatype ParseError = BadSize | BadCount | BadDomain

  datatype Parsed = Parsed(table: Table) | Refused(error: ParseError)

  /** The checks at the end of parsing; `size` is None when the file gives no whole number. */
  function Checked(size: Option<int>, values: seq<real>, min: seq<real>, max: seq<real>): (p: Parsed)
    requires |min| == 3 && |max| == 3
    ensures p.Parsed? <==> size.Some? && size.value >= 0 && Table(size.value, values, min, max).Valid()
    ensures p.Parsed? ==> p.table == Table(size.value, values, min, max)
  {
    if size.None? || size.value < 2 || size.value > 256 then Refused(BadSize)
    else if |values| != size.value * size.value * size.value * 3 then Refused(BadCount)
    else if exists k :: 0 <= k < 3 && !(max[k] > min[k]) then Refused(BadDomain)
    else Parsed(Table(size.value, values, min, max))
  }

  // ---- lattice positions ---------------------------------------------------------------------

  function Place(size: nat, r: nat, g: nat, b: nat): nat {
    ((b * size + g) * size + r) * 3
  }

  lemma PlaceInRange(size: nat, r: nat, g: nat, b: nat)
    requires r < size && g < size && b < size
    ensures Place(size, r, g, b) + 3 <= size * size * size * 3
  {
    RowsOrdered(b, size, size);
    RowsOrdered(b * size + g, size * size, size);
  }

  function Entry(t: Table, r: nat, g: nat, b: nat, k: nat): real
    requires t.Valid() && r < t.size && g < t.size && b < t.size && k < 3
  {
    PlaceInRange(t.size, r, g, b);
    t.data[Place(t.size, r, g, b) + k]
  }

  /** Red changes fastest, then green, then blue, three values at a time. */
  lemma EntryLayout(t: Table, r: nat, g: nat, b: nat, k: nat)
    requires t.Valid() && r < t.size && g < t.size && b < t.size && k < 3
    ensures var at := 3 * (r + t.size * g + t.size * t.size * b) + k;
            0 <= at < |t.data| && Entry(t, r, g, b, k) == t.data[at]
  {
    hide Table.Valid;
    PlaceInRange(t.size, r, g, b);
    PlaceIs(t.size, r, g, b);
    hide Place;
    TableHolds(t);
  }

  lemma PlaceIs(size: nat, r: nat, g: nat, b: nat)
    ensures Place(size, r, g, b) == 3 * (r + size * g + size * size * b)
  {
  }

  lemma TableHolds(t: Table)
    requires t.Valid()
    ensures |t.data| == t.size * t.size * t.size * 3
  {
  }

  // ---- cells ---------------------------------------------------------------------------------

  function Clamp(v: real): real {
    if v < 0.0 then 0.0 else if v > 1.0 then 1.0 else v
  }

  /** The lower lattice index along one channel and how far into its cell the value lies. */
  datatype Cell = Cell(i: nat, f: real)

  lemma ScaleStays(v: real, n: nat)
    requires 0.0 <= v <= 1.0
    ensures 0.0 <= v * n as real <= n as real
  {
  }

  /** The clamped value along a channel of n cells. */
  function Along(n: nat, v: real): (x: real)
    ensures 0.0 <= x <= n as real
  {
    ScaleStays(Clamp(v), n);
    Clamp(v) * n as real
  }

  function CellAt(n: nat, v: real): (c: Cell)
    requires n > 0
    ensures c.i < n && 0.0 <= c.f <= 1.0 && c.i as real + c.f == Along(n, v)
  {
    var x := Along(n, v);
    var i := Min(x.Floor, n - 1);
    Cell(i, x - i as real)
  }

  function Side(c: Cell, d: nat): real {
    if d == 1 then c.f else 1.0 - c.f
  }

  /** The weight of corner j of a cell, its bits the steps along red, green and blue. */
  function Weight(r: Cell, g: Cell, b: Cell, j: nat): real {
    Side(r, j % 2) * Side(g, j / 2 % 2) * Side(b, j / 4)
  }

  function Term(t: Table, r: Cell, g: Cell, b: Cell, k: nat, j: nat): real
    requires t.Valid() && r.i + 1 < t.size && g.i + 1 < t.size && b.i + 1 < t.size && k < 3 && j < 8
  {
    Weight(r, g, b, j) * Entry(t, r.i + j % 2, g.i + j / 2 % 2, b.i + j / 4, k)
  }

  function SumTo(t: Table, r: Cell, g: Cell, b: Cell, k: nat, j: nat): real
    requires t.Valid() && r.i + 1 < t.size && g.i + 1 < t.size && b.i + 1 < t.size && k < 3 && j <= 8
  {
    if j == 0 then 0.0 else SumTo(t, r, g, b, k, j - 1) + Term(t, r, g, b, k, j - 1)
  }

  /** Channel k of the sample at a point. */
  function Sampled(t: Table, r: real, g: real, b: real, k: nat): real
    requires t.Valid() && k < 3
  {
    var n := t.size - 1;
    SumTo(t, CellAt(n, r), CellAt(n, g), CellAt(n, b), k, 8)
  }

  function SampledAll(t: Table, r: real, g: real, b: real): seq<real>
    requires t.Valid()
  {
    [Sampled(t, r, g, b, 0), Sampled(t, r, g, b, 1), Sampled(t, r, g, b, 2)]
  }

  // ---- the weights ---------------------------------------------------------------------------

  lemma WeightInRange(r: Cell, g: Cell, b: Cell, j: nat)
    requires 0.0 <= r.f <= 1.0 && 0.0 <= g.f <= 1.0 && 0.0 <= b.f <= 1.0
    ensures 0.0 <= Weight(r, g, b, j) <= 1.0
  {
    var x, y, z := Side(r, j % 2), Side(g, j / 2 % 2), Side(b, j / 4);
    Product(x, y);
    Product(x * y, z);
  }

  /** The blend of two values. */
  function Lerp(f: real, x: real, y: real): real {
    (1.0 - f) * x + f * y
  }

  /** Three nested blends. */
  function Blended(r: Cell, g: Cell, b: Cell, v: seq<real>): real
    requires |v| == 8
  {
    Lerp(b.f, Lerp(g.f, Lerp(r.f, v[0], v[1]), Lerp(r.f, v[2], v[3])),
              Lerp(g.f, Lerp(r.f, v[4], v[5]), Lerp(r.f, v[6], v[7])))
  }

  function Weighed(r: Cell, g: Cell, b: Cell, v: seq<real>, j: nat): real
    requires j < |v|
  {
    Weight(r, g, b, j) * v[j]
  }

  lemma Face(r: Cell, g: Cell, b: Cell, v: seq<real>, top: nat)
    requires |v| == 8 && top < 2
    ensures Weighed(r, g, b, v, 4 * top) + Weighed(r, g, b, v, 4 * top + 1)
          + Weighed(r, g, b, v, 4 * top + 2) + Weighed(r, g, b, v, 4 * top + 3)
         == Side(b, top) * Lerp(g.f, Lerp(r.f, v[4 * top], v[4 * top + 1]), Lerp(r.f, v[4 * top + 2], v[4 * top + 3]))
  {
    var w, i := Side(b, top), 4 * top;
    Corner(r, g, b, v, i, 0, 0, top);
    Corner(r, g, b, v, i + 1, 1, 0, top);
    Corner(r, g, b, v, i + 2, 0, 1, top);
    Corner(r, g, b, v, i + 3, 1, 1, top);
    FaceSum(r.f, g.f, w, v[i], v[i + 1], v[i + 2], v[i + 3]);
    hide Weighed, Lerp;
  }

  lemma Corner(r: Cell, g: Cell, b: Cell, v: seq<real>, j: nat, dr: nat, dg: nat, db: nat)
    requires j < |v| && dr < 2 && dg < 2 && db < 2 && j == 4 * db + 2 * dg + dr
    ensures Weighed(r, g, b, v, j) == Side(r, dr) * Side(g, dg) * Side(b, db) * v[j]
  {
    assert j % 2 == dr && j / 2 % 2 == dg && j / 4 == db;
  }

  lemma FaceSum(f: real, h: real, w: real, x0: real, x1: real, x2: real, x3: real)
    ensures (1.0 - f) * (1.0 - h) * w * x0 + f * (1.0 - h) * w * x1 + (1.0 - f) * h * w * x2 + f * h * w * x3
            == w * Lerp(h, Lerp(f, x0, x1), Lerp(f, x2, x3))
  {
  }

  /** The eight-corner sum is three nested blends. */
  lemma EightCorners(r: Cell, g: Cell, b: Cell, v: seq<real>)
    requires |v| == 8
    ensures Weighed(r, g, b, v, 0) + Weighed(r, g, b, v, 1) + Weighed(r, g, b, v, 2) + Weighed(r, g, b, v, 3)
          + Weighed(r, g, b, v, 4) + Weighed(r, g, b, v, 5) + Weighed(r, g, b, v, 6) + Weighed(r, g, b, v, 7)
         == Blended(r, g, b, v)
  {
    hide Weighed;
    Face(r, g, b, v, 0);
    Face(r, g, b, v, 1);
  }

  /** Every weight is between 0 and 1, and the eight sum to 1. */
  lemma WeightsSumToOne(r: Cell, g: Cell, b: Cell)
    requires 0.0 <= r.f <= 1.0 && 0.0 <= g.f <= 1.0 && 0.0 <= b.f <= 1.0
    ensures forall j :: 0 <= j < 8 ==> 0.0 <= Weight(r, g, b, j) <= 1.0
    ensures Weight(r, g, b, 0) + Weight(r, g, b, 1) + Weight(r, g, b, 2) + Weight(r, g, b, 3)
          + Weight(r, g, b, 4) + Weight(r, g, b, 5) + Weight(r, g, b, 6) + Weight(r, g, b, 7) == 1.0
  {
    forall j | 0 <= j < 8 ensures 0.0 <= Weight(r, g, b, j) <= 1.0 {
      WeightInRange(r, g, b, j);
    }
    var ones := [1.0, 1.0, 1.0, 1.0, 1.0, 1.0, 1.0, 1.0];
    hide Weight;
    EightCorners(r, g, b, ones);
  }

  // ---- what a sample is ------------------------------------------------------------------------

  function Corners(t: Table, r: Cell, g: Cell, b: Cell, k: nat): (v: seq<real>)
    requires t.Valid() && r.i + 1 < t.size && g.i + 1 < t.size && b.i + 1 < t.size && k < 3
  {
    [Entry(t, r.i, g.i, b.i, k), Entry(t, r.i + 1, g.i, b.i, k), Entry(t, r.i, g.i + 1, b.i, k),
     Entry(t, r.i + 1, g.i + 1, b.i, k),
     Entry(t, r.i, g.i, b.i + 1, k), Entry(t, r.i + 1, g.i, b.i + 1, k), Entry(t, r.i, g.i + 1, b.i + 1, k),
     Entry(t, r.i + 1, g.i + 1, b.i + 1, k)]
  }

  lemma TermIsWeighed(t: Table, r: Cell, g: Cell, b: Cell, k: nat, j: nat)
    requires t.Valid() && r.i + 1 < t.size && g.i + 1 < t.size && b.i + 1 < t.size && k < 3 && j < 8
    ensures Term(t, r, g, b, k, j) == Weighed(r, g, b, Corners(t, r, g, b, k), j)
  {
    hide Weight;
    CornerAt(t, r, g, b, k, j);
    hide Corners, Entry;
  }

  lemma CornerAt(t: Table, r: Cell, g: Cell, b: Cell, k: nat, j: nat)
    requires t.Valid() && r.i + 1 < t.size && g.i + 1 < t.size && b.i + 1 < t.size && k < 3 && j < 8
    ensures |Corners(t, r, g, b, k)| == 8
    ensures Corners(t, r, g, b, k)[j] == Entry(t, r.i + j % 2, g.i + j / 2 % 2, b.i + j / 4, k)
  {
    hide Entry;
  }

  lemma {:induction false} SumIsWeighed(t: Table, r: Cell, g: Cell, b: Cell, k: nat)
    requires t.Valid() && r.i + 1 < t.size && g.i + 1 < t.size && b.i + 1 < t.size && k < 3
    ensures SumTo(t, r, g, b, k, 8) == Blended(r, g, b, Corners(t, r, g, b, k))
  {
    hide Term, Weighed, Blended, Corners;
    var v := Corners(t, r, g, b, k);
    assert SumTo(t, r, g, b, k, 1) == Term(t, r, g, b, k, 0);
    assert SumTo(t, r, g, b, k, 3) == Term(t, r, g, b, k, 0) + Term(t, r, g, b, k, 1) + Term(t, r, g, b, k, 2);
    assert SumTo(t, r, g, b, k, 5) == SumTo(t, r, g, b, k, 3) + Term(t, r, g, b, k, 3) + Term(t, r, g, b, k, 4);
    assert SumTo(t, r, g, b, k, 7) == SumTo(t, r, g, b, k, 5) + Term(t, r, g, b, k, 5) + Term(t, r, g, b, k, 6);
    TermIsWeighed(t, r, g, b, k, 0);
    TermIsWeighed(t, r, g, b, k, 1);
    TermIsWeighed(t, r, g, b, k, 2);
    TermIsWeighed(t, r, g, b, k, 3);
    TermIsWeighed(t, r, g, b, k, 4);
    TermIsWeighed(t, r, g, b, k, 5);
    TermIsWeighed(t, r, g, b, k, 6);
    TermIsWeighed(t, r, g, b, k, 7);
    CornersCount(t, r, g, b, k);
    EightCorners(r, g, b, v);
  }

  lemma CornersCount(t: Table, r: Cell, g: Cell, b: Cell, k: nat)
    requires t.Valid() && r.i + 1 < t.size && g.i + 1 < t.size && b.i + 1 < t.size && k < 3
    ensures |Corners(t, r, g, b, k)| == 8
  {
  }

  /** A sample is the blend of the eight lattice entries around the point. */
  lemma SampleIsTrilinear(t: Table, r: real, g: real, b: real, k: nat)
    requires t.Valid() && k < 3
    ensures var n := t.size - 1;
            var cr, cg, cb := CellAt(n, r), CellAt(n, g), CellAt(n, b);
            Sampled(t, r, g, b, k) == Blended(cr, cg, cb, Corners(t, cr, cg, cb, k))
  {
    var n := t.size - 1;
    SumIsWeighed(t, CellAt(n, r), CellAt(n, g), CellAt(n, b), k);
  }

  lemma LerpStays(f: real, x: real, y: real, lo: real, hi: real)
    requires 0.0 <= f <= 1.0 && lo <= x <= hi && lo <= y <= hi
    ensures lo <= Lerp(f, x, y) <= hi
  {
    NonNegative(1.0 - f, x - lo);
    NonNegative(f, y - lo);
    NonNegative(1.0 - f, hi - x);
    NonNegative(f, hi - y);
    assert (1.0 - f) * (x - lo) + f * (y - lo) == Lerp(f, x, y) - lo;
    assert (1.0 - f) * (hi - x) + f * (hi - y) == hi - Lerp(f, x, y);
  }

  lemma BlendStays(r: Cell, g: Cell, b: Cell, v: seq<real>, lo: real, hi: real)
    requires |v| == 8 && forall j :: 0 <= j < 8 ==> lo <= v[j] <= hi
    requires 0.0 <= r.f <= 1.0 && 0.0 <= g.f <= 1.0 && 0.0 <= b.f <= 1.0
    ensures lo <= Blended(r, g, b, v) <= hi
  {
    hide Lerp;
    LerpStays(r.f, v[0], v[1], lo, hi);
    LerpStays(r.f, v[2], v[3], lo, hi);
    LerpStays(r.f, v[4], v[5], lo, hi);
    LerpStays(r.f, v[6], v[7], lo, hi);
    LerpStays(g.f, Lerp(r.f, v[0], v[1]), Lerp(r.f, v[2], v[3]), lo, hi);
    LerpStays(g.f, Lerp(r.f, v[4], v[5]), Lerp(r.f, v[6], v[7]), lo, hi);
    LerpStays(b.f, Lerp(g.f, Lerp(r.f, v[0], v[1]), Lerp(r.f, v[2], v[3])),
              Lerp(g.f, Lerp(r.f, v[4], v[5]), Lerp(r.f, v[6], v[7])), lo, hi);
  }

  /** Every entry of the table lies between the two bounds. */
  predicate Within(t: Table, lo: real, hi: real) {
    forall i :: 0 <= i < |t.data| ==> lo <= t.data[i] <= hi
  }

  lemma CornersWithin(t: Table, r: Cell, g: Cell, b: Cell, k: nat, lo: real, hi: real)
    requires t.Valid() && r.i + 1 < t.size && g.i + 1 < t.size && b.i + 1 < t.size && k < 3 && Within(t, lo, hi)
    ensures var v := Corners(t, r, g, b, k); |v| == 8 && forall j :: 0 <= j < 8 ==> lo <= v[j] <= hi
  {
    hide Place;
    EntryWithin(t, lo, hi);
    hide Entry, Within;
  }

  lemma EntryWithin(t: Table, lo: real, hi: real)
    requires t.Valid() && Within(t, lo, hi)
    ensures forall r: nat, g: nat, b: nat, k: nat ::
              r < t.size && g < t.size && b < t.size && k < 3 ==> lo <= Entry(t, r, g, b, k) <= hi
  {
    hide Place;
    forall r: nat, g: nat, b: nat, k: nat | r < t.size && g < t.size && b < t.size && k < 3
      ensures lo <= Entry(t, r, g, b, k) <= hi
    {
      PlaceInRange(t.size, r, g, b);
    }
  }

  /** A sample never leaves the table's range, at any point at all. */
  lemma SampleStaysInRange(t: Table, r: real, g: real, b: real, k: nat, lo: real, hi: real)
    requires t.Valid() && k < 3 && Within(t, lo, hi)
    ensures lo <= Sampled(t, r, g, b, k) <= hi
  {
    hide SumTo, Corners, Blended, Within;
    var n := t.size - 1;
    var cr, cg, cb := CellAt(n, r), CellAt(n, g), CellAt(n, b);
    SampleIsTrilinear(t, r, g, b, k);
    CornersWithin(t, cr, cg, cb, k, lo, hi);
    BlendStays(cr, cg, cb, Corners(t, cr, cg, cb, k), lo, hi);
  }

  // ---- affine tables ---------------------------------------------------------------------------

  function Affine(a: real, p: real, q: real, s: real, x: real, y: real, z: real): real {
    a + p * x + q * y + s * z
  }

  predicate IsAffine(t: Table, k: nat, a: real, p: real, q: real, s: real)
    requires t.Valid() && k < 3
  {
    forall r: nat, g: nat, b: nat :: r < t.size && g < t.size && b < t.size
      ==> Entry(t, r, g, b, k) == Affine(a, p, q, s, r as real, g as real, b as real)
  }

  lemma AffineBlend(r: Cell, g: Cell, b: Cell, v: seq<real>, a: real, p: real, q: real, s: real)
    requires |v| == 8
    requires var x, y, z := r.i as real, g.i as real, b.i as real;
             && v[0] == Affine(a, p, q, s, x, y, z) && v[1] == Affine(a, p, q, s, x + 1.0, y, z)
             && v[2] == Affine(a, p, q, s, x, y + 1.0, z) && v[3] == Affine(a, p, q, s, x + 1.0, y + 1.0, z)
             && v[4] == Affine(a, p, q, s, x, y, z + 1.0) && v[5] == Affine(a, p, q, s, x + 1.0, y, z + 1.0)
             && v[6] == Affine(a, p, q, s, x, y + 1.0, z + 1.0) && v[7] == Affine(a, p, q, s, x + 1.0, y + 1.0, z + 1.0)
    ensures Blended(r, g, b, v) == Affine(a, p, q, s, r.i as real + r.f, g.i as real + g.f, b.i as real + b.f)
  {
  }

  /** A table that is affine in the lattice position is reproduced exactly at every point of the unit cube,
      and clamped to it outside. */
  lemma AffineTablesAreReproduced(t: Table, r: real, g: real, b: real, k: nat, a: real, p: real, q: real, s: real)
    requires t.Valid() && k < 3 && IsAffine(t, k, a, p, q, s)
    ensures var n := t.size - 1;
            Sampled(t, r, g, b, k) == Affine(a, p, q, s, Along(n, r), Along(n, g), Along(n, b))
  {
    hide SumTo, Blended, Entry, Affine, Along;
    var n := t.size - 1;
    var cr, cg, cb := CellAt(n, r), CellAt(n, g), CellAt(n, b);
    SampleIsTrilinear(t, r, g, b, k);
    AffineBlend(cr, cg, cb, Corners(t, cr, cg, cb, k), a, p, q, s);
  }

  // ---- lattice points --------------------------------------------------------------------------

  /** A cell holds lattice point i when it starts there, or ends there. */
  predicate Holds(c: Cell, i: nat) {
    (c.i == i && c.f == 0.0) || (c.i + 1 == i && c.f == 1.0)
  }

  lemma CellHolds(n: nat, v: real, i: nat)
    requires n > 0 && i <= n && Along(n, v) == i as real
    ensures Holds(CellAt(n, v), i)
  {
  }

  /** At a lattice point the sample is the entry there. */
  lemma ExactOnTheLattice(t: Table, r: real, g: real, b: real, k: nat, i: nat, j: nat, l: nat)
    requires t.Valid() && k < 3 && i < t.size && j < t.size && l < t.size
    requires var n := t.size - 1; Along(n, r) == i as real && Along(n, g) == j as real && Along(n, b) == l as real
    ensures Sampled(t, r, g, b, k) == Entry(t, i, j, l, k)
  {
    hide SumTo, Blended, Entry, Along, Corners, Holds, CellAt, Sampled;
    var n := t.size - 1;
    var cr, cg, cb := CellAt(n, r), CellAt(n, g), CellAt(n, b);
    CellHolds(n, r, i);
    CellHolds(n, g, j);
    CellHolds(n, b, l);
    SampleIsTrilinear(t, r, g, b, k);
    BlendPicks(t, cr, cg, cb, k, i, j, l);
  }

  lemma BlendPicks(t: Table, r: Cell, g: Cell, b: Cell, k: nat, i: nat, j: nat, l: nat)
    requires t.Valid() && r.i + 1 < t.size && g.i + 1 < t.size && b.i + 1 < t.size && k < 3
    requires Holds(r, i) && Holds(g, j) && Holds(b, l)
    ensures i < t.size && j < t.size && l < t.size && Blended(r, g, b, Corners(t, r, g, b, k)) == Entry(t, i, j, l, k)
  {
  }
}
