/** The loops that sample a table and resample it onto the kernel's lattice. */
module CubeKernel {
  import opened Basics
  import opened Reals
  import opened Cube

  const KERNEL_EDGE := 9

  method Cell1(n: nat, v: real) returns (i0: nat, f: real)
    requires n > 0
    ensures Cell(i0, f) == CellAt(n, v)
  {
    var x := Along(n, v);
    i0 := Min(x.Floor, n - 1);
    f := x - i0 as real;
  }

  /** One corner's share, skipped when its weight is zero. */
  method AddCorner(t: Table, r: Cell, g: Cell, b: Cell, k: nat, dr: nat, dg: nat, db: nat, acc: real)
    returns (sum: real)
    requires t.Valid() && r.i + 1 < t.size && g.i + 1 < t.size && b.i + 1 < t.size && k < 3 && dr < 2 && dg < 2
             && db < 2
    requires acc == SumTo(t, r, g, b, k, 4 * db + 2 * dg + dr)
    ensures sum == SumTo(t, r, g, b, k, 4 * db + 2 * dg + dr + 1)
  {
    hide Place, SumTo;
    var w := (if dr == 1 then r.f else 1.0 - r.f) * (if dg == 1 then g.f else 1.0 - g.f)
             * (if db == 1 then b.f else 1.0 - b.f);
    NextTerm(t, r, g, b, k, dr, dg, db);
    PlaceInRange(t.size, r.i + dr, g.i + dg, b.i + db);
    sum := acc;
    if w != 0.0 {
      sum := acc + w * t.data[Place(t.size, r.i + dr, g.i + dg, b.i + db) + k];
    }
  }

  lemma NextTerm(t: Table, r: Cell, g: Cell, b: Cell, k: nat, dr: nat, dg: nat, db: nat)
    requires t.Valid() && r.i + 1 < t.size && g.i + 1 < t.size && b.i + 1 < t.size && k < 3 && dr < 2 && dg < 2
             && db < 2
    ensures var j := 4 * db + 2 * dg + dr;
            && SumTo(t, r, g, b, k, j + 1)
               == SumTo(t, r, g, b, k, j)
                  + Side(r, dr) * Side(g, dg) * Side(b, db) * Entry(t, r.i + dr, g.i + dg, b.i + db, k)
  {
    hide Entry, SumTo, Side;
    var j := 4 * db + 2 * dg + dr;
    assert j % 2 == dr && j / 2 % 2 == dg && j / 4 == db;
    SumStep(t, r, g, b, k, j);
  }

  lemma SumStep(t: Table, r: Cell, g: Cell, b: Cell, k: nat, j: nat)
    requires t.Valid() && r.i + 1 < t.size && g.i + 1 < t.size && b.i + 1 < t.size && k < 3 && j < 8
    ensures SumTo(t, r, g, b, k, j + 1) == SumTo(t, r, g, b, k, j) + Term(t, r, g, b, k, j)
  {
  }

  lemma NoTerms(t: Table, r: Cell, g: Cell, b: Cell, k: nat)
    requires t.Valid() && r.i + 1 < t.size && g.i + 1 < t.size && b.i + 1 < t.size && k < 3
    ensures SumTo(t, r, g, b, k, 0) == 0.0
  {
  }

  method SampleChannel(t: Table, r: Cell, g: Cell, b: Cell, k: nat) returns (acc: real)
    requires t.Valid() && r.i + 1 < t.size && g.i + 1 < t.size && b.i + 1 < t.size && k < 3
    ensures acc == SumTo(t, r, g, b, k, 8)
  {
    hide SumTo, Table.Valid;
    NoTerms(t, r, g, b, k);
    acc := 0.0;
    for db := 0 to 2
      invariant acc == SumTo(t, r, g, b, k, 4 * db)
    {
      for dg := 0 to 2
        invariant acc == SumTo(t, r, g, b, k, 4 * db + 2 * dg)
      {
        for dr := 0 to 2
          invariant acc == SumTo(t, r, g, b, k, 4 * db + 2 * dg + dr)
        {
          acc := AddCorner(t, r, g, b, k, dr, dg, db, acc);
        }
      }
    }
  }

  method Sample(t: Table, r: real, g: real, b: real) returns (out: array<real>)
    requires t.Valid()
    ensures fresh(out) && out[..] == SampledAll(t, r, g, b)
  {
    hide CellAt, SumTo;
    var n := t.size - 1;
    var r0, fr := Cell1(n, r);
    var g0, fg := Cell1(n, g);
    var b0, fb := Cell1(n, b);
    out := new real[3](_ => 0.0);
    for k := 0 to 3
      invariant forall i :: 0 <= i < k ==> out[i] == Sampled(t, r, g, b, i)
    {
      var acc := SampleChannel(t, Cell(r0, fr), Cell(g0, fg), Cell(b0, fb), k);
      out[k] := acc;
    }
  }

  // ---- resampling ------------------------------------------------------------------------------

  /** Where an input value lies in the table's domain. */
  function ToDomain(t: Table, v: real, k: nat): real
    requires t.Valid() && k < 3
  {
    (v - t.min[k]) / (t.max[k] - t.min[k])
  }

  function KernelEntry(t: Table, r: nat, g: nat, b: nat): seq<real>
    requires t.Valid()
  {
    SampledAll(t, ToDomain(t, r as real / 8.0, 0), ToDomain(t, g as real / 8.0, 1), ToDomain(t, b as real / 8.0, 2))
  }

  /** The first m triples, red fastest. */
  function KernelTo(t: Table, m: nat): (s: seq<real>)
    requires t.Valid()
    ensures |s| == 3 * m
  {
    if m == 0 then [] else KernelTo(t, m - 1) + KernelEntry(t, (m - 1) % 9, (m - 1) / 9 % 9, (m - 1) / 81)
  }

  lemma NextTriple(t: Table, r: nat, g: nat, b: nat)
    requires t.Valid() && r < 9 && g < 9
    ensures var m := 81 * b + 9 * g + r; KernelTo(t, m + 1) == KernelTo(t, m) + KernelEntry(t, r, g, b)
  {
    hide KernelEntry;
    Digits(r, g, b);
  }

  lemma Digits(r: nat, g: nat, b: nat)
    requires r < 9 && g < 9
    ensures var m := 81 * b + 9 * g + r; m % 9 == r && m / 9 % 9 == g && m / 81 == b
  {
  }

  method AddTriple(t: Table, r: nat, g: nat, b: nat, out: array<real>, o: nat) returns (next: nat)
    requires t.Valid() && r < 9 && g < 9 && b < 9 && out.Length == 2187 && o == 3 * (81 * b + 9 * g + r)
    requires out[..o] == KernelTo(t, 81 * b + 9 * g + r)
    modifies out
    ensures next == o + 3 && out[..next] == KernelTo(t, 81 * b + 9 * g + r + 1)
  {
    hide KernelTo, SampledAll, ToDomain;
    NextTriple(t, r, g, b);
    ghost var before := out[..o];
    var v := Sample(t, ToDomain(t, r as real / 8.0, 0), ToDomain(t, g as real / 8.0, 1),
                    ToDomain(t, b as real / 8.0, 2));
    assert v[..] == KernelEntry(t, r, g, b) && v.Length == 3 by {
      assert |v[..]| == |SampledAll(t, ToDomain(t, r as real / 8.0, 0), ToDomain(t, g as real / 8.0, 1),
                                    ToDomain(t, b as real / 8.0, 2))|;
      ThreeValues(t, ToDomain(t, r as real / 8.0, 0), ToDomain(t, g as real / 8.0, 1), ToDomain(t, b as real / 8.0, 2));
    }
    out[o] := v[0];
    out[o + 1] := v[1];
    out[o + 2] := v[2];
    next := o + 3;
    assert out[..next] == before + v[..];
  }

  lemma ThreeValues(t: Table, r: real, g: real, b: real)
    requires t.Valid()
    ensures |SampledAll(t, r, g, b)| == 3
  {
  }

  method AddRow(t: Table, g: nat, b: nat, out: array<real>, o: nat) returns (next: nat)
    requires t.Valid() && g < 9 && b < 9 && out.Length == 2187 && o == 3 * (81 * b + 9 * g)
    requires out[..o] == KernelTo(t, 81 * b + 9 * g)
    modifies out
    ensures next == o + 27 && out[..next] == KernelTo(t, 81 * b + 9 * g + 9)
  {
    hide KernelTo;
    next := o;
    for r := 0 to KERNEL_EDGE
      invariant next == o + 3 * r && out[..next] == KernelTo(t, 81 * b + 9 * g + r)
    {
      next := AddTriple(t, r, g, b, out, next);
    }
  }

  method AddPlane(t: Table, b: nat, out: array<real>, o: nat) returns (next: nat)
    requires t.Valid() && b < 9 && out.Length == 2187 && o == 243 * b && out[..o] == KernelTo(t, 81 * b)
    modifies out
    ensures next == o + 243 && out[..next] == KernelTo(t, 81 * b + 81)
  {
    hide KernelTo;
    next := o;
    for g := 0 to KERNEL_EDGE
      invariant next == o + 27 * g && out[..next] == KernelTo(t, 81 * b + 9 * g)
    {
      next := AddRow(t, g, b, out, next);
    }
  }

  lemma NoTriples(t: Table)
    requires t.Valid()
    ensures KernelTo(t, 0) == []
  {
  }

  /** The kernel's cube for a table. */
  method ToKernelCube(t: Table) returns (out: array<real>)
    requires t.Valid()
    ensures fresh(out) && out[..] == KernelTo(t, 729)
  {
    hide KernelTo, Table.Valid;
    NoTriples(t);
    out := new real[2187](_ => 0.0);
    var o := 0;
    for b := 0 to KERNEL_EDGE
      invariant o == 243 * b && out[..o] == KernelTo(t, 81 * b)
    {
      o := AddPlane(t, b, out, o);
      assert 81 * b + 81 == 81 * (b + 1);
    }
    assert out[..o] == out[..];
  }

  // ---- what the kernel's cube is ---------------------------------------------------------------

  /** The triple at a kernel lattice point. */
  lemma {:induction false} TripleAt(t: Table, m: nat, i: nat)
    requires t.Valid() && i < m
    ensures KernelTo(t, m)[3 * i..3 * i + 3] == KernelEntry(t, i % 9, i / 9 % 9, i / 81)
  {
    hide KernelEntry;
    if i < m - 1 {
      TripleAt(t, m - 1, i);
      assert KernelTo(t, m)[3 * i..3 * i + 3] == KernelTo(t, m - 1)[3 * i..3 * i + 3];
    } else {
      assert KernelTo(t, m)[3 * i..3 * i + 3] == KernelEntry(t, i % 9, i / 9 % 9, i / 81);
    }
  }

  /** Resampling never leaves the table's range, whatever the domain. */
  lemma {:induction false} KernelStaysInRange(t: Table, m: nat, lo: real, hi: real)
    requires t.Valid() && Within(t, lo, hi)
    ensures forall i :: 0 <= i < 3 * m ==> lo <= KernelTo(t, m)[i] <= hi
  {
    hide Within, SampledAll, ToDomain;
    if m > 0 {
      KernelStaysInRange(t, m - 1, lo, hi);
      EntryStaysInRange(t, (m - 1) % 9, (m - 1) / 9 % 9, (m - 1) / 81, lo, hi);
    }
  }

  lemma EntryStaysInRange(t: Table, r: nat, g: nat, b: nat, lo: real, hi: real)
    requires t.Valid() && Within(t, lo, hi)
    ensures |KernelEntry(t, r, g, b)| == 3 && forall k :: 0 <= k < 3 ==> lo <= KernelEntry(t, r, g, b)[k] <= hi
  {
    hide Within, Sampled, ToDomain;
    var x, y, z := ToDomain(t, r as real / 8.0, 0), ToDomain(t, g as real / 8.0, 1), ToDomain(t, b as real / 8.0, 2);
    SampleStaysInRange(t, x, y, z, 0, lo, hi);
    SampleStaysInRange(t, x, y, z, 1, lo, hi);
    SampleStaysInRange(t, x, y, z, 2, lo, hi);
  }

  /** An input value lies in the domain as it lies between the domain's ends. */
  lemma ToDomainMeans(t: Table, v: real, k: nat)
    requires t.Valid() && k < 3
    ensures ToDomain(t, v, k) * (t.max[k] - t.min[k]) == v - t.min[k]
    ensures ToDomain(t, t.min[k], k) == 0.0 && ToDomain(t, t.max[k], k) == 1.0
    ensures v <= t.min[k] ==> ToDomain(t, v, k) <= 0.0
    ensures v >= t.max[k] ==> ToDomain(t, v, k) >= 1.0
  {
    var d := t.max[k] - t.min[k];
    DividedBack(v - t.min[k], d);
    DividedBack(t.min[k] - t.min[k], d);
    DividedBack(t.max[k] - t.min[k], d);
  }

  lemma DividedBack(a: real, d: real)
    requires d > 0.0
    ensures a / d * d == a && (a <= 0.0 ==> a / d <= 0.0) && (a >= d ==> a / d >= 1.0)
    ensures a == 0.0 ==> a / d == 0.0
    ensures a == d ==> a / d == 1.0
  {
    var q := a / d;
    assert q * d == a;
    if q > 0.0 {
      TimesPositive(q, d);
    }
    if q < 1.0 {
      TimesOrder(q, 1.0, d);
    }
  }

  /** Lattice point i of a channel is where the table looks for the input value v: the i-th of n equal steps through
      the domain, or the end of it that v lies at or beyond. */
  predicate LooksAt(t: Table, v: real, k: nat, i: nat)
    requires t.Valid() && k < 3
  {
    var n, d := t.size - 1, t.max[k] - t.min[k];
    i <= n && (v - t.min[k] == i as real * d / n as real || (i == 0 && v <= t.min[k]) || (i == n && v >= t.max[k]))
  }

  lemma LooksAlong(t: Table, v: real, k: nat, i: nat)
    requires t.Valid() && k < 3 && LooksAt(t, v, k, i)
    ensures i < t.size && Along(t.size - 1, ToDomain(t, v, k)) == i as real
  {
    ToDomainMeans(t, v, k);
    var n, d, x := t.size - 1, t.max[k] - t.min[k], ToDomain(t, v, k);
    hide ToDomain;
    if v - t.min[k] == i as real * d / n as real {
      StepOf(x, d, i, n);
      StepAlong(x, i, n);
    } else if i == 0 {
      EndsAlong(x, n);
    } else {
      EndsAlong(x, n);
    }
  }

  lemma StepOf(x: real, d: real, i: nat, n: nat)
    requires n > 0 && d > 0.0 && x * d == i as real * d / n as real
    ensures x * n as real == i as real
  {
    var y := i as real / n as real;
    assert y * n as real == i as real;
    assert i as real * d / n as real == y * d;
    assert (x - y) * d == 0.0;
    assert x == y;
  }

  lemma StepAlong(x: real, i: nat, n: nat)
    requires n > 0 && i <= n && x * n as real == i as real
    ensures Along(n, x) == i as real
  {
    if x < 0.0 {
      TimesPositive(-x, n as real);
      assert false;
    } else if x > 1.0 {
      TimesOrder(1.0, x, n as real);
      assert false;
    }
  }

  lemma EndsAlong(x: real, n: nat)
    ensures x <= 0.0 ==> Along(n, x) == 0.0
    ensures x >= 1.0 ==> Along(n, x) == n as real
  {
  }

  /** Over any domain resampling is exact where the table looks at its own lattice points: the shared ones inside the
      domain, and the end entries beyond it. */
  lemma ExactOverDomain(t: Table, r: nat, g: nat, b: nat, i: nat, j: nat, l: nat)
    requires t.Valid() && r < 9 && g < 9 && b < 9
    requires LooksAt(t, r as real / 8.0, 0, i) && LooksAt(t, g as real / 8.0, 1, j) && LooksAt(t, b as real / 8.0, 2, l)
    ensures i < t.size && j < t.size && l < t.size
    ensures KernelEntry(t, r, g, b) == [Entry(t, i, j, l, 0), Entry(t, i, j, l, 1), Entry(t, i, j, l, 2)]
  {
    hide Sampled, Entry, ToDomain, LooksAt, Along, Table.Valid;
    var x, y, z := ToDomain(t, r as real / 8.0, 0), ToDomain(t, g as real / 8.0, 1), ToDomain(t, b as real / 8.0, 2);
    LooksAlong(t, r as real / 8.0, 0, i);
    LooksAlong(t, g as real / 8.0, 1, j);
    LooksAlong(t, b as real / 8.0, 2, l);
    ExactOnTheLattice(t, x, y, z, 0, i, j, l);
    ExactOnTheLattice(t, x, y, z, 1, i, j, l);
    ExactOnTheLattice(t, x, y, z, 2, i, j, l);
  }

  predicate UnitDomain(t: Table) {
    t.min == [0.0, 0.0, 0.0] && t.max == [1.0, 1.0, 1.0]
  }

  /** Kernel step a of 8 is lattice point i of n exactly when a n = 8 i. */
  lemma SharedStep(a: nat, n: nat, i: nat)
    requires a <= 8 && a * n == 8 * i
    ensures Along(n, a as real / 8.0) == i as real
  {
  }

  lemma UnitStep(t: Table, v: real, k: nat)
    requires t.Valid() && UnitDomain(t) && k < 3
    ensures ToDomain(t, v, k) == v
  {
  }

  /** At every point the two lattices share, resampling is exact. */
  lemma ExactWhereShared(t: Table, r: nat, g: nat, b: nat, i: nat, j: nat, l: nat)
    requires t.Valid() && UnitDomain(t) && r < 9 && g < 9 && b < 9
    requires r * (t.size - 1) == 8 * i && g * (t.size - 1) == 8 * j && b * (t.size - 1) == 8 * l
    ensures i < t.size && j < t.size && l < t.size
    ensures KernelEntry(t, r, g, b) == [Entry(t, i, j, l, 0), Entry(t, i, j, l, 1), Entry(t, i, j, l, 2)]
  {
    assert t.size >= 2;
    hide Sampled, Entry, ToDomain, UnitDomain, Table.Valid;
    IndexInRange(r, t.size - 1, i);
    IndexInRange(g, t.size - 1, j);
    IndexInRange(b, t.size - 1, l);
    UnitStep(t, r as real / 8.0, 0);
    UnitStep(t, g as real / 8.0, 1);
    UnitStep(t, b as real / 8.0, 2);
    SharedSample(t, r, g, b, i, j, l, 0);
    SharedSample(t, r, g, b, i, j, l, 1);
    SharedSample(t, r, g, b, i, j, l, 2);
  }

  lemma SharedSample(t: Table, r: nat, g: nat, b: nat, i: nat, j: nat, l: nat, k: nat)
    requires t.Valid() && r < 9 && g < 9 && b < 9 && i < t.size && j < t.size && l < t.size && k < 3
    requires r * (t.size - 1) == 8 * i && g * (t.size - 1) == 8 * j && b * (t.size - 1) == 8 * l
    ensures Sampled(t, r as real / 8.0, g as real / 8.0, b as real / 8.0, k) == Entry(t, i, j, l, k)
  {
    assert t.size >= 2;
    hide Sampled, Entry, Along, Table.Valid;
    SharedStep(r, t.size - 1, i);
    SharedStep(g, t.size - 1, j);
    SharedStep(b, t.size - 1, l);
    ExactOnTheLattice(t, r as real / 8.0, g as real / 8.0, b as real / 8.0, k, i, j, l);
  }

  lemma IndexInRange(a: nat, n: nat, i: nat)
    requires a <= 8 && a * n == 8 * i
    ensures i <= n
  {
  }

  lemma Eightfold(a: nat, m: nat)
    ensures a * (8 * m) == 8 * (a * m)
  {
  }

  /** When 8 divides N - 1 every kernel point is shared. */
  lemma ExactOnMultiples(t: Table, r: nat, g: nat, b: nat)
    requires t.Valid() && UnitDomain(t) && (t.size - 1) % 8 == 0 && r < 9 && g < 9 && b < 9
    ensures exists i, j, l :: SharedAt(t, r, i) && SharedAt(t, g, j) && SharedAt(t, b, l)
                              && KernelEntry(t, r, g, b)
                                 == [Entry(t, i, j, l, 0), Entry(t, i, j, l, 1), Entry(t, i, j, l, 2)]
  {
    hide KernelEntry, Entry, UnitDomain, Table.Valid;
    var m := (t.size - 1) / 8;
    Multiple(t, m, r);
    Multiple(t, m, g);
    Multiple(t, m, b);
    ExactWhereShared(t, r, g, b, r * m, g * m, b * m);
  }

  /** Kernel step a is lattice point i of the table. */
  predicate SharedAt(t: Table, a: nat, i: nat) {
    i < t.size && a * (t.size - 1) == 8 * i
  }

  lemma Multiple(t: Table, m: nat, a: nat)
    requires t.size == 8 * m + 1 && a < 9
    ensures SharedAt(t, a, a * m)
  {
    Eightfold(a, m);
    MulMonotone(a, 8, m);
  }

  lemma NineCount(t: Table)
    requires t.Valid() && t.size == 9
    ensures |t.data| == 2187
  {
  }

  lemma Undigits(i: nat)
    requires i < 729
    ensures Place(9, i % 9, i / 9 % 9, i / 81) == 3 * i && i / 81 < 9
  {
  }

  lemma NineTriple(t: Table, i: nat)
    requires t.Valid() && UnitDomain(t) && t.size == 9 && i < 729
    ensures |t.data| == 2187 && KernelEntry(t, i % 9, i / 9 % 9, i / 81) == t.data[3 * i..3 * i + 3]
  {
    hide KernelEntry, UnitDomain, Table.Valid;
    var r, g, b := i % 9, i / 9 % 9, i / 81;
    NineCount(t);
    ExactWhereShared(t, r, g, b, r, g, b);
    Undigits(i);
    assert t.data[3 * i..3 * i + 3] == [t.data[3 * i], t.data[3 * i + 1], t.data[3 * i + 2]];
  }

  lemma {:induction false} KernelOfNine(t: Table, m: nat)
    requires t.Valid() && UnitDomain(t) && t.size == 9 && m <= 729
    ensures |t.data| == 2187 && KernelTo(t, m) == t.data[..3 * m]
  {
    if m > 0 {
      KernelOfNine(t, m - 1);
      NineTriple(t, m - 1);
      hide KernelEntry, UnitDomain, Table.Valid;
      assert t.data[..3 * m] == t.data[..3 * (m - 1)] + t.data[3 * (m - 1)..3 * m];
    }
  }

  /** A nine-point table over the unit domain resamples to itself. */
  lemma NineIsIdentity(t: Table)
    requires t.Valid() && UnitDomain(t) && t.size == 9
    ensures KernelTo(t, 729) == t.data
  {
    KernelOfNine(t, 729);
    hide KernelTo;
    assert t.data[..2187] == t.data;
  }
}
