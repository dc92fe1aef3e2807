/** Sums over a set of painted cells of the values they hold, and what the sums say about the
    spread of those values. */
module Statistics {
  import opened Grid

  /** The sum over the cells of S below k of their values. */
  ghost function Sum(vals: seq<int>, S: set<int>, k: nat): int
    requires k <= |vals|
  {
    if k == 0 then 0 else Sum(vals, S, k - 1) + if k - 1 in S then vals[k - 1] else 0
  }

  ghost function SumSq(vals: seq<int>, S: set<int>, k: nat): int
    requires k <= |vals|
  {
    if k == 0 then 0 else SumSq(vals, S, k - 1) + if k - 1 in S then vals[k - 1] * vals[k - 1] else 0
  }

  /** A new cell adds its value to the sum and its square to the sum of squares, once. */
  lemma {:induction false} SumAdd(vals: seq<int>, S: set<int>, i: nat, k: nat)
    requires i !in S && i < |vals| && k <= |vals|
    ensures Sum(vals, S + {i}, k) == Sum(vals, S, k) + if i < k then vals[i] else 0
    ensures SumSq(vals, S + {i}, k) == SumSq(vals, S, k) + if i < k then vals[i] * vals[i] else 0
  {
    if k > 0 {
      SumAdd(vals, S, i, k - 1);
    }
  }

  /** The sums look only at the values of the set. */
  lemma {:induction false} SumsAgree(a: seq<int>, b: seq<int>, S: set<int>, k: nat)
    requires k <= |a| && k <= |b| && forall i :: i in S && 0 <= i < k ==> a[i] == b[i]
    ensures Sum(a, S, k) == Sum(b, S, k) && SumSq(a, S, k) == SumSq(b, S, k)
  {
    if k > 0 {
      SumsAgree(a, b, S, k - 1);
    }
  }

  ghost function Below(S: set<int>, k: nat): set<int> {
    set i | i in S && 0 <= i < k
  }

  lemma BelowStep(S: set<int>, k: nat)
    ensures Below(S, 0) == {}
    ensures |Below(S, k + 1)| == |Below(S, k)| + if k in S then 1 else 0
  {
    assert Below(S, k + 1) == if k in S then Below(S, k) + {k} else Below(S, k);
  }

  function Square(v: int): (s: int)
    ensures s >= 0
    ensures s == 0 <==> v == 0
  {
    v * v
  }

  /** The sum of the squared distances between a times each value and b. */
  ghost function Spread(vals: seq<int>, S: set<int>, k: nat, a: int, b: int): int
    requires k <= |vals|
  {
    if k == 0 then 0
    else Spread(vals, S, k - 1, a, b) + if k - 1 in S then Square(a * vals[k - 1] - b) else 0
  }

  lemma SquareOut(a: int, v: int, b: int)
    ensures Square(a * v - b) == a * a * (v * v) - 2 * a * b * v + b * b
  {
  }

  lemma Distribute(x: int, y: int, z: int)
    ensures x * (y + z) == x * y + x * z
  {
  }

  lemma {:induction false} SpreadExpands(vals: seq<int>, S: set<int>, k: nat, a: int, b: int)
    requires k <= |vals|
    ensures Spread(vals, S, k, a, b)
         == a * a * SumSq(vals, S, k) - 2 * a * b * Sum(vals, S, k) + b * b * |Below(S, k)|
  {
    if k == 0 {
      BelowStep(S, 0);
    } else {
      SpreadExpands(vals, S, k - 1, a, b);
      BelowStep(S, k - 1);
      if k - 1 in S {
        var v := vals[k - 1];
        SquareOut(a, v, b);
        Distribute(a * a, SumSq(vals, S, k - 1), v * v);
        Distribute(2 * a * b, Sum(vals, S, k - 1), v);
        Distribute(b * b, |Below(S, k - 1)|, 1);
      }
    }
  }

  ghost predicate AllMeet(vals: seq<int>, S: set<int>, k: nat, a: int, b: int)
    requires k <= |vals|
  {
    forall i :: i in S && 0 <= i < k ==> a * vals[i] == b
  }

  lemma {:induction false} SpreadSigns(vals: seq<int>, S: set<int>, k: nat, a: int, b: int)
    requires k <= |vals|
    ensures Spread(vals, S, k, a, b) >= 0
    ensures Spread(vals, S, k, a, b) == 0 <==> AllMeet(vals, S, k, a, b)
  {
    if k > 0 {
      SpreadSigns(vals, S, k - 1, a, b);
      assert AllMeet(vals, S, k, a, b)
        <==> AllMeet(vals, S, k - 1, a, b) && (k - 1 in S ==> a * vals[k - 1] == b);
    }
  }

  ghost predicate Uniform(vals: seq<int>, S: set<int>) {
    exists v :: AllEqual(vals, S, v)
  }

  ghost predicate AllEqual(vals: seq<int>, S: set<int>, v: int) {
    forall i :: i in S && 0 <= i < |vals| ==> vals[i] == v
  }

  ghost predicate Indices(vals: seq<int>, S: set<int>) {
    forall i :: i in S ==> 0 <= i < |vals|
  }

  /** n times the sum of squares is at least the square of the sum, and equal exactly when the
      values of the set are all the same. */
  lemma SpreadOfEvidence(vals: seq<int>, S: set<int>)
    requires Indices(vals, S) && |S| > 0
    ensures |S| * SumSq(vals, S, |vals|) >= Square(Sum(vals, S, |vals|))
    ensures |S| * SumSq(vals, S, |vals|) == Square(Sum(vals, S, |vals|)) <==> Uniform(vals, S)
  {
    var k := |vals|;
    var n, s, q := |S|, Sum(vals, S, k), SumSq(vals, S, k);
    assert Below(S, k) == S;
    SpreadExpands(vals, S, k, n, s);
    SpreadSigns(vals, S, k, n, s);
    FactorSpread(n, s, q, Spread(vals, S, k, n, s));
    if AllMeet(vals, S, k, n, s) {
      MeetIsUniform(vals, S, n, s);
    }
    if Uniform(vals, S) {
      var v :| AllEqual(vals, S, v);
      UniformSum(vals, S, k, v);
      assert AllMeet(vals, S, k, n, s);
    }
  }

  lemma Member(S: set<int>) returns (j: int)
    requires |S| > 0
    ensures j in S
  {
    if forall x: int :: x !in S {
      assert false;
    }
    j :| j in S;
  }

  lemma MeetIsUniform(vals: seq<int>, S: set<int>, n: nat, s: int)
    requires Indices(vals, S) && |S| > 0 && n > 0 && AllMeet(vals, S, |vals|, n, s)
    ensures Uniform(vals, S)
  {
    var j := Member(S);
    forall i | i in S ensures vals[i] == vals[j] {
      SameFactor(n, vals[i], vals[j], s);
    }
    assert AllEqual(vals, S, vals[j]);
  }

  lemma FactorSpread(n: nat, s: int, q: int, d: int)
    requires n > 0 && d >= 0 && d == n * n * q - 2 * n * s * s + s * s * n
    ensures n * q >= Square(s)
    ensures d == 0 <==> n * q == Square(s)
  {
  }

  lemma SameFactor(n: nat, a: int, b: int, s: int)
    requires n > 0 && n * a == s && n * b == s
    ensures a == b
  {
  }

  lemma {:induction false} UniformSum(vals: seq<int>, S: set<int>, k: nat, v: int)
    requires k <= |vals| && AllEqual(vals, S, v)
    ensures Sum(vals, S, k) == |Below(S, k)| * v
  {
    if k == 0 {
      BelowStep(S, 0);
    } else {
      UniformSum(vals, S, k - 1, v);
      BelowStep(S, k - 1);
      Distribute(v, |Below(S, k - 1)|, 1);
    }
  }
}
