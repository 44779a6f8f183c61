/** Sums over sequences and over index sets, and the few integer-division facts
    the allocation policies rest on. */
module Sums {

  function Min(a: nat, b: nat): nat {
    if a <= b then a else b
  }

  function Sum(v: seq<nat>): nat {
    if v == [] then 0 else Sum(v[..|v| - 1]) + v[|v| - 1]
  }

  /** The part of the sum of `v` that lies at the indices in `at`. */
  ghost function SumAt(v: seq<nat>, at: set<nat>): nat {
    if v == [] then 0
    else SumAt(v[..|v| - 1], at) + (if |v| - 1 in at then v[|v| - 1] else 0)
  }

  /** How many of the first `n` naturals are in `at`. */
  ghost function CountAt(at: set<nat>, n: nat): nat {
    if n == 0 then 0 else CountAt(at, n - 1) + (if n - 1 in at then 1 else 0)
  }

  lemma {:induction false} SumExtends(v: seq<nat>, n: nat)
    requires n < |v|
    ensures Sum(v[..n + 1]) == Sum(v[..n]) + v[n]
  {
    assert v[..n + 1][..n] == v[..n];
  }

  lemma {:induction false} SumMonotonePrefix(v: seq<nat>, i: nat, j: nat)
    requires i <= j <= |v|
    ensures Sum(v[..i]) <= Sum(v[..j])
  {
    if i < j {
      SumMonotonePrefix(v, i, j - 1);
      SumExtends(v, j - 1);
    }
  }

  lemma {:induction false} SumAtAll(v: seq<nat>, at: set<nat>)
    requires forall i :: 0 <= i < |v| && i !in at ==> v[i] == 0
    ensures SumAt(v, at) == Sum(v)
  {
    if v != [] {
      SumAtAll(v[..|v| - 1], at);
    }
  }

  lemma {:induction false} SumAtNothing(v: seq<nat>, at: set<nat>)
    requires forall i :: 0 <= i < |v| && i in at ==> v[i] == 0
    ensures SumAt(v, at) == 0
  {
    if v != [] {
      SumAtNothing(v[..|v| - 1], at);
    }
  }

  lemma {:induction false} SumAtUnion(v: seq<nat>, a: set<nat>, b: set<nat>)
    requires a !! b
    ensures SumAt(v, a + b) == SumAt(v, a) + SumAt(v, b)
  {
    if v != [] {
      SumAtUnion(v[..|v| - 1], a, b);
    }
  }

  /** The sum only looks at the indices it is given. */
  lemma {:induction false} SumAtAgrees(v: seq<nat>, w: seq<nat>, at: set<nat>)
    requires |v| == |w|
    requires forall i :: 0 <= i < |v| && i in at ==> v[i] == w[i]
    ensures SumAt(v, at) == SumAt(w, at)
  {
    if v != [] {
      SumAtAgrees(v[..|v| - 1], w[..|w| - 1], at);
    }
  }

  lemma {:induction false} SumAtShift(v: seq<nat>, w: seq<nat>, at: set<nat>, c: nat)
    requires |v| == |w|
    requires forall i :: 0 <= i < |v| && i in at ==> w[i] == v[i] + c
    ensures SumAt(w, at) == SumAt(v, at) + c * CountAt(at, |v|)
  {
    if v != [] {
      var n := |v| - 1;
      SumAtShift(v[..n], w[..n], at, c);
      if n in at {
        Distribute(c, CountAt(at, n), 1);
      }
    }
  }

  /** A weighted comparison that holds at every index holds of the sums, and
      strictly so when it is strict somewhere. */
  lemma {:induction false} SumAtDominates(x: seq<nat>, y: seq<nat>, at: set<nat>, a: nat, b: nat)
    requires |x| == |y|
    requires forall i :: 0 <= i < |x| && i in at ==> a * x[i] <= b * y[i]
    ensures a * SumAt(x, at) <= b * SumAt(y, at)
  {
    if x != [] {
      var n := |x| - 1;
      SumAtDominates(x[..n], y[..n], at, a, b);
      if n in at {
        Distribute(a, SumAt(x[..n], at), x[n]);
        Distribute(b, SumAt(y[..n], at), y[n]);
      }
    }
  }

  lemma {:induction false} SumAtStrictlyDominates(x: seq<nat>, y: seq<nat>, at: set<nat>, a: nat, b: nat, k: nat)
    requires |x| == |y|
    requires k in at && k < |x|
    requires forall i :: 0 <= i < |x| && i in at ==> a * x[i] < b * y[i]
    ensures a * SumAt(x, at) < b * SumAt(y, at)
  {
    var n := |x| - 1;
    if n in at {
      SumAtDominates(x[..n], y[..n], at, a, b);
      Distribute(a, SumAt(x[..n], at), x[n]);
      Distribute(b, SumAt(y[..n], at), y[n]);
    } else {
      SumAtStrictlyDominates(x[..n], y[..n], at, a, b, k);
    }
  }

  lemma {:induction false} SumAtScales(v: seq<nat>, w: seq<nat>, at: set<nat>, a: nat)
    requires |v| == |w|
    requires forall i :: 0 <= i < |v| && i in at ==> w[i] == a * v[i]
    ensures SumAt(w, at) == a * SumAt(v, at)
  {
    if v != [] {
      var n := |v| - 1;
      SumAtScales(v[..n], w[..n], at, a);
      if n in at {
        Distribute(a, SumAt(v[..n], at), v[n]);
      }
    }
  }

  lemma {:induction false} SumMonotone(v: seq<nat>, w: seq<nat>)
    requires |v| == |w| && forall i :: 0 <= i < |v| ==> v[i] <= w[i]
    ensures Sum(v) <= Sum(w)
    ensures Sum(v) == Sum(w) ==> v == w
  {
    if v != [] {
      SumMonotone(v[..|v| - 1], w[..|w| - 1]);
      if Sum(v) == Sum(w) {
        assert v == v[..|v| - 1] + [v[|v| - 1]];
        assert w == w[..|w| - 1] + [w[|w| - 1]];
      }
    }
  }

  lemma {:induction false} SumDivisible(v: seq<nat>, lot: nat)
    requires lot > 0 && forall i :: 0 <= i < |v| ==> v[i] % lot == 0
    ensures Sum(v) % lot == 0
  {
    if v != [] {
      SumDivisible(v[..|v| - 1], lot);
      AddMultiples(Sum(v[..|v| - 1]), v[|v| - 1], lot);
    }
  }

  lemma {:induction false} SumAtDivisible(v: seq<nat>, at: set<nat>, lot: nat)
    requires lot > 0 && forall i :: 0 <= i < |v| ==> v[i] % lot == 0
    ensures SumAt(v, at) % lot == 0
  {
    if v != [] {
      SumAtDivisible(v[..|v| - 1], at, lot);
      AddMultiples(SumAt(v[..|v| - 1], at), v[|v| - 1], lot);
    }
  }

  lemma Distribute(a: int, x: int, y: int)
    ensures a * (x + y) == a * x + a * y
  {}

  lemma AddMultiples(a: nat, b: nat, lot: nat)
    requires lot > 0 && a % lot == 0 && b % lot == 0
    ensures (a + b) % lot == 0
  {
    Multiple(a, lot);
    Multiple(b, lot);
    Distribute(lot, a / lot, b / lot);
    MultipleModulo(a / lot + b / lot, lot);
  }

  lemma SubtractMultiples(a: nat, b: nat, lot: nat)
    requires lot > 0 && a % lot == 0 && b % lot == 0 && b <= a
    ensures (a - b) % lot == 0
    ensures b < a ==> a - b >= lot
  {
    Multiple(a, lot);
    Multiple(b, lot);
    CancelLe(lot, b / lot, a / lot);
    Distribute(lot, a / lot, -(b / lot));
    MultipleModulo(a / lot - b / lot, lot);
    if b < a {
      CancelLt(lot, b / lot, a / lot);
      MulMonotone(lot, 1, a / lot - b / lot);
    }
  }

  lemma AtLeastOne(a: nat, lot: nat)
    requires lot > 0 && a % lot == 0 && a > 0
    ensures a >= lot
  {}

  lemma Multiple(a: nat, lot: nat)
    requires lot > 0 && a % lot == 0
    ensures a == lot * (a / lot)
  {}

  lemma MultipleModulo(k: nat, lot: nat)
    requires lot > 0
    ensures (lot * k) % lot == 0
    ensures (lot * k) / lot == k
  {
    DivUnique(lot * k, lot, k);
  }

  lemma MulMonotone(a: nat, x: nat, y: nat)
    requires x <= y
    ensures a * x <= a * y
  {
    Distribute(a, x, y - x);
  }

  lemma CancelLe(a: nat, x: nat, y: nat)
    requires a > 0 && a * x <= a * y
    ensures x <= y
  {
    if y < x {
      MulMonotone(a, y + 1, x);
      Distribute(a, y, 1);
    }
  }

  lemma CancelLt(a: nat, x: nat, y: nat)
    requires a * x < a * y
    ensures x < y
  {
    if y <= x {
      MulMonotone(a, y, x);
    }
  }

  lemma MulStrictlyMonotone(a: nat, x: nat, y: nat)
    requires a > 0 && x < y
    ensures a * x < a * y
  {
    MulMonotone(a, x + 1, y);
    Distribute(a, x, 1);
  }

  lemma DivUnique(x: nat, d: nat, q: nat)
    requires d > 0 && d * q <= x < d * q + d
    ensures x / d == q
  {
    var r := x / d;
    assert d * r <= x < d * r + d;
    if r < q {
      MulMonotone(d, r + 1, q);
      Distribute(d, r, 1);
    } else if q < r {
      MulMonotone(d, q + 1, r);
      Distribute(d, q, 1);
    }
  }

  lemma DivCancel(x: nat, d: nat, a: nat)
    requires d > 0 && a > 0
    ensures a * d > 0
    ensures (a * x) / (a * d) == x / d
  {
    var q := x / d;
    assert d * q <= x < d * q + d;
    MulMonotone(a, d * q, x);
    MulStrictlyMonotone(a, x, d * q + d);
    Distribute(a, d * q, d);
    assert a * (d * q) == (a * d) * q;
    MulStrictlyMonotone(a, 0, d);
    DivUnique(a * x, a * d, q);
  }

  /** A quotient reaches `q` exactly when the dividend reaches `q * d`. */
  lemma DivReaches(x: nat, d: nat, q: nat)
    requires d > 0
    ensures x / d >= q <==> x >= q * d
  {
    var r := x / d;
    assert d * r <= x < d * r + d;
    if r >= q {
      MulMonotone(d, q, r);
    } else {
      MulMonotone(d, r + 1, q);
      Distribute(d, r, 1);
    }
  }

  lemma DivShrinks(x: nat, d: nat)
    requires d > 0
    ensures x / d <= x
  {
    var r := x / d;
    assert d * r <= x;
    MulMonotone(r, 1, d);
  }

  lemma DivMonotone(x: nat, y: nat, d: nat)
    requires d > 0 && x <= y
    ensures x / d <= y / d
  {
    DivReaches(y, d, x / d);
    DivReaches(x, d, x / d);
  }
}
