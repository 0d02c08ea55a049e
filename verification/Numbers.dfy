/** Powers, twelfth roots and Python's half-to-even rounding, over the reals. */
module Numbers {

  function Pow(x: real, n: nat): real {
    if n == 0 then 1.0 else x * Pow(x, n - 1)
  }

  /** `root` stands for raising to the power 1/12: `b ** (m / 12)` is then `Pow(root(b), m)`. */
  ghost predicate TwelfthRoot(root: real -> real) {
    forall x :: 0.0 <= x ==> 0.0 <= root(x) && Pow(root(x), 12) == x
  }

  lemma {:induction false} PowBounds(x: real, n: nat)
    requires 0.0 <= x
    ensures 0.0 <= Pow(x, n)
    ensures 0.0 < x ==> 0.0 < Pow(x, n)
    ensures 1.0 <= x ==> 1.0 <= Pow(x, n)
  {
    if n != 0 {
      PowBounds(x, n - 1);
      var p := Pow(x, n - 1);
      ProductBounds(x, p);
      assert Pow(x, n) == x * p;
    }
  }

  lemma ProductBounds(a: real, b: real)
    requires 0.0 <= a && 0.0 <= b
    ensures 0.0 <= a * b
    ensures 0.0 < a && 0.0 < b ==> 0.0 < a * b
    ensures 1.0 <= a && 1.0 <= b ==> 1.0 <= a * b
  {
    if 1.0 <= a && 1.0 <= b {
      ProductMonotone(1.0, a, 1.0, b);
    }
  }

  /** r == pq, given p == x p' and r == x (p' q). */
  lemma ProductAssociates(x: real, p': real, q: real, r': real, p: real, r: real)
    requires r' == p' * q && p == x * p' && r == x * r'
    ensures r == p * q
  {
  }

  lemma PowUnfold(x: real, n: nat)
    ensures Pow(x, 0) == 1.0
    ensures n > 0 ==> Pow(x, n) == x * Pow(x, n - 1)
  {
  }

  lemma ProductMonotone(a: real, b: real, c: real, d: real)
    requires 0.0 <= a <= b && 0.0 <= c <= d
    ensures a * c <= b * d
  {
    assert a * c <= b * c;
    assert b * c <= b * d;
  }

  lemma ProductGap(gap: real, total: real)
    requires 0.0 <= gap && 0.0 < total
    ensures 0.0 <= gap * total && (0.0 < gap ==> 0.0 < gap * total)
  {
  }

  lemma CancelOrder(rate: real, a: real, b: real)
    requires 0.0 < rate && rate * a <= rate * b
    ensures a <= b
  {
    if b < a {
      ProductStrict(0.0, a - b, rate, rate);
    }
  }

  lemma QuotientMonotone(a: real, b: real, d: real)
    requires a <= b && 0.0 < d
    ensures a / d <= b / d
  {
  }

  /** Scaling both sides of a fraction. */
  lemma ScaledQuotient(a: real, t: real, c: real, ca: real, ct: real)
    requires t != 0.0 && ct != 0.0 && ca == c * a && ct == c * t
    ensures ca / ct == a / t
  {
    var q := a / t;
    assert q * t == a;
    assert ca == q * ct;
  }

  /** A part of a whole is a fraction of it. */
  lemma RatioRange(part: real, whole: real, q: real)
    requires 0.0 <= part <= whole && 0.0 < whole && q == part / whole
    ensures 0.0 <= q <= 1.0
  {
    assert q * whole == part;
    if q < 0.0 {
      ProductBounds(-q, whole);
    } else if q > 1.0 {
      ProductStrict(1.0, q, whole, whole);
    }
  }

  lemma ProductStrict(a: real, b: real, c: real, d: real)
    requires 0.0 <= a < b && 0.0 <= c <= d && 0.0 < d
    ensures a * c < b * d
  {
    assert a * c <= a * d;
    assert a * d < b * d;
  }

  lemma {:induction false} PowMonotone(x: real, y: real, n: nat)
    requires 0.0 <= x <= y
    ensures Pow(x, n) <= Pow(y, n)
    ensures x < y && n > 0 ==> Pow(x, n) < Pow(y, n)
  {
    if n != 0 {
      PowMonotone(x, y, n - 1);
      PowBounds(x, n - 1);
      PowBounds(y, n - 1);
      ProductMonotone(x, y, Pow(x, n - 1), Pow(y, n - 1));
      if x < y {
        ProductStrict(x, y, Pow(x, n - 1), Pow(y, n - 1));
      }
    }
  }

  lemma {:induction false} PowAdd(x: real, m: nat, n: nat)
    ensures Pow(x, m + n) == Pow(x, m) * Pow(x, n)
  {
    hide Pow;
    PowUnfold(x, m);
    PowUnfold(x, m + n);
    if m != 0 {
      PowAdd(x, m - 1, n);
      ProductAssociates(x, Pow(x, m - 1), Pow(x, n), Pow(x, m + n - 1), Pow(x, m), Pow(x, m + n));
    }
  }

  /** Twelfth roots inherit the strict order of their arguments. */
  lemma RootMonotone(root: real -> real, x: real, y: real)
    requires TwelfthRoot(root)
    requires 0.0 <= x < y
    ensures 0.0 <= root(x) < root(y)
  {
    if root(y) <= root(x) {
      PowMonotone(root(y), root(x), 12);
      assert false;
    }
  }

  lemma RootAtMost(root: real -> real, x: real, bound: real)
    requires TwelfthRoot(root) && 0.0 <= x && 0.0 <= bound && x <= Pow(bound, 12)
    ensures root(x) <= bound
  {
    if bound < root(x) {
      PowMonotone(bound, root(x), 12);
      assert false;
    }
  }

  lemma RootAtLeast(root: real -> real, x: real, bound: real)
    requires TwelfthRoot(root) && 0.0 <= x && 0.0 <= bound && Pow(bound, 12) <= x
    ensures bound <= root(x)
  {
    if root(x) < bound {
      PowMonotone(root(x), bound, 12);
      assert false;
    }
  }

  lemma RootAboveOne(root: real -> real, x: real)
    requires TwelfthRoot(root) && 1.0 < x
    ensures 1.0 < root(x)
  {
    if root(x) <= 1.0 {
      PowMonotone(root(x), 1.0, 12);
      PowOne(12);
      assert false;
    }
  }

  lemma RootAtLeastOne(root: real -> real, x: real)
    requires TwelfthRoot(root)
    requires 1.0 <= x
    ensures 1.0 <= root(x)
  {
    if root(x) < 1.0 {
      PowMonotone(root(x), 1.0, 12);
      PowOne(12);
      assert false;
    }
  }

  lemma {:induction false} PowOne(n: nat)
    ensures Pow(1.0, n) == 1.0
  {
    if n != 0 {
      PowOne(n - 1);
    }
  }

  /** Three years of monthly factors are three yearly ones. */
  lemma RootCubed(root: real -> real, x: real)
    requires TwelfthRoot(root)
    requires 0.0 <= x
    ensures Pow(root(x), 36) == x * x * x
  {
    PowAdd(root(x), 12, 24);
    PowAdd(root(x), 12, 12);
  }

  // ----- rounding

  /** Python's `round(x)`: nearest integer, ties to the even neighbour. */
  function RoundHalfEven(x: real): int {
    var low := x.Floor;
    var rest := x - low as real;
    if rest < 0.5 then low
    else if rest > 0.5 then low + 1
    else if low % 2 == 0 then low
    else low + 1
  }

  /** `round(x, 1)` and `round(x, 2)`. */
  function Round1(x: real): real { RoundHalfEven(x * 10.0) as real / 10.0 }
  function Round2(x: real): real { RoundHalfEven(x * 100.0) as real / 100.0 }

  lemma RoundMonotone(x: real, y: real)
    requires x <= y
    ensures RoundHalfEven(x) <= RoundHalfEven(y)
  {
    if x.Floor == y.Floor {
      assert x - x.Floor as real <= y - y.Floor as real;
    } else {
      assert x.Floor + 1 <= y.Floor;
    }
  }

  lemma RoundNear(x: real)
    ensures x - 0.5 <= RoundHalfEven(x) as real <= x + 0.5
  {
  }

  /** A tie goes to the even neighbour. */
  lemma TiesGoToEven(n: int)
    ensures RoundHalfEven(n as real + 0.5) == if n % 2 == 0 then n else n + 1
  {
    assert (n as real + 0.5).Floor == n;
  }

  /** Rounding is the identity on integers and pulls in everything closer than half a unit. */
  lemma RoundToInteger(x: real, n: int)
    requires n as real - 0.5 < x < n as real + 0.5
    ensures RoundHalfEven(x) == n
  {
    if n as real <= x {
      assert x.Floor == n;
    } else {
      assert x.Floor == n - 1;
    }
  }

  lemma Round1Monotone(a: real, b: real)
    requires a <= b
    ensures Round1(a) <= Round1(b)
  {
    RoundMonotone(a * 10.0, b * 10.0);
  }

  lemma Round2Monotone(x: real, y: real)
    requires x <= y
    ensures Round2(x) <= Round2(y)
  {
    RoundMonotone(x * 100.0, y * 100.0);
  }

  lemma Round2Near(x: real)
    ensures x - 0.005 <= Round2(x) <= x + 0.005
  {
    RoundNear(x * 100.0);
  }
}
