/** Bounds and invariances of the concentration index, and what they make of the opportunity score. */
module MarketTheory {
  import opened Common
  import opened Numbers
  import opened MarketInsight
  import Sorting

  ghost predicate Positive(s: seq<real>) {
    forall i :: 0 <= i < |s| ==> s[i] > 0.0
  }

  ghost predicate AllEqual(s: seq<real>) {
    forall i, j :: 0 <= i < |s| && 0 <= j < |s| ==> s[i] == s[j]
  }

  // ----- the index as a quotient

  lemma SquareOfQuotient(r: real, total: real, squares: real, q: real)
    requires total != 0.0 && squares == total * total && q == r / total
    ensures squares != 0.0 && q * q == r * r / squares
  {
    assert q * total == r;
    Square(total);
    var w := r * r / squares;
    assert w * squares == r * r;
    SquaresOfProduct(q, total, r, squares);
    Cancel(q * q, w, squares);
  }

  lemma SquaresOfProduct(q: real, t: real, r: real, squares: real)
    requires q * t == r && squares == t * t
    ensures q * q * squares == r * r
  {
  }

  lemma Cancel(a: real, b: real, d: real)
    requires d != 0.0 && a * d == b * d
    ensures a == b
  {
    assert (a - b) * d == 0.0;
  }

  lemma {:induction false} SumOfQuotients(s: seq<real>, d: real, t: seq<real>)
    requires d != 0.0 && |t| == |s|
    requires forall i :: 0 <= i < |s| ==> t[i] == s[i] / d
    ensures Sum(t) == Sum(s) / d
  {
    if s != [] {
      var n := |s| - 1;
      SumOfQuotients(s[..n], d, t[..n]);
      AddQuotients(Sum(s[..n]), s[n], d);
    }
  }

  lemma AddQuotients(a: real, b: real, d: real)
    requires d != 0.0
    ensures a / d + b / d == (a + b) / d
  {
  }

  /** The index is the sum of squared counts over the squared total. */
  lemma ConcentrationIsQuotient(s: seq<real>, total: real, q: real)
    requires total == Sum(s) && total != 0.0 && q == Sum(Squares(s))
    ensures total * total != 0.0 && Concentration(s) == q / (total * total) * 10000.0
  {
    Square(total);
    SquaredShares(s, total, total * total);
    SumOfQuotients(Squares(s), total * total, Squares(Shares(s)));
  }

  lemma SquaredShares(s: seq<real>, total: real, squares: real)
    requires total == Sum(s) && total != 0.0 && squares == total * total
    ensures squares != 0.0
    ensures forall i :: 0 <= i < |s| ==> Squares(Shares(s))[i] == Squares(s)[i] / squares
  {
    hide *;
    Square(total);
    forall i | 0 <= i < |s|
      ensures Squares(Shares(s))[i] == Squares(s)[i] / squares
    {
      ShareAt(s, i);
      SquaresAt(s, i);
      SquaresAt(Shares(s), i);
      SquareOfQuotient(s[i], total, squares, Shares(s)[i]);
    }
  }

  lemma SquaresAt(s: seq<real>, i: nat)
    requires i < |s|
    ensures Squares(s)[i] == Squared(s[i]) == s[i] * s[i]
  {
  }

  // ----- Cauchy-Schwarz

  /** Sum of the squared distances of s from x. */
  function Spread(s: seq<real>, x: real): real {
    if s == [] then 0.0 else Spread(s[..|s| - 1], x) + (s[|s| - 1] - x) * (s[|s| - 1] - x)
  }

  /** Sum of the squared differences over all pairs. */
  function Dispersion(s: seq<real>): real {
    if s == [] then 0.0 else Dispersion(s[..|s| - 1]) + Spread(s[..|s| - 1], s[|s| - 1])
  }

  lemma SumSnoc(s: seq<real>)
    ensures Sum([]) == 0.0 && Squares([]) == []
    ensures s != [] ==> Sum(s) == Sum(s[..|s| - 1]) + s[|s| - 1]
    ensures s != [] ==> Sum(Squares(s)) == Sum(Squares(s[..|s| - 1])) + s[|s| - 1] * s[|s| - 1]
  {
    if s != [] {
      SquaresTake(s);
    }
  }

  lemma SquaresTake(s: seq<real>)
    requires s != []
    ensures Squares(s)[..|s| - 1] == Squares(s[..|s| - 1])
  {
    hide Squared;
  }

  lemma DispersionSnoc(s: seq<real>)
    ensures Dispersion([]) == 0.0
    ensures s != [] ==> Dispersion(s) == Dispersion(s[..|s| - 1]) + Spread(s[..|s| - 1], s[|s| - 1])
  {
    hide Spread;
  }

  lemma SpreadSnoc(s: seq<real>, x: real)
    ensures Spread([], x) == 0.0
    ensures s != [] ==> Spread(s, x) == Spread(s[..|s| - 1], x) + (s[|s| - 1] - x) * (s[|s| - 1] - x)
  {
  }

  lemma {:induction false} SpreadFormula(s: seq<real>, x: real, n: real, total: real, q: real)
    requires n == |s| as real && total == Sum(s) && q == Sum(Squares(s))
    ensures Spread(s, x) == q - 2.0 * x * total + n * (x * x)
  {
    hide *;
    SumSnoc(s);
    SpreadSnoc(s, x);
    if s != [] {
      var shorter, last := s[..|s| - 1], s[|s| - 1];
      SpreadFormula(shorter, x, n - 1.0, Sum(shorter), Sum(Squares(shorter)));
      SpreadStep(x, n, last, Spread(shorter, x), Sum(shorter), Sum(Squares(shorter)), total, q, Spread(s, x));
    }
  }

  lemma SpreadStep(x: real, n: real, last: real, spread: real, total: real, q: real,
      total': real, q': real, spread': real)
    requires spread == q - 2.0 * x * total + (n - 1.0) * (x * x)
    requires total' == total + last && q' == q + last * last && spread' == spread + (last - x) * (last - x)
    ensures spread' == q' - 2.0 * x * total' + n * (x * x)
  {
  }

  /** n times the sum of squares exceeds the squared sum by exactly the dispersion. */
  lemma {:induction false} CauchySchwarz(s: seq<real>, n: real, total: real, q: real)
    requires n == |s| as real && total == Sum(s) && q == Sum(Squares(s))
    ensures n * q == total * total + Dispersion(s)
  {
    hide *;
    SumSnoc(s);
    DispersionSnoc(s);
    if s != [] {
      var shorter, last := s[..|s| - 1], s[|s| - 1];
      CauchySchwarz(shorter, n - 1.0, Sum(shorter), Sum(Squares(shorter)));
      SpreadFormula(shorter, last, n - 1.0, Sum(shorter), Sum(Squares(shorter)));
      CauchyStep(n, last, Sum(shorter), Sum(Squares(shorter)), Dispersion(shorter), Spread(shorter, last),
        total, q, Dispersion(s));
    }
  }

  lemma CauchyStep(n: real, x: real, total: real, q: real, d: real, spread: real, total': real, q': real, d': real)
    requires (n - 1.0) * q == total * total + d
    requires spread == q - 2.0 * x * total + (n - 1.0) * (x * x)
    requires total' == total + x && q' == q + x * x && d' == d + spread
    ensures n * q' == total' * total' + d'
  {
  }

  lemma {:induction false} SpreadSign(s: seq<real>, x: real)
    ensures 0.0 <= Spread(s, x)
    ensures Spread(s, x) == 0.0 <==> forall i :: 0 <= i < |s| ==> s[i] == x
  {
    if s != [] {
      var n := |s| - 1;
      SpreadSign(s[..n], x);
      Square(s[n] - x);
      if forall i :: 0 <= i < |s[..n]| ==> s[..n][i] == x {
        assert forall i :: 0 <= i < n ==> s[i] == s[..n][i];
      }
    }
  }

  lemma Square(x: real)
    ensures 0.0 <= x * x && (x * x == 0.0 <==> x == 0.0)
  {
    if x > 0.0 {
      SignOfProduct(x, x);
    } else if x < 0.0 {
      SignOfProduct(-x, -x);
      assert (-x) * (-x) == x * x;
    }
  }

  lemma {:induction false} DispersionSign(s: seq<real>)
    ensures 0.0 <= Dispersion(s)
    ensures Dispersion(s) == 0.0 <==> AllEqual(s)
  {
    if s != [] {
      var n := |s| - 1;
      DispersionSign(s[..n]);
      SpreadSign(s[..n], s[n]);
      if AllEqual(s) {
        assert AllEqual(s[..n]);
        assert forall i :: 0 <= i < n ==> s[..n][i] == s[n];
      }
      if AllEqual(s[..n]) && forall i :: 0 <= i < n ==> s[..n][i] == s[n] {
        assert forall i :: 0 <= i < |s| ==> s[i] == s[n] by {
          assert forall i :: 0 <= i < n ==> s[i] == s[..n][i];
        }
      }
    }
  }

  lemma {:induction false} SquaresBelow(s: seq<real>, total: real, q: real)
    requires Positive(s) && s != [] && total == Sum(s) && q == Sum(Squares(s))
    ensures 0.0 < total && q <= total * total
    ensures |s| >= 2 ==> q < total * total
  {
    var shorter, last := s[..|s| - 1], s[|s| - 1];
    SumSnoc(s);
    if shorter == [] {
    } else {
      SquaresBelow(shorter, Sum(shorter), Sum(Squares(shorter)));
      SquareStep(Sum(shorter), last, Sum(Squares(shorter)), total, q);
    }
  }

  lemma SquareStep(total: real, x: real, q: real, total': real, q': real)
    requires 0.0 < total && 0.0 < x && q <= total * total && total' == total + x && q' == q + x * x
    ensures q' < total' * total'
  {
    assert 0.0 < total * x;
    assert total' * total' == total * total + 2.0 * (total * x) + x * x;
  }

  /** n >= 2 firms: 10000/n <= HHI < 10000, and the lower bound is met exactly by equal shares. */
  lemma ConcentrationBounds(s: seq<real>)
    requires Positive(s) && |s| >= 2 && Sum(s) != 0.0
    ensures 10000.0 / |s| as real <= Concentration(s) < 10000.0
    ensures Concentration(s) == 10000.0 / |s| as real <==> AllEqual(s)
  {
    hide *;
    var n, total, q := |s| as real, Sum(s), Sum(Squares(s));
    CauchySchwarz(s, n, total, q);
    DispersionSign(s);
    NonEmpty(s);
    SquaresBelow(s, total, q);
    ConcentrationIsQuotient(s, total, q);
    Square(total);
    QuotientBounds(n, total * total, q, Dispersion(s), q / (total * total));
  }

  lemma NonEmpty(s: seq<real>)
    ensures |s| >= 2 ==> s != []
  {
  }

  lemma QuotientBounds(n: real, t: real, q: real, d: real, c: real)
    requires 2.0 <= n && 0.0 < t && n * q == t + d && 0.0 <= d && q < t && c == q / t
    ensures 10000.0 / n <= c * 10000.0 < 10000.0
    ensures c * 10000.0 == 10000.0 / n <==> d == 0.0
  {
    var m := 1.0 / n;
    assert c * t == q && m * n == 1.0;
    assert 10000.0 / n == 10000.0 * m;
    assert 0.0 < n * t;
    QuotientGap(n, t, q, d, c, m);
    SignOfProduct(c - m, n * t);
    assert (1.0 - c) * t == t - q;
    SignOfProduct(1.0 - c, t);
  }

  lemma QuotientGap(n: real, t: real, q: real, d: real, c: real, m: real)
    requires n * q == t + d && c * t == q && m * n == 1.0
    ensures (c - m) * (n * t) == d
  {
    assert c * (n * t) == n * (c * t);
    assert m * (n * t) == (m * n) * t;
  }

  lemma SignOfProduct(a: real, b: real)
    requires 0.0 < b
    ensures 0.0 < a * b <==> 0.0 < a
    ensures a * b == 0.0 <==> a == 0.0
  {
    if 0.0 < a {
      assert 0.0 < a * b;
    } else if a < 0.0 {
      assert 0.0 < (-a) * b;
    }
  }

  // ----- the index depends on the shares only

  lemma {:induction false} SumWithout(s: seq<real>, j: nat)
    requires j < |s|
    ensures Sum(s[..j] + s[j + 1..]) == Sum(s) - s[j]
  {
    var n := |s| - 1;
    if j == n {
      assert s[..j] + s[j + 1..] == s[..n];
    } else {
      SumWithout(s[..n], j);
      var rest := s[..j] + s[j + 1..];
      assert rest[..|rest| - 1] == s[..n][..j] + s[..n][j + 1..];
    }
  }

  lemma SquaresWithout(s: seq<real>, j: nat)
    requires j < |s|
    ensures Squares(s[..j] + s[j + 1..]) == Squares(s)[..j] + Squares(s)[j + 1..]
    ensures Squares(s)[j] == Squared(s[j])
  {
    hide Squared;
  }

  lemma {:induction false} SumsPermute(s: seq<real>, t: seq<real>)
    requires multiset(s) == multiset(t)
    ensures Sum(s) == Sum(t) && Sum(Squares(s)) == Sum(Squares(t))
  {
    hide *;
    assert |s| == |multiset(s)| == |multiset(t)| == |t|;
    if s == [] {
      assert t == [];
    } else {
      var n := |s| - 1;
      assert s[n] in multiset(t);
      var j :| 0 <= j < |t| && t[j] == s[n];
      Sorting.MultisetWithout(s, n);
      Sorting.MultisetWithout(t, j);
      assert s[..n] + s[n + 1..] == s[..n];
      SumsPermute(s[..n], t[..j] + t[j + 1..]);
      SumWithout(t, j);
      SquaresWithout(t, j);
      SumWithout(Squares(t), j);
      SumSnoc(s);
      SquaresAt(s, n);
    }
  }

  /** Listing the firms in another order gives the same index. */
  lemma ConcentrationPermutes(s: seq<real>, t: seq<real>)
    requires multiset(s) == multiset(t) && Sum(s) != 0.0
    ensures Sum(t) != 0.0 && Concentration(s) == Concentration(t)
  {
    hide *;
    var total, q := Sum(s), Sum(Squares(s));
    SumsPermute(s, t);
    ConcentrationIsQuotient(s, total, q);
    ConcentrationIsQuotient(t, total, q);
  }

  lemma {:induction false} SumScales(s: seq<real>, t: seq<real>, c: real, total: real, scaled: real)
    requires |t| == |s| && forall i :: 0 <= i < |s| ==> t[i] == c * s[i]
    requires total == Sum(s) && scaled == Sum(t)
    ensures scaled == c * total
  {
    hide *;
    SumSnoc(s);
    SumSnoc(t);
    if s == [] {
      assert t == [];
    } else {
      var n := |s| - 1;
      SumScales(s[..n], t[..n], c, Sum(s[..n]), Sum(t[..n]));
      Distribute(c, Sum(s[..n]), s[n], Sum(t[..n]), t[n]);
    }
  }

  lemma Distribute(c: real, a: real, b: real, ca: real, cb: real)
    requires ca == c * a && cb == c * b
    ensures ca + cb == c * (a + b)
  {
  }

  /** Counting in other units gives the same index. */
  lemma ConcentrationScales(s: seq<real>, t: seq<real>, c: real)
    requires |t| == |s| && forall i :: 0 <= i < |s| ==> t[i] == c * s[i]
    requires c != 0.0 && Sum(s) != 0.0
    ensures Sum(t) != 0.0 && Concentration(t) == Concentration(s)
  {
    hide *;
    var total, scaled := Sum(s), Sum(t);
    SumScales(s, t, c, total, scaled);
    NonZeroProduct(c, total);
    forall i | 0 <= i < |s|
      ensures Shares(t)[i] == Shares(s)[i]
    {
      ShareAt(s, i);
      ShareAt(t, i);
      ScaledQuotient(s[i], total, c, t[i], scaled);
    }
    SameShares(s, t);
  }

  lemma SameShares(s: seq<real>, t: seq<real>)
    requires |t| == |s| && Sum(s) != 0.0 && Sum(t) != 0.0
    requires forall i :: 0 <= i < |s| ==> Shares(t)[i] == Shares(s)[i]
    ensures Concentration(t) == Concentration(s)
  {
    hide Shares;
    assert Shares(t) == Shares(s);
  }

  lemma NonZeroProduct(a: real, b: real)
    requires a != 0.0 && b != 0.0
    ensures a * b != 0.0
  {
  }

  /** Firm j taken over by firm i. */
  function Merged(s: seq<real>, i: nat, j: nat): seq<real>
    requires i < j < |s|
  {
    var t := s[i := s[i] + s[j]];
    t[..j] + t[j + 1..]
  }

  lemma {:induction false} SumUpdate(s: seq<real>, i: nat, x: real)
    requires i < |s|
    ensures Sum(s[i := x]) == Sum(s) - s[i] + x
  {
    var n := |s| - 1;
    if i < n {
      SumUpdate(s[..n], i, x);
      assert s[i := x][..n] == s[..n][i := x];
    } else {
      assert s[i := x][..n] == s[..n];
    }
  }

  lemma MergedSums(s: seq<real>, i: nat, j: nat, p: real)
    requires i < j < |s| && Squared(s[i] + s[j]) == Squared(s[i]) + Squared(s[j]) + 2.0 * p
    ensures Sum(Merged(s, i, j)) == Sum(s)
    ensures Sum(Squares(Merged(s, i, j))) == Sum(Squares(s)) + 2.0 * p
  {
    hide *;
    MergedIs(s, i, j);
    ReplacedSum(s, i, j, s[i] + s[j]);
    ReplacedSum(Squares(s), i, j, Squared(s[i] + s[j]));
    SquaresWithout(s, i);
    SquaresWithout(s, j);
  }

  /** One element replaced and another dropped. */
  lemma ReplacedSum(s: seq<real>, i: nat, j: nat, x: real)
    requires i < j < |s|
    ensures Sum(s[i := x][..j] + s[i := x][j + 1..]) == Sum(s) - s[i] - s[j] + x
  {
    SumUpdate(s, i, x);
    SumWithout(s[i := x], j);
  }

  lemma MergedIs(s: seq<real>, i: nat, j: nat)
    requires i < j < |s|
    ensures var t := s[i := s[i] + s[j]]; Merged(s, i, j) == t[..j] + t[j + 1..]
    ensures var q := Squares(s)[i := Squared(s[i] + s[j])]; Squares(Merged(s, i, j)) == q[..j] + q[j + 1..]
  {
    hide Squared;
  }

  lemma SquareOfSum(a: real, b: real, p: real)
    requires p == a * b
    ensures Squared(a + b) == Squared(a) + Squared(b) + 2.0 * p
  {
  }

  /** A merger raises the index by exactly 2 x 10000 x the product of the two shares. */
  lemma MergerRaisesConcentration(s: seq<real>, i: nat, j: nat, product: real)
    requires i < j < |s| && Sum(s) != 0.0
    requires product == Shares(s)[i] * Shares(s)[j]
    ensures Sum(Merged(s, i, j)) != 0.0
    ensures Concentration(Merged(s, i, j)) == Concentration(s) + 2.0 * product * 10000.0
  {
    hide *;
    var total, q, p := Sum(s), Sum(Squares(s)), s[i] * s[j];
    ShareAt(s, i);
    ShareAt(s, j);
    Square(total);
    ProductOfQuotients(s[i], s[j], total, Shares(s)[i], Shares(s)[j], total * total, p);
    SquareOfSum(s[i], s[j], p);
    MergedConcentration(s, i, j, p, total, total * total, product);
  }

  lemma MergedConcentration(s: seq<real>, i: nat, j: nat, p: real, total: real, squares: real, product: real)
    requires i < j < |s| && Squared(s[i] + s[j]) == Squared(s[i]) + Squared(s[j]) + 2.0 * p
    requires total == Sum(s) && total != 0.0 && squares == total * total && squares != 0.0 && product == p / squares
    ensures Sum(Merged(s, i, j)) == total
    ensures Concentration(Merged(s, i, j)) == Concentration(s) + 2.0 * product * 10000.0
  {
    hide *;
    var q := Sum(Squares(s));
    MergedSums(s, i, j, p);
    ConcentrationIsQuotient(s, total, q);
    ConcentrationIsQuotient(Merged(s, i, j), total, q + 2.0 * p);
    MergeStep(q, p, squares, product);
  }

  lemma MergeStep(q: real, p: real, squares: real, product: real)
    requires squares != 0.0 && product == p / squares
    ensures (q + 2.0 * p) / squares * 10000.0 == q / squares * 10000.0 + 2.0 * product * 10000.0
  {
    AddQuotients(q, 2.0 * p, squares);
    var u := 2.0 * p / squares;
    assert u * squares == 2.0 * p && product * squares == p;
    Cancel(u, 2.0 * product, squares);
  }

  lemma ShareAt(s: seq<real>, i: nat)
    requires i < |s| && Sum(s) != 0.0
    ensures Shares(s)[i] == s[i] / Sum(s)
  {
  }

  lemma ProductOfQuotients(a: real, b: real, t: real, u: real, v: real, squares: real, p: real)
    requires t != 0.0 && u == a / t && v == b / t && squares == t * t && squares != 0.0 && p == a * b
    ensures u * v == p / squares
  {
    assert u * t == a && v * t == b;
    var w := p / squares;
    assert w * squares == p;
    assert u * v * squares == (u * t) * (v * t);
    Cancel(u * v, w, squares);
  }

  // ----- few firms

  /** A market of 2 to n products never has an index below 10000/n, even after rounding. */
  lemma HhiAtLeast(products: seq<Product>, floor: int)
    requires 2 <= |products| && 0 <= floor && |products| * floor <= 10000
    ensures Hhi(products) >= floor as real
  {
    var s := Reviews(products);
    SumAtLeast(s);
    hide Concentration, Reviews, Sum;
    ConcentrationBounds(s);
    assert 10000.0 / |s| as real >= floor as real by {
      FloorOfQuotient(|s| as real, floor as real);
    }
    Round2Monotone(floor as real, Concentration(s));
    RoundToInteger(floor as real * 100.0, floor * 100);
  }

  lemma FloorOfQuotient(n: real, floor: real)
    requires 0.0 < n && n * floor <= 10000.0
    ensures floor <= 10000.0 / n
  {
    var q := 10000.0 / n;
    assert q * n == 10000.0;
    if floor > q {
      SignOfProduct(floor - q, n);
    }
  }

  /** The fewer the products, the lower the best competition score and the higher the barrier. */
  lemma FewFirmsCapTheScore(products: seq<Product>)
    requires 2 <= |products|
    ensures |products| <= 10 ==> CompetitionScore(Hhi(products)) <= 15.0
    ensures |products| <= 9 ==> BarrierOf(Hhi(products)) != LowBarrier
    ensures |products| <= 5 ==> CompetitionScore(Hhi(products)) <= 8.0
    ensures |products| <= 4 ==> BarrierOf(Hhi(products)) == HighBarrier
    ensures |products| <= 3 ==> CompetitionScore(Hhi(products)) == 3.0
  {
    hide Hhi;
    if |products| <= 3 {
      HhiAtLeast(products, 3333);
    } else if |products| == 4 {
      HhiAtLeast(products, 2500);
    } else if |products| == 5 {
      HhiAtLeast(products, 2000);
    } else if |products| <= 9 {
      HhiAtLeast(products, 1111);
    } else if |products| == 10 {
      HhiAtLeast(products, 1000);
    }
  }

  /** A lone product is scored as a fully competitive market: index 0, top tier, low barrier. */
  lemma MonopolyLooksCompetitive(products: seq<Product>)
    requires |products| == 1
    ensures Hhi(products) == 0.0 && CompetitionScore(Hhi(products)) == 22.0
    ensures AnalyzeLandscape(products).barrier == LowBarrier
    ensures Concentration(Reviews(products)) == 10000.0
  {
    var s := Reviews(products);
    SumAtLeast(s);
    ShareAt(s, 0);
    assert Sum(s) == Sum(s[..0]) + s[0] == s[0];
    SquareOfQuotient(s[0], s[0], s[0] * s[0], 1.0);
    assert Shares(s) == [1.0];
    SquaresAt(Shares(s), 0);
    assert Squares(Shares(s)) == [1.0];
    assert Sum([1.0]) == Sum([1.0][..0]) + 1.0;
  }

  // ----- the whole pipeline

  lemma TrendRanges(products: seq<Product>)
    ensures var t := IdentifyTrends(products);
      0 <= t.strength <= 100 && 50 <= t.confidence <= 95 && t.confidence <= 50 + |products| / 2
  {
    if products != [] {
      var ratings := Ratings(products);
      var n := if |ratings| == 0 then 1 else |ratings|;
      RatioRange(AtLeast(ratings, 4.0) as real, n as real, HighRatingRatio(ratings));
    }
  }

  lemma {:induction false} MinBelowMax(s: seq<real>)
    requires s != []
    ensures MinOf(s) <= MaxOf(s)
    ensures forall x :: x in s ==> MinOf(s) <= x <= MaxOf(s)
    ensures MinOf(s) in s && MaxOf(s) in s
  {
    if |s| > 1 {
      MinBelowMax(s[1..]);
      assert s == [s[0]] + s[1..];
    }
  }

  /** Each part of the score stays in its range, so no run scores above 96.375 of the nominal 100. */
  lemma ScoreRanges(som: real, products: seq<Product>)
    ensures var o := Assess(som, products);
      && 0.0 < o.size <= 25.0
      && 6.25 <= o.growth <= 24.375
      && 3.0 <= o.competition <= 22.0
      && 0.0 < o.margin <= 25.0
      && 9.25 < o.overall <= 96.375
      && o.overall == o.size + o.growth + o.competition + o.margin
  {
    TrendRanges(products);
    hide Hhi, IdentifyTrends, Prices, Ratings;
    if products != [] && Prices(products) != [] {
      MinBelowMax(Prices(products));
    }
  }

  /** "Strongly recommended" takes at least four products: with fewer, some part always falls short. */
  lemma StrongRecommendationNeedsFourProducts(som: real, products: seq<Product>)
    ensures Assess(som, products).recommendation == StrongRecommend ==> |products| >= 4
  {
    TrendRanges(products);
    ScoreRanges(som, products);
    if 2 <= |products| {
      FewFirmsCapTheScore(products);
    }
    if |products| == 1 {
      SinglePrice(products);
    }
    hide Hhi, Prices, Ratings, Capped, CompetitionScore;
  }

  lemma SinglePrice(products: seq<Product>)
    requires |products| == 1
    ensures AnalyzeLandscape(products).high == AnalyzeLandscape(products).low
  {
    var values := PriceFields(products);
    assert Present(values[..0]) == [];
    assert |Present(values)| <= 1;
  }

  /** Four is enough: four equal, well-rated products across a 100-wide price band score 77. */
  lemma FourProductsCanBeStronglyRecommended() returns (products: seq<Product>)
    ensures |products| == 4
    ensures Assess(100000000.0, products).recommendation == StrongRecommend
    ensures Assess(100000000.0, products).overall == 77.0
  {
    var cheap, dear := Product(Some(10.0), Some(5.0), Some(1)), Product(Some(110.0), Some(5.0), Some(1));
    products := [cheap, cheap, cheap, dear];
    FourEqualReviews(products);
    FourFields(RatingFields(products), 5.0, 5.0, 5.0, 5.0);
    FourFields(PriceFields(products), 10.0, 10.0, 10.0, 110.0);
    Suffixes(5.0, 5.0, 5.0, 5.0);
    Suffixes(10.0, 10.0, 10.0, 110.0);
    assert HighRatingRatio(Ratings(products)) == 1.0;
    hide Hhi, Prices, Ratings, HighRatingRatio, Mean, MinOf, MaxOf;
    var trend := IdentifyTrends(products);
    assert trend.strength == 100 && trend.confidence == 52;
    assert AnalyzeLandscape(products).hhi == 2500.0;
  }

  lemma FourEqualReviews(products: seq<Product>)
    requires |products| == 4 && forall i :: 0 <= i < 4 ==> products[i].reviewCount == Some(1)
    ensures Hhi(products) == 2500.0
  {
    var s := Reviews(products);
    SumAtLeast(s);
    ConcentrationBounds(s);
    RoundToInteger(250000.0, 250000);
  }

  lemma FourFields(values: seq<Option<real>>, a: real, b: real, c: real, d: real)
    requires values == [Some(a), Some(b), Some(c), Some(d)]
    requires a != 0.0 && b != 0.0 && c != 0.0 && d != 0.0
    ensures Present(values) == [a, b, c, d]
  {
    var one, two, three := [Some(a)], [Some(a), Some(b)], [Some(a), Some(b), Some(c)];
    assert one[..0] == [] && two[..1] == one && three[..2] == two && values[..3] == three;
    assert Present(one) == [a];
    assert Present(two) == [a, b];
    assert Present(three) == [a, b, c];
  }

  lemma Suffixes(a: real, b: real, c: real, d: real)
    requires a == b == c <= d
    ensures MinOf([a, b, c, d]) == a && MaxOf([a, b, c, d]) == d
    ensures 4.0 <= a ==> AtLeast([a, b, c, d], 4.0) == 4
  {
    assert [a, b, c, d][1..] == [b, c, d] && [b, c, d][1..] == [c, d] && [c, d][1..] == [d] && [d][1..] == [];
    assert MinOf([c, d]) == c && MaxOf([c, d]) == d;
    assert MinOf([b, c, d]) == c && MaxOf([b, c, d]) == d;
    assert 4.0 <= a ==> AtLeast([d], 4.0) == 1;
    assert 4.0 <= a ==> AtLeast([c, d], 4.0) == 2;
    assert 4.0 <= a ==> AtLeast([b, c, d], 4.0) == 3;
  }
}
