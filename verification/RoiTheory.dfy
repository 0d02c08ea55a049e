/** What the ROI report means: closed forms, payback, the root behind the IRR, and the verdict. */
module RoiTheory {
  import opened Numbers
  import opened Roi

  // ----- discounting is strictly decreasing in the rate

  lemma QuotientAntitone(f: real, a: real, b: real)
    requires 0.0 <= f && 0.0 < a <= b
    ensures f / b <= f / a
    ensures 0.0 < f && a < b ==> f / b < f / a
  {
    QuotientOrder(f, f / a, f / b, a, b);
  }

  lemma NegativeProduct(u: real, a: real)
    requires 0.0 < a
    ensures u < 0.0 ==> u * a < 0.0
  {
  }

  lemma QuotientOrder(f: real, u: real, v: real, a: real, b: real)
    requires 0.0 <= f && 0.0 < a <= b && u * a == f && v * b == f
    ensures 0.0 <= v <= u
    ensures 0.0 < f && a < b ==> v < u
  {
    if v < 0.0 || u < 0.0 {
      NegativeProduct(u, a);
      NegativeProduct(v, b);
    }
    if u < v {
      ProductStrict(u, v, a, b);
    }
    if 0.0 < f && a < b && u == v {
      ProductStrict(a, b, u, u);
    }
  }

  lemma {:induction false} PresentValueAntitone(flows: seq<real>, d: real, e: real)
    requires NonNegative(flows)
    requires 0.0 < d < e
    ensures PresentValue(flows, e) <= PresentValue(flows, d)
    ensures SomePositive(flows) ==> PresentValue(flows, e) < PresentValue(flows, d)
  {
    var n := |flows|;
    if n != 0 {
      PresentValueAntitone(flows[..n - 1], d, e);
      PowBounds(d, n);
      PowMonotone(d, e, n);
      QuotientAntitone(flows[n - 1], Pow(d, n), Pow(e, n));
      if SomePositive(flows) && flows[n - 1] == 0.0 {
        var i :| 0 <= i < n && 0.0 < flows[i];
        assert 0.0 < flows[..n - 1][i];
      }
    }
  }

  lemma NpvAntitone(flows: seq<real>, investment: real, root: real -> real, r: real, s: real)
    requires TwelfthRoot(root)
    requires NonNegative(flows)
    requires -1.0 < r <= s
    ensures Npv(flows, investment, root, s) <= Npv(flows, investment, root, r)
    ensures SomePositive(flows) && r < s ==> Npv(flows, investment, root, s) < Npv(flows, investment, root, r)
  {
    if r < s {
      RootPositive(root, 1.0 + r);
      RootMonotone(root, 1.0 + r, 1.0 + s);
      PresentValueAntitone(flows, root(1.0 + r), root(1.0 + s));
    }
  }

  // ----- the bisection

  lemma {:induction false} DoubledPower(w: real, k: nat)
    ensures Doubled(w, k) == w * Pow(2.0, k)
  {
    if k != 0 {
      DoubledPower(w, k - 1);
    }
  }

  lemma {:induction false} DoubledAdd(w: real, j: nat, k: nat)
    ensures Doubled(w, j + k) == Doubled(Doubled(w, j), k)
    ensures 0.0 <= w ==> w <= Doubled(w, k)
  {
    if k != 0 {
      DoubledAdd(w, j, k - 1);
    }
  }

  lemma NarrowBracket(w: real)
    requires 0.0 < w && Doubled(w, STEPS) == 5.5
    ensures w <= 0.0000055
  {
    DoubledAdd(w, 20, 80);
    DoubledAdd(Doubled(w, 20), 0, 80);
    DoubledAdd(w, 10, 10);
    assert Pow(2.0, 10) == 1024.0;
    DoubledPower(w, 10);
    DoubledPower(Doubled(w, 10), 10);
  }

  /** A rate with zero net present value is the only one, and lies in the final interval. */
  lemma IrrFindsTheRoot(flows: seq<real>, investment: real, root: real -> real, low: real, high: real, rate: real)
    requires TwelfthRoot(root)
    requires NonNegative(flows) && SomePositive(flows)
    requires Bracket(flows, investment, root, low, high, STEPS)
    requires LOW_RATE <= rate <= HIGH_RATE && Npv(flows, investment, root, rate) == 0.0
    ensures low <= rate <= high
    ensures -(high - low) / 2.0 <= (low + high) / 2.0 - rate <= (high - low) / 2.0
    ensures Doubled((high - low) / 2.0, STEPS + 1) == 5.5 && STEPS == 100
    ensures forall other :: -1.0 < other && Npv(flows, investment, root, other) == 0.0 ==> other == rate
  {
    if rate < low {
      NpvAntitone(flows, investment, root, rate, low);
      assert false;
    }
    if high < rate {
      NpvAntitone(flows, investment, root, high, rate);
      assert false;
    }
    HalvedWidth(high - low, STEPS);
    forall other | -1.0 < other && Npv(flows, investment, root, other) == 0.0
      ensures other == rate
    {
      if other < rate {
        NpvAntitone(flows, investment, root, other, rate);
      } else if rate < other {
        NpvAntitone(flows, investment, root, rate, other);
      }
    }
  }

  /** Given a sign change over the whole range, every rate outside the final interval is on its own side of it. */
  lemma SignChangeIsBracketed(flows: seq<real>, investment: real, root: real -> real, low: real, high: real)
    requires TwelfthRoot(root) && NonNegative(flows)
    requires Bracket(flows, investment, root, low, high, STEPS)
    requires Npv(flows, investment, root, LOW_RATE) > 0.0 >= Npv(flows, investment, root, HIGH_RATE)
    ensures forall rate :: -1.0 < rate <= low ==> Npv(flows, investment, root, rate) > 0.0
    ensures forall rate :: high <= rate ==> Npv(flows, investment, root, rate) <= 0.0
    ensures high - low <= 0.0000055
  {
    NarrowBracket(high - low);
    forall rate | -1.0 < rate <= low
      ensures Npv(flows, investment, root, rate) > 0.0
    {
      NpvAntitone(flows, investment, root, rate, low);
    }
    forall rate | high <= rate
      ensures Npv(flows, investment, root, rate) <= 0.0
    {
      NpvAntitone(flows, investment, root, high, rate);
    }
  }

  /** With no sign change the bisection runs into an end, reported as 500.0 or -50.0 per cent. */
  lemma IrrSaturates(flows: seq<real>, investment: real, root: real -> real, irr: real)
    requires TwelfthRoot(root)
    requires NonNegative(flows)
    requires IsIrr(flows, investment, root, irr)
    ensures Npv(flows, investment, root, HIGH_RATE) > 0.0 ==> irr == 500.0
    ensures Npv(flows, investment, root, LOW_RATE) <= 0.0 ==> irr == -50.0
  {
    var low, high :| Bracket(flows, investment, root, low, high, STEPS) && irr == Round1((low + high) / 2.0 * 100.0);
    NarrowBracket(high - low);
    var scaled := (low + high) / 2.0 * 100.0 * 10.0;
    if Npv(flows, investment, root, HIGH_RATE) > 0.0 {
      NpvAntitone(flows, investment, root, high, HIGH_RATE);
      RoundToInteger(scaled, 5000);
    }
    if Npv(flows, investment, root, LOW_RATE) <= 0.0 {
      NpvAntitone(flows, investment, root, LOW_RATE, low);
      RoundToInteger(scaled, -500);
    }
  }

  /** A loss-making projection with a nonnegative investment always reports -50.0 per cent. */
  lemma LossesSaturateBelow(flows: seq<real>, investment: real, root: real -> real, irr: real)
    requires TwelfthRoot(root)
    requires forall i :: 0 <= i < |flows| ==> flows[i] <= 0.0
    requires 0.0 <= investment
    requires IsIrr(flows, investment, root, irr)
    ensures irr == -50.0
  {
    var low, high :| Bracket(flows, investment, root, low, high, STEPS) && irr == Round1((low + high) / 2.0 * 100.0);
    RootPositive(root, 1.0 + low);
    NonPositiveValue(flows, root(1.0 + low));
    NarrowBracket(high - low);
    RoundToInteger((low + high) / 2.0 * 100.0 * 10.0, -500);
  }

  lemma {:induction false} NonPositiveValue(flows: seq<real>, d: real)
    requires 0.0 < d
    requires forall i :: 0 <= i < |flows| ==> flows[i] <= 0.0
    ensures PresentValue(flows, d) <= 0.0
  {
    var n := |flows|;
    if n != 0 {
      NonPositiveValue(flows[..n - 1], d);
      PowBounds(d, n);
      NegativeQuotient(flows[n - 1], Pow(d, n), flows[n - 1] / Pow(d, n));
    }
  }

  lemma NegativeQuotient(f: real, a: real, v: real)
    requires f <= 0.0 < a && v * a == f
    ensures v <= 0.0
  {
    if 0.0 < v {
      ProductBounds(v, a);
    }
  }

  /** Where the bisection ends, seen from any rate: on its side, up to the width of the final interval. */
  lemma MidpointClears(flows: seq<real>, investment: real, root: real -> real, low: real, high: real, rate: real)
    requires TwelfthRoot(root) && NonNegative(flows) && Bracket(flows, investment, root, low, high, STEPS)
    requires LOW_RATE <= rate <= HIGH_RATE
    ensures Npv(flows, investment, root, rate) > 0.0 ==> (low + high) / 2.0 >= rate - 0.000006
    ensures Npv(flows, investment, root, rate) <= 0.0 ==> (low + high) / 2.0 <= rate + 0.000006
  {
    NarrowBracket(high - low);
    if Npv(flows, investment, root, rate) > 0.0 {
      if high < rate {
        NpvAntitone(flows, investment, root, high, rate);
      }
    } else if rate < low {
      NpvAntitone(flows, investment, root, rate, low);
    }
  }

  /** The reported IRR is on the right side of any rate, up to its own rounding. */
  lemma IrrClearsRate(flows: seq<real>, investment: real, root: real -> real, irr: real, rate: real)
    requires TwelfthRoot(root) && NonNegative(flows) && IsIrr(flows, investment, root, irr)
    requires LOW_RATE <= rate <= HIGH_RATE
    ensures Npv(flows, investment, root, rate) > 0.0 ==> irr >= Round1((rate - 0.000006) * 100.0)
    ensures Npv(flows, investment, root, rate) <= 0.0 ==> irr <= Round1((rate + 0.000006) * 100.0)
  {
    hide Npv, NonNegative, TwelfthRoot, Bracket;
    var low, high :| Bracket(flows, investment, root, low, high, STEPS) && irr == Round1((low + high) / 2.0 * 100.0);
    MidpointClears(flows, investment, root, low, high, rate);
    var mid := (low + high) / 2.0;
    hide Round1;
    if Npv(flows, investment, root, rate) > 0.0 {
      Round1Monotone((rate - 0.000006) * 100.0, mid * 100.0);
    } else {
      Round1Monotone(mid * 100.0, (rate + 0.000006) * 100.0);
    }
  }

  lemma TenthsRound(tenths: int, rate: real)
    requires rate == tenths as real / 1000.0
    ensures Round1((rate - 0.000006) * 100.0) == tenths as real / 10.0 == Round1((rate + 0.000006) * 100.0)
  {
    RoundToInteger((rate - 0.000006) * 100.0 * 10.0, tenths);
    RoundToInteger((rate + 0.000006) * 100.0 * 10.0, tenths);
  }

  /** The reported IRR clears any rate, in tenths of a per cent, at which the flows still pay. */
  lemma IrrClears(flows: seq<real>, investment: real, root: real -> real, irr: real, tenths: int)
    requires TwelfthRoot(root)
    requires NonNegative(flows)
    requires IsIrr(flows, investment, root, irr)
    requires -500 <= tenths <= 5000
    ensures Npv(flows, investment, root, tenths as real / 1000.0) > 0.0 ==> irr >= tenths as real / 10.0
    ensures Npv(flows, investment, root, tenths as real / 1000.0) <= 0.0 ==> irr <= tenths as real / 10.0
  {
    hide Npv, IsIrr, Round1, NonNegative, TwelfthRoot;
    IrrClearsRate(flows, investment, root, irr, tenths as real / 1000.0);
    TenthsRound(tenths, tenths as real / 1000.0);
  }

  // ----- closed forms of the running totals

  lemma GrowingAt(profit: real, q: real, i: nat)
    ensures Growing(profit, q)(i) == profit * Pow(q, i)
  {
  }

  /** Both totals of the loop equal their geometric sums, cleared of denominators. */
  lemma {:induction false} SumClosedForm(profit: real, q: real, n: nat, total: real, power: real)
    requires total == Sum(Flows(Growing(profit, q), n)) && power == Pow(q, n)
    ensures (q - 1.0) * total == profit * (power - 1.0)
  {
    hide *;
    var flow := Growing(profit, q);
    PowUnfold(q, n);
    FlowsAppended(flow, n, 1.0);
    if n != 0 {
      var before, previous := Sum(Flows(flow, n - 1)), Pow(q, n - 1);
      SumClosedForm(profit, q, n - 1, before, previous);
      GrowingAt(profit, q, n - 1);
      SumAppended(Flows(flow, n - 1), flow(n - 1));
      GeometricStep(profit, q, previous, power, before, flow(n - 1), total);
    }
  }

  lemma {:induction false} PresentValueClosedForm(profit: real, q: real, d: real, n: nat,
      value: real, power: real, divisor: real)
    requires 0.0 < d
    requires value == PresentValue(Flows(Growing(profit, q), n), d)
    requires power == Pow(q, n) && divisor == Pow(d, n)
    ensures (q - d) * value * divisor == profit * (power - divisor)
  {
    hide *;
    var flow := Growing(profit, q);
    PowUnfold(q, n);
    PowUnfold(d, n);
    FlowsAppended(flow, n, d);
    if n != 0 {
      var before, previous, smaller := PresentValue(Flows(flow, n - 1), d), Pow(q, n - 1), Pow(d, n - 1);
      PresentValueClosedForm(profit, q, d, n - 1, before, previous, smaller);
      GrowingAt(profit, q, n - 1);
      PresentValueAppended(Flows(flow, n - 1), flow(n - 1), d);
      DiscountedStep(profit, q, d, previous, power, smaller, divisor, before, flow(n - 1), value);
    }
  }

  lemma GeometricStep(p: real, q: real, qn: real, qm: real, s: real, f: real, t: real)
    requires (q - 1.0) * s == p * (qn - 1.0) && f == p * qn && qm == q * qn && t == s + f
    ensures (q - 1.0) * t == p * (qm - 1.0)
  {
  }

  lemma DiscountedStep(p: real, q: real, d: real, qn: real, qm: real, dn: real, dm: real, v: real, f: real, w: real)
    requires (q - d) * v * dn == p * (qn - dn)
    requires f == p * qn && dm == d * dn && qm == q * qn && 0.0 < dm && w == v + f / dm
    ensures (q - d) * w * dm == p * (qm - dm)
  {
    var u := f / dm;
    assert u * dm == f;
    calc {
      (q - d) * (v + u) * dm;
      (q - d) * v * dn * d + (q - d) * (u * dm);
      p * (qn - dn) * d + (q - d) * (p * qn);
      p * (q * qn - d * dn);
    }
  }

  /** After three years the present value is fixed by the two yearly factors and the two roots. */
  lemma NpvClosedForm(profit: real, growth: real, root: real -> real, q: real, d: real, npv: real,
      growthCubed: real, discountCubed: real)
    requires TwelfthRoot(root) && 0.0 <= growth
    requires q == root(growth) && d == root(1.1) && 0.0 < d
    requires npv == PresentValue(Flows(Growing(profit, q), MONTHS), d)
    requires growthCubed == growth * growth * growth && discountCubed == 1.1 * 1.1 * 1.1
    ensures (q - d) * npv * discountCubed == profit * (growthCubed - discountCubed)
  {
    RootCubed(root, growth);
    RootCubed(root, 1.1);
    PresentValueClosedForm(profit, q, d, MONTHS, npv, growthCubed, discountCubed);
  }

  // ----- payback and undiscounted totals

  lemma {:induction false} FlowsAt(flow: nat -> real, n: nat)
    ensures forall i :: 0 <= i < n ==> Flows(flow, n)[i] == flow(i)
  {
    if n != 0 {
      FlowsAt(flow, n - 1);
    }
  }

  lemma {:induction false} SumAtLeast(flows: seq<real>, least: real, total: real, n: real)
    requires forall i :: 0 <= i < |flows| ==> least <= flows[i]
    requires total == Sum(flows) && n == |flows| as real
    ensures least * n <= total
  {
    if |flows| != 0 {
      var shorter := flows[..|flows| - 1];
      SumAtLeast(shorter, least, Sum(shorter), n - 1.0);
      OneMore(least, n - 1.0, n);
    }
  }

  lemma GrowingAtLeast(profit: real, q: real)
    requires 0.0 <= profit && 1.0 <= q
    ensures forall i: nat :: profit <= Growing(profit, q)(i)
  {
    forall i: nat
      ensures profit <= Growing(profit, q)(i)
    {
      PowBounds(q, i);
      ProductMonotone(profit, profit, 1.0, Pow(q, i));
    }
  }

  lemma OneMore(p: real, a: real, b: real)
    requires b == a + 1.0
    ensures p * b == p * a + p
  {
  }

  /** With growth the cumulative cash flow is back above zero from the payback month on, for good. */
  lemma PaybackIsPaidBack(x: Inputs, root: real -> real, month: nat)
    requires TwelfthRoot(root)
    requires 0.0 <= x.growthPct && 0.0 < x.Profit()
    requires PaybackMonths(x.investment, x.Profit()) <= month as real
    ensures 0.0 <= Sum(Flows(Growing(x.Profit(), root(x.Growth())), month)) - x.investment
  {
    hide *;
    var p := x.Profit();
    GrowthAtLeastOne(x);
    RootAtLeastOne(root, x.Growth());
    GrowingAtLeast(p, root(x.Growth()));
    var flow := Growing(p, root(x.Growth()));
    FlowsAt(flow, month);
    var total := Sum(Flows(flow, month));
    SumAtLeast(Flows(flow, month), p, total, month as real);
    PaybackIs(x.investment, p);
    PaidBack(x.investment, p, x.investment / p, month as real, total);
  }

  lemma GrowthAtLeastOne(x: Inputs)
    requires 0.0 <= x.growthPct
    ensures 1.0 <= x.Growth()
  {
  }

  lemma PaidBack(investment: real, profit: real, months: real, month: real, total: real)
    requires 0.0 < profit && months == investment / profit && months <= month && profit * month <= total
    ensures investment <= total
  {
    assert months * profit == investment;
    ProductGap(month - months, profit);
  }

  lemma {:induction false} DiscountingLoses(flows: seq<real>, d: real)
    requires NonNegative(flows) && 1.0 <= d
    ensures 0.0 <= PresentValue(flows, d) <= Sum(flows)
  {
    var n := |flows|;
    if n != 0 {
      DiscountingLoses(flows[..n - 1], d);
      PowBounds(d, n);
      QuotientOrder(flows[n - 1], flows[n - 1] / 1.0, flows[n - 1] / Pow(d, n), 1.0, Pow(d, n));
    }
  }

  // ----- net present value against the rate of return

  /** Without rounding, the value at ten per cent beats the investment iff the root exceeds ten per cent. */
  lemma NpvBeatsInvestmentIffRootAboveTen(flows: seq<real>, investment: real, root: real -> real, rate: real)
    requires TwelfthRoot(root) && 0.0 < root(1.0 + DISCOUNT_RATE)
    requires NonNegative(flows) && SomePositive(flows)
    requires LOW_RATE <= rate <= HIGH_RATE && Npv(flows, investment, root, rate) == 0.0
    ensures PresentValue(flows, root(1.0 + DISCOUNT_RATE)) > investment <==> rate > DISCOUNT_RATE
  {
    if rate <= DISCOUNT_RATE {
      NpvAntitone(flows, investment, root, rate, DISCOUNT_RATE);
    } else {
      NpvAntitone(flows, investment, root, DISCOUNT_RATE, rate);
    }
  }

  /** Rounding each flow to cents moves a present value by at most half a cent per month. */
  lemma {:induction false} RoundingGap(flows: seq<real>, d: real, rounded: real, exact: real, n: real)
    requires 1.0 <= d && n == |flows| as real
    requires rounded == PresentValue(RoundAll(flows), d) && exact == PresentValue(flows, d)
    ensures -0.005 * n <= rounded - exact <= 0.005 * n
  {
    if |flows| != 0 {
      var k := |flows|;
      var shorter := flows[..k - 1];
      assert RoundAll(flows)[..k - 1] == RoundAll(shorter);
      var rounded', exact' := PresentValue(RoundAll(shorter), d), PresentValue(shorter, d);
      RoundingGap(shorter, d, rounded', exact', n - 1.0);
      PowBounds(d, k);
      var flow, cents, divisor := flows[k - 1], Round2(flows[k - 1]), Pow(d, k);
      Round2Near(flow);
      QuotientGap(cents, flow, divisor, cents / divisor, flow / divisor);
    }
  }

  lemma QuotientGap(a: real, b: real, d: real, u: real, v: real)
    requires 1.0 <= d && -0.005 <= a - b <= 0.005 && u == a / d && v == b / d
    ensures -0.005 <= u - v <= 0.005
  {
    var w := u - v;
    assert w * d == a - b;
    if w > 0.005 {
      ProductStrict(0.005, w, 1.0, d);
    } else if w < -0.005 {
      ProductStrict(0.005, -w, 1.0, d);
    }
  }

  /** The reported NPV and the reported IRR agree about ten per cent, outside an 18-cent band. */
  lemma NpvAndIrrAgree(x: Inputs, root: real -> real, r: Report)
    requires TwelfthRoot(root) && 0.0 <= x.Growth() && (0.0 <= x.Profit() || 0.0 <= x.investment)
    requires ReportFor(x, root, r)
    ensures r.npv > x.investment + 0.18 ==> r.irr >= 10.0
    ensures r.npv <= x.investment - 0.18 ==> r.irr <= 10.0
  {
    var flow := Growing(x.Profit(), root(x.Growth()));
    var flows := Flows(flow, MONTHS);
    RootAtLeastOne(root, 1.1);
    if x.Profit() < 0.0 {
      FlowsAreLosses(flow, x.Profit(), root(x.Growth()));
      LossesSaturateBelow(RoundAll(flows), x.investment, root, r.irr);
      NonPositiveValue(flows, root(1.1));
    } else {
      RoundingGap(flows, root(1.1), PresentValue(RoundAll(flows), root(1.1)), r.npv, 36.0);
      GrowingNonNegative(x.Profit(), root(x.Growth()));
      RoundedFlows(flow, MONTHS, 0.0);
      IrrClears(RoundAll(flows), x.investment, root, r.irr, 100);
    }
  }

  /** Flows that are never positive stay so when rounded to cents. */
  lemma RoundedLosses(flows: seq<real>)
    requires forall i :: 0 <= i < |flows| ==> flows[i] <= 0.005
    ensures forall i :: 0 <= i < |flows| ==> RoundAll(flows)[i] <= 0.0
  {
    forall i | 0 <= i < |flows|
      ensures RoundAll(flows)[i] <= 0.0
    {
      RoundMonotone(flows[i] * 100.0, 0.5);
    }
  }

  lemma LossTimes(profit: real, power: real, flow: real)
    requires profit <= 0.0 <= power && flow == profit * power
    ensures flow <= 0.0
  {
    ProductBounds(-profit, power);
    assert flow == -(-profit * power);
  }

  lemma FlowsAreLosses(flow: nat -> real, profit: real, q: real)
    requires profit <= 0.0 <= q && flow == Growing(profit, q)
    ensures forall i :: 0 <= i < MONTHS ==> Flows(flow, MONTHS)[i] <= 0.0
    ensures forall i :: 0 <= i < MONTHS ==> RoundAll(Flows(flow, MONTHS))[i] <= 0.0
  {
    hide Flows, Growing, Pow, RoundAll;
    FlowsAt(flow, MONTHS);
    forall i | 0 <= i < MONTHS
      ensures Flows(flow, MONTHS)[i] <= 0.0
    {
      PowBounds(q, i);
      GrowingAt(profit, q, i);
      LossTimes(profit, Pow(q, i), flow(i));
    }
    RoundedLosses(Flows(flow, MONTHS));
  }

  lemma GrowingNonNegative(profit: real, q: real)
    requires 0.0 <= profit && 0.0 <= q
    ensures forall i: nat :: 0.0 <= Growing(profit, q)(i)
  {
    forall i: nat
      ensures 0.0 <= Growing(profit, q)(i)
    {
      PowBounds(q, i);
      ProductBounds(profit, Pow(q, i));
    }
  }

  lemma RoundedFlows(flow: nat -> real, n: nat, least: real)
    requires forall i: nat :: least <= flow(i)
    ensures forall i :: 0 <= i < n ==> Round2(least) <= RoundAll(Flows(flow, n))[i]
  {
    FlowsAt(flow, n);
    forall i | 0 <= i < n
      ensures Round2(least) <= RoundAll(Flows(flow, n))[i]
    {
      assert least <= flow(i);
      Round2Monotone(least, flow(i));
    }
  }

  // ----- the verdict

  lemma {:induction false} PresentValueMonotone(low: seq<real>, high: seq<real>, d: real)
    requires 0.0 < d && |low| == |high|
    requires forall i :: 0 <= i < |low| ==> low[i] <= high[i]
    ensures PresentValue(low, d) <= PresentValue(high, d)
  {
    var n := |low|;
    if n != 0 {
      PresentValueMonotone(low[..n - 1], high[..n - 1], d);
      PowBounds(d, n);
      QuotientMonotone(low[n - 1], high[n - 1], Pow(d, n));
    }
  }

  /** Three years of one cash flow a month: the annuity formula, cleared of denominators. */
  lemma FlatValue(each: real, root: real -> real, factor: real, d: real, value: real, cubed: real)
    requires TwelfthRoot(root) && 0.0 < factor && d == root(factor) && 0.0 < d
    requires value == PresentValue(Flows(Growing(each, 1.0), MONTHS), d)
    requires cubed == factor * factor * factor
    ensures (d - 1.0) * value * cubed == each * (cubed - 1.0)
  {
    RootCubed(root, factor);
    PowOne(MONTHS);
    PresentValueClosedForm(each, 1.0, d, MONTHS, value, 1.0, cubed);
    hide *;
    assert (d - 1.0) * value * cubed == -((1.0 - d) * value * cubed);
  }

  lemma FlatFlows(each: real)
    ensures forall i :: 0 <= i < MONTHS ==> Flows(Growing(each, 1.0), MONTHS)[i] == each
  {
    FlowsAt(Growing(each, 1.0), MONTHS);
    forall i | 0 <= i < MONTHS
      ensures Growing(each, 1.0)(i) == each
    {
      PowOne(i);
    }
  }

  /** v months' worth of flows, from the annuity formula and a bound on the monthly rate. */
  lemma AnnuityAtLeast(v: real, each: real, d: real, cubed: real, excess: real, months: real)
    requires 1.0 < d <= 1.0 + excess && 1.0 < cubed && 0.0 <= each && 0.0 <= months
    requires (d - 1.0) * v * cubed == each * (cubed - 1.0)
    requires months * (excess * cubed) <= cubed - 1.0
    ensures months * each <= v
  {
    var rate, goal := (d - 1.0) * cubed, months * each;
    assert rate * v == each * (cubed - 1.0);
    ProductMonotone(d - 1.0, excess, cubed, cubed);
    ProductMonotone(months, months, rate, excess * cubed);
    ProductMonotone(each, each, months * rate, cubed - 1.0);
    assert rate * goal == each * (months * rate);
    ProductBounds(d - 1.0, cubed);
    CancelOrder(rate, goal, v);
  }

  lemma AnnuityAtMost(v: real, each: real, d: real, cubed: real, excess: real, months: real)
    requires 1.0 + excess <= d && 0.0 < excess && 1.0 < cubed && 0.0 <= each && 0.0 <= months
    requires (d - 1.0) * v * cubed == each * (cubed - 1.0)
    requires cubed - 1.0 <= months * (excess * cubed)
    ensures v <= months * each
  {
    var rate, goal := (d - 1.0) * cubed, months * each;
    assert rate * v == each * (cubed - 1.0);
    ProductMonotone(excess, d - 1.0, cubed, cubed);
    ProductBounds(excess, cubed);
    ProductMonotone(months, months, excess * cubed, rate);
    ProductMonotone(each, each, cubed - 1.0, months * rate);
    assert rate * goal == each * (months * rate);
    CancelOrder(rate, v, goal);
  }

  /** Flows of at least `each` are worth `months` of them at a rate whose monthly part is at most `excess`. */
  lemma StillPays(flows: seq<real>, investment: real, root: real -> real, irr: real,
      each: real, factor: real, cubed: real, excess: real, months: real)
    requires TwelfthRoot(root) && IsIrr(flows, investment, root, irr)
    requires |flows| == MONTHS && 0.0 <= each && forall i :: 0 <= i < MONTHS ==> each <= flows[i]
    requires 1.0 < factor <= 6.0 && root(factor) <= 1.0 + excess
    requires cubed == factor * factor * factor && 0.0 <= excess && 0.0 <= months
    requires months * (excess * cubed) <= cubed - 1.0
    requires investment < months * each
    ensures irr >= Round1((factor - 1.0 - 0.000006) * 100.0)
  {
    hide Pow, Flows, PresentValue, IsIrr, Growing, TwelfthRoot, Round1;
    var d := root(factor);
    RootAboveOne(root, factor);
    var flat := Flows(Growing(each, 1.0), MONTHS);
    var value := PresentValue(flat, d);
    FlatValue(each, root, factor, d, value, cubed);
    FlatFlows(each);
    PresentValueMonotone(flat, flows, d);
    CubeAboveOne(factor, cubed);
    AnnuityAtLeast(value, each, d, cubed, excess, months);
    IrrClearsRate(flows, investment, root, irr, factor - 1.0);
    assert 1.0 + (factor - 1.0) == factor;
  }

  lemma CubeAboveOne(factor: real, cubed: real)
    requires 1.0 < factor && cubed == factor * factor * factor
    ensures 1.0 < cubed
  {
    ProductStrict(1.0, factor, 1.0, factor);
    ProductStrict(1.0, factor * factor, 1.0, factor);
  }

  lemma GrowingReportFlows(x: Inputs, root: real -> real, flows: seq<real>)
    requires TwelfthRoot(root) && 0.0 <= x.growthPct && 0.0 < x.Profit()
    requires flows == RoundAll(Flows(Growing(x.Profit(), root(x.Growth())), MONTHS))
    ensures forall i :: 0 <= i < MONTHS ==> Round2(x.Profit()) <= flows[i]
  {
    RootAtLeastOne(root, x.Growth());
    GrowingAtLeast(x.Profit(), root(x.Growth()));
    RoundedFlows(Growing(x.Profit(), root(x.Growth())), MONTHS, x.Profit());
  }

  /** Profits, in dollars a month, that rounding to cents does not cut by much more than a quarter. */
  predicate SurvivesRounding(profit: real) {
    0.005 < profit <= 0.013342 || 0.015 <= profit
  }

  lemma RoundedShare(profit: real)
    requires SurvivesRounding(profit)
    ensures 0.749512 * profit <= Round2(profit)
    ensures profit <= 0.0133 || 0.015 <= profit ==> 0.751 * profit <= Round2(profit)
  {
    var x := profit * 100.0;
    RoundNear(x);
    if x < 1.5 {
      RoundToInteger(x, 1);
    } else if x <= 2.5 {
      RoundMonotone(1.5, x);
      assert RoundHalfEven(1.5) == 2;
    }
  }

  /** With growth, both IRR conditions follow from the payback, for every profit that survives rounding to cents. */
  lemma VerdictIsDecidedByPayback(x: Inputs, root: real -> real, r: Report)
    requires TwelfthRoot(root) && 0.0 <= x.growthPct && SurvivesRounding(x.Profit())
    requires ReportFor(x, root, r)
    ensures r.verdict == Recommended <==> r.payback < 18.0
    ensures r.verdict == Conditional <==> 18.0 <= r.payback < 24.0
    ensures r.verdict == NotRecommended <==> 24.0 <= r.payback
  {
    hide *;
    var p, each := x.Profit(), Round2(x.Profit());
    var flows := RoundAll(Flows(Growing(p, root(x.Growth())), MONTHS));
    Healthy(x);
    ReportParts(x, root, r);
    GrowingReportFlows(x, root, flows);
    RoundedShare(p);
    PaybackIs(x.investment, p);
    MonthlyRates(root);
    ReportedRates();
    if r.payback < 18.0 {
      PaybackBound(x.investment, p, r.payback, 18.0);
      StillPays(flows, x.investment, root, r.irr, each, 1.151, 1.151 * 1.151 * 1.151, 0.0118, 25.0);
    } else if r.payback < 24.0 {
      PaybackBound(x.investment, p, r.payback, 24.0);
      StillPays(flows, x.investment, root, r.irr, each, 1.080507, 1.080507 * 1.080507 * 1.080507, 0.0064734, 32.0209);
    }
    VerdictIs(r.payback, r.irr);
  }

  lemma Healthy(x: Inputs)
    requires 0.0 <= x.growthPct && SurvivesRounding(x.Profit())
    ensures 1.0 <= x.Growth() && 0.005 < x.Profit()
  {
  }

  lemma VerdictIs(payback: real, irr: real)
    ensures VerdictOf(payback, irr) == Recommended <==> payback < 18.0 && irr > 15.0
    ensures VerdictOf(payback, irr) != NotRecommended <==> payback < 24.0 && irr > 8.0
  {
  }

  /** Bounds on the twelfth roots of 1.151, and of the rates just above and just below 8.05 per cent. */
  lemma MonthlyRates(root: real -> real)
    requires TwelfthRoot(root)
    ensures root(1.151) <= 1.0118 && root(1.080507) <= 1.0064734 && 1.0064723 <= root(1.080493)
  {
    assert 1.151 <= Pow(1.0118, 12) && 1.080507 <= Pow(1.0064734, 12) && Pow(1.0064723, 12) <= 1.080493;
    hide Pow, TwelfthRoot;
    RootAtMost(root, 1.151, 1.0118);
    RootAtMost(root, 1.080507, 1.0064734);
    RootAtLeast(root, 1.080493, 1.0064723);
  }

  /** What those rates are reported as. */
  lemma ReportedRates()
    ensures Round1((1.151 - 1.0 - 0.000006) * 100.0) == 15.1
    ensures Round1((1.080507 - 1.0 - 0.000006) * 100.0) == 8.1
    ensures Round1((0.080493 + 0.000006) * 100.0) == 8.0
  {
    RoundToInteger((1.151 - 1.0 - 0.000006) * 100.0 * 10.0, 151);
    RoundToInteger((1.080507 - 1.0 - 0.000006) * 100.0 * 10.0, 81);
    RoundToInteger((0.080493 + 0.000006) * 100.0 * 10.0, 80);
  }

  /**
   * Flat profits between half a cent and one and a half become one cent a month, which cannot carry 32.0217 cents: from
   * 1.33425 cents on that is a payback under two years, and still not recommended.
   */
  lemma OneCentFlowsAreNotDecidedByPayback(x: Inputs, root: real -> real, r: Report)
    requires TwelfthRoot(root) && x.growthPct == 0.0 && 0.005 < x.Profit() < 0.015 && 0.320217 <= x.investment
    requires ReportFor(x, root, r)
    ensures r.irr <= 8.0 && r.verdict == NotRecommended
    ensures x.investment == 0.320217 && 0.0133425 <= x.Profit() ==> r.payback < 24.0
  {
    hide *;
    var flat := Flows(Growing(0.01, 1.0), MONTHS);
    FlatReport(x, root);
    ReportParts(x, root, r);
    OneCent(x.Profit());
    RoundedFlat(x.Profit());
    FlatFlows(0.01);
    FlatIsNonNegative(flat, 0.01);
    OneCentIrr(flat, x.investment, root, r.irr);
    VerdictAtMostEight(r.payback, r.irr);
    PaybackIs(x.investment, x.Profit());
  }

  lemma OneCentIrr(flat: seq<real>, investment: real, root: real -> real, irr: real)
    requires TwelfthRoot(root) && 0.320217 <= investment && flat == Flows(Growing(0.01, 1.0), MONTHS)
    requires NonNegative(flat) && IsIrr(flat, investment, root, irr)
    ensures irr <= 8.0
  {
    OneCentNpv(root, investment);
    hide IsIrr, Flows, Growing, Npv, NonNegative, TwelfthRoot, Round1;
    ReportedRates();
    IrrClearsRate(flat, investment, root, irr, 0.080493);
  }

  /** The parts of a report that its verdict rests on. */
  lemma ReportParts(x: Inputs, root: real -> real, r: Report)
    requires TwelfthRoot(root) && 0.0 <= x.Growth() && ReportFor(x, root, r)
    ensures IsIrr(RoundAll(Flows(Growing(x.Profit(), root(x.Growth())), MONTHS)), x.investment, root, r.irr)
    ensures r.payback == PaybackMonths(x.investment, x.Profit()) && r.verdict == VerdictOf(r.payback, r.irr)
  {
    hide IsIrr, RoundAll, Flows, Growing, RowsOf, PresentValue, VerdictOf, PaybackMonths;
  }

  lemma FlatReport(x: Inputs, root: real -> real)
    requires TwelfthRoot(root) && x.growthPct == 0.0
    ensures x.Growth() == 1.0 && root(x.Growth()) == 1.0
  {
    RootOfOne(root);
  }

  lemma OneCent(profit: real)
    requires 0.005 < profit < 0.015
    ensures Round2(profit) == 0.01
  {
    RoundToInteger(profit * 100.0, 1);
  }

  lemma OneCentNpv(root: real -> real, investment: real)
    requires TwelfthRoot(root) && 0.320217 <= investment
    ensures Npv(Flows(Growing(0.01, 1.0), MONTHS), investment, root, 0.080493) <= 0.0
  {
    RootAboveOne(root, 1.080493);
    OneCentValue(root, PresentValue(Flows(Growing(0.01, 1.0), MONTHS), root(1.080493)));
    hide Flows, Growing, PresentValue, TwelfthRoot;
    assert 1.0 + 0.080493 == 1.080493;
  }

  lemma VerdictAtMostEight(payback: real, irr: real)
    requires irr <= 8.0
    ensures VerdictOf(payback, irr) == NotRecommended
  {
  }

  lemma PaybackIs(investment: real, profit: real)
    requires 0.0 < profit
    ensures PaybackMonths(investment, profit) == investment / profit
    ensures investment == 0.320217 && 0.0133425 <= profit ==> PaybackMonths(investment, profit) < 24.0
  {
    if investment == 0.320217 && 0.0133425 <= profit {
      var months := investment / profit;
      assert months * profit == 0.320217;
      if 24.0 <= months {
        ProductMonotone(24.0, months, 0.0133425, profit);
      }
    }
  }

  /** Rounding flat flows gives the flat flows of the rounded profit. */
  lemma RoundedFlat(profit: real)
    ensures RoundAll(Flows(Growing(profit, 1.0), MONTHS)) == Flows(Growing(Round2(profit), 1.0), MONTHS)
  {
    hide Flows, Growing, Round2;
    FlatFlows(profit);
    FlatFlows(Round2(profit));
  }

  lemma FlatIsNonNegative(flows: seq<real>, each: real)
    requires 0.0 <= each && forall i :: 0 <= i < |flows| ==> flows[i] == each
    ensures NonNegative(flows)
  {
  }

  lemma OneCentValue(root: real -> real, value: real)
    requires TwelfthRoot(root) && 0.0 < root(1.080493)
    requires value == PresentValue(Flows(Growing(0.01, 1.0), MONTHS), root(1.080493))
    ensures value <= 0.320217
  {
    MonthlyRates(root);
    hide Pow, Flows, PresentValue, Growing, TwelfthRoot;
    var cubed := 1.080493 * 1.080493 * 1.080493;
    FlatValue(0.01, root, 1.080493, root(1.080493), value, cubed);
    AnnuityAtMost(value, 0.01, root(1.080493), cubed, 0.0064723, 32.0217);
  }

  lemma PaybackBound(investment: real, profit: real, months: real, limit: real)
    requires 0.0 < profit && months == investment / profit && months < limit
    ensures investment < limit * profit
  {
  }

  /** Up to half a cent of flat profit every flow rounds to zero: quick payback, yet never recommended. */
  lemma TinyProfitIsNeverRecommended(x: Inputs, root: real -> real, r: Report)
    requires TwelfthRoot(root) && x.growthPct == 0.0
    requires x.Profit() <= 0.005 && 0.0 <= x.investment
    requires ReportFor(x, root, r)
    ensures r.irr == -50.0 && r.verdict == NotRecommended
    ensures x.Profit() > 0.0 && x.investment == x.Profit() ==> r.payback == 1.0
  {
    hide *;
    var flows := Flows(Growing(x.Profit(), 1.0), MONTHS);
    FlatReport(x, root);
    ReportParts(x, root, r);
    FlatFlows(x.Profit());
    TinyFlows(flows, x.Profit());
    LossesSaturateBelow(RoundAll(flows), x.investment, root, r.irr);
    VerdictAtMostEight(r.payback, r.irr);
    PaybackOfOneMonth(x.investment, x.Profit());
  }

  lemma TinyFlows(flows: seq<real>, profit: real)
    requires profit <= 0.005 && |flows| == MONTHS && forall i :: 0 <= i < MONTHS ==> flows[i] == profit
    ensures |RoundAll(flows)| == MONTHS && forall i :: 0 <= i < |RoundAll(flows)| ==> RoundAll(flows)[i] <= 0.0
  {
    hide Round2;
    RoundedLosses(flows);
  }

  lemma PaybackOfOneMonth(investment: real, profit: real)
    ensures profit > 0.0 && investment == profit ==> PaybackMonths(investment, profit) == 1.0
  {
  }

  lemma RootOfOne(root: real -> real)
    requires TwelfthRoot(root)
    ensures root(1.0) == 1.0
  {
    PowOne(12);
    if root(1.0) < 1.0 {
      PowMonotone(root(1.0), 1.0, 12);
    } else if 1.0 < root(1.0) {
      PowMonotone(1.0, root(1.0), 12);
    }
  }
}
