/** A report of the ROI predictor, read off the inputs: every figure from revenue, cost, growth and investment. */
module RoiFacts {
  import opened Numbers
  import opened Roi
  import opened RoiReport
  import opened RoiTheory

  // ----- rows

  lemma {:induction false} RowAt(flow: nat -> real, n: nat, investment: real, d: real, i: nat)
    requires 0.0 < d && i < n
    ensures |RowsOf(Flows(flow, n), investment, d)| == n
    ensures RowsOf(Flows(flow, n), investment, d)[i] == Row(Flows(flow, i + 1), investment, d)
  {
    hide Row;
    var flows := Flows(flow, n);
    assert flows[..n - 1] == Flows(flow, n - 1);
    if i < n - 1 {
      RowAt(flow, n - 1, investment, d, i);
    }
  }

  lemma RowIs(flow: nat -> real, investment: real, d: real, i: nat, divisor: real)
    requires 0.0 < d && divisor == Pow(d, i + 1) && divisor != 0.0
    ensures Row(Flows(flow, i + 1), investment, d) ==
      MonthRow(i + 1, Round2(flow(i)), Round2(flow(i) / divisor), Round2(Sum(Flows(flow, i + 1)) - investment))
  {
    hide Pow, Round2, Sum;
  }

  /** Whole years of monthly growth. */
  lemma {:induction false} YearlyGrowth(root: real -> real, growth: real, k: nat)
    requires TwelfthRoot(root) && 0.0 <= growth
    ensures Pow(root(growth), 12 * k) == Pow(growth, k)
  {
    hide Pow;
    PowUnfold(root(growth), 0);
    PowUnfold(growth, k);
    if k != 0 {
      YearlyGrowth(root, growth, k - 1);
      PowAdd(root(growth), 12, 12 * (k - 1));
    }
  }

  lemma GrowthIs(x: Inputs, profit: real, growth: real)
    requires profit == x.revenue - x.cost && growth == 1.0 + x.growthPct / 100.0
    ensures x.Growth() == growth && x.Profit() == profit
    ensures -100.0 <= x.growthPct ==> 0.0 <= growth
  {
  }

  lemma ReportRows(x: Inputs, root: real -> real, r: Report, profit: real, growth: real)
    requires TwelfthRoot(root) && 0.0 <= x.Growth() && ReportFor(x, root, r)
    requires profit == x.Profit() && growth == x.Growth()
    ensures 0.0 < root(1.1) && MONTHS == 36
    ensures r.rows == RowsOf(Flows(Growing(profit, root(growth)), 36), x.investment, root(1.1))
    ensures r.npv == PresentValue(Flows(Growing(profit, root(growth)), MONTHS), root(1.1))
  {
    RootPositive(root, 1.1);
    hide Pow, TwelfthRoot, RowsOf, Flows, Growing, PresentValue, IsIrr, RoundAll, RatiosOf;
    assert 1.0 + DISCOUNT_RATE == 1.1;
  }

  lemma RowNamed(rows: seq<MonthRow>, flow: nat -> real, investment: real, d: real, i: nat, cf: real, divisor: real)
    requires 0.0 < d && i < 36 && rows == RowsOf(Flows(flow, 36), investment, d)
    requires cf == flow(i) && divisor == Pow(d, i + 1) && 0.0 < divisor
    ensures |rows| == 36 && rows[i].month == i + 1
    ensures rows[i].cashFlow == Round2(cf) && rows[i].discounted == Round2(cf / divisor)
  {
    hide *;
    RowAt(flow, 36, investment, d, i);
    RowIs(flow, investment, d, i, divisor);
  }

  lemma RowsOfReport(x: Inputs, root: real -> real, r: Report, i: nat,
      profit: real, growth: real, cf: real, divisor: real)
    requires TwelfthRoot(root) && 0.0 <= x.Growth() && ReportFor(x, root, r) && i < 36
    requires profit == x.Profit() && growth == x.Growth()
    requires cf == profit * Pow(root(growth), i) && divisor == Pow(root(1.1), i + 1)
    ensures |r.rows| == 36 && r.rows[i].month == i + 1 && 0.0 < divisor
    ensures r.rows[i].cashFlow == Round2(cf) && r.rows[i].discounted == Round2(cf / divisor)
  {
    hide *;
    ReportRows(x, root, r, profit, growth);
    PowBounds(root(1.1), i + 1);
    GrowingAt(profit, root(growth), i);
    RowNamed(r.rows, Growing(profit, root(growth)), x.investment, root(1.1), i, cf, divisor);
  }

  /** Each of the 36 rows: the month, its flow, and the flow discounted at ten per cent a year to the month's end. */
  lemma RowsFromTheInputs(x: Inputs, root: real -> real, r: Report, i: nat,
      profit: real, growth: real, flow: real, divisor: real)
    requires TwelfthRoot(root) && -100.0 <= x.growthPct && ReportFor(x, root, r) && i < 36
    requires profit == x.revenue - x.cost && growth == 1.0 + x.growthPct / 100.0
    requires flow == profit * Pow(root(growth), i) && divisor == Pow(root(1.1), i + 1)
    ensures |r.rows| == 36 && r.rows[i].month == i + 1 && 0.0 < divisor
    ensures r.rows[i].cashFlow == Round2(flow) && r.rows[i].discounted == Round2(flow / divisor)
  {
    hide *;
    GrowthIs(x, profit, growth);
    RowsOfReport(x, root, r, i, profit, growth, flow, divisor);
  }

  /** The first month of each year flows the profit grown by whole years. */
  lemma YearsFromTheInputs(x: Inputs, root: real -> real, r: Report, k: nat, profit: real, growth: real, flow: real)
    requires TwelfthRoot(root) && -100.0 <= x.growthPct && ReportFor(x, root, r) && k < 3
    requires profit == x.revenue - x.cost && growth == 1.0 + x.growthPct / 100.0
    requires flow == profit * Pow(growth, k)
    ensures |r.rows| == 36 && r.rows[12 * k].cashFlow == Round2(flow)
  {
    hide *;
    GrowthIs(x, profit, growth);
    YearlyGrowth(root, growth, k);
    RowsFromTheInputs(x, root, r, 12 * k, profit, growth, flow, Pow(root(1.1), 12 * k + 1));
  }

  /** The cumulative figure: the geometric sum so far, less the investment. */
  lemma CumulativeFromTheInputs(x: Inputs, root: real -> real, r: Report, i: nat) returns (total: real)
    requires TwelfthRoot(root) && -100.0 <= x.growthPct && ReportFor(x, root, r) && i < 36
    ensures var profit, q := x.revenue - x.cost, root(1.0 + x.growthPct / 100.0);
      && (q - 1.0) * total == profit * (Pow(q, i + 1) - 1.0)
      && (q == 1.0 ==> total == profit * (i + 1) as real)
    ensures |r.rows| == 36 && r.rows[i].cumulative == Round2(total - x.investment)
  {
    hide *;
    var profit, growth := x.revenue - x.cost, 1.0 + x.growthPct / 100.0;
    var q, d := root(growth), root(1.1);
    GrowthIs(x, profit, growth);
    ReportRows(x, root, r, profit, growth);
    PowBounds(d, i + 1);
    var flow := Growing(profit, q);
    total := Sum(Flows(flow, i + 1));
    RowAt(flow, 36, x.investment, d, i);
    RowIs(flow, x.investment, d, i, Pow(d, i + 1));
    SumClosedForm(profit, q, i + 1, total, Pow(q, i + 1));
    if q == 1.0 {
      FlatSum(profit, i + 1, total, (i + 1) as real);
    }
  }

  lemma {:induction false} FlatSum(profit: real, n: nat, total: real, count: real)
    requires total == Sum(Flows(Growing(profit, 1.0), n)) && count == n as real
    ensures total == profit * count
  {
    hide *;
    var flow := Growing(profit, 1.0);
    FlowsAppended(flow, n, 1.0);
    if n != 0 {
      FlatSum(profit, n - 1, Sum(Flows(flow, n - 1)), count - 1.0);
      SumAppended(Flows(flow, n - 1), flow(n - 1));
      GrowingAt(profit, 1.0, n - 1);
      PowOne(n - 1);
      OneMore(profit, count - 1.0, count);
    }
  }

  // ----- value

  /** The reported value: the closed form with cubes written out; at ten per cent growth months are worth the same. */
  lemma ValueFromTheInputs(x: Inputs, root: real -> real, r: Report)
    requires TwelfthRoot(root) && -100.0 <= x.growthPct && ReportFor(x, root, r)
    ensures var growth := 1.0 + x.growthPct / 100.0;
      (root(growth) - root(1.1)) * r.npv * 1.331 == (x.revenue - x.cost) * (growth * growth * growth - 1.331)
    ensures x.growthPct == 10.0 ==> r.npv * root(1.1) == (x.revenue - x.cost) * 36.0
  {
    hide *;
    var profit, growth := x.revenue - x.cost, 1.0 + x.growthPct / 100.0;
    GrowthIs(x, profit, growth);
    ReportRows(x, root, r, profit, growth);
    NpvClosedForm(profit, growth, root, root(growth), root(1.1), r.npv, growth * growth * growth, 1.331);
    if x.growthPct == 10.0 {
      EqualValues(profit, root(1.1), MONTHS, r.npv, 36.0);
    }
  }

  lemma {:induction false} EqualValues(profit: real, d: real, n: nat, value: real, count: real)
    requires 0.0 < d && value == PresentValue(Flows(Growing(profit, d), n), d) && count == n as real
    ensures value * d == profit * count
  {
    hide *;
    var flow := Growing(profit, d);
    FlowsAppended(flow, n, d);
    if n != 0 {
      var before := PresentValue(Flows(flow, n - 1), d);
      EqualValues(profit, d, n - 1, before, count - 1.0);
      PresentValueAppended(Flows(flow, n - 1), flow(n - 1), d);
      GrowingAt(profit, d, n - 1);
      PowUnfold(d, n);
      EqualStep(profit, d, Pow(d, n - 1), Pow(d, n), before, value, flow(n - 1), count);
    }
  }

  lemma EqualStep(profit: real, d: real, power: real, next: real, before: real, value: real, flow: real, count: real)
    requires next == d * power && next > 0.0 && flow == profit * power && value == before + flow / next
    requires before * d == profit * (count - 1.0)
    ensures value * d == profit * count
  {
    var u := flow / next;
    assert u * next == flow;
    assert (u * d - profit) * power == 0.0;
    assert power != 0.0;
    assert u * d == profit;
    assert value * d == before * d + u * d;
  }

  // ----- rate

  /**
   * Without growth the reported rate, at any tenth of a per cent above zero, is settled by the annuity formula on the
   * profit rounded to cents.
   */
  lemma FlatRateFromTheInputs(x: Inputs, root: real -> real, r: Report, tenths: int)
    requires TwelfthRoot(root) && x.growthPct == 0.0 && ReportFor(x, root, r)
    requires 0.0 <= Round2(x.revenue - x.cost) && 0 < tenths <= 5000
    ensures var factor := 1.0 + tenths as real / 1000.0;
      var cubed := factor * factor * factor;
      var worth := Round2(x.revenue - x.cost) * (cubed - 1.0);
      && (x.investment * cubed * (root(factor) - 1.0) < worth ==> r.irr >= tenths as real / 10.0)
      && (x.investment * cubed * (root(factor) - 1.0) >= worth ==> r.irr <= tenths as real / 10.0)
  {
    hide *;
    var profit := x.revenue - x.cost;
    var each, factor := Round2(profit), 1.0 + tenths as real / 1000.0;
    GrowthIs(x, profit, 1.0);
    var flat := Flows(Growing(each, 1.0), MONTHS);
    FlatReport(x, root);
    ReportParts(x, root, r);
    RoundedFlat(profit);
    FlatFlows(each);
    FlatIsNonNegative(flat, each);
    RootAboveOne(root, factor);
    var d, cubed := root(factor), factor * factor * factor;
    var value := PresentValue(flat, d);
    FlatValue(each, root, factor, d, value, cubed);
    CubeAboveOne(factor, cubed);
    AnnuityAgainst(value, x.investment, d, cubed, each * (cubed - 1.0));
    NpvIs(flat, x.investment, root, tenths as real / 1000.0, d);
    RateInRange(tenths);
    IrrClears(flat, x.investment, root, r.irr, tenths);
  }

  lemma NpvIs(flows: seq<real>, investment: real, root: real -> real, rate: real, d: real)
    requires TwelfthRoot(root) && -1.0 < rate && d == root(1.0 + rate) && 0.0 < d
    ensures Npv(flows, investment, root, rate) == PresentValue(flows, d) - investment
  {
    hide PresentValue, TwelfthRoot;
  }

  lemma Compare(scale: real, a: real, b: real, scaledA: real, scaledB: real)
    requires 0.0 < scale && scaledA == scale * a && scaledB == scale * b
    ensures scaledA < scaledB <==> a < b
  {
    if scaledB <= scaledA {
      CancelOrder(scale, b, a);
    } else {
      CancelOrder(scale, a, b);
    }
  }

  lemma RateInRange(tenths: int)
    requires 0 < tenths <= 5000
    ensures -0.5 <= tenths as real / 1000.0 <= 5.0
  {
  }

  lemma Regroup(v: real, d: real, cubed: real, scale: real)
    requires scale == cubed * (d - 1.0)
    ensures (d - 1.0) * v * cubed == scale * v
    ensures v * cubed * (d - 1.0) == scale * v
  {
  }

  lemma AnnuityAgainst(value: real, investment: real, d: real, cubed: real, worth: real)
    requires 1.0 < d && 1.0 < cubed && (d - 1.0) * value * cubed == worth
    ensures investment * cubed * (d - 1.0) < worth <==> value - investment > 0.0
  {
    var scale := cubed * (d - 1.0);
    ProductBounds(cubed, d - 1.0);
    Regroup(value, d, cubed, scale);
    Regroup(investment, d, cubed, scale);
    Compare(scale, investment, value, investment * cubed * (d - 1.0), worth);
  }

  // ----- the other figures

  /** Payback, ratios, verdict and risk, with the limits written out. */
  lemma FiguresFromTheInputs(x: Inputs, root: real -> real, r: Report)
    requires TwelfthRoot(root) && -100.0 <= x.growthPct && ReportFor(x, root, r)
    ensures var profit := x.revenue - x.cost;
      && (if profit > 0.0 then r.payback * profit == x.investment else r.payback == 999.0)
      && (if x.marginPct > 0.0 then r.bepRevenue * x.marginPct == x.cost * 100.0 else r.bepRevenue == 0.0)
      && (if x.investment > 0.0 then (r.roiYear1 + 100.0) * x.investment == profit * 1200.0 else r.roiYear1 == 0.0)
    ensures r.verdict == Recommended <==> r.payback < 18.0 && r.irr > 15.0
    ensures r.verdict == NotRecommended <==> r.payback >= 24.0 || r.irr <= 8.0
    ensures r.risk == Low <==> r.payback < 12.0
    ensures r.risk == High <==> r.payback >= 18.0
  {
    hide *;
    var profit := x.revenue - x.cost;
    GrowthIs(x, profit, 1.0 + x.growthPct / 100.0);
    ReportFigures(x, root, r, profit);
    if profit > 0.0 {
      QuotientBack(x.investment, profit);
    }
    if x.investment > 0.0 {
      AddHundred(r.roiYear1, x.investment, profit);
    }
  }

  lemma ReportFigures(x: Inputs, root: real -> real, r: Report, profit: real)
    requires TwelfthRoot(root) && 0.0 <= x.Growth() && ReportFor(x, root, r) && profit == x.Profit()
    ensures if profit > 0.0 then r.payback == x.investment / profit else r.payback == 999.0
    ensures if x.marginPct > 0.0 then r.bepRevenue * x.marginPct == x.cost * 100.0 else r.bepRevenue == 0.0
    ensures if x.investment > 0.0 then r.roiYear1 * x.investment == (profit * 12.0 - x.investment) * 100.0
      else r.roiYear1 == 0.0
    ensures r.verdict == Recommended <==> r.payback < 18.0 && r.irr > 15.0
    ensures r.verdict == NotRecommended <==> r.payback >= 24.0 || r.irr <= 8.0
    ensures r.risk == Low <==> r.payback < 12.0
    ensures r.risk == High <==> r.payback >= 18.0
  {
    hide Pow, TwelfthRoot, RowsOf, Flows, Growing, PresentValue, IsIrr, RoundAll;
  }

  lemma AddHundred(roi: real, investment: real, profit: real)
    requires roi * investment == (profit * 12.0 - investment) * 100.0
    ensures (roi + 100.0) * investment == profit * 1200.0
  {
  }

  lemma QuotientBack(a: real, b: real)
    requires b != 0.0
    ensures a / b * b == a
  {
  }

  // ----- what is shown

  lemma Round1Near(x: real)
    ensures x - 0.05 <= Round1(x) <= x + 0.05
  {
    RoundNear(x * 10.0);
  }

  /** Every shown figure is its own exact one to half a unit of the last place; the rows are those of the first year. */
  lemma ShownFromTheReport(x: Inputs, root: real -> real, r: Report)
    requires TwelfthRoot(root) && -100.0 <= x.growthPct && ReportFor(x, root, r)
    ensures var s := Show(x, r);
      && -0.05 <= s.paybackMonths - r.payback <= 0.05 && -0.06 <= s.paybackYears * 12.0 - r.payback <= 0.06
      && -0.005 <= s.npv - r.npv <= 0.005 && s.irr == r.irr
      && -0.005 <= s.bepRevenue - r.bepRevenue <= 0.005 && -0.05 <= s.roiYear1 - r.roiYear1 <= 0.05
      && -0.005 <= s.annualProfit - (x.revenue - x.cost) * 12.0 <= 0.005
      && s.verdict == r.verdict && s.risk == r.risk
    ensures |r.rows| == 36 && |Show(x, r).rows| == 12 && forall i :: 0 <= i < 12 ==> Show(x, r).rows[i] == r.rows[i]
  {
    var profit, growth := x.revenue - x.cost, 1.0 + x.growthPct / 100.0;
    RowsFromTheInputs(x, root, r, 0, profit, growth, profit * Pow(root(growth), 0), Pow(root(1.1), 1));
    hide ReportFor, Round1, Round2, Pow, TwelfthRoot;
    Round1Near(r.payback);
    Round2Near(r.payback / 12.0);
    Round2Near(r.npv);
    Round2Near(r.bepRevenue);
    Round1Near(r.roiYear1);
    Round2Near(x.Profit() * 12.0);
  }

  /** A scenario's figures, from its profit alone, to half a unit of the last place. */
  lemma OutcomeFromTheProfit(x: Inputs, profit: real)
    requires profit == x.revenue - x.cost
    ensures var o := OutcomeOf(x);
      && -0.005 <= o.profit - profit <= 0.005
      && (profit <= 0.0 ==> o.payback == 999.0)
      && (profit > 0.0 ==> -0.05 * profit <= o.payback * profit - x.investment <= 0.05 * profit)
      && (x.investment <= 0.0 ==> o.roiYear1 == 0.0)
      && (x.investment > 0.0 ==>
        -0.05 * x.investment <= (o.roiYear1 + 100.0) * x.investment - profit * 1200.0 <= 0.05 * x.investment)
  {
    hide *;
    GrowthIs(x, profit, 1.0 + x.growthPct / 100.0);
    OutcomeParts(x);
    Round2Near(profit);
    LossHasNoPayback(x);
    ZeroRounds();
    if profit > 0.0 {
      Round1Near(x.investment / profit);
      PaybackGap(x.investment, profit, x.investment / profit, Round1(x.investment / profit));
    }
    ReturnIs(x.investment, profit);
    if x.investment > 0.0 {
      var exact := (profit * 12.0 - x.investment) / x.investment * 100.0;
      Round1Near(exact);
      ReturnGap(x.investment, profit, exact, Round1(exact));
    }
  }

  lemma LossHasNoPayback(x: Inputs)
    ensures x.Profit() <= 0.0 ==> OutcomeOf(x).payback == 999.0
  {
  }

  lemma ReturnIs(investment: real, profit: real)
    ensures investment > 0.0 ==> RoiYear1(investment, profit) == (profit * 12.0 - investment) / investment * 100.0
    ensures investment <= 0.0 ==> RoiYear1(investment, profit) == 0.0
  {
  }

  lemma PaybackGap(investment: real, profit: real, exact: real, shown: real)
    requires 0.0 < profit && exact == investment / profit && exact - 0.05 <= shown <= exact + 0.05
    ensures -0.05 * profit <= shown * profit - investment <= 0.05 * profit
  {
    assert exact * profit == investment;
    ProductGap(shown - exact + 0.05, profit);
    ProductGap(exact + 0.05 - shown, profit);
  }

  lemma ReturnGap(investment: real, profit: real, exact: real, shown: real)
    requires 0.0 < investment && exact == (profit * 12.0 - investment) / investment * 100.0
    requires exact - 0.05 <= shown <= exact + 0.05
    ensures -0.05 * investment <= (shown + 100.0) * investment - profit * 1200.0 <= 0.05 * investment
  {
    var ratio := (profit * 12.0 - investment) / investment;
    assert ratio * investment == profit * 12.0 - investment;
    assert exact * investment == (profit * 12.0 - investment) * 100.0;
    ProductGap(shown - exact + 0.05, investment);
    ProductGap(exact + 0.05 - shown, investment);
  }

  /** The six scenarios: revenue a fifth down and up, cost 15 per cent up and down, and twice the base case. */
  lemma ScenarioProfits(x: Inputs)
    ensures |SCENARIOS| == 6
    ensures forall i :: 0 <= i < 6 ==> Adjusted(x, SCENARIOS[i]).investment == x.investment
    ensures forall i :: 0 <= i < 4 ==> Adjusted(x, SCENARIOS[i]).growthPct == x.growthPct
    ensures Adjusted(x, SCENARIOS[4]).growthPct == 0.9 * x.growthPct
    ensures Adjusted(x, SCENARIOS[5]).growthPct == 1.1 * x.growthPct
    ensures var profit := (i: nat) =>
        if i < 6 then Adjusted(x, SCENARIOS[i]).revenue - Adjusted(x, SCENARIOS[i]).cost else 0.0;
      && profit(0) == 0.8 * x.revenue - x.cost && profit(1) == 1.2 * x.revenue - x.cost
      && profit(2) == x.revenue - 1.15 * x.cost && profit(3) == x.revenue - 0.85 * x.cost
      && profit(4) == profit(5) == x.revenue - x.cost
  {
  }
}
