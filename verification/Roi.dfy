/**
 * The return-on-investment predictor: 36 monthly cash flows, their net present value at ten
 * per cent, and a hundred-step bisection for the internal rate of return.
 */
module Roi {
  import opened Common
  import opened Numbers

  const MONTHS: nat := 36
  const STEPS: nat := 100
  const LOW_RATE := -0.5
  const HIGH_RATE := 5.0
  const DISCOUNT_RATE := 0.10

  datatype Verdict = Recommended | Conditional | NotRecommended
  datatype RiskLevel = Low | Medium | High
  datatype RoiError = ComplexGrowth | DivisionByZero

  datatype Inputs = Inputs(investment: real, revenue: real, cost: real, marginPct: real, growthPct: real) {
    function Profit(): real { revenue - cost }
    function Growth(): real { 1.0 + growthPct / 100.0 }
  }

  datatype MonthRow = MonthRow(month: nat, cashFlow: real, discounted: real, cumulative: real)

  datatype Report = Report(
    payback: real,
    npv: real,
    rows: seq<MonthRow>,
    irr: real,
    roiYear1: real,
    bepRevenue: real,
    verdict: Verdict,
    risk: RiskLevel)

  // ----- specification

  function Sum(s: seq<real>): real {
    if |s| == 0 then 0.0 else Sum(s[..|s| - 1]) + s[|s| - 1]
  }

  /** The flow of month i + 1; q is the twelfth root of the yearly growth factor. */
  function Growing(profit: real, q: real): nat -> real {
    (i: nat) => profit * Pow(q, i)
  }

  function Flows(flow: nat -> real, n: nat): (fs: seq<real>)
    ensures |fs| == n
  {
    if n == 0 then [] else Flows(flow, n - 1) + [flow(n - 1)]
  }

  /** The m-th flow, counted from 1, is divided by d to the m-th power. */
  function PresentValue(flows: seq<real>, d: real): real
    requires 0.0 < d
  {
    var n := |flows|;
    if n == 0 then 0.0
    else
      PowBounds(d, n);
      PresentValue(flows[..n - 1], d) + flows[n - 1] / Pow(d, n)
  }

  function RoundAll(flows: seq<real>): (rs: seq<real>)
    ensures |rs| == |flows|
  {
    seq(|flows|, i requires 0 <= i < |flows| => Round2(flows[i]))
  }

  function Npv(flows: seq<real>, investment: real, root: real -> real, rate: real): real
    requires TwelfthRoot(root) && -1.0 < rate
  {
    RootPositive(root, 1.0 + rate);
    PresentValue(flows, root(1.0 + rate)) - investment
  }

  ghost predicate NonNegative(flows: seq<real>) {
    forall i :: 0 <= i < |flows| ==> 0.0 <= flows[i]
  }

  ghost predicate SomePositive(flows: seq<real>) {
    exists i :: 0 <= i < |flows| && 0.0 < flows[i]
  }

  /** w doubled k times. */
  function Doubled(w: real, k: nat): real {
    if k == 0 then w else 2.0 * Doubled(w, k - 1)
  }

  /** After k halvings: the interval has width 5.5 / 2^k, and an end that moved carries its sign. */
  ghost predicate Bracket(flows: seq<real>, investment: real, root: real -> real, low: real, high: real, k: nat)
    requires TwelfthRoot(root)
  {
    && LOW_RATE <= low < high <= HIGH_RATE
    && Doubled(high - low, k) == 5.5
    && (low == LOW_RATE || Npv(flows, investment, root, low) > 0.0)
    && (high == HIGH_RATE || Npv(flows, investment, root, high) <= 0.0)
  }

  /** `irr` is a percentage rounded to one decimal. */
  ghost predicate IsIrr(flows: seq<real>, investment: real, root: real -> real, irr: real)
    requires TwelfthRoot(root)
  {
    exists low, high ::
      Bracket(flows, investment, root, low, high, STEPS) && irr == Round1((low + high) / 2.0 * 100.0)
  }

  function PaybackMonths(investment: real, profit: real): real {
    if profit > 0.0 then investment / profit else 999.0
  }

  function VerdictOf(payback: real, irr: real): Verdict {
    if payback < 18.0 && irr > 15.0 then Recommended
    else if payback < 24.0 && irr > 8.0 then Conditional
    else NotRecommended
  }

  function RiskOf(payback: real): RiskLevel {
    if payback < 12.0 then Low else if payback < 18.0 then Medium else High
  }

  function Row(flows: seq<real>, investment: real, d: real): MonthRow
    requires 0.0 < d && 0 < |flows|
  {
    var n := |flows|;
    PowBounds(d, n);
    MonthRow(n, Round2(flows[n - 1]), Round2(flows[n - 1] / Pow(d, n)), Round2(Sum(flows) - investment))
  }

  function RowsOf(flows: seq<real>, investment: real, d: real): (rows: seq<MonthRow>)
    requires 0.0 < d
    ensures |rows| == |flows|
  {
    if |flows| == 0 then []
    else RowsOf(flows[..|flows| - 1], investment, d) + [Row(flows, investment, d)]
  }

  /** When the predictor raises instead of answering. */
  function RaisedError(x: Inputs): Option<RoiError> {
    if x.growthPct < -100.0 then Some(ComplexGrowth)
    else if x.revenue > x.cost && (x.revenue == 0.0 || x.marginPct == 0.0) then Some(DivisionByZero)
    else None
  }

  /** At the break-even revenue the gross margin pays the costs; the return is on the investment. */
  ghost predicate RatiosOf(x: Inputs, bepRevenue: real, roiYear1: real) {
    && (if x.marginPct > 0.0 then bepRevenue * x.marginPct == x.cost * 100.0 else bepRevenue == 0.0)
    && (if x.investment > 0.0 then roiYear1 * x.investment == (x.Profit() * 12.0 - x.investment) * 100.0
        else roiYear1 == 0.0)
  }

  /** What every report of the predictor satisfies. */
  ghost predicate ReportFor(x: Inputs, root: real -> real, r: Report)
    requires TwelfthRoot(root) && 0.0 <= x.Growth()
  {
    var flows := Flows(Growing(x.Profit(), root(x.Growth())), MONTHS);
    RootPositive(root, 1.0 + DISCOUNT_RATE);
    && r.payback == PaybackMonths(x.investment, x.Profit())
    && r.npv == PresentValue(flows, root(1.0 + DISCOUNT_RATE))
    && r.rows == RowsOf(flows, x.investment, root(1.0 + DISCOUNT_RATE))
    && IsIrr(RoundAll(flows), x.investment, root, r.irr)
    && RatiosOf(x, r.bepRevenue, r.roiYear1)
    && r.verdict == VerdictOf(r.payback, r.irr)
    && r.risk == RiskOf(r.payback)
  }

  // ----- the program

  /** The bisection loop, run for exactly a hundred steps whatever the flows are. */
  method InternalRate(flows: seq<real>, investment: real, root: real -> real) returns (low: real, high: real)
    requires TwelfthRoot(root)
    ensures Bracket(flows, investment, root, low, high, STEPS)
  {
    low, high := LOW_RATE, HIGH_RATE;
    for step := 0 to STEPS
      invariant Bracket(flows, investment, root, low, high, step)
    {
      var mid := (low + high) / 2.0;
      var testNpv := Npv(flows, investment, root, mid);
      HalvedWidth(high - low, step);
      if testNpv > 0.0 {
        low := mid;
      } else {
        high := mid;
      }
    }
  }

  /** The 36-month loop with its three running totals. */
  method ProjectCashFlows(investment: real, flow: nat -> real, d: real)
    returns (npv: real, rows: seq<MonthRow>, rounded: seq<real>)
    requires 0.0 < d
    ensures npv == PresentValue(Flows(flow, MONTHS), d)
    ensures rows == RowsOf(Flows(flow, MONTHS), investment, d)
    ensures rounded == RoundAll(Flows(flow, MONTHS))
  {
    hide Pow, Round2;
    npv, rows, rounded := 0.0, [], [];
    var cumulative := -investment;
    ghost var flows := [];
    for month := 1 to MONTHS + 1
      invariant flows == Flows(flow, month - 1)
      invariant npv == PresentValue(flows, d)
      invariant cumulative == Sum(flows) - investment
      invariant rounded == RoundAll(flows)
      invariant rows == RowsOf(flows, investment, d)
    {
      var cf := flow(month - 1);
      PowBounds(d, month);
      var discounted := cf / Pow(d, month);
      SumAppended(flows, cf);
      PresentValueAppended(flows, cf, d);
      RowsAppended(flows, cf, investment, d);
      flows := flows + [cf];
      npv := npv + discounted;
      cumulative := cumulative + cf;
      rounded := rounded + [Round2(cf)];
      rows := rows + [MonthRow(month, Round2(cf), Round2(discounted), Round2(cumulative))];
    }
  }

  method PredictRoi(x: Inputs, root: real -> real) returns (r: Result<Report, RoiError>)
    requires TwelfthRoot(root)
    ensures r.Failure? <==> RaisedError(x).Some?
    ensures r.Failure? ==> r.error == RaisedError(x).value
    ensures r.Failure? <==>
      x.growthPct < -100.0 || (x.revenue > x.cost && (x.revenue == 0.0 || x.marginPct == 0.0))
    ensures r.Failure? ==> (r.error == ComplexGrowth <==> x.growthPct < -100.0)
    ensures r.Success? ==> ReportFor(x, root, r.value)
  {
    hide Pow, PresentValue, Flows, RowsOf, RoundAll, Growing, RatiosOf, Bracket, IsIrr, Round1;
    var profit := x.revenue - x.cost;
    var payback := if profit > 0.0 then x.investment / profit else 999.0;
    if x.growthPct < -100.0 {
      return Failure(ComplexGrowth);
    }
    RootPositive(root, 1.0 + DISCOUNT_RATE);
    var flow := Growing(profit, root(1.0 + x.growthPct / 100.0));
    var npv, rows, rounded := ProjectCashFlows(x.investment, flow, root(1.0 + DISCOUNT_RATE));
    var low, high := InternalRate(rounded, x.investment, root);
    var irr := Round1((low + high) / 2.0 * 100.0);
    MidpointIsIrr(rounded, x.investment, root, low, high, irr);
    var ratios := Ratios(x);
    if ratios.Failure? {
      return Failure(ratios.error);
    }
    var (bep, roi) := ratios.value;
    r := Success(Report(payback, npv, rows, irr, roi, bep, VerdictOf(payback, irr), RiskOf(payback)));
  }

  lemma MidpointIsIrr(flows: seq<real>, investment: real, root: real -> real, low: real, high: real, irr: real)
    requires TwelfthRoot(root) && Bracket(flows, investment, root, low, high, STEPS)
    requires irr == Round1((low + high) / 2.0 * 100.0)
    ensures IsIrr(flows, investment, root, irr)
  {
    hide Bracket, Round1;
  }

  /** Break-even revenue and first-year return; the unused break-even units can divide by zero. */
  method Ratios(x: Inputs) returns (r: Result<(real, real), RoiError>)
    ensures r.Failure? <==> x.revenue > x.cost && (x.revenue == 0.0 || x.marginPct == 0.0)
    ensures r.Failure? ==> r.error == DivisionByZero
    ensures r.Success? ==> RatiosOf(x, r.value.0, r.value.1)
  {
    if x.revenue > x.cost {
      ZeroDenominator(x.revenue, x.revenue - x.cost, x.marginPct);
      if x.revenue / (x.revenue - x.cost) * x.marginPct / 100.0 == 0.0 {
        return Failure(DivisionByZero);
      }
    }
    var bep := if x.marginPct > 0.0 then x.cost / (x.marginPct / 100.0) else 0.0;
    var roi := if x.investment > 0.0
      then ((x.revenue - x.cost) * 12.0 - x.investment) / x.investment * 100.0
      else 0.0;
    r := Success((bep, roi));
    assert x.marginPct > 0.0 ==> bep * x.marginPct == x.cost * 100.0;
    assert x.investment > 0.0 ==> roi * x.investment == ((x.revenue - x.cost) * 12.0 - x.investment) * 100.0;
  }

  lemma SumAppended(flows: seq<real>, cf: real)
    ensures Sum(flows + [cf]) == Sum(flows) + cf
  {
    assert (flows + [cf])[..|flows|] == flows;
  }

  lemma PresentValueAppended(flows: seq<real>, cf: real, d: real)
    requires 0.0 < d
    ensures Pow(d, |flows| + 1) > 0.0
    ensures PresentValue(flows + [cf], d) == PresentValue(flows, d) + cf / Pow(d, |flows| + 1)
  {
    hide Pow;
    PowBounds(d, |flows| + 1);
    assert (flows + [cf])[..|flows|] == flows;
  }

  lemma RowsAppended(flows: seq<real>, cf: real, investment: real, d: real)
    requires 0.0 < d
    ensures RoundAll(flows + [cf]) == RoundAll(flows) + [Round2(cf)]
    ensures RowsOf(flows + [cf], investment, d) == RowsOf(flows, investment, d) + [Row(flows + [cf], investment, d)]
  {
    hide Pow, Sum, PresentValue;
    assert (flows + [cf])[..|flows|] == flows;
  }

  lemma FlowsAppended(flow: nat -> real, n: nat, d: real)
    requires 0.0 < d
    ensures n > 0 ==> Flows(flow, n) == Flows(flow, n - 1) + [flow(n - 1)]
    ensures n == 0 ==> Sum(Flows(flow, n)) == PresentValue(Flows(flow, n), d) == 0.0
  {
  }

  lemma RootPositive(root: real -> real, x: real)
    requires TwelfthRoot(root) && 0.0 < x
    ensures 0.0 < root(x)
  {
    assert 0.0 <= x;
    PowUnfold(root(x), 12);
  }

  lemma {:induction false} HalvedWidth(w: real, k: nat)
    ensures Doubled(w / 2.0, k + 1) == Doubled(w, k)
  {
    if k != 0 {
      HalvedWidth(w, k - 1);
    }
  }

  lemma ZeroDenominator(revenue: real, profit: real, margin: real)
    requires 0.0 < profit
    ensures revenue / profit * margin / 100.0 == 0.0 <==> revenue == 0.0 || margin == 0.0
  {
    var a := revenue / profit;
    assert a * profit == revenue;
    assert a == 0.0 <==> revenue == 0.0;
    assert a * margin == 0.0 <==> a == 0.0 || margin == 0.0;
  }
}
