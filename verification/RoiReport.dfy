/** The figures the ROI predictor shows: rounded metrics, the first year's rows, and six what-if scenarios. */
module RoiReport {
  import opened Common
  import opened Numbers
  import opened Roi

  const ROWS_SHOWN: nat := 12

  datatype Shown = Shown(
    paybackMonths: real,
    paybackYears: real,
    npv: real,
    irr: real,
    bepRevenue: real,
    roiYear1: real,
    annualProfit: real,
    rows: seq<MonthRow>,
    verdict: Verdict,
    risk: RiskLevel)

  function Show(x: Inputs, r: Report): Shown {
    Shown(Round1(r.payback), Round2(r.payback / 12.0), Round2(r.npv), r.irr, Round2(r.bepRevenue), Round1(r.roiYear1),
      Round2(x.Profit() * 12.0), if |r.rows| <= ROWS_SHOWN then r.rows else r.rows[..ROWS_SHOWN], r.verdict, r.risk)
  }

  /** Factors applied to revenue, cost and growth. */
  datatype Scenario = Scenario(revenue: real, cost: real, growth: real)

  datatype Outcome = Outcome(profit: real, payback: real, roiYear1: real)

  const SCENARIOS: seq<Scenario> := [
    Scenario(0.80, 1.0, 1.0), Scenario(1.20, 1.0, 1.0), Scenario(1.0, 1.15, 1.0),
    Scenario(1.0, 0.85, 1.0), Scenario(1.0, 1.0, 0.90), Scenario(1.0, 1.0, 1.10)]

  /** The inputs with a scenario's factors applied. */
  function Adjusted(x: Inputs, s: Scenario): Inputs {
    x.(revenue := x.revenue * s.revenue, cost := x.cost * s.cost, growthPct := x.growthPct * s.growth)
  }

  function RoiYear1(investment: real, profit: real): real {
    if investment > 0.0 then (profit * 12.0 - investment) / investment * 100.0 else 0.0
  }

  /** What the report would say about payback and first-year return of these inputs. */
  function OutcomeOf(x: Inputs): Outcome {
    Outcome(Round2(x.Profit()), if x.Profit() > 0.0 then Round1(PaybackMonths(x.investment, x.Profit())) else 999.0,
      Round1(RoiYear1(x.investment, x.Profit())))
  }

  method Sensitivity(x: Inputs) returns (outcomes: seq<Outcome>)
    ensures |outcomes| == |SCENARIOS|
    ensures forall i :: 0 <= i < |SCENARIOS| ==> outcomes[i] == OutcomeOf(Adjusted(x, SCENARIOS[i]))
  {
    hide Round1, Round2;
    ZeroRounds();
    outcomes := [];
    for i := 0 to |SCENARIOS|
      invariant |outcomes| == i
      invariant forall j :: 0 <= j < i ==> outcomes[j] == OutcomeOf(Adjusted(x, SCENARIOS[j]))
    {
      var s := SCENARIOS[i];
      var profit := x.revenue * s.revenue - x.cost * s.cost;
      var payback := if profit > 0.0 then Round1(x.investment / profit) else 999.0;
      var roi := if x.investment > 0.0 then Round1((profit * 12.0 - x.investment) / x.investment * 100.0) else 0.0;
      assert Outcome(Round2(profit), payback, roi) == OutcomeOf(Adjusted(x, s));
      outcomes := outcomes + [Outcome(Round2(profit), payback, roi)];
    }
  }

  lemma ZeroRounds()
    ensures Round1(0.0) == 0.0
  {
    RoundToInteger(0.0, 0);
  }

  /** The predictor's whole answer: it raises when the prediction does, and otherwise shows one such report. */
  method Respond(x: Inputs, root: real -> real) returns (r: Result<(Shown, seq<Outcome>), RoiError>)
    requires TwelfthRoot(root)
    ensures r.Failure? <==> RaisedError(x).Some?
    ensures r.Failure? ==> r.error == RaisedError(x).value
    ensures r.Failure? <==>
      x.growthPct < -100.0 || (x.revenue > x.cost && (x.revenue == 0.0 || x.marginPct == 0.0))
    ensures r.Success? ==> exists report :: ReportFor(x, root, report) && r.value.0 == Show(x, report)
    ensures r.Success? ==> |r.value.1| == |SCENARIOS|
    ensures r.Success? ==>
      forall i :: 0 <= i < |SCENARIOS| ==> r.value.1[i] == OutcomeOf(Adjusted(x, SCENARIOS[i]))
  {
    hide ReportFor, Show, OutcomeOf, Adjusted;
    var predicted := PredictRoi(x, root);
    if predicted.Failure? {
      return Failure(predicted.error);
    }
    var outcomes := Sensitivity(x);
    r := Success((Show(x, predicted.value), outcomes));
  }

  /** The growth scenarios never differ from the base case, whatever the growth: the adjusted growth is not used. */
  lemma GrowthScenariosAreTheBaseCase(x: Inputs, growth: real)
    ensures forall i :: 4 <= i < 6 ==> OutcomeOf(Adjusted(x, SCENARIOS[i])) == OutcomeOf(x)
    ensures OutcomeOf(x.(growthPct := growth)) == OutcomeOf(x)
  {
    hide RoiYear1, Round1, Round2, PaybackMonths;
    forall i | 4 <= i < 6
      ensures OutcomeOf(Adjusted(x, SCENARIOS[i])) == OutcomeOf(x)
    {
      assert SCENARIOS[i].revenue == 1.0 && SCENARIOS[i].cost == 1.0;
      assert Adjusted(x, SCENARIOS[i]).Profit() == x.Profit();
    }
  }

  /** More profit shows at least the profit and the return, and no longer a payback. */
  lemma OutcomesAreMonotone(x: Inputs, y: Inputs)
    requires x.investment == y.investment && x.Profit() <= y.Profit()
    ensures OutcomeOf(x).profit <= OutcomeOf(y).profit && OutcomeOf(x).roiYear1 <= OutcomeOf(y).roiYear1
    ensures 0.0 < x.Profit() && 0.0 <= x.investment ==> OutcomeOf(y).payback <= OutcomeOf(x).payback
  {
    hide *;
    OutcomeParts(x);
    OutcomeParts(y);
    Round2Monotone(x.Profit(), y.Profit());
    ReturnGrows(x.investment, x.Profit(), y.Profit());
    PaybackGrows(x.investment, x.Profit(), y.Profit());
  }

  lemma OutcomeParts(x: Inputs)
    ensures OutcomeOf(x).profit == Round2(x.Profit())
    ensures OutcomeOf(x).roiYear1 == Round1(RoiYear1(x.investment, x.Profit()))
    ensures x.Profit() > 0.0 ==> OutcomeOf(x).payback == Round1(x.investment / x.Profit())
  {
    hide Round1, Round2, RoiYear1;
  }

  lemma ReturnGrows(investment: real, p: real, q: real)
    requires p <= q
    ensures Round1(RoiYear1(investment, p)) <= Round1(RoiYear1(investment, q))
  {
    hide Round1;
    if investment > 0.0 {
      QuotientMonotone(p * 12.0 - investment, q * 12.0 - investment, investment);
    }
    Round1Monotone(RoiYear1(investment, p), RoiYear1(investment, q));
  }

  lemma PaybackGrows(investment: real, p: real, q: real)
    requires p <= q
    ensures 0.0 < p && 0.0 <= investment ==> Round1(investment / q) <= Round1(investment / p)
  {
    hide Round1;
    if 0.0 < p && 0.0 <= investment {
      var u, v := investment / p, investment / q;
      PaybackShrinks(investment, p, q, u, v);
      Round1Monotone(v, u);
    }
  }

  lemma PaybackShrinks(n: real, p: real, q: real, u: real, v: real)
    requires 0.0 <= n && 0.0 < p <= q && u * p == n && v * q == n
    ensures v <= u
  {
    if u < v {
      if 0.0 <= u {
        ProductStrict(u, v, p, q);
      } else {
        ProductStrict(0.0, -u, p, p);
      }
    }
  }

  /** With nonnegative revenue and cost the four other scenarios lie on their own side of the base case. */
  lemma ScenariosBracketTheBaseCase(x: Inputs)
    requires 0.0 <= x.revenue && 0.0 <= x.cost
    ensures var at := (i: nat) => if i < 6 then OutcomeOf(Adjusted(x, SCENARIOS[i])).profit else 0.0;
      at(0) <= OutcomeOf(x).profit <= at(1) && at(2) <= OutcomeOf(x).profit <= at(3)
    ensures var at := (i: nat) => if i < 6 then OutcomeOf(Adjusted(x, SCENARIOS[i])).roiYear1 else 0.0;
      at(0) <= OutcomeOf(x).roiYear1 <= at(1) && at(2) <= OutcomeOf(x).roiYear1 <= at(3)
  {
    hide OutcomeOf;
    OutcomesAreMonotone(Adjusted(x, SCENARIOS[0]), x);
    OutcomesAreMonotone(x, Adjusted(x, SCENARIOS[1]));
    OutcomesAreMonotone(Adjusted(x, SCENARIOS[2]), x);
    OutcomesAreMonotone(x, Adjusted(x, SCENARIOS[3]));
  }

  /** The rounded payback shown tells the payback side of the verdict, except at exactly 18.0, 24.0 or 12.0. */
  lemma ShownPaybackTells(x: Inputs, r: Report, limit: int)
    ensures Show(x, r).paybackMonths < limit as real ==> r.payback < limit as real
    ensures Show(x, r).paybackMonths > limit as real ==> r.payback > limit as real
  {
    RoundToInteger(limit as real * 10.0, limit * 10);
    if r.payback >= limit as real {
      Round1Monotone(limit as real, r.payback);
    }
    if r.payback <= limit as real {
      Round1Monotone(r.payback, limit as real);
    }
  }
}
