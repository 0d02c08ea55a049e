/** The weighted Go/No-Go score, its decision, confidence, key factors and conditions. */
module GoNoGo {
  import opened Common
  import opened Numbers
  import opened PyValues
  import opened DecisionRules

  datatype Decision = NoGo | ConditionalGo | Go
  datatype Impact = Plus | Minus | Even
  datatype Factor = Factor(impact: Impact, weight: real)
  datatype Condition = MarketStudy | CostStructure | BackupSuppliers | MvpFirst

  datatype Financials = Financials(grossPct: real, netPct: real, revenue12: real, revenue24: real)
  datatype Risks = Risks(overall: real, market: real, operational: real)

  datatype Assessment = Assessment(
    decision: Decision,
    confidence: real,
    score: real,
    factors: seq<Factor>,
    conditions: seq<Condition>)

  function Min(a: real, b: real): real { if a <= b then a else b }
  function Max(a: real, b: real): real { if a >= b then a else b }

  // ----- the four bases, each a percentage

  function MarginBase(f: Financials): real { Min(100.0, f.grossPct * 1.5 + f.netPct) }

  function RiskBase(risks: Risks): real { Max(0.0, 100.0 - risks.overall) }

  function GrowthFactor(f: Financials): real {
    if f.revenue12 > 0.0 then f.revenue24 / Max(f.revenue12, 1.0) else 1.0
  }

  function MarketBase(f: Financials): real { Min(100.0, GrowthFactor(f) * 40.0) }

  function BudgetBase(investment: real): real { Min(100.0, investment / 100000.0 * 100.0) }

  function Weighted(base: real, weights: map<string, real>, key: string): real
    requires key in weights
  {
    base * weights[key]
  }

  function Score(f: Financials, risks: Risks, investment: real, weights: map<string, real>): real
    requires Complete(weights)
  {
    Weighted(MarginBase(f), weights, "margin") + Weighted(RiskBase(risks), weights, "risk")
    + Weighted(MarketBase(f), weights, "market") + Weighted(BudgetBase(investment), weights, "budget")
  }

  function Decide(score: real, r: Rules): Decision {
    if score >= r.go then Go else if score >= r.noGo then ConditionalGo else NoGo
  }

  function Confidence(score: real, r: Rules): real {
    match Decide(score, r)
    case Go => Min(95.0, 60.0 + (score - r.go))
    case ConditionalGo => Min(85.0, 50.0 + (score - r.noGo) * 0.8)
    case NoGo => Max(30.0, 60.0 - (r.noGo - score) * 1.5)
  }

  function KeyFactors(margin: real, risk: real, market: real): seq<Factor> {
    var found :=
      (if margin > 25.0 then [Factor(Plus, margin)] else [])
      + (if risk < 15.0 then [Factor(Minus, 30.0 - risk)] else [])
      + (if market > 14.0 then [Factor(Plus, market)] else []);
    if exists f :: f in found && f.impact == Minus then found else found + [Factor(Even, 5.0)]
  }

  function Conditions(decision: Decision, f: Financials, risks: Risks): seq<Condition> {
    if decision != ConditionalGo then []
    else
      var found :=
        (if risks.market > 50.0 then [MarketStudy] else [])
        + (if f.netPct < 15.0 then [CostStructure] else [])
        + (if risks.operational > 45.0 then [BackupSuppliers] else []);
      if |found| == 0 then [MvpFirst] else found
  }

  /** The rules given are resolved once more, as the input layer over the agent's own config. */
  function CalculateGoNoGo(config: Py, f: Financials, risks: Risks, investment: real, given: Py)
    : Result<Assessment, RuleError>
  {
    var layer := Dict(map["commercial_rules" := if Truthy(given) then given else Dict(map[])]);
    var resolved := Resolved(config, layer);
    ResolvedIsWellFormed(config, layer);
    if resolved.Failure? then Failure(resolved.error)
    else
      var r := resolved.value;
      var score := Score(f, risks, investment, r.weights);
      var decision := Decide(score, r);
      Success(Assessment(decision, Confidence(score, r), score,
        KeyFactors(Weighted(MarginBase(f), r.weights, "margin"), Weighted(RiskBase(risks), r.weights, "risk"),
          Weighted(MarketBase(f), r.weights, "market")),
        Conditions(decision, f, risks)))
  }

  /** The decision step of a run: the rules it reports and the assessment it reports. */
  function DecisionStep(config: Py, input: Py, f: Financials, risks: Risks, investment: real)
    : Result<(Rules, Assessment), RuleError>
  {
    var rules := Resolved(config, input);
    if rules.Failure? then Failure(rules.error)
    else
      var a := CalculateGoNoGo(config, f, risks, investment, RulesToPy(rules.value));
      if a.Failure? then Failure(a.error) else Success((rules.value, a.value))
  }

  // ----- the reported rules are the rules that decided

  /** Score, decision and confidence of a run are those of the very rules it reports. */
  lemma ReportedRulesDecide(config: Py, input: Py, f: Financials, risks: Risks, investment: real)
    ensures DecisionStep(config, input, f, risks, investment).Failure? <==> Resolved(config, input).Failure?
    ensures var step := DecisionStep(config, input, f, risks, investment);
      step.Success? ==>
        var (r, a) := step.value;
        && WellFormed(r)
        && Resolved(config, input) == Success(r)
        && a.score == Score(f, risks, investment, r.weights)
        && a.decision == Decide(a.score, r)
        && a.confidence == Confidence(a.score, r)
  {
    hide Resolved, Score, Decide, Confidence, KeyFactors, Conditions, Weighted;
    if Resolved(config, input).Success? {
      ResolvedIsWellFormed(config, input);
      SecondResolutionIsIdentity(config, input, config);
    }
  }

  // ----- the score

  ghost predicate Plausible(f: Financials, risks: Risks, investment: real) {
    0.0 <= f.grossPct && 0.0 <= f.netPct && 0.0 <= f.revenue24 && 0.0 <= risks.overall && 0.0 <= investment
  }

  lemma BasesArePercentages(f: Financials, risks: Risks, investment: real)
    requires Plausible(f, risks, investment)
    ensures 0.0 <= MarginBase(f) <= 100.0 && 0.0 <= RiskBase(risks) <= 100.0
    ensures 0.0 <= MarketBase(f) <= 100.0 && 0.0 <= BudgetBase(investment) <= 100.0
  {
    NonNegativeQuotient(f.revenue24, Max(f.revenue12, 1.0));
  }

  lemma WeightedMonotone(low: real, high: real, weights: map<string, real>, key: string)
    requires key in weights && 0.0 <= weights[key] && low <= high
    ensures Weighted(low, weights, key) <= Weighted(high, weights, key)
    ensures low == 0.0 ==> Weighted(low, weights, key) == 0.0
    ensures high == 100.0 ==> Weighted(high, weights, key) == 100.0 * weights[key]
  {
    NonNegativeTimes(high - low, weights[key]);
  }

  lemma NonNegativeTimes(gap: real, weight: real)
    requires 0.0 <= gap && 0.0 <= weight
    ensures 0.0 <= gap * weight
  {
  }

  lemma PercentageOf(base: real, weights: map<string, real>, key: string)
    requires key in weights && 0.0 <= weights[key] && 0.0 <= base <= 100.0
    ensures 0.0 <= Weighted(base, weights, key) <= 100.0 * weights[key]
  {
    WeightedMonotone(0.0, base, weights, key);
    WeightedMonotone(base, 100.0, weights, key);
  }

  /** A weighted mean of percentages is a percentage. */
  lemma ScoreIsAPercentage(f: Financials, risks: Risks, investment: real, r: Rules)
    requires WellFormed(r) && Plausible(f, risks, investment)
    ensures 0.0 <= Score(f, risks, investment, r.weights) <= 100.0
  {
    hide MarginBase, RiskBase, MarketBase, BudgetBase, Plausible, Weighted;
    BasesArePercentages(f, risks, investment);
    PercentageOf(MarginBase(f), r.weights, "margin");
    PercentageOf(RiskBase(risks), r.weights, "risk");
    PercentageOf(MarketBase(f), r.weights, "market");
    PercentageOf(BudgetBase(investment), r.weights, "budget");
  }

  /** With all the weight on one factor, the score is that factor's base. */
  lemma ScoreOfOneFactor(f: Financials, risks: Risks, investment: real, weights: map<string, real>, key: string)
    requires Complete(weights) && key in weights
    requires forall k :: k in weights ==> weights[k] == if k == key then 1.0 else 0.0
    ensures Score(f, risks, investment, weights) ==
      if key == "margin" then MarginBase(f)
      else if key == "risk" then RiskBase(risks)
      else if key == "market" then MarketBase(f)
      else BudgetBase(investment)
  {
    hide MarginBase, RiskBase, MarketBase, BudgetBase;
  }

  /** g looks at least as good as f: higher margins and later revenue on the same first-year base. */
  ghost predicate AtLeastAsGood(f: Financials, g: Financials) {
    f.grossPct <= g.grossPct && f.netPct <= g.netPct && f.revenue12 == g.revenue12 && f.revenue24 <= g.revenue24
  }

  function Rank(d: Decision): nat {
    match d case NoGo => 0 case ConditionalGo => 1 case Go => 2
  }

  lemma BasesAreMonotone(f: Financials, g: Financials, risks: Risks, calmer: Risks, investment: real, larger: real)
    requires AtLeastAsGood(f, g) && calmer.overall <= risks.overall && investment <= larger
    ensures MarginBase(f) <= MarginBase(g) && RiskBase(risks) <= RiskBase(calmer)
    ensures MarketBase(f) <= MarketBase(g) && BudgetBase(investment) <= BudgetBase(larger)
  {
    QuotientMonotone(f.revenue24, g.revenue24, Max(f.revenue12, 1.0));
  }

  /** Better margins, revenue or budget and lower risk never lower the score or the decision. */
  lemma DecisionIsMonotone(f: Financials, g: Financials, risks: Risks, calmer: Risks,
      investment: real, larger: real, r: Rules)
    requires WellFormed(r)
    requires AtLeastAsGood(f, g) && calmer.overall <= risks.overall && investment <= larger
    ensures Score(f, risks, investment, r.weights) <= Score(g, calmer, larger, r.weights)
    ensures Rank(Decide(Score(f, risks, investment, r.weights), r))
      <= Rank(Decide(Score(g, calmer, larger, r.weights), r))
  {
    hide MarginBase, RiskBase, MarketBase, BudgetBase, AtLeastAsGood, Weighted;
    BasesAreMonotone(f, g, risks, calmer, investment, larger);
    WeightedMonotone(MarginBase(f), MarginBase(g), r.weights, "margin");
    WeightedMonotone(RiskBase(risks), RiskBase(calmer), r.weights, "risk");
    WeightedMonotone(MarketBase(f), MarketBase(g), r.weights, "market");
    WeightedMonotone(BudgetBase(investment), BudgetBase(larger), r.weights, "budget");
  }

  // ----- confidence

  /** Each decision has its own confidence band, for any score and any resolved rules. */
  lemma ConfidenceBands(config: Py, input: Py, score: real)
    requires Resolved(config, input).Success?
    ensures var r := Resolved(config, input).value;
      match Decide(score, r)
      case Go => 60.0 <= Confidence(score, r) <= 95.0
      case ConditionalGo => 50.0 <= Confidence(score, r) <= 85.0
      case NoGo => 30.0 <= Confidence(score, r) < 60.0
  {
    hide Resolved;
  }

  /** Confidence can drop as the score rises, but only where the decision changes; by default it does at 70. */
  lemma ConfidenceIsMonotoneWithinADecision(s: real, t: real, r: Rules)
    requires s <= t
    ensures Decide(s, r) == Decide(t, r) ==> Confidence(s, r) <= Confidence(t, r)
    ensures Confidence(s, r) > Confidence(t, r) ==> Rank(Decide(s, r)) < Rank(Decide(t, r))
    ensures Confidence(69.0, DefaultRules()) > Confidence(70.0, DefaultRules())
  {
  }

  /** A better score, a different decision, and less confidence. */
  ghost predicate Drops(r: Rules, s: real, t: real, worse: Decision, better: Decision) {
    s < t && Decide(s, r) == worse && Decide(t, r) == better && Confidence(s, r) > Confidence(t, r)
  }

  /** Confidence never falls as the score rises iff the two thresholds coincide, so that nothing is conditional. */
  lemma ConfidenceIsMonotoneIff(r: Rules)
    requires r.noGo <= r.go
    ensures (forall s, t :: s <= t ==> Confidence(s, r) <= Confidence(t, r)) <==> r.go == r.noGo
  {
    if r.noGo < r.go {
      assert Confidence(r.noGo - 1.0, r) == 58.5 && Confidence(r.noGo, r) == 50.0;
    }
  }

  /**
   * On the scores that nonnegative inputs can give, the thresholds may also differ if nothing scores below the lower
   * one and they are at most 12.5 apart.
   */
  lemma ConfidenceOnPercentagesIff(r: Rules)
    requires 0.0 <= r.noGo <= r.go <= 100.0
    ensures (forall s, t :: 0.0 <= s <= t <= 100.0 ==> Confidence(s, r) <= Confidence(t, r))
      <==> r.go == r.noGo || (r.noGo == 0.0 && r.go <= 12.5)
  {
    if r.noGo < r.go {
      if r.noGo > 0.0 {
        var s := if r.noGo >= 1.0 then r.noGo - 1.0 else 0.0;
        assert Confidence(s, r) > Confidence(r.noGo, r);
      } else if r.go > 12.5 {
        assert Confidence((r.go + 12.5) / 2.0, r) > Confidence(r.go, r);
      }
    }
  }

  /**
   * Where it falls: on turning conditional for any distinct thresholds, on turning Go exactly when they are more than
   * 12.5 apart, and never on jumping from NoGo to Go.
   */
  lemma WhereConfidenceDrops(r: Rules)
    requires r.noGo <= r.go
    ensures (exists s, t :: Drops(r, s, t, NoGo, ConditionalGo)) <==> r.noGo < r.go
    ensures (exists s, t :: Drops(r, s, t, ConditionalGo, Go)) <==> r.go - r.noGo > 12.5
    ensures !exists s, t :: Drops(r, s, t, NoGo, Go)
  {
    if r.noGo < r.go {
      assert Drops(r, r.noGo - 1.0, r.noGo, NoGo, ConditionalGo);
    }
    if r.go - r.noGo > 12.5 {
      assert Drops(r, (r.go + r.noGo + 12.5) / 2.0, r.go, ConditionalGo, Go);
    }
  }

  /** Every assessment names exactly one of: a negative factor, or the neutral stand-in. */
  lemma FactorsAreBalanced(margin: real, risk: real, market: real)
    ensures var factors := KeyFactors(margin, risk, market);
      && ((exists f :: f in factors && f.impact == Minus) <==> risk < 15.0)
      && ((exists f :: f in factors && f.impact == Even) <==> risk >= 15.0)
      && (forall f :: f in factors && f.impact == Minus ==> f.weight > 15.0)
  {
    if risk < 15.0 {
      assert Factor(Minus, 30.0 - risk) in KeyFactors(margin, risk, market);
    } else {
      assert Factor(Even, 5.0) in KeyFactors(margin, risk, market);
    }
  }

  /** A conditional decision has conditions, the small trial exactly when nothing else is wrong; others have none. */
  lemma ConditionsFitTheDecision(decision: Decision, f: Financials, risks: Risks)
    ensures var found := Conditions(decision, f, risks);
      && (found == [] <==> decision != ConditionalGo)
      && (MvpFirst in found <==>
        decision == ConditionalGo && risks.market <= 50.0 && f.netPct >= 15.0 && risks.operational <= 45.0)
      && (MvpFirst in found ==> |found| == 1)
      && (forall i, j :: 0 <= i < j < |found| ==> found[i] != found[j])
  {
  }

  // ----- the assessment, from the raw figures

  /** The four percentages, from the figures they rest on. */
  lemma BasesFromTheFigures(f: Financials, risks: Risks, investment: real)
    ensures MarginBase(f) == if 1.5 * f.grossPct + f.netPct <= 100.0 then 1.5 * f.grossPct + f.netPct else 100.0
    ensures RiskBase(risks) == if risks.overall <= 100.0 then 100.0 - risks.overall else 0.0
    ensures f.revenue12 <= 0.0 ==> MarketBase(f) == 40.0
    ensures 0.0 < f.revenue12 ==> (
      var year := if f.revenue12 < 1.0 then 1.0 else f.revenue12;
      if 2.5 * year <= f.revenue24 then MarketBase(f) == 100.0 else MarketBase(f) * year == 40.0 * f.revenue24)
    ensures if 100000.0 <= investment then BudgetBase(investment) == 100.0
      else BudgetBase(investment) * 1000.0 == investment
  {
    if 0.0 < f.revenue12 {
      var year := if f.revenue12 < 1.0 then 1.0 else f.revenue12;
      RatioAgainst(f.revenue24, year, f.revenue24 / year);
    }
  }

  lemma RatioAgainst(later: real, year: real, ratio: real)
    requires 0.0 < year && ratio == later / year
    ensures ratio * year == later
    ensures 2.5 * year <= later <==> 2.5 <= ratio
    ensures ratio * 40.0 * year == 40.0 * later
  {
    assert ratio * year == later;
    if 2.5 <= ratio {
      ProductGap(ratio - 2.5, year);
    } else {
      ProductGap(2.5 - ratio, year);
    }
  }

  /**
   * The whole assessment of a run. `margin`, `risk`, `market` and `budget` are the four percentages as the figures give
   * them; the score weighs each with its own weight, and decision, confidence, factors and conditions follow from it.
   */
  lemma AssessmentFromTheFigures(config: Py, input: Py, f: Financials, risks: Risks, investment: real,
      margin: real, risk: real, market: real, budget: real)
    requires DecisionStep(config, input, f, risks, investment).Success?
    requires margin == if 1.5 * f.grossPct + f.netPct <= 100.0 then 1.5 * f.grossPct + f.netPct else 100.0
    requires risk == if risks.overall <= 100.0 then 100.0 - risks.overall else 0.0
    requires f.revenue12 <= 0.0 ==> market == 40.0
    requires 0.0 < f.revenue12 ==> (
      var year := if f.revenue12 < 1.0 then 1.0 else f.revenue12;
      if 2.5 * year <= f.revenue24 then market == 100.0 else market * year == 40.0 * f.revenue24)
    requires if 100000.0 <= investment then budget == 100.0 else budget * 1000.0 == investment
    ensures var (r, a) := DecisionStep(config, input, f, risks, investment).value;
      && Complete(r.weights)
      && a.score == margin * r.weights["margin"] + risk * r.weights["risk"]
        + market * r.weights["market"] + budget * r.weights["budget"]
      && (a.decision == Go <==> r.go <= a.score) && (a.decision == NoGo <==> a.score < r.noGo)
      && a.factors == KeyFactors(Weighted(margin, r.weights, "margin"), Weighted(risk, r.weights, "risk"),
        Weighted(market, r.weights, "market"))
      && a.conditions == Conditions(a.decision, f, risks)
  {
    hide *;
    RunParts(config, input, f, risks, investment);
    BasesFromTheFigures(f, risks, investment);
    MarketIsUnique(f, market);
    BudgetIsUnique(investment, budget);
    var r := DecisionStep(config, input, f, risks, investment).value.0;
    ScoreIs(f, risks, investment, r.weights, margin, risk, market, budget);
    DecideIs(Score(f, risks, investment, r.weights), r);
  }

  /** A run's assessment, part by part, under the rules it reports. */
  lemma RunParts(config: Py, input: Py, f: Financials, risks: Risks, investment: real)
    requires DecisionStep(config, input, f, risks, investment).Success?
    ensures var (r, a) := DecisionStep(config, input, f, risks, investment).value;
      && Complete(r.weights) && r.noGo <= r.go && "margin" in r.weights && "risk" in r.weights
      && "market" in r.weights && "budget" in r.weights
      && a.score == Score(f, risks, investment, r.weights) && a.decision == Decide(a.score, r)
      && a.factors == KeyFactors(Weighted(MarginBase(f), r.weights, "margin"),
        Weighted(RiskBase(risks), r.weights, "risk"), Weighted(MarketBase(f), r.weights, "market"))
      && a.conditions == Conditions(a.decision, f, risks)
  {
    hide Resolved, Score, Decide, Confidence, KeyFactors, Conditions, MarginBase, RiskBase, MarketBase, Weighted;
    ReportedRulesDecide(config, input, f, risks, investment);
    ResolvedIsWellFormed(config, input);
    SecondResolutionIsIdentity(config, input, config);
  }

  lemma DecideIs(score: real, r: Rules)
    requires r.noGo <= r.go
    ensures (Decide(score, r) == Go <==> r.go <= score) && (Decide(score, r) == NoGo <==> score < r.noGo)
  {
  }

  lemma BudgetIsUnique(investment: real, budget: real)
    requires if 100000.0 <= investment then budget == 100.0 else budget * 1000.0 == investment
    ensures budget == BudgetBase(investment)
  {
  }

  lemma MarketIsUnique(f: Financials, market: real)
    requires f.revenue12 <= 0.0 ==> market == 40.0
    requires 0.0 < f.revenue12 ==> (
      var year := if f.revenue12 < 1.0 then 1.0 else f.revenue12;
      if 2.5 * year <= f.revenue24 then market == 100.0 else market * year == 40.0 * f.revenue24)
    ensures market == MarketBase(f)
  {
    BasesFromTheFigures(f, Risks(0.0, 0.0, 0.0), 0.0);
    hide MarketBase;
    if 0.0 < f.revenue12 {
      var year := if f.revenue12 < 1.0 then 1.0 else f.revenue12;
      if 2.5 * year > f.revenue24 {
        SameFactor(market, MarketBase(f), year);
      }
    }
  }

  lemma SameFactor(a: real, b: real, scale: real)
    requires 0.0 < scale && a * scale == b * scale
    ensures a == b
  {
    assert (a - b) * scale == 0.0;
  }

  lemma ScoreIs(f: Financials, risks: Risks, investment: real, weights: map<string, real>,
      margin: real, risk: real, market: real, budget: real)
    requires Complete(weights)
    requires "margin" in weights && "risk" in weights && "market" in weights && "budget" in weights
    requires margin == MarginBase(f) && risk == RiskBase(risks)
    requires market == MarketBase(f) && budget == BudgetBase(investment)
    ensures Score(f, risks, investment, weights) == margin * weights["margin"] + risk * weights["risk"]
      + market * weights["market"] + budget * weights["budget"]
  {
    hide MarginBase, RiskBase, MarketBase, BudgetBase;
  }

  /** Below the cap a point of gross margin is worth one and a half of net margin; a point of risk costs its weight. */
  lemma ScoreSlopes(config: Py, input: Py, f: Financials, risks: Risks, investment: real)
    requires Resolved(config, input).Success?
    requires 1.5 * (f.grossPct + 1.0) + f.netPct <= 100.0 && risks.overall + 1.0 <= 100.0
    ensures var score := (f: Financials, risks: Risks) => ScoreOf(config, input, f, risks, investment);
      var weights := Resolved(config, input).value.weights;
      && Complete(weights)
      && score(f.(grossPct := f.grossPct + 1.0), risks) == score(f, risks) + 1.5 * weights["margin"]
      && score(f.(netPct := f.netPct + 1.0), risks) == score(f, risks) + weights["margin"]
      && score(f, risks.(overall := risks.overall + 1.0)) == score(f, risks) - weights["risk"]
  {
    hide Resolved, Confidence, KeyFactors, Conditions, GrowthFactor;
    ResolvedIsWellFormed(config, input);
    var weights := Resolved(config, input).value.weights;
    var gross, net, riskier := f.(grossPct := f.grossPct + 1.0), f.(netPct := f.netPct + 1.0),
      risks.(overall := risks.overall + 1.0);
    ScoreOfRun(config, input, f, risks, investment);
    ScoreOfRun(config, input, gross, risks, investment);
    ScoreOfRun(config, input, net, risks, investment);
    ScoreOfRun(config, input, f, riskier, investment);
    SameMarket(f, gross);
    SameMarket(f, net);
    OneFactorMoves(f, gross, risks, risks, investment, weights, 1.5, 0.0);
    OneFactorMoves(f, net, risks, risks, investment, weights, 1.0, 0.0);
    OneFactorMoves(f, f, risks, riskier, investment, weights, 0.0, -1.0);
  }

  /** The score a run reports. */
  function ScoreOf(config: Py, input: Py, f: Financials, risks: Risks, investment: real): real {
    var step := DecisionStep(config, input, f, risks, investment);
    if step.Success? then step.value.1.score else 0.0
  }

  lemma ScoreOfRun(config: Py, input: Py, f: Financials, risks: Risks, investment: real)
    requires Resolved(config, input).Success?
    ensures Complete(Resolved(config, input).value.weights)
    ensures ScoreOf(config, input, f, risks, investment)
      == Score(f, risks, investment, Resolved(config, input).value.weights)
  {
    hide Resolved, Score, DecisionStep;
    ResolvedIsWellFormed(config, input);
    ReportedRulesDecide(config, input, f, risks, investment);
  }

  lemma SameMarket(f: Financials, g: Financials)
    requires f.revenue12 == g.revenue12 && f.revenue24 == g.revenue24
    ensures MarketBase(f) == MarketBase(g)
  {
  }

  lemma OneFactorMoves(f: Financials, g: Financials, risks: Risks, other: Risks, investment: real,
      weights: map<string, real>, margin: real, risk: real)
    requires Complete(weights) && MarginBase(g) == MarginBase(f) + margin && RiskBase(other) == RiskBase(risks) + risk
    requires MarketBase(g) == MarketBase(f)
    ensures Score(g, other, investment, weights)
      == Score(f, risks, investment, weights) + margin * weights["margin"] + risk * weights["risk"]
  {
    hide MarginBase, RiskBase, MarketBase, BudgetBase;
  }

  /** Confidence, point by point: from 60 up to 95, from 50 by 0.8 up to 85, from 60 down by 1.5 to 30. */
  lemma ConfidenceFromTheScore(score: real, r: Rules)
    requires r.noGo <= r.go
    ensures Decide(score, r) == if r.go <= score then Go else if r.noGo <= score then ConditionalGo else NoGo
    ensures r.go <= score ==>
      Confidence(score, r) == if score - r.go <= 35.0 then 60.0 + (score - r.go) else 95.0
    ensures r.noGo <= score < r.go ==>
      Confidence(score, r) == if score - r.noGo <= 43.75 then 50.0 + 0.8 * (score - r.noGo) else 85.0
    ensures score < r.noGo ==>
      Confidence(score, r) == if r.noGo - score <= 20.0 then 60.0 - 1.5 * (r.noGo - score) else 30.0
  {
  }

  /** Each factor is listed for its own reason, with its own weight, and each condition for its own. */
  lemma ReasonsFromTheFigures(margin: real, risk: real, market: real, decision: Decision, f: Financials, risks: Risks)
    ensures var factors := KeyFactors(margin, risk, market);
      && |factors| == (if margin > 25.0 then 1 else 0) + 1 + (if market > 14.0 then 1 else 0)
      && (margin > 25.0 ==> factors[0] == Factor(Plus, margin))
      && (risk < 15.0 ==> Factor(Minus, 30.0 - risk) in factors)
      && (market > 14.0 ==> Factor(Plus, market) in factors)
      && (risk >= 15.0 ==> factors[|factors| - 1] == Factor(Even, 5.0))
    ensures var found := Conditions(decision, f, risks);
      && (MarketStudy in found <==> decision == ConditionalGo && risks.market > 50.0)
      && (CostStructure in found <==> decision == ConditionalGo && f.netPct < 15.0)
      && (BackupSuppliers in found <==> decision == ConditionalGo && risks.operational > 45.0)
  {
  }
}
