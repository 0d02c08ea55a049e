/**
 * The commercial agent's decision rules: two thresholds and four weights, read from a config
 * layer and an input layer that may be partial, malformed or of the wrong type.
 */
module DecisionRules {
  import opened Common
  import opened Numbers
  import opened PyValues

  const FACTORS: seq<string> := ["margin", "risk", "market", "budget"]
  const DEFAULT_GO := 70.0
  const DEFAULT_NO_GO := 40.0

  datatype Rules = Rules(go: real, noGo: real, weights: map<string, real>)
  datatype RuleError = NotAMapping

  predicate Complete(weights: map<string, real>) {
    weights.Keys == {"margin", "risk", "market", "budget"}
  }

  function Total(weights: map<string, real>): real
    requires Complete(weights)
  {
    weights["margin"] + weights["risk"] + weights["market"] + weights["budget"]
  }

  ghost predicate WellFormed(r: Rules) {
    && 0.0 <= r.noGo <= r.go <= 100.0
    && Complete(r.weights)
    && (forall k :: k in r.weights ==> 0.0 <= r.weights[k])
    && Total(r.weights) == 1.0
  }

  function DefaultWeights(): (w: map<string, real>)
    ensures Complete(w) && Total(w) == 1.0
    ensures forall k :: k in w ==> 0.0 <= w[k]
  {
    map["margin" := 0.4, "risk" := 0.3, "market" := 0.2, "budget" := 0.1]
  }

  function DefaultRules(): Rules {
    Rules(DEFAULT_GO, DEFAULT_NO_GO, DefaultWeights())
  }

  // ----- specification of one normalisation

  /** A threshold is taken only when it is a number from 0 to 100. */
  function ThresholdOr(v: Py, base: real): real {
    var n := AsNumber(v);
    if n.Some? && 0.0 <= n.value <= 100.0 then n.value else base
  }

  /** An inverted pair falls back to the built-in pair as a whole. */
  function NormalThresholds(thresholds: Py): (real, real) {
    if thresholds.Dict? then
      var go := ThresholdOr(Get(thresholds.entries, "go"), DEFAULT_GO);
      var noGo := ThresholdOr(Get(thresholds.entries, "no_go"), DEFAULT_NO_GO);
      if go < noGo then (DEFAULT_GO, DEFAULT_NO_GO) else (go, noGo)
    else (DEFAULT_GO, DEFAULT_NO_GO)
  }

  /** A weight may be absent or null; otherwise it must be a nonnegative number. */
  predicate ValidWeight(v: Py) {
    v == Null || (AsNumber(v).Some? && 0.0 <= AsNumber(v).value)
  }

  function MergedWeights(over: map<string, Py>): (w: map<string, real>)
    ensures Complete(w)
  {
    map k | k in DefaultWeights() ::
      if AsNumber(Get(over, k)).Some? then AsNumber(Get(over, k)).value else DefaultWeights()[k]
  }

  function Scaled(w: map<string, real>, total: real): (s: map<string, real>)
    requires total != 0.0
    ensures s.Keys == w.Keys
  {
    map k | k in w :: w[k] / total
  }

  /** The given weights are used only if every one is valid and they do not sum to zero. */
  predicate UsableWeights(weights: Py) {
    && weights.Dict?
    && (forall k | k in FACTORS :: ValidWeight(Get(weights.entries, k)))
    && Total(MergedWeights(weights.entries)) > 0.0
  }

  function NormalWeights(weights: Py): (w: map<string, real>)
    ensures Complete(w)
  {
    if UsableWeights(weights) then
      var merged := MergedWeights(weights.entries);
      Scaled(merged, Total(merged))
    else DefaultWeights()
  }

  function Normalized(rules: Py): Rules {
    if rules.Dict? then
      var (go, noGo) := NormalThresholds(Get(rules.entries, "thresholds"));
      Rules(go, noGo, NormalWeights(Get(rules.entries, "weights")))
    else DefaultRules()
  }

  function ThresholdsToPy(r: Rules): map<string, Py> {
    map["go" := Num(r.go), "no_go" := Num(r.noGo)]
  }

  function WeightsToPy(r: Rules): map<string, Py> {
    AsPy(r.weights)
  }

  function RulesToPy(r: Rules): Py {
    Dict(map["thresholds" := Dict(ThresholdsToPy(r)), "weights" := Dict(WeightsToPy(r))])
  }

  /** The `commercial_rules` entry of a layer, if the layer is a dict at all. */
  function RulesIn(layer: Py): Py {
    if layer.Dict? then Get(layer.entries, "commercial_rules") else Null
  }

  /** `section or {}`, unpacked with `**`: a truthy non-dict raises. */
  function Unpacked(section: Py): Result<map<string, Py>, RuleError> {
    if section.Dict? then Success(section.entries)
    else if Truthy(section) then Failure(NotAMapping)
    else Success(map[])
  }

  function ConfigLayer(config: Py): Rules {
    if RulesIn(config).Dict? then Normalized(RulesIn(config)) else DefaultRules()
  }

  function Overlaid(base: Rules, thresholds: map<string, Py>, weights: map<string, Py>): Rules {
    Normalized(Dict(map[
      "thresholds" := Dict(ThresholdsToPy(base) + thresholds),
      "weights" := Dict(WeightsToPy(base) + weights)]))
  }

  function Resolved(config: Py, input: Py): Result<Rules, RuleError> {
    var base := ConfigLayer(config);
    var own := RulesIn(input);
    if !own.Dict? then Success(base)
    else
      var thresholds := Unpacked(Get(own.entries, "thresholds"));
      var weights := Unpacked(Get(own.entries, "weights"));
      if thresholds.Failure? || weights.Failure? then Failure(NotAMapping)
      else Success(Overlaid(base, thresholds.value, weights.value))
  }

  // ----- the program

  /** Copies the defaults and edits the copy, leaving the key loop at the first bad weight. */
  method NormalizeDecisionRules(rules: Py) returns (r: Rules)
    ensures r == Normalized(rules)
  {
    r := DefaultRules();
    if !rules.Dict? {
      return;
    }
    var thresholds := Get(rules.entries, "thresholds");
    if thresholds.Dict? {
      var go, noGo := AsNumber(Get(thresholds.entries, "go")), AsNumber(Get(thresholds.entries, "no_go"));
      if go.Some? && 0.0 <= go.value <= 100.0 {
        r := r.(go := go.value);
      }
      if noGo.Some? && 0.0 <= noGo.value <= 100.0 {
        r := r.(noGo := noGo.value);
      }
      if r.go < r.noGo {
        r := r.(go := DEFAULT_GO, noGo := DEFAULT_NO_GO);
      }
    }
    var weights := Get(rules.entries, "weights");
    if weights.Dict? {
      var merged, valid, total := MergeWeights(weights.entries);
      if valid && total > 0.0 {
        r := r.(weights := map k | k in merged :: merged[k] / total);
      }
    }
  }

  method MergeWeights(over: map<string, Py>) returns (merged: map<string, real>, valid: bool, total: real)
    ensures Complete(merged) && total == Total(merged)
    ensures valid <==> forall k | k in FACTORS :: ValidWeight(Get(over, k))
    ensures valid ==> merged == MergedWeights(over)
  {
    merged, valid := DefaultWeights(), true;
    for i := 0 to |FACTORS|
      invariant Complete(merged) && valid
      invariant forall j :: 0 <= j < i ==> ValidWeight(Get(over, FACTORS[j]))
      invariant forall j :: 0 <= j < i ==> merged[FACTORS[j]] == MergedWeights(over)[FACTORS[j]]
      invariant forall j :: i <= j < |FACTORS| ==> merged[FACTORS[j]] == DefaultWeights()[FACTORS[j]]
    {
      var key := FACTORS[i];
      var value := Get(over, key);
      if value == Null {
        continue;
      }
      var number := AsNumber(value);
      if number.None? || number.value < 0.0 {
        valid := false;
        break;
      }
      merged := merged[key := number.value];
    }
    total := Total(merged);
    if valid {
      assert forall k :: k in merged ==> k in FACTORS;
    }
  }

  method ResolveDecisionRules(config: Py, input: Py) returns (r: Result<Rules, RuleError>)
    ensures r == Resolved(config, input)
  {
    var inputRules, configRules := RulesIn(input), RulesIn(config);
    var merged := DefaultRules();
    if configRules.Dict? {
      merged := NormalizeDecisionRules(configRules);
    }
    if inputRules.Dict? {
      var thresholds := Unpacked(Get(inputRules.entries, "thresholds"));
      var weights := Unpacked(Get(inputRules.entries, "weights"));
      if thresholds.Failure? || weights.Failure? {
        return Failure(NotAMapping);
      }
      merged := NormalizeDecisionRules(Dict(map[
        "thresholds" := Dict(ThresholdsToPy(merged) + thresholds.value),
        "weights" := Dict(WeightsToPy(merged) + weights.value)]));
    }
    r := Success(merged);
  }

  // ----- what the resolved rules always satisfy

  lemma TotalOfScaled(w: map<string, real>, total: real)
    requires Complete(w) && total == Total(w) && 0.0 < total
    requires forall k :: k in w ==> 0.0 <= w[k]
    ensures Complete(Scaled(w, total)) && Total(Scaled(w, total)) == 1.0
    ensures forall k :: k in w ==> 0.0 <= Scaled(w, total)[k]
  {
    forall k | k in w
      ensures 0.0 <= Scaled(w, total)[k]
    {
      NonNegativeQuotient(w[k], total);
    }
    QuotientsSumToOne(w["margin"], w["risk"], w["market"], w["budget"], total);
  }

  lemma QuotientsSumToOne(a: real, b: real, c: real, d: real, t: real)
    requires t == a + b + c + d && t != 0.0
    ensures a / t + b / t + c / t + d / t == 1.0
  {
  }

  lemma NonNegativeQuotient(a: real, b: real)
    requires 0.0 <= a && 0.0 < b
    ensures 0.0 <= a / b
  {
  }

  lemma NormalizedIsWellFormed(rules: Py)
    ensures WellFormed(Normalized(rules))
  {
    if rules.Dict? && UsableWeights(Get(rules.entries, "weights")) {
      var over := Get(rules.entries, "weights").entries;
      forall k | k in MergedWeights(over)
        ensures 0.0 <= MergedWeights(over)[k]
      {
        assert k in FACTORS;
      }
      TotalOfScaled(MergedWeights(over), Total(MergedWeights(over)));
    }
  }

  /** Whatever the two layers hold, resolved rules are ordered thresholds and weights summing to one. */
  lemma ResolvedIsWellFormed(config: Py, input: Py)
    ensures Resolved(config, input).Success? ==> WellFormed(Resolved(config, input).value)
  {
    NormalizedIsWellFormed(RulesIn(config));
    if RulesIn(input).Dict? && Resolved(config, input).Success? {
      var own := RulesIn(input).entries;
      var base := ConfigLayer(config);
      NormalizedIsWellFormed(Dict(map[
        "thresholds" := Dict(ThresholdsToPy(base) + Unpacked(Get(own, "thresholds")).value),
        "weights" := Dict(WeightsToPy(base) + Unpacked(Get(own, "weights")).value)]));
    }
  }

  /** Resolution raises exactly when the input layer has a truthy section that is not a dict. */
  lemma ResolvedRaises(config: Py, input: Py)
    ensures Resolved(config, input).Failure? <==>
      input.Dict? && RulesIn(input).Dict? &&
      exists section: string :: section in ["thresholds", "weights"] &&
        var v := Get(RulesIn(input).entries, section); Truthy(v) && !v.Dict?
  {
    if Resolved(config, input).Failure? {
      if Unpacked(Get(RulesIn(input).entries, "thresholds")).Failure? {
        assert "thresholds" in ["thresholds", "weights"];
      } else {
        assert "weights" in ["thresholds", "weights"];
      }
    }
  }

  /** Well-formed rules are fixed points of normalisation, read back from their own dict. */
  lemma WellFormedIsFixed(r: Rules)
    requires WellFormed(r)
    ensures Normalized(RulesToPy(r)) == r
  {
    MergedIsGiven(r.weights);
    assert Scaled(r.weights, 1.0) == r.weights;
  }

  lemma NormalizingIsIdempotent(rules: Py)
    ensures Normalized(RulesToPy(Normalized(rules))) == Normalized(rules)
  {
    NormalizedIsWellFormed(rules);
    WellFormedIsFixed(Normalized(rules));
  }

  /** A complete input section hides the config layer completely. */
  lemma CompleteInputHidesConfig(base: Rules, r: Rules)
    requires Complete(base.weights) && WellFormed(r)
    ensures Overlaid(base, ThresholdsToPy(r), WeightsToPy(r)) == r
  {
    assert ThresholdsToPy(base) + ThresholdsToPy(r) == ThresholdsToPy(r);
    assert WeightsToPy(base) + WeightsToPy(r) == WeightsToPy(r);
    WellFormedIsFixed(r);
  }

  /** Resolving already resolved rules a second time, under any config, gives them back. */
  lemma SecondResolutionIsIdentity(config: Py, input: Py, laterConfig: Py)
    requires Resolved(config, input).Success?
    ensures var r := Resolved(config, input).value;
      Resolved(laterConfig, Dict(map["commercial_rules" := RulesToPy(r)])) == Success(r)
  {
    ResolvedIsWellFormed(config, input);
    NormalizedIsWellFormed(RulesIn(laterConfig));
    CompleteInputHidesConfig(ConfigLayer(laterConfig), Resolved(config, input).value);
  }

  // ----- layering

  /** Scaling a complete, valid weight set by any positive factor changes nothing. */
  lemma WeightsAreScaleFree(w: map<string, real>, cw: map<string, real>, c: real)
    requires Complete(w) && Complete(cw) && 0.0 < c
    requires ScaledBy(w, cw, c) && forall k :: k in w ==> 0.0 <= w[k]
    ensures NormalWeights(Dict(AsPy(cw))) == NormalWeights(Dict(AsPy(w)))
  {
    hide NormalWeights, Scaled, Complete, Total;
    forall k | k in cw
      ensures 0.0 <= cw[k]
    {
      KeysAgree(w, cw);
      NonNegativeProduct(c, w[k]);
    }
    NumbersNormalized(w);
    NumbersNormalized(cw);
    KeysAgree(w, cw);
    TotalScales(w, cw, c, Total(w), Total(cw));
    ScaledSame(w, cw, c, Total(w), Total(cw));
  }

  lemma TotalScales(w: map<string, real>, cw: map<string, real>, c: real, t: real, ct: real)
    requires Complete(w) && Complete(cw) && 0.0 < c
    requires ScaledBy(w, cw, c)
    requires t == Total(w) && ct == Total(cw)
    ensures ct == c * t
    ensures 0.0 < ct <==> 0.0 < t
  {
    hide *;
    TotalIs(w);
    TotalIs(cw);
    KeysAgree(w, cw);
    ScaledAt(w, cw, c, "margin");
    ScaledAt(w, cw, c, "risk");
    ScaledAt(w, cw, c, "market");
    ScaledAt(w, cw, c, "budget");
    ScaledTotal(w["margin"], w["risk"], w["market"], w["budget"], c,
      cw["margin"], cw["risk"], cw["market"], cw["budget"], t, ct);
  }

  ghost predicate ScaledBy(w: map<string, real>, cw: map<string, real>, c: real) {
    forall k :: k in w ==> k in cw && cw[k] == c * w[k]
  }

  lemma ScaledAt(w: map<string, real>, cw: map<string, real>, c: real, k: string)
    requires ScaledBy(w, cw, c) && k in w
    ensures k in cw && cw[k] == c * w[k]
  {
  }

  lemma TotalIs(w: map<string, real>)
    requires Complete(w)
    ensures "margin" in w && "risk" in w && "market" in w && "budget" in w
    ensures Total(w) == w["margin"] + w["risk"] + w["market"] + w["budget"]
  {
  }

  lemma KeysAgree(w: map<string, real>, cw: map<string, real>)
    requires Complete(w) && Complete(cw)
    ensures w.Keys == cw.Keys && forall k | k in FACTORS :: k in w
  {
  }

  lemma NumbersNormalized(w: map<string, real>)
    requires Complete(w)
    requires forall k :: k in w ==> 0.0 <= w[k]
    ensures NormalWeights(Dict(AsPy(w))) == if Total(w) > 0.0 then Scaled(w, Total(w)) else DefaultWeights()
  {
    MergedIsGiven(w);
  }

  lemma ScaledSame(w: map<string, real>, cw: map<string, real>, c: real, t: real, ct: real)
    requires w.Keys == cw.Keys && 0.0 < c && ct == c * t
    requires ScaledBy(w, cw, c)
    ensures 0.0 < t ==> 0.0 < ct && Scaled(cw, ct) == Scaled(w, t)
  {
    if 0.0 < t {
      NonNegativeProduct(c, t);
      forall k | k in w
        ensures Scaled(cw, ct)[k] == Scaled(w, t)[k]
      {
        ScaledQuotient(w[k], t, c, cw[k], ct);
      }
    }
  }

  lemma NonNegativeProduct(c: real, a: real)
    requires 0.0 < c && 0.0 <= a
    ensures 0.0 <= c * a
    ensures 0.0 < a ==> 0.0 < c * a
  {
  }

  lemma ScaledTotal(a: real, b: real, d: real, e: real, c: real,
      ca: real, cb: real, cd: real, ce: real, t: real, ct: real)
    requires ca == c * a && cb == c * b && cd == c * d && ce == c * e && 0.0 < c
    requires t == a + b + d + e && ct == ca + cb + cd + ce
    ensures ct == c * t
    ensures 0.0 < ct <==> 0.0 < t
  {
    assert ct == c * t;
    if 0.0 < t {
      NonNegativeProduct(c, t);
    } else {
      NonNegativeProduct(c, -t);
      assert c * t == -(c * -t);
    }
  }

  function AsPy(w: map<string, real>): map<string, Py> {
    map k | k in w :: Num(w[k])
  }

  lemma MergedIsGiven(w: map<string, real>)
    requires Complete(w)
    requires forall k :: k in w ==> 0.0 <= w[k]
    ensures MergedWeights(AsPy(w)) == w
    ensures forall k | k in FACTORS :: ValidWeight(Get(AsPy(w), k))
  {
    forall k | k in w
      ensures MergedWeights(AsPy(w))[k] == w[k]
    {
      assert k in FACTORS;
    }
  }

  /** What a threshold becomes: the config's if not overridden, the built-in one if overridden by anything invalid. */
  function OverriddenThreshold(thresholds: map<string, Py>, key: string, config: real, builtIn: real): real {
    if key !in thresholds then config else ThresholdOr(thresholds[key], builtIn)
  }

  /** Any override of the thresholds: each counts on its own, but an inverted pair is replaced by the built-in pair. */
  lemma ThresholdOverride(config: Py, thresholds: map<string, Py>, weights: map<string, Py>)
    ensures var base := ConfigLayer(config);
      var r := Overlaid(base, thresholds, weights);
      var go := OverriddenThreshold(thresholds, "go", base.go, DEFAULT_GO);
      var noGo := OverriddenThreshold(thresholds, "no_go", base.noGo, DEFAULT_NO_GO);
      (r.go, r.noGo) == if go < noGo then (DEFAULT_GO, DEFAULT_NO_GO) else (go, noGo)
  {
    hide *;
    var base := ConfigLayer(config);
    ConfigIsWellFormed(config);
    ThresholdRange(base);
    OverlaidThresholds(base, thresholds, weights);
    EachThreshold(base, thresholds);
  }

  lemma ThresholdRange(r: Rules)
    requires WellFormed(r)
    ensures 0.0 <= r.noGo <= r.go <= 100.0
  {
  }

  lemma EachThreshold(base: Rules, thresholds: map<string, Py>)
    requires 0.0 <= base.noGo <= base.go <= 100.0
    ensures var go := OverriddenThreshold(thresholds, "go", base.go, DEFAULT_GO);
      var noGo := OverriddenThreshold(thresholds, "no_go", base.noGo, DEFAULT_NO_GO);
      NormalThresholds(Dict(ThresholdsToPy(base) + thresholds))
        == if go < noGo then (DEFAULT_GO, DEFAULT_NO_GO) else (go, noGo)
  {
  }

  /** A null `go` does not keep the config's: it brings the built-in one back. */
  lemma NullGoForgetsTheConfig(config: Py)
    ensures var base := ConfigLayer(config);
      var r := Overlaid(base, map["go" := Null], map[]);
      r.go == DEFAULT_GO && r.noGo == if base.noGo <= DEFAULT_GO then base.noGo else DEFAULT_NO_GO
  {
    ThresholdOverride(config, map["go" := Null], map[]);
    hide ConfigLayer, Overlaid;
  }

  /** Overriding only `go` keeps the config's `no_go`, unless that inverts the pair: then both are built-in. */
  lemma GoOverride(config: Py, go: real)
    requires 0.0 <= go <= 100.0
    ensures var base := ConfigLayer(config);
      var r := Overlaid(base, map["go" := Num(go)], map[]);
      if go < base.noGo then r.go == DEFAULT_GO && r.noGo == DEFAULT_NO_GO
      else r.go == go && r.noGo == base.noGo
  {
    ThresholdOverride(config, map["go" := Num(go)], map[]);
    hide ConfigLayer, Overlaid;
    ConfigIsWellFormed(config);
  }

  lemma OverlaidThresholds(base: Rules, thresholds: map<string, Py>, weights: map<string, Py>)
    ensures var r := Overlaid(base, thresholds, weights);
      (r.go, r.noGo) == NormalThresholds(Dict(ThresholdsToPy(base) + thresholds))
  {
    hide NormalThresholds, NormalWeights;
  }

  /** One bad weight in the input drops the config's weights too, and only that or a zero sum does. */
  lemma WeightOverride(config: Py, weights: map<string, Py>)
    ensures var base := ConfigLayer(config);
      var over := WeightsToPy(base) + weights;
      var r := Overlaid(base, map[], weights);
      if (forall k | k in FACTORS :: ValidWeight(Get(weights, k))) && Total(MergedWeights(over)) > 0.0
      then r.weights == Scaled(MergedWeights(over), Total(MergedWeights(over)))
      else r.weights == DefaultWeights()
  {
    hide Normalized, ConfigLayer, DefaultWeights, Scaled, Total;
    ConfigIsWellFormed(config);
    OverlaidWeights(ConfigLayer(config), map[], weights);
    OverlayValidity(ConfigLayer(config).weights, weights);
  }

  /** A null weight does not keep the config's weight: nulling all four brings the built-in set back. */
  lemma NullWeightsForgetTheConfig(config: Py, nulls: map<string, Py>)
    requires nulls.Keys == {"margin", "risk", "market", "budget"} && forall k :: k in nulls ==> nulls[k] == Null
    ensures Overlaid(ConfigLayer(config), map[], nulls).weights == DefaultWeights()
  {
    hide ConfigLayer, Normalized;
    ConfigIsWellFormed(config);
    OverlaidWeights(ConfigLayer(config), map[], nulls);
    var over := WeightsToPy(ConfigLayer(config)) + nulls;
    assert forall k | k in FACTORS :: Get(over, k) == Null;
    assert MergedWeights(over) == DefaultWeights();
    assert Scaled(DefaultWeights(), 1.0) == DefaultWeights();
  }

  lemma ConfigIsWellFormed(config: Py)
    ensures WellFormed(ConfigLayer(config))
  {
    NormalizedIsWellFormed(RulesIn(config));
  }

  lemma OverlaidWeights(base: Rules, thresholds: map<string, Py>, weights: map<string, Py>)
    ensures Overlaid(base, thresholds, weights).weights == NormalWeights(Dict(WeightsToPy(base) + weights))
  {
    hide NormalWeights;
  }

  lemma OverlayValidity(base: map<string, real>, weights: map<string, Py>)
    requires Complete(base) && forall k :: k in base ==> 0.0 <= base[k]
    ensures (forall k | k in FACTORS :: ValidWeight(Get(AsPy(base) + weights, k)))
      <==> (forall k | k in FACTORS :: ValidWeight(Get(weights, k)))
  {
    forall k | k in FACTORS
      ensures ValidWeight(Get(AsPy(base) + weights, k)) == ValidWeight(Get(weights, k))
    {
      assert k in base;
    }
  }

  // ----- rules from the numbers given

  /** What a number in a threshold's or weight's place means: a number, a bool as 0 or 1, or no number at all. */
  lemma NumbersGiven(r: real, b: bool, s: string, items: seq<Py>, entries: map<string, Py>)
    ensures AsNumber(Num(r)) == Some(r) && AsNumber(Bool(b)) == Some(if b then 1.0 else 0.0)
    ensures AsNumber(Str(s)) == AsNumber(List(items)) == AsNumber(Dict(entries)) == AsNumber(Null) == None
  {
  }

  /** Two thresholds given: each counts from 0 to 100, else it is 70 or 40; an inverted pair becomes 70 and 40. */
  lemma ThresholdsFromTheNumbers(rules: map<string, Py>, go: real, noGo: real)
    requires "thresholds" in rules && rules["thresholds"] == Dict(map["go" := Num(go), "no_go" := Num(noGo)])
    ensures var r := Normalized(Dict(rules));
      var upper, lower := if 0.0 <= go <= 100.0 then go else 70.0, if 0.0 <= noGo <= 100.0 then noGo else 40.0;
      if upper < lower then r.go == 70.0 && r.noGo == 40.0 else r.go == upper && r.noGo == lower
  {
    hide NormalWeights;
  }

  /** Four weights given: each over their sum, if none is negative and the sum not zero; else 0.4, 0.3, 0.2 and 0.1. */
  lemma WeightsFromTheNumbers(rules: map<string, Py>, margin: real, risk: real, market: real, budget: real, sum: real)
    requires "weights" in rules && rules["weights"] == Dict(map["margin" := Num(margin), "risk" := Num(risk),
      "market" := Num(market), "budget" := Num(budget)])
    requires sum == margin + risk + market + budget
    ensures var w := Normalized(Dict(rules)).weights;
      && w.Keys == {"margin", "risk", "market", "budget"}
      && if 0.0 <= margin && 0.0 <= risk && 0.0 <= market && 0.0 <= budget && sum != 0.0 then
        && w["margin"] == margin / sum && w["risk"] == risk / sum
        && w["market"] == market / sum && w["budget"] == budget / sum
      else w == map["margin" := 0.4, "risk" := 0.3, "market" := 0.2, "budget" := 0.1]
  {
    hide NormalThresholds;
    var weights := map["margin" := Num(margin), "risk" := Num(risk), "market" := Num(market), "budget" := Num(budget)];
    var given := rules["weights"];
    assert given == Dict(weights);
    assert MergedWeights(weights) == map["margin" := margin, "risk" := risk, "market" := market, "budget" := budget];
    assert ValidWeight(weights["margin"]) <==> 0.0 <= margin;
    assert ValidWeight(weights["risk"]) <==> 0.0 <= risk;
    assert ValidWeight(weights["market"]) <==> 0.0 <= market;
    assert ValidWeight(weights["budget"]) <==> 0.0 <= budget;
  }

  /** One weight given: the other three are the built-in ones, and all four are scaled to sum to one. */
  lemma OneWeightGiven(rules: map<string, Py>, risk: real)
    requires "weights" in rules && rules["weights"] == Dict(map["risk" := Num(risk)]) && 0.0 <= risk
    ensures var w := Normalized(Dict(rules)).weights;
      && w.Keys == {"margin", "risk", "market", "budget"}
      && w["margin"] == 0.4 / (0.7 + risk) && w["risk"] == risk / (0.7 + risk)
      && w["market"] == 0.2 / (0.7 + risk) && w["budget"] == 0.1 / (0.7 + risk)
  {
    hide NormalThresholds;
    var weights: map<string, Py> := map["risk" := Num(risk)];
    assert rules["weights"] == Dict(weights);
    assert MergedWeights(weights) == map["margin" := 0.4, "risk" := risk, "market" := 0.2, "budget" := 0.1];
  }

  /** Sections that are missing or no dict count as not given, in a dict of rules or without one. */
  lemma NothingGiven(rules: Py)
    requires rules.Dict? ==> !Get(rules.entries, "thresholds").Dict? && !Get(rules.entries, "weights").Dict?
    ensures Normalized(rules)
      == Rules(70.0, 40.0, map["margin" := 0.4, "risk" := 0.3, "market" := 0.2, "budget" := 0.1])
  {
  }

  /** The layers: the `commercial_rules` of the config, under those of the input, section by section. */
  lemma LayersOfRules(config: map<string, Py>, input: map<string, Py>, base: Py, own: map<string, Py>,
      thresholds: map<string, Py>, weights: map<string, Py>)
    requires base == if "commercial_rules" in config then config["commercial_rules"] else Null
    requires "commercial_rules" in input && input["commercial_rules"] == Dict(own)
    requires "thresholds" in own && own["thresholds"] == Dict(thresholds)
    requires "weights" in own && own["weights"] == Dict(weights)
    ensures var r := Normalized(base);
      Resolved(Dict(config), Dict(input)) == Success(Normalized(Dict(map[
        "thresholds" := Dict(map["go" := Num(r.go), "no_go" := Num(r.noGo)] + thresholds),
        "weights" := Dict((map k | k in r.weights :: Num(r.weights[k])) + weights)])))
  {
    hide Normalized;
    BaseLayer(Dict(config));
  }

  lemma BaseLayer(config: Py)
    ensures ConfigLayer(config) == Normalized(RulesIn(config))
  {
  }
}
