/** How ready a set of data-collection tools is: one verdict a tool, then one for the collection. */
module Readiness {
  import opened Common
  import opened PyValues
  import opened Sorting

  /** `str(v).strip()`, and the same in lower case. */
  datatype Texts = Texts(clean: Py -> string, word: Py -> string)

  /** Iterating over a value that is not a collection raises. */
  datatype NotIterable = NotIterable

  datatype Interpretation = LocalValidationOnly | EnterpriseReady | MockOnly | NotReady

  datatype Tool = Tool(
    mode: string,
    external: bool,
    localReady: bool,
    enterpriseReady: bool,
    tier: string,
    interpretation: Interpretation,
    actions: set<string>)

  // ----- one tool

  /** `v if isinstance(v, dict) else {}`. */
  function AsDict(v: Py): map<string, Py> {
    if v.Dict? then v.entries else map[]
  }

  /** `word(v or fallback)`. */
  function WordOr(v: Py, fallback: string, texts: Texts): string {
    texts.word(if Truthy(v) then v else Str(fallback))
  }

  /** The stated next actions, cleaned, without the blank ones; a dict is iterated by key, a string by character. */
  function Actions(readiness: map<string, Py>, texts: Texts): Result<set<string>, NotIterable> {
    if "next_actions" !in readiness then Success({})
    else
      match readiness["next_actions"]
      case List(items) => Success(set v | v in items && texts.clean(v) != "" :: texts.clean(v))
      case Dict(entries) => Success(set k | k in entries && texts.clean(Str(k)) != "" :: texts.clean(Str(k)))
      case Str(s) => Success(set c | c in s && texts.clean(Str([c])) != "" :: texts.clean(Str([c])))
      case _ => Failure(NotIterable)
  }

  function Interpret(localReady: bool, enterpriseReady: bool, external: bool, mode: string): Interpretation {
    if enterpriseReady then EnterpriseReady
    else if localReady && external then LocalValidationOnly
    else if localReady then EnterpriseReady
    else if mode == "mock" then MockOnly
    else NotReady
  }

  function DefaultTier(localReady: bool, enterpriseReady: bool, mode: string): string {
    if enterpriseReady then "enterprise_ready"
    else if localReady then "local_business_ready"
    else if mode == "mock" then "mock_only"
    else "not_ready"
  }

  function ResolveToolReadiness(payload: map<string, Py>, texts: Texts): Result<Tool, NotIterable> {
    var readiness := AsDict(Get(payload, "signal_readiness"));
    var mode := WordOr(Get(payload, "mode"), "unknown", texts);
    var context := AsDict(Get(payload, "signal_context"));
    var external := WordOr(Get(context, "provider"), "", texts) == "external_signal_service";
    var stated := readiness != map[];
    var enterpriseFlag := Truthy(Get(readiness, "enterprise_ready"));
    var localReady := if !stated then mode == "real"
      else if "local_business_ready" in readiness then Truthy(readiness["local_business_ready"])
      else enterpriseFlag;
    var enterpriseReady := if stated then enterpriseFlag else mode == "real";
    var tier := if stated then WordOr(Get(readiness, "readiness_tier"), "", texts)
      else if mode == "real" then "enterprise_ready"
      else if mode == "mock" then "mock_only"
      else if mode == "auto" then "not_ready"
      else "";
    match Actions(readiness, texts)
    case Failure(e) => Failure(e)
    case Success(actions) =>
      Success(Tool(mode, external, localReady, enterpriseReady,
        if tier == "" then DefaultTier(localReady, enterpriseReady, mode) else tier,
        Interpret(localReady, enterpriseReady, external, mode), actions))
  }

  /** Without its own flag a tool passes as enterprise ready exactly when its local readiness is no fallback. */
  lemma InterpretationMeans(payload: map<string, Py>, texts: Texts)
    requires ResolveToolReadiness(payload, texts).Success?
    ensures var t := ResolveToolReadiness(payload, texts).value;
      && (t.interpretation == EnterpriseReady <==> t.enterpriseReady || (t.localReady && !t.external))
      && (t.interpretation == LocalValidationOnly <==> t.localReady && !t.enterpriseReady && t.external)
      && (t.interpretation == MockOnly <==> !t.localReady && !t.enterpriseReady && t.mode == "mock")
  {
  }

  /** Unless a tier is stated, it is the interpretation, but for tools that are only locally ready. */
  lemma TierFollowsInterpretation(payload: map<string, Py>, texts: Texts)
    requires ResolveToolReadiness(payload, texts).Success?
    requires WordOr(Get(AsDict(Get(payload, "signal_readiness")), "readiness_tier"), "", texts) == ""
    ensures var t := ResolveToolReadiness(payload, texts).value;
      && (t.tier == "mock_only" <==> t.interpretation == MockOnly)
      && (t.tier == "not_ready" <==> t.interpretation == NotReady)
      && (t.tier == "enterprise_ready" <==> t.enterpriseReady)
      && (t.tier == "enterprise_ready" ==> t.interpretation == EnterpriseReady)
      && (t.tier == "local_business_ready" <==> t.localReady && !t.enterpriseReady)
  {
  }

  /** Once readiness is stated, the mode matters only for telling a tool without any readiness mock or not ready. */
  lemma StatedReadinessOverridesMode(payload: map<string, Py>, a: Py, b: Py, texts: Texts)
    requires AsDict(Get(payload, "signal_readiness")) != map[]
    ensures var s := ResolveToolReadiness(payload["mode" := a], texts);
      var t := ResolveToolReadiness(payload["mode" := b], texts);
      && (s.Success? <==> t.Success?)
      && (s.Success? ==>
        && s.value.localReady == t.value.localReady && s.value.enterpriseReady == t.value.enterpriseReady
        && s.value.external == t.value.external && s.value.actions == t.value.actions
        && (s.value.interpretation == t.value.interpretation
          || {s.value.interpretation, t.value.interpretation} == {MockOnly, NotReady}))
  {
    hide Actions, WordOr, Truthy;
    SameOtherKeys(payload, a, "signal_readiness");
    SameOtherKeys(payload, b, "signal_readiness");
    SameOtherKeys(payload, a, "signal_context");
    SameOtherKeys(payload, b, "signal_context");
  }

  lemma SameOtherKeys(payload: map<string, Py>, mode: Py, key: string)
    requires key != "mode"
    ensures Get(payload["mode" := mode], key) == Get(payload, key)
  {
  }

  /** Without stated readiness only the mode counts: no tool is ready merely locally, and none raises. */
  lemma UnstatedReadinessFollowsMode(payload: map<string, Py>, texts: Texts)
    requires AsDict(Get(payload, "signal_readiness")) == map[]
    ensures var s := ResolveToolReadiness(payload, texts);
      && s.Success? && s.value.localReady == s.value.enterpriseReady && s.value.actions == {}
      && (s.value.interpretation == EnterpriseReady <==> s.value.mode == "real")
      && (s.value.interpretation == MockOnly <==> s.value.mode == "mock")
      && s.value.interpretation != LocalValidationOnly
      && (s.value.interpretation == EnterpriseReady <==> s.value.tier == "enterprise_ready")
  {
  }

  /** Whether Python takes a value for true. */
  ghost predicate Holds(v: Py, answer: bool) {
    answer == match v
      case Null => false
      case Bool(b) => b
      case Num(r) => r != 0.0
      case Str(s) => |s| > 0
      case List(items) => |items| > 0
      case Dict(entries) => exists k :: k in entries
  }

  lemma HoldsIsTruthy(v: Py, answer: bool)
    ensures Holds(v, answer) <==> Truthy(v) == answer
  {
    if v.Dict? && v.entries != map[] {
      var k :| k in v.entries;
    }
  }

  /**
   * A tool from its payload: the stated flags, the local one defaulting to the enterprise one; the provider and the
   * mode, as words; the stated tier; and the cleaned next actions without the blank ones.
   */
  lemma ToolFromThePayload(payload: map<string, Py>, readiness: map<string, Py>, context: map<string, Py>,
      texts: Texts, items: seq<Py>, local: bool, enterprise: bool)
    requires "signal_readiness" in payload && payload["signal_readiness"] == Dict(readiness)
    requires "signal_context" in payload && payload["signal_context"] == Dict(context)
    requires "next_actions" in readiness && readiness["next_actions"] == List(items)
    requires if "enterprise_ready" in readiness then Holds(readiness["enterprise_ready"], enterprise) else !enterprise
    requires if "local_business_ready" in readiness then Holds(readiness["local_business_ready"], local)
      else local == enterprise
    ensures var r := ResolveToolReadiness(payload, texts);
      && r.Success? && r.value.localReady == local && r.value.enterpriseReady == enterprise
      && ("provider" in context && Holds(context["provider"], true) ==>
        (r.value.external <==> texts.word(context["provider"]) == "external_signal_service"))
      && ("provider" !in context ==> (r.value.external <==> texts.word(Str("")) == "external_signal_service"))
      && ("mode" in payload && Holds(payload["mode"], true) ==> r.value.mode == texts.word(payload["mode"]))
      && ("mode" !in payload ==> r.value.mode == texts.word(Str("unknown")))
      && ("readiness_tier" in readiness && Holds(readiness["readiness_tier"], true) ==>
        (var tier := texts.word(readiness["readiness_tier"]); tier != "" ==> r.value.tier == tier))
      && (forall a :: a in r.value.actions <==> a != "" && exists v :: v in items && texts.clean(v) == a)
      && (r.value.interpretation ==
        if enterprise then EnterpriseReady
        else if local then (if r.value.external then LocalValidationOnly else EnterpriseReady)
        else if r.value.mode == "mock" then MockOnly
        else NotReady)
  {
    hide Truthy;
    HoldsIsTruthy(Get(readiness, "enterprise_ready"), enterprise);
    HoldsIsTruthy(Get(readiness, "local_business_ready"), local);
    HoldsIsTruthy(Get(context, "provider"), true);
    HoldsIsTruthy(Get(payload, "mode"), true);
    HoldsIsTruthy(Get(readiness, "readiness_tier"), true);
    NullIsFalse();
    assert "next_actions" in readiness;
  }

  /**
   * Next actions given as a dict are its keys, as a string its characters; a number, a bool or
   * null cannot be iterated.
   */
  lemma ActionsFromTheField(readiness: map<string, Py>, field: Py, texts: Texts, a: string)
    requires "next_actions" in readiness && readiness["next_actions"] == field
    ensures Actions(readiness, texts).Failure? <==> field.Null? || field.Bool? || field.Num?
    ensures field.Dict? ==>
      (a in Actions(readiness, texts).value <==> a != "" && exists k :: k in field.entries && texts.clean(Str(k)) == a)
    ensures field.Str? ==>
      (a in Actions(readiness, texts).value <==> a != "" && exists c :: c in field.s && texts.clean(Str([c])) == a)
  {
  }

  lemma NullIsFalse()
    ensures !Truthy(Null)
  {
  }

  // ----- the collection

  type Payloads = seq<(string, Py)>

  datatype Governance = Unknown | Governed(interpretation: Interpretation) | Mixed

  datatype Collection = Collection(
    governance: Governance,
    hasFallbacks: bool,
    localValidationOnly: seq<string>,
    enterpriseReady: seq<string>,
    mockOnly: seq<string>,
    notReady: seq<string>,
    localReadyCount: nat,
    enterpriseReadyCount: nat,
    tools: map<string, Tool>,
    actions: set<string>)

  /** Keys of a dict are distinct. */
  ghost predicate IsDict(payloads: Payloads) {
    forall i, j :: 0 <= i < j < |payloads| ==> payloads[i].0 != payloads[j].0
  }

  predicate Raises(payload: Py, texts: Texts) {
    payload.Dict? && ResolveToolReadiness(payload.entries, texts).Failure?
  }

  predicate Classified(payload: Py, texts: Texts) {
    payload.Dict? && ResolveToolReadiness(payload.entries, texts).Success?
  }

  function ToolOf(payload: Py, texts: Texts): Tool
    requires Classified(payload, texts)
  {
    ResolveToolReadiness(payload.entries, texts).value
  }

  predicate Reads(payload: Py, interpretation: Interpretation, texts: Texts) {
    Classified(payload, texts) && ToolOf(payload, texts).interpretation == interpretation
  }

  /** Names of the tools with this interpretation, in payload order. */
  function NamesOf(payloads: Payloads, interpretation: Interpretation, texts: Texts): seq<string> {
    if payloads == [] then []
    else
      var last := payloads[|payloads| - 1];
      NamesOf(payloads[..|payloads| - 1], interpretation, texts)
      + (if Reads(last.1, interpretation, texts) then [last.0] else [])
  }

  function Table(payloads: Payloads, texts: Texts): map<string, Tool> {
    if payloads == [] then map[]
    else
      var last := payloads[|payloads| - 1];
      var before := Table(payloads[..|payloads| - 1], texts);
      if Classified(last.1, texts) then before[last.0 := ToolOf(last.1, texts)] else before
  }

  function AllActions(payloads: Payloads, texts: Texts): set<string> {
    if payloads == [] then {}
    else
      var last := payloads[|payloads| - 1];
      AllActions(payloads[..|payloads| - 1], texts)
      + (if Classified(last.1, texts) then ToolOf(last.1, texts).actions else {})
  }

  /** Code-point order on strings. */
  predicate LexLeq(a: string, b: string) {
    a == "" || (b != "" && (a[0] < b[0] || (a[0] == b[0] && LexLeq(a[1..], b[1..]))))
  }

  function ByName(): (string, string) -> bool { (a: string, b: string) => LexLeq(a, b) }

  function Govern(local: seq<string>, enterprise: seq<string>, mock: seq<string>, notReady: seq<string>, any: bool)
    : Governance
  {
    if local != [] then Governed(LocalValidationOnly)
    else if enterprise != [] && mock == [] && notReady == [] then Governed(EnterpriseReady)
    else if mock != [] && enterprise == [] && local == [] then Governed(MockOnly)
    else if !any then Unknown
    else if notReady != [] && !(enterprise != [] || local != []) then Governed(NotReady)
    else Mixed
  }

  function LocallyReady(tools: map<string, Tool>): set<string> { set n | n in tools && tools[n].localReady }
  function Enterprising(tools: map<string, Tool>): set<string> { set n | n in tools && tools[n].enterpriseReady }

  function Collected(local: seq<string>, enterprise: seq<string>, mock: seq<string>, notReady: seq<string>,
                     tools: map<string, Tool>, actions: set<string>, summaryFallbacks: bool): Collection {
    Collection(Govern(local, enterprise, mock, notReady, tools != map[]), summaryFallbacks || local != [],
      Sort(local, ByName()), Sort(enterprise, ByName()), Sort(mock, ByName()), Sort(notReady, ByName()),
      |LocallyReady(tools)|, |Enterprising(tools)|, tools, actions)
  }

  function CollectionOf(payloads: Payloads, summaryFallbacks: bool, texts: Texts): Collection {
    Collected(NamesOf(payloads, LocalValidationOnly, texts), NamesOf(payloads, EnterpriseReady, texts),
      NamesOf(payloads, MockOnly, texts), NamesOf(payloads, NotReady, texts),
      Table(payloads, texts), AllActions(payloads, texts), summaryFallbacks)
  }

  /** One pass over the payloads, skipping what is no dict; a payload that cannot be read raises. */
  method BuildCollectionReadiness(payloads: Payloads, summaryFallbacks: bool, texts: Texts)
    returns (r: Result<Collection, NotIterable>)
    ensures r.Failure? <==> exists i :: 0 <= i < |payloads| && Raises(payloads[i].1, texts)
    ensures r.Success? ==> r.value == CollectionOf(payloads, summaryFallbacks, texts)
  {
    hide ResolveToolReadiness;
    var tools: map<string, Tool> := map[];
    var local, enterprise, mock, notReady: seq<string> := [], [], [], [];
    var actions: set<string> := {};
    for i := 0 to |payloads|
      invariant forall j :: 0 <= j < i ==> !Raises(payloads[j].1, texts)
      invariant tools == Table(payloads[..i], texts) && actions == AllActions(payloads[..i], texts)
      invariant local == NamesOf(payloads[..i], LocalValidationOnly, texts)
      invariant enterprise == NamesOf(payloads[..i], EnterpriseReady, texts)
      invariant mock == NamesOf(payloads[..i], MockOnly, texts)
      invariant notReady == NamesOf(payloads[..i], NotReady, texts)
    {
      var (name, payload) := payloads[i];
      assert payloads[..i + 1][..i] == payloads[..i];
      if !payload.Dict? {
        continue;
      }
      var readiness := ResolveToolReadiness(payload.entries, texts);
      if readiness.Failure? {
        assert Raises(payloads[i].1, texts);
        return Failure(readiness.error);
      }
      var tool := readiness.value;
      tools := tools[name := tool];
      actions := actions + tool.actions;
      match tool.interpretation {
        case LocalValidationOnly => local := local + [name];
        case EnterpriseReady => enterprise := enterprise + [name];
        case MockOnly => mock := mock + [name];
        case NotReady => notReady := notReady + [name];
      }
    }
    assert payloads[..|payloads|] == payloads;
    return Success(Collected(local, enterprise, mock, notReady, tools, actions, summaryFallbacks));
  }

  /** The flag the collaboration report computes on its own from the four lists. */
  predicate CollectionEnterpriseReady(c: Collection) {
    c.tools != map[] && c.localValidationOnly == [] && c.mockOnly == [] && c.notReady == []
  }
}
