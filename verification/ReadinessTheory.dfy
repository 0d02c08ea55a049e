/** What the collection's verdict says about its tools. */
module ReadinessTheory {
  import opened PyValues
  import opened Sorting
  import opened Readiness

  // ----- members of the lists and of the table

  lemma {:induction false} NameIsListed(payloads: Payloads, interpretation: Interpretation, texts: Texts, name: string)
    ensures name in NamesOf(payloads, interpretation, texts) <==>
      exists i :: 0 <= i < |payloads| && payloads[i].0 == name && Reads(payloads[i].1, interpretation, texts)
  {
    hide Reads;
    if payloads != [] {
      var front, last := payloads[..|payloads| - 1], payloads[|payloads| - 1];
      NameIsListed(front, interpretation, texts, name);
      if name in NamesOf(front, interpretation, texts) {
        var i :| 0 <= i < |front| && front[i].0 == name && Reads(front[i].1, interpretation, texts);
        assert payloads[i] == front[i];
      }
      forall i | 0 <= i < |payloads| && payloads[i].0 == name && Reads(payloads[i].1, interpretation, texts)
        ensures name in NamesOf(payloads, interpretation, texts)
      {
        if i < |front| {
          assert front[i] == payloads[i];
        }
      }
    }
  }

  lemma {:induction false} ToolIsTabled(payloads: Payloads, texts: Texts, name: string)
    requires IsDict(payloads)
    ensures name in Table(payloads, texts) <==>
      exists i :: 0 <= i < |payloads| && payloads[i].0 == name && Classified(payloads[i].1, texts)
    ensures forall i :: (0 <= i < |payloads| && payloads[i].0 == name && Classified(payloads[i].1, texts)
      ==> name in Table(payloads, texts) && Table(payloads, texts)[name] == ToolOf(payloads[i].1, texts))
  {
    hide Classified, ToolOf;
    if payloads != [] {
      var front, last := payloads[..|payloads| - 1], payloads[|payloads| - 1];
      ToolIsTabled(front, texts, name);
      assert forall i :: 0 <= i < |front| ==> front[i] == payloads[i] && payloads[i].0 != last.0;
    }
  }

  ghost predicate NoRepeat(names: seq<string>) {
    forall i, j :: 0 <= i < j < |names| ==> names[i] != names[j]
  }

  lemma {:induction false} NamesDoNotRepeat(payloads: Payloads, interpretation: Interpretation, texts: Texts)
    requires IsDict(payloads)
    ensures NoRepeat(NamesOf(payloads, interpretation, texts))
  {
    hide Reads;
    if payloads != [] {
      var front, last := payloads[..|payloads| - 1], payloads[|payloads| - 1];
      NamesDoNotRepeat(front, interpretation, texts);
      NameIsListed(front, interpretation, texts, last.0);
      assert forall i :: 0 <= i < |front| ==> front[i] == payloads[i] && payloads[i].0 != last.0;
    }
  }

  lemma {:induction false} CountOfUnique(names: seq<string>, name: string)
    requires NoRepeat(names)
    ensures multiset(names)[name] == if name in names then 1 else 0
  {
    if names != [] {
      CountOfUnique(names[1..], name);
      assert names == [names[0]] + names[1..];
      assert names[0] !in names[1..];
    }
  }

  // ----- the order of names

  lemma {:induction false} LexTotal(a: string, b: string)
    ensures LexLeq(a, b) || LexLeq(b, a)
    ensures LexLeq(a, b) && LexLeq(b, a) ==> a == b
  {
    if a != "" && b != "" {
      LexTotal(a[1..], b[1..]);
      assert a == [a[0]] + a[1..] && b == [b[0]] + b[1..];
    }
  }

  lemma {:induction false} LexTransitive(a: string, b: string, c: string)
    requires LexLeq(a, b) && LexLeq(b, c)
    ensures LexLeq(a, c)
  {
    if a != "" && b != "" && c != "" && a[0] == b[0] == c[0] {
      LexTransitive(a[1..], b[1..], c[1..]);
    }
  }

  lemma NamesAreOrdered()
    ensures Preorder(ByName()) && Antisymmetric(ByName())
  {
    hide LexLeq;
    forall a, b
      ensures (ByName()(a, b) || ByName()(b, a)) && (ByName()(a, b) && ByName()(b, a) ==> a == b)
    {
      LexTotal(a, b);
    }
    forall a, b, c | ByName()(a, b) && ByName()(b, c)
      ensures ByName()(a, c)
    {
      LexTransitive(a, b, c);
    }
  }

  lemma SortKeepsNames(names: seq<string>)
    ensures forall n :: n in Sort(names, ByName()) <==> n in names
    ensures Sort(names, ByName()) == [] <==> names == []
  {
    SortPermutes(names, ByName());
    forall n
      ensures n in Sort(names, ByName()) <==> n in names
    {
      assert n in multiset(Sort(names, ByName())) <==> n in multiset(names);
    }
  }

  // ----- the four lists partition the tools

  function ListOf(c: Collection, interpretation: Interpretation): seq<string> {
    match interpretation
    case LocalValidationOnly => c.localValidationOnly
    case EnterpriseReady => c.enterpriseReady
    case MockOnly => c.mockOnly
    case NotReady => c.notReady
  }

  lemma ListIs(payloads: Payloads, summary: bool, texts: Texts, interpretation: Interpretation)
    ensures ListOf(CollectionOf(payloads, summary, texts), interpretation)
      == Sort(NamesOf(payloads, interpretation, texts), ByName())
    ensures CollectionOf(payloads, summary, texts).tools == Table(payloads, texts)
  {
    hide NamesOf, Table, Sort;
  }

  /** A tool is on the list of its interpretation and on no other, and only tools are on a list. */
  lemma ListsPartitionTools(payloads: Payloads, summary: bool, texts: Texts, name: string,
      interpretation: Interpretation)
    requires IsDict(payloads)
    ensures var c := CollectionOf(payloads, summary, texts);
      name in ListOf(c, interpretation) <==> name in c.tools && c.tools[name].interpretation == interpretation
  {
    hide CollectionOf, NamesOf, Table, Classified, ToolOf, ListOf, Sort;
    ListIs(payloads, summary, texts, interpretation);
    SortKeepsNames(NamesOf(payloads, interpretation, texts));
    NameIsListed(payloads, interpretation, texts, name);
    ToolIsTabled(payloads, texts, name);
  }

  /** Every dict among the payloads is a tool, unless reading it raises, and nothing else is. */
  lemma ToolsAreTheDicts(payloads: Payloads, summary: bool, texts: Texts, i: nat)
    requires IsDict(payloads) && i < |payloads| && !Raises(payloads[i].1, texts)
    ensures payloads[i].0 in CollectionOf(payloads, summary, texts).tools <==> payloads[i].1.Dict?
  {
    hide NamesOf, Table, ToolOf, Sort, ResolveToolReadiness;
    ToolIsTabled(payloads, texts, payloads[i].0);
  }

  lemma {:induction false} ListsAddUp(payloads: Payloads, texts: Texts)
    requires IsDict(payloads)
    ensures |NamesOf(payloads, LocalValidationOnly, texts)| + |NamesOf(payloads, EnterpriseReady, texts)|
      + |NamesOf(payloads, MockOnly, texts)| + |NamesOf(payloads, NotReady, texts)| == |Table(payloads, texts)|
  {
    hide ResolveToolReadiness, ToolOf;
    if payloads != [] {
      var front, last := payloads[..|payloads| - 1], payloads[|payloads| - 1];
      ListsAddUp(front, texts);
      ToolIsTabled(front, texts, last.0);
      assert forall i :: 0 <= i < |front| ==> front[i] == payloads[i] && payloads[i].0 != last.0;
    }
  }

  /** No tool is counted twice: the lists' lengths add up to the number of tools. */
  lemma ListsCountEveryTool(payloads: Payloads, summary: bool, texts: Texts)
    requires IsDict(payloads)
    ensures var c := CollectionOf(payloads, summary, texts);
      |c.localValidationOnly| + |c.enterpriseReady| + |c.mockOnly| + |c.notReady| == |c.tools|
  {
    hide NamesOf, Table, Govern;
    ListsAddUp(payloads, texts);
  }

  // ----- what governance means

  ghost predicate Some(c: Collection, interpretation: Interpretation) {
    exists n :: n in c.tools && c.tools[n].interpretation == interpretation
  }

  lemma SomeIsListed(payloads: Payloads, summary: bool, texts: Texts, interpretation: Interpretation)
    requires IsDict(payloads)
    ensures var c := CollectionOf(payloads, summary, texts);
      Some(c, interpretation) <==> ListOf(c, interpretation) != []
  {
    hide CollectionOf, ListOf;
    var c := CollectionOf(payloads, summary, texts);
    if Some(c, interpretation) {
      var n :| n in c.tools && c.tools[n].interpretation == interpretation;
      ListsPartitionTools(payloads, summary, texts, n, interpretation);
    }
    if ListOf(c, interpretation) != [] {
      ListsPartitionTools(payloads, summary, texts, ListOf(c, interpretation)[0], interpretation);
    }
  }

  lemma GovernanceFromLists(payloads: Payloads, summary: bool, texts: Texts)
    ensures var c := CollectionOf(payloads, summary, texts);
      c.governance == Govern(c.localValidationOnly, c.enterpriseReady, c.mockOnly, c.notReady, c.tools != map[])
  {
    hide NamesOf, Table, Sort;
    SortKeepsNames(NamesOf(payloads, LocalValidationOnly, texts));
    SortKeepsNames(NamesOf(payloads, EnterpriseReady, texts));
    SortKeepsNames(NamesOf(payloads, MockOnly, texts));
    SortKeepsNames(NamesOf(payloads, NotReady, texts));
  }

  /** Each governance status, as a statement about the tools alone. */
  lemma GovernanceMeans(payloads: Payloads, summary: bool, texts: Texts)
    requires IsDict(payloads)
    ensures var c := CollectionOf(payloads, summary, texts);
      && (c.governance == Governed(LocalValidationOnly) <==> Some(c, LocalValidationOnly))
      && (c.governance == Governed(EnterpriseReady) <==>
        c.tools != map[] && forall n :: n in c.tools ==> c.tools[n].interpretation == EnterpriseReady)
      && (c.governance == Governed(MockOnly) <==>
        Some(c, MockOnly) && !Some(c, EnterpriseReady) && !Some(c, LocalValidationOnly))
      && (c.governance == Governed(NotReady) <==>
        c.tools != map[] && forall n :: n in c.tools ==> c.tools[n].interpretation == NotReady)
      && (c.governance == Unknown <==> c.tools == map[])
      && (c.governance == Mixed <==>
        Some(c, EnterpriseReady) && (Some(c, MockOnly) || Some(c, NotReady)) && !Some(c, LocalValidationOnly))
  {
    hide CollectionOf;
    var c := CollectionOf(payloads, summary, texts);
    SomeIsListed(payloads, summary, texts, LocalValidationOnly);
    SomeIsListed(payloads, summary, texts, EnterpriseReady);
    SomeIsListed(payloads, summary, texts, MockOnly);
    SomeIsListed(payloads, summary, texts, NotReady);
    GovernanceFromLists(payloads, summary, texts);
    if c.tools != map[] {
      var n :| n in c.tools;
      assert Some(c, c.tools[n].interpretation);
    }
  }

  /** The status and the flag computed apart from it never disagree. */
  lemma EnterpriseStatusIffFlag(payloads: Payloads, summary: bool, texts: Texts)
    requires IsDict(payloads)
    ensures var c := CollectionOf(payloads, summary, texts);
      c.governance == Governed(EnterpriseReady) <==> CollectionEnterpriseReady(c)
  {
    hide CollectionOf;
    var c := CollectionOf(payloads, summary, texts);
    SomeIsListed(payloads, summary, texts, EnterpriseReady);
    SomeIsListed(payloads, summary, texts, LocalValidationOnly);
    SomeIsListed(payloads, summary, texts, MockOnly);
    SomeIsListed(payloads, summary, texts, NotReady);
    GovernanceFromLists(payloads, summary, texts);
    if c.tools != map[] {
      var n :| n in c.tools;
      assert Some(c, c.tools[n].interpretation);
    }
  }

  // ----- status against counts

  lemma {:induction false} TabledIsResolved(payloads: Payloads, texts: Texts, name: string)
    requires name in Table(payloads, texts)
    ensures var t := Table(payloads, texts)[name];
      t.interpretation == Interpret(t.localReady, t.enterpriseReady, t.external, t.mode)
  {
    if payloads != [] {
      var front, last := payloads[..|payloads| - 1], payloads[|payloads| - 1];
      if name in Table(front, texts) {
        TabledIsResolved(front, texts, name);
      }
    }
  }

  /**
   * An enterprise-ready collection has every tool locally or enterprise ready, but the count of enterprise-ready tools
   * reaches the number of tools exactly when none is ready only locally.
   */
  lemma EnterpriseCountIff(payloads: Payloads, summary: bool, texts: Texts)
    requires IsDict(payloads)
    requires CollectionOf(payloads, summary, texts).governance == Governed(EnterpriseReady)
    ensures var c := CollectionOf(payloads, summary, texts);
      && (forall n :: n in c.tools ==> c.tools[n].enterpriseReady || (c.tools[n].localReady && !c.tools[n].external))
      && (c.enterpriseReadyCount == |c.tools| <==> forall n :: n in c.tools ==> c.tools[n].enterpriseReady)
  {
    hide NamesOf, Table, Govern, Sort;
    var c := CollectionOf(payloads, summary, texts);
    GovernanceMeans(payloads, summary, texts);
    forall n | n in c.tools
      ensures c.tools[n].enterpriseReady || (c.tools[n].localReady && !c.tools[n].external)
    {
      TabledIsResolved(payloads, texts, n);
    }
    assert Enterprising(c.tools) <= c.tools.Keys;
    if |Enterprising(c.tools)| == |c.tools| {
      SameSize(Enterprising(c.tools), c.tools.Keys);
    } else {
      assert Enterprising(c.tools) != c.tools.Keys;
    }
  }

  lemma SameSize(a: set<string>, b: set<string>)
    requires a <= b && |a| == |b|
    ensures a == b
  {
    assert |b - a| == |b| - |a|;
  }

  lemma SingleTool(name: string, payload: Py, texts: Texts, interpretation: Interpretation)
    requires Classified(payload, texts)
    ensures Table([(name, payload)], texts) == map[name := ToolOf(payload, texts)]
    ensures NamesOf([(name, payload)], interpretation, texts)
      == if ToolOf(payload, texts).interpretation == interpretation then [name] else []
  {
    hide Classified, ToolOf;
    assert [(name, payload)][..0] == [];
  }

  /** One tool ready only locally, without a fallback, is an enterprise-ready collection with a count of zero. */
  lemma EnterpriseReadyWithoutAny(name: string, payload: Py, summary: bool, texts: Texts)
    requires Classified(payload, texts)
    requires var t := ToolOf(payload, texts); t.localReady && !t.enterpriseReady && !t.external
    ensures var c := CollectionOf([(name, payload)], summary, texts);
      c.governance == Governed(EnterpriseReady) && c.enterpriseReadyCount == 0 && c.localReadyCount == 1
  {
    InterpretationMeans(payload.entries, texts);
    hide ResolveToolReadiness, Classified, ToolOf, NamesOf, Table, Sort;
    SingleTool(name, payload, texts, LocalValidationOnly);
    SingleTool(name, payload, texts, EnterpriseReady);
    SingleTool(name, payload, texts, MockOnly);
    SingleTool(name, payload, texts, NotReady);
    var tools := Table([(name, payload)], texts);
    assert Enterprising(tools) == {} && LocallyReady(tools) == {name};
    assert tools != map[] by { assert name in tools; }
  }

  // ----- order

  lemma {:induction false} ActionIsCollected(payloads: Payloads, texts: Texts, action: string)
    ensures action in AllActions(payloads, texts) <==>
      exists i ::
        0 <= i < |payloads| && Classified(payloads[i].1, texts) && action in ToolOf(payloads[i].1, texts).actions
  {
    hide Classified, ToolOf;
    if payloads != [] {
      var front, last := payloads[..|payloads| - 1], payloads[|payloads| - 1];
      ActionIsCollected(front, texts, action);
      assert forall i :: 0 <= i < |front| ==> front[i] == payloads[i];
    }
  }

  lemma SameNames(a: Payloads, b: Payloads, interpretation: Interpretation, texts: Texts)
    requires IsDict(a) && IsDict(b) && forall e :: e in a <==> e in b
    ensures Sort(NamesOf(a, interpretation, texts), ByName()) == Sort(NamesOf(b, interpretation, texts), ByName())
  {
    hide NamesOf, Reads, Sort;
    var s, t := NamesOf(a, interpretation, texts), NamesOf(b, interpretation, texts);
    NamesDoNotRepeat(a, interpretation, texts);
    NamesDoNotRepeat(b, interpretation, texts);
    forall n
      ensures multiset(s)[n] == multiset(t)[n]
    {
      ListedInBoth(a, b, interpretation, texts, n);
      ListedInBoth(b, a, interpretation, texts, n);
      CountOfUnique(s, n);
      CountOfUnique(t, n);
    }
    assert multiset(s) == multiset(t);
    NamesAreOrdered();
    SortIsCanonical(s, t, ByName());
  }

  lemma ListedInBoth(a: Payloads, b: Payloads, interpretation: Interpretation, texts: Texts, n: string)
    requires forall e :: e in a ==> e in b
    ensures n in NamesOf(a, interpretation, texts) ==> n in NamesOf(b, interpretation, texts)
  {
    hide NamesOf, Reads;
    NameIsListed(a, interpretation, texts, n);
    NameIsListed(b, interpretation, texts, n);
    if n in NamesOf(a, interpretation, texts) {
      var i :| 0 <= i < |a| && a[i].0 == n && Reads(a[i].1, interpretation, texts);
      assert a[i] in b;
    }
  }

  lemma TabledInBoth(a: Payloads, b: Payloads, texts: Texts, n: string)
    requires IsDict(a) && IsDict(b) && forall e :: e in a ==> e in b
    ensures n in Table(a, texts) ==> n in Table(b, texts) && Table(a, texts)[n] == Table(b, texts)[n]
  {
    hide Table, Classified, ToolOf, IsDict;
    ToolIsTabled(a, texts, n);
    ToolIsTabled(b, texts, n);
    if n in Table(a, texts) {
      var i :| 0 <= i < |a| && a[i].0 == n && Classified(a[i].1, texts);
      assert a[i] in b;
      var j :| 0 <= j < |b| && b[j] == a[i];
    }
  }

  lemma ActionInBoth(a: Payloads, b: Payloads, texts: Texts, action: string)
    requires forall e :: e in a ==> e in b
    ensures action in AllActions(a, texts) ==> action in AllActions(b, texts)
  {
    hide AllActions, Classified, ToolOf;
    ActionIsCollected(a, texts, action);
    ActionIsCollected(b, texts, action);
    if action in AllActions(a, texts) {
      var i :| 0 <= i < |a| && Classified(a[i].1, texts) && action in ToolOf(a[i].1, texts).actions;
      assert a[i] in b;
    }
  }

  /** The same dict in another order gives the same collection. */
  lemma OrderDoesNotMatter(a: Payloads, b: Payloads, summary: bool, texts: Texts)
    requires IsDict(a) && IsDict(b) && forall e :: e in a <==> e in b
    ensures CollectionOf(a, summary, texts) == CollectionOf(b, summary, texts)
  {
    hide NamesOf, Table, AllActions, Sort, Govern, IsDict;
    SameNames(a, b, LocalValidationOnly, texts);
    SameNames(a, b, EnterpriseReady, texts);
    SameNames(a, b, MockOnly, texts);
    SameNames(a, b, NotReady, texts);
    forall n
      ensures n in Table(a, texts) <==> n in Table(b, texts)
      ensures n in Table(a, texts) ==> Table(a, texts)[n] == Table(b, texts)[n]
    {
      TabledInBoth(a, b, texts, n);
      TabledInBoth(b, a, texts, n);
    }
    assert Table(a, texts) == Table(b, texts);
    forall x
      ensures x in AllActions(a, texts) <==> x in AllActions(b, texts)
    {
      ActionInBoth(a, b, texts, x);
      ActionInBoth(b, a, texts, x);
    }
    GovernanceFromLists(a, summary, texts);
    GovernanceFromLists(b, summary, texts);
    SortKeepsNames(NamesOf(a, LocalValidationOnly, texts));
    SortKeepsNames(NamesOf(b, LocalValidationOnly, texts));
  }

  // ----- what is listed and counted

  /** Code-point order: a prefix comes first, otherwise the first difference decides. */
  lemma {:induction false} LexMeans(common: string, a: string, b: string)
    ensures LexLeq(common, common + a)
    ensures a != "" && b != "" && a[0] < b[0] ==> LexLeq(common + a, common + b) && !LexLeq(common + b, common + a)
  {
    if common != "" {
      LexMeans(common[1..], a, b);
      assert (common + a)[1..] == common[1..] + a && (common + b)[1..] == common[1..] + b;
    }
  }

  /** Every list is in that order. */
  lemma ListsAreSorted(payloads: Payloads, summary: bool, texts: Texts, interpretation: Interpretation)
    ensures var names := ListOf(CollectionOf(payloads, summary, texts), interpretation);
      forall i, j :: 0 <= i < j < |names| ==> LexLeq(names[i], names[j])
  {
    hide NamesOf, Table, LexLeq, Sort, CollectionOf, ListOf;
    ListIs(payloads, summary, texts, interpretation);
    NamesAreOrdered();
    SortSorted(NamesOf(payloads, interpretation, texts), ByName());
    var names := ListOf(CollectionOf(payloads, summary, texts), interpretation);
    forall i, j | 0 <= i < j < |names|
      ensures LexLeq(names[i], names[j])
    {
      assert ByName()(names[i], names[j]);
    }
  }

  /** The counts are those of the flagged tools; the summary or a tool validated only locally reports fallbacks. */
  lemma CountsOfTheTools(payloads: Payloads, summary: bool, texts: Texts)
    requires IsDict(payloads)
    ensures var c := CollectionOf(payloads, summary, texts);
      && c.localReadyCount == |set n | n in c.tools && c.tools[n].localReady|
      && c.enterpriseReadyCount == |set n | n in c.tools && c.tools[n].enterpriseReady|
      && (c.hasFallbacks <==> summary || exists n :: n in c.tools && c.tools[n].interpretation == LocalValidationOnly)
  {
    SomeIsListed(payloads, summary, texts, LocalValidationOnly);
    hide NamesOf, Table, Govern, Sort;
    SortKeepsNames(NamesOf(payloads, LocalValidationOnly, texts));
  }

  /** The collection's next actions are those of its tools together. */
  lemma ActionsOfTheTools(payloads: Payloads, summary: bool, texts: Texts, action: string)
    requires IsDict(payloads)
    ensures var c := CollectionOf(payloads, summary, texts);
      action in c.actions <==> exists n :: n in c.tools && action in c.tools[n].actions
  {
    ActionIsCollected(payloads, texts, action);
    hide NamesOf, Table, Govern, Sort, AllActions, Classified, ToolOf;
    var c := CollectionOf(payloads, summary, texts);
    assert c.tools == Table(payloads, texts);
    if action in AllActions(payloads, texts) {
      var i :| 0 <= i < |payloads| && Classified(payloads[i].1, texts)
        && action in ToolOf(payloads[i].1, texts).actions;
      ToolIsTabled(payloads, texts, payloads[i].0);
      assert payloads[i].0 in c.tools;
    }
    if n :| n in c.tools && action in c.tools[n].actions {
      ToolIsTabled(payloads, texts, n);
      var i :| 0 <= i < |payloads| && payloads[i].0 == n && Classified(payloads[i].1, texts);
    }
  }
}
