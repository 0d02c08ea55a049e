/** Selection tasks as values: updates, the bounded status history, and paging. */
module TaskViews {
  import opened Common
  import opened Sorting

  const WINDOW := 20

  datatype Status = Pending | Running | Paused | Completed | Failed | Cancelled

  datatype HistoryEntry = HistoryEntry(status: Status, phase: string, reason: Option<string>, at: int)

  /** The keys of a task's config that the repository reads or writes. */
  datatype Config = Config(tenant: Option<string>, reason: Option<string>, history: Option<seq<HistoryEntry>>)

  /** What a task is created with and keeps. */
  datatype Details = Details(
    title: string,
    category: string,
    market: string,
    budgetMin: Option<real>,
    budgetMax: Option<real>,
    description: string,
    priority: string,
    createdBy: Option<int>)

  datatype TaskView = TaskView(
    id: int,
    details: Details,
    createdAt: int,
    updatedAt: int,
    status: Status,
    completedAt: Option<int>,
    summary: string,
    config: Config)

  datatype Update =
    Update(status: Status, summary: Option<string>, phase: Option<string>, reason: Option<string>, now: int)

  /** `history[-20:]`. */
  function LastEntries(h: seq<HistoryEntry>): seq<HistoryEntry> {
    if |h| <= WINDOW then h else h[|h| - WINDOW..]
  }

  function EntryOf(u: Update): HistoryEntry
    requires u.phase.Some?
  {
    HistoryEntry(u.status, u.phase.value, u.reason, u.now)
  }

  function HistoryOr(c: Config): seq<HistoryEntry> {
    if c.history.Some? then c.history.value else []
  }

  function UpdatedConfig(c: Config, u: Update): Config {
    c.(
      reason := if u.reason.Some? then u.reason else c.reason,
      history := if u.phase.Some? then Some(LastEntries(HistoryOr(c) + [EntryOf(u)])) else c.history)
  }

  function Updated(t: TaskView, u: Update): TaskView {
    t.(
      status := u.status,
      updatedAt := u.now,
      summary := if u.summary.Some? then u.summary.value else t.summary,
      config := UpdatedConfig(t.config, u),
      completedAt := if u.status == Completed then Some(u.now) else t.completedAt)
  }

  function Applied(t: TaskView, us: seq<Update>): TaskView {
    if us == [] then t else Updated(Applied(t, us[..|us| - 1]), us[|us| - 1])
  }

  // ----- the history window

  function PhasedEntries(us: seq<Update>): seq<HistoryEntry> {
    if us == [] then []
    else PhasedEntries(us[..|us| - 1]) + (if us[|us| - 1].phase.Some? then [EntryOf(us[|us| - 1])] else [])
  }

  lemma WindowSlides(h: seq<HistoryEntry>, e: HistoryEntry)
    ensures LastEntries(LastEntries(h) + [e]) == LastEntries(h + [e])
  {
  }

  /** Once an update had a phase, the history is the last 20 of the initial entries plus all phased ones. */
  lemma {:induction false} HistoryIsAWindow(t: TaskView, us: seq<Update>)
    ensures Applied(t, us).config.history ==
      if PhasedEntries(us) == [] then t.config.history
      else Some(LastEntries(HistoryOr(t.config) + PhasedEntries(us)))
  {
    if us != [] {
      var before, u := us[..|us| - 1], us[|us| - 1];
      HistoryIsAWindow(t, before);
      if u.phase.Some? {
        var all := HistoryOr(t.config) + PhasedEntries(before);
        WindowSlides(all, EntryOf(u));
        assert HistoryOr(t.config) + PhasedEntries(us) == all + [EntryOf(u)];
        if PhasedEntries(before) == [] {
          assert all == HistoryOr(t.config);
        }
      } else {
        assert PhasedEntries(us) == PhasedEntries(before);
      }
    }
  }

  /** After an update with a phase the history ends with that update: its status, phase, reason and time. */
  lemma LastEntryIsTheUpdate(t: TaskView, us: seq<Update>)
    requires us != [] && us[|us| - 1].phase.Some?
    ensures var u, history := us[|us| - 1], Applied(t, us).config.history;
      && history.Some? && history.value != []
      && history.value[|history.value| - 1] == HistoryEntry(u.status, u.phase.value, u.reason, u.now)
  {
  }

  /** The history is the end of all there ever was, 20 entries long as soon as there are so many. */
  lemma WindowFromTheEnd(t: TaskView, us: seq<Update>)
    requires exists k :: 0 <= k < |us| && us[k].phase.Some?
    ensures var whole := (if t.config.history.Some? then t.config.history.value else []) + PhasedEntries(us);
      var history := Applied(t, us).config.history;
      && history.Some? && |history.value| == (if |whole| <= 20 then |whole| else 20)
      && history.value == whole[|whole| - |history.value|..]
  {
    HistoryIsAWindow(t, us);
    var k :| 0 <= k < |us| && us[k].phase.Some?;
    PhasedIsKept(us, k);
  }

  lemma {:induction false} PhasedIsKept(us: seq<Update>, k: nat)
    requires k < |us| && us[k].phase.Some?
    ensures PhasedEntries(us) != []
  {
    if k < |us| - 1 {
      PhasedIsKept(us[..|us| - 1], k);
    }
  }

  /** The phased entries are those of the updates with a phase, in order, with status, phase, reason and time. */
  lemma {:induction false} PhasedEntriesAre(us: seq<Update>) returns (at: seq<nat>)
    ensures |at| == |PhasedEntries(us)|
    ensures forall i :: 0 <= i < |at| ==> at[i] < |us| && Logs(us[at[i]], PhasedEntries(us)[i])
    ensures forall i, j :: 0 <= i < j < |at| ==> at[i] < at[j]
    ensures forall k :: 0 <= k < |us| && us[k].phase.Some? ==> k in at
  {
    hide Logs, EntryOf, PhasedEntries;
    PhasedStep(us);
    at := [];
    if us != [] {
      var n := |us| - 1;
      var before := PhasedEntriesAre(us[..n]);
      at := before;
      if us[n].phase.Some? {
        EntryLogs(us[n]);
        at := before + [n];
        assert n in at;
      }
      forall k | 0 <= k < |us| && us[k].phase.Some?
        ensures k in at
      {
        if k < n {
          assert us[..n][k] == us[k];
          assert k in before;
        }
      }
    }
  }

  lemma PhasedStep(us: seq<Update>)
    ensures us == [] ==> PhasedEntries(us) == []
    ensures us != [] ==> (
      var n := |us| - 1;
      PhasedEntries(us) == PhasedEntries(us[..n]) + (if us[n].phase.Some? then [EntryOf(us[n])] else []))
  {
  }

  /** The entry an update leaves. */
  predicate Logs(u: Update, e: HistoryEntry) {
    u.phase == Some(e.phase) && e.status == u.status && e.reason == u.reason && e.at == u.now
  }

  lemma EntryLogs(u: Update)
    requires u.phase.Some?
    ensures Logs(u, EntryOf(u))
  {
  }

  ghost predicate LastCompletion(us: seq<Update>, k: int) {
    0 <= k < |us| && us[k].status == Completed && forall j :: k < j < |us| ==> us[j].status != Completed
  }

  /** `completed_at` is set iff it was, or some update was to COMPLETED, and then it is the last such time. */
  lemma {:induction false} CompletedAtRemembers(t: TaskView, us: seq<Update>)
    ensures Applied(t, us).completedAt.Some? <==>
      t.completedAt.Some? || exists k :: 0 <= k < |us| && us[k].status == Completed
    ensures forall k :: LastCompletion(us, k) ==> Applied(t, us).completedAt == Some(us[k].now)
  {
    if us != [] {
      var n := |us| - 1;
      var before := us[..n];
      CompletedAtRemembers(t, before);
      assert forall k :: 0 <= k < n ==> before[k] == us[k];
      if us[n].status != Completed {
        forall k | LastCompletion(us, k)
          ensures Applied(t, us).completedAt == Some(us[k].now)
        {
          assert LastCompletion(before, k);
        }
      }
    }
  }

  /** The last text given, if any. */
  function Latest(given: seq<Option<string>>, initial: Option<string>): (r: Option<string>)
    ensures (forall k :: 0 <= k < |given| ==> given[k].None?) ==> r == initial
    ensures forall k :: (0 <= k < |given| && given[k].Some? && (forall j :: k < j < |given| ==> given[j].None?)
      ==> r == given[k])
  {
    if given == [] then initial
    else if given[|given| - 1].Some? then given[|given| - 1]
    else
      assert forall k :: 0 <= k < |given| - 1 ==> given[..|given| - 1][k] == given[k];
      Latest(given[..|given| - 1], initial)
  }

  function Summaries(us: seq<Update>): (given: seq<Option<string>>)
    ensures |given| == |us|
  {
    seq(|us|, i requires 0 <= i < |us| => us[i].summary)
  }

  function Reasons(us: seq<Update>): (given: seq<Option<string>>)
    ensures |given| == |us|
  {
    seq(|us|, i requires 0 <= i < |us| => us[i].reason)
  }

  lemma LatestSnoc(given: seq<Option<string>>, next: Option<string>, initial: Option<string>)
    ensures Latest(given + [next], initial) == if next.Some? then next else Latest(given, initial)
  {
    assert (given + [next])[..|given|] == given;
  }

  /** Summary and reason are the last ones given, even with later updates lacking one; status and time are the last. */
  lemma {:induction false} LastGivenTextWins(t: TaskView, us: seq<Update>)
    ensures Some(Applied(t, us).summary) == Latest(Summaries(us), Some(t.summary))
    ensures Applied(t, us).config.reason == Latest(Reasons(us), t.config.reason)
    ensures us != [] ==> Applied(t, us).status == us[|us| - 1].status && Applied(t, us).updatedAt == us[|us| - 1].now
  {
    hide Latest;
    if us == [] {
      NoneGiven(Some(t.summary));
      NoneGiven(t.config.reason);
      assert Summaries(us) == [] && Reasons(us) == [];
    } else {
      var before, u := us[..|us| - 1], us[|us| - 1];
      LastGivenTextWins(t, before);
      assert Summaries(us) == Summaries(before) + [u.summary] && Reasons(us) == Reasons(before) + [u.reason];
      LatestSnoc(Summaries(before), u.summary, Some(t.summary));
      LatestSnoc(Reasons(before), u.reason, t.config.reason);
    }
  }

  lemma NoneGiven(initial: Option<string>)
    ensures Latest([], initial) == initial
  {
  }

  /** Identity, details, creation time and tenant survive every update. */
  lemma {:induction false} IdentityIsKept(t: TaskView, us: seq<Update>)
    ensures Applied(t, us).id == t.id && Applied(t, us).createdAt == t.createdAt && Applied(t, us).details == t.details
    ensures Applied(t, us).config.tenant == t.config.tenant
  {
    if us != [] {
      IdentityIsKept(t, us[..|us| - 1]);
    }
  }

  // ----- listing

  function NewerFirst(): (TaskView, TaskView) -> bool {
    (a: TaskView, b: TaskView) => a.createdAt >= b.createdAt
  }

  function HasStatus(status: Option<Status>): TaskView -> bool {
    (t: TaskView) => status.None? || t.status == status.value
  }

  function Matching(tasks: seq<TaskView>, status: Option<Status>): seq<TaskView> {
    Filter(Sort(tasks, NewerFirst()), HasStatus(status))
  }

  function ClampIndex(i: int, n: nat): (j: nat)
    ensures j <= n
  {
    var k := if i < 0 then i + n else i;
    if k < 0 then 0 else if k > n then n else k
  }

  /** `s[from : to]`, where negative bounds count from the end. */
  function Slice<T>(s: seq<T>, from: int, to: int): seq<T> {
    var a, b := ClampIndex(from, |s|), ClampIndex(to, |s|);
    if a <= b then s[a..b] else []
  }

  lemma SliceAt<T>(s: seq<T>, from: int, to: int)
    ensures var a, b := ClampIndex(from, |s|), ClampIndex(to, |s|);
      |Slice(s, from, to)| == if a <= b then b - a else 0
    ensures forall i :: 0 <= i < |Slice(s, from, to)| ==> Slice(s, from, to)[i] == s[ClampIndex(from, |s|) + i]
  {
    hide ClampIndex;
  }

  function Page(tasks: seq<TaskView>, status: Option<Status>, limit: int, offset: int): (seq<TaskView>, nat) {
    var all := Matching(tasks, status);
    (Slice(all, offset, offset + limit), |all|)
  }

  /** The first k pages, one after another. */
  function FirstPages(tasks: seq<TaskView>, status: Option<Status>, size: nat, k: nat): seq<TaskView> {
    if k == 0 then []
    else FirstPages(tasks, status, size, k - 1) + Page(tasks, status, size, (k - 1) * size).0
  }

  lemma {:induction false} PagesArePrefix(tasks: seq<TaskView>, status: Option<Status>, size: nat, k: nat)
    ensures var all := Matching(tasks, status);
      FirstPages(tasks, status, size, k) == all[..if k * size <= |all| then k * size else |all|]
  {
    hide Matching, Slice;
    if k > 0 {
      PagesArePrefix(tasks, status, size, k - 1);
      NextMultiple(k, size);
      NextSlice(Matching(tasks, status), (k - 1) * size, size);
    }
  }

  lemma NextMultiple(k: nat, size: nat)
    requires k > 0
    ensures k * size == (k - 1) * size + size && 0 <= (k - 1) * size
  {
  }

  lemma NextSlice<T>(s: seq<T>, offset: nat, size: nat)
    ensures var upTo := (n: nat) => if n <= |s| then n else |s|;
      s[..upTo(offset)] + Slice(s, offset, offset + size) == s[..upTo(offset + size)]
  {
  }

  /** Consecutive pages of any size give the whole filtered list: nothing lost, repeated or reordered. */
  lemma PagesCoverEverything(tasks: seq<TaskView>, status: Option<Status>, size: nat, k: nat)
    requires k * size >= |Matching(tasks, status)|
    ensures FirstPages(tasks, status, size, k) == Matching(tasks, status)
    ensures Page(tasks, status, size, 0).1 == |FirstPages(tasks, status, size, k)|
  {
    PagesArePrefix(tasks, status, size, k);
  }

  lemma {:induction false} FilterCounts(s: seq<TaskView>, p: TaskView -> bool, x: TaskView)
    ensures multiset(Filter(s, p))[x] == if p(x) then multiset(s)[x] else 0
  {
    if s != [] {
      FilterCounts(s[1..], p, x);
      assert s == [s[0]] + s[1..];
    }
  }

  lemma {:induction false} FilterSorted(s: seq<TaskView>, p: TaskView -> bool)
    requires Sorted(s, NewerFirst())
    ensures Sorted(Filter(s, p), NewerFirst())
    ensures forall x :: x in Filter(s, p) ==> x in s
  {
    if s != [] {
      FilterSorted(s[1..], p);
      assert s == [s[0]] + s[1..];
      forall x | x in Filter(s[1..], p)
        ensures NewerFirst()(s[0], x)
      {
        var j :| 0 <= j < |s[1..]| && s[1..][j] == x;
        assert s[j + 1] == x;
      }
    }
  }

  /** The list holds exactly the tasks of that status, newest first. */
  lemma MatchingIsExact(tasks: seq<TaskView>, status: Option<Status>, x: TaskView)
    ensures multiset(Matching(tasks, status))[x] ==
      if status.None? || x.status == status.value then multiset(tasks)[x] else 0
    ensures forall i, j :: 0 <= i < j < |Matching(tasks, status)| ==>
      Matching(tasks, status)[i].createdAt >= Matching(tasks, status)[j].createdAt
  {
    SortPermutes(tasks, NewerFirst());
    FilterCounts(Sort(tasks, NewerFirst()), HasStatus(status), x);
    SortSorted(tasks, NewerFirst());
    FilterSorted(Sort(tasks, NewerFirst()), HasStatus(status));
    var m := Matching(tasks, status);
    forall i, j | 0 <= i < j < |m|
      ensures m[i].createdAt >= m[j].createdAt
    {
      assert NewerFirst()(m[i], m[j]);
    }
  }

  /** Tasks created at the same instant are listed in the order they were created. */
  lemma TiesKeepCreationOrder(tasks: seq<TaskView>, at: int)
    ensures var p := (t: TaskView) => t.createdAt == at;
      Filter(Sort(tasks, NewerFirst()), p) == Filter(tasks, p)
  {
    SortIsStable(tasks, NewerFirst(), (t: TaskView) => t.createdAt == at);
  }

  /** A page: what the filtered list holds from the offset on, as much as the limit allows, with the list's length. */
  lemma PageFromTheList(tasks: seq<TaskView>, status: Option<Status>, limit: nat, offset: nat)
    ensures var all, page := Matching(tasks, status), Page(tasks, status, limit, offset);
      && page.1 == |all|
      && page.0 == (if |all| <= offset then [] else if |all| <= offset + limit then all[offset..]
        else all[offset..offset + limit])
  {
    hide Matching;
  }

  /** Negative bounds of a slice count from the end; bounds beyond an end stop there. */
  lemma SliceFromTheEnd<T>(s: seq<T>, from: int, to: int)
    requires -|s| <= from < 0 && from <= to < 0
    ensures Slice(s, from, to) == s[|s| + from..|s| + to]
    ensures Slice(s, -|s| - 1, |s| + 1) == s && Slice(s, to, 0) == []
  {
  }
}
