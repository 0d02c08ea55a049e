/**
 * Approval requests as values: what each manager call does to the append-only history and to
 * the ordered dict of pending requests, and what every run of calls keeps.
 */
module Approvals {
  import opened Common

  const LIFETIME := 30 * 60
  const REJECT_BELOW := 20.0
  const AUTO_REVIEWER := "auto_system"

  datatype Status = Pending | Approved | Rejected | Expired | Cancelled
  datatype Kind = PhaseTransition | DataReview | GoNoGo | BudgetExceed | RiskThreshold

  /** The stored text either parses as a time, in seconds, or raises when the sweep parses it. */
  datatype Expiry = At(time: int) | Unparsable

  /** The `score` of the context; a missing one counts as 0. */
  datatype Score = Absent | Given(value: real) | NotANumber

  datatype Config = Config(threshold: real, required: set<Kind>, timeoutMinutes: int, defaultReviewer: string)

  datatype Entry = Entry(
    id: string,
    session: string,
    agent: string,
    action: string,
    kind: Kind,
    status: Status,
    createdAt: int,
    expires: Expiry,
    reviewer: string,
    reviewedAt: Option<int>,
    comment: string)

  /** `pending` lists the keys of the pending dict in insertion order. */
  datatype State = State(history: seq<Entry>, pending: seq<string>)

  datatype Op =
    | Request(id: string, session: string, agent: string, action: string, kind: Kind, score: Score, now: int)
    | Approve(id: string, reviewer: string, comment: string, now: int)
    | Reject(id: string, reviewer: string, comment: string, now: int)
    | Sweep(now: int)

  datatype Ruling = AutoApprove | AutoReject | Queue | Raise

  const INITIAL := State([], [])

  // ----- one step

  /** Both rules are evaluated, approval first; comparing a score that is no number raises. */
  function RulingOf(cfg: Config, kind: Kind, score: Score): Ruling {
    var value := if score.Given? then score.value else 0.0;
    if score.NotANumber? && (kind !in cfg.required || kind == RiskThreshold) then Raise
    else if kind !in cfg.required && value >= cfg.threshold then AutoApprove
    else if kind == RiskThreshold && value < REJECT_BELOW then AutoReject
    else Queue
  }

  function AutoComment(ruling: Ruling): string {
    match ruling
    case AutoApprove => "auto-approved"
    case AutoReject => "auto-rejected"
    case _ => ""
  }

  function NewEntry(op: Op, ruling: Ruling): Entry
    requires op.Request?
  {
    var blank :=
      Entry(op.id, op.session, op.agent, op.action, op.kind, Pending, op.now, At(op.now + LIFETIME), "", None, "");
    match ruling
    case AutoApprove => Reviewed(blank, Approved, AUTO_REVIEWER, AutoComment(ruling), op.now)
    case AutoReject => Reviewed(blank, Rejected, AUTO_REVIEWER, AutoComment(ruling), op.now)
    case _ => blank
  }

  function Reviewed(e: Entry, status: Status, reviewer: string, comment: string, now: int): Entry {
    e.(status := status, reviewer := reviewer, reviewedAt := Some(now), comment := comment)
  }

  function ReviewerOr(reviewer: string, cfg: Config): string {
    if reviewer == "" then cfg.defaultReviewer else reviewer
  }

  predicate PastExpiry(e: Entry, now: int) {
    e.expires.At? && now > e.expires.time
  }

  /** Keys left after deleting some, order kept. */
  function Without(ids: seq<string>, gone: set<string>): seq<string> {
    if ids == [] then []
    else Without(ids[..|ids| - 1], gone) + (if ids[|ids| - 1] in gone then [] else [ids[|ids| - 1]])
  }

  /** The keys among `keep`, order kept. */
  function Only(ids: seq<string>, keep: set<string>): seq<string> {
    if ids == [] then []
    else Only(ids[..|ids| - 1], keep) + (if ids[|ids| - 1] in keep then [ids[|ids| - 1]] else [])
  }

  /** The keys that are in both. */
  function Among(ids: seq<string>, keep: set<string>): set<string> {
    if ids == [] then {}
    else Among(ids[..|ids| - 1], keep) + (if ids[|ids| - 1] in keep then {ids[|ids| - 1]} else {})
  }

  function Marked(history: seq<Entry>, gone: set<string>, mark: Entry -> Entry): (h: seq<Entry>)
    ensures |h| == |history|
  {
    seq(|history|, i requires 0 <= i < |history| => if history[i].id in gone then mark(history[i]) else history[i])
  }

  function MarkAs(status: Status, reviewer: string, comment: string, now: int): Entry -> Entry {
    (e: Entry) => Reviewed(e, status, reviewer, comment, now)
  }

  function MarkExpired(): Entry -> Entry {
    (e: Entry) => e.(status := Expired)
  }

  /** The pending keys whose request is past its expiry. */
  function ExpiredIds(s: State, now: int): set<string> {
    set i | 0 <= i < |s.history| && s.history[i].id in s.pending && PastExpiry(s.history[i], now) :: s.history[i].id
  }

  function Remove(s: State, gone: set<string>, mark: Entry -> Entry): State {
    State(Marked(s.history, gone, mark), Without(s.pending, gone))
  }

  /** Decides one pending request; any other id leaves the state alone. */
  function Settle(s: State, id: string, mark: Entry -> Entry): State {
    if id in s.pending then Remove(s, {id}, mark) else s
  }

  function Step(cfg: Config, s: State, op: Op): State {
    match op
    case Request(id, _, _, _, kind, score, _) =>
      var ruling := RulingOf(cfg, kind, score);
      if ruling == Raise then s
      else State(s.history + [NewEntry(op, ruling)], if ruling == Queue then s.pending + [id] else s.pending)
    case Approve(id, reviewer, comment, now) =>
      Settle(s, id, MarkAs(Approved, ReviewerOr(reviewer, cfg), comment, now))
    case Reject(id, reviewer, comment, now) =>
      Settle(s, id, MarkAs(Rejected, ReviewerOr(reviewer, cfg), comment, now))
    case Sweep(now) =>
      Remove(s, ExpiredIds(s, now), MarkExpired())
  }

  // ----- the invariant

  /** The keys of the history entries that are pending, in history order. */
  function PendingIds(history: seq<Entry>): seq<string> {
    if history == [] then []
    else
      var last := history[|history| - 1];
      PendingIds(history[..|history| - 1]) + (if last.status == Pending then [last.id] else [])
  }

  ghost predicate UniqueIds(history: seq<Entry>) {
    forall i, j :: 0 <= i < j < |history| ==> history[i].id != history[j].id
  }

  ghost predicate Inv(s: State) {
    && UniqueIds(s.history)
    && s.pending == PendingIds(s.history)
    && forall i :: 0 <= i < |s.history| ==> s.history[i].status != Cancelled
  }

  /** A new request carries an id no earlier request has. */
  ghost predicate Legal(s: State, op: Op) {
    op.Request? ==> forall i :: 0 <= i < |s.history| ==> s.history[i].id != op.id
  }

  ghost predicate Decides(mark: Entry -> Entry) {
    forall e: Entry :: mark(e).id == e.id && mark(e).status != Pending && mark(e).status != Cancelled
  }

  lemma MarkAsDecides(status: Status, reviewer: string, comment: string, now: int)
    requires status == Approved || status == Rejected
    ensures Decides(MarkAs(status, reviewer, comment, now))
    ensures forall e: Entry :: MarkAs(status, reviewer, comment, now)(e) == Reviewed(e, status, reviewer, comment, now)
  {
  }

  lemma {:induction false} PendingIdsAre(history: seq<Entry>)
    ensures forall i :: 0 <= i < |history| && history[i].status == Pending ==> history[i].id in PendingIds(history)
    ensures forall id :: id in PendingIds(history) ==>
      exists i :: 0 <= i < |history| && history[i].id == id && history[i].status == Pending
  {
    if history != [] {
      var shorter := history[..|history| - 1];
      PendingIdsAre(shorter);
      forall id | id in PendingIds(history)
        ensures exists i :: 0 <= i < |history| && history[i].id == id && history[i].status == Pending
      {
        if id in PendingIds(shorter) {
          var i :| 0 <= i < |shorter| && shorter[i].id == id && shorter[i].status == Pending;
          assert history[i].id == id;
        } else {
          assert history[|history| - 1].id == id;
        }
      }
    }
  }

  /** With unique ids, a key is pending exactly when its own entry is. */
  lemma PendingIsStatus(s: State, i: nat)
    requires Inv(s) && i < |s.history|
    ensures s.history[i].id in s.pending <==> s.history[i].status == Pending
  {
    PendingIdsAre(s.history);
  }

  lemma WithoutSnoc(ids: seq<string>, last: seq<string>, gone: set<string>)
    requires |last| <= 1
    ensures Without(ids + last, gone) == Without(ids, gone) + Without(last, gone)
  {
    if |last| == 1 {
      assert (ids + last)[..|ids|] == ids;
      assert last[..0] == [];
    } else {
      assert ids + last == ids;
    }
  }

  /** Deleting keys from the dict matches marking their entries as decided. */
  lemma {:induction false} MarkedPending(history: seq<Entry>, gone: set<string>, mark: Entry -> Entry)
    requires Decides(mark)
    ensures PendingIds(Marked(history, gone, mark)) == Without(PendingIds(history), gone)
  {
    if history != [] {
      var n := |history|;
      MarkedPending(history[..n - 1], gone, mark);
      assert Marked(history, gone, mark)[..n - 1] == Marked(history[..n - 1], gone, mark);
      var last := if history[n - 1].status == Pending then [history[n - 1].id] else [];
      WithoutSnoc(PendingIds(history[..n - 1]), last, gone);
      if last != [] {
        assert last[..0] == [];
      }
    }
  }

  lemma RemoveKeepsInv(s: State, gone: set<string>, mark: Entry -> Entry)
    requires Inv(s) && Decides(mark)
    ensures Inv(Remove(s, gone, mark))
  {
    MarkedPending(s.history, gone, mark);
  }

  lemma AddKeepsInv(s: State, e: Entry)
    requires Inv(s) && e.status != Cancelled
    requires forall i :: 0 <= i < |s.history| ==> s.history[i].id != e.id
    ensures Inv(State(s.history + [e], if e.status == Pending then s.pending + [e.id] else s.pending))
  {
    assert (s.history + [e])[..|s.history|] == s.history;
  }

  /** Every call keeps: unique ids, and pending keys = ids of the entries with status pending, in order. */
  lemma StepKeepsInv(cfg: Config, s: State, op: Op)
    requires Inv(s) && Legal(s, op)
    ensures Inv(Step(cfg, s, op))
  {
    hide Inv, Legal, Decides, Remove, RulingOf, NewEntry, MarkAs, MarkExpired, ExpiredIds, ReviewerOr;
    match op
    case Request(_, _, _, _, kind, score, _) =>
      var ruling := RulingOf(cfg, kind, score);
      NewEntryIs(op, ruling);
      LegalIdIsNew(s, op);
      if ruling != Raise {
        AddKeepsInv(s, NewEntry(op, ruling));
      }
    case Approve(id, reviewer, comment, now) =>
      MarkAsDecides(Approved, ReviewerOr(reviewer, cfg), comment, now);
      RemoveKeepsInv(s, {id}, MarkAs(Approved, ReviewerOr(reviewer, cfg), comment, now));
    case Reject(id, reviewer, comment, now) =>
      MarkAsDecides(Rejected, ReviewerOr(reviewer, cfg), comment, now);
      RemoveKeepsInv(s, {id}, MarkAs(Rejected, ReviewerOr(reviewer, cfg), comment, now));
    case Sweep(now) =>
      MarkExpiredDecides();
      RemoveKeepsInv(s, ExpiredIds(s, now), MarkExpired());
  }

  lemma NewEntryIs(op: Op, ruling: Ruling)
    requires op.Request?
    ensures var e := NewEntry(op, ruling);
      e.id == op.id && e.status != Cancelled && (e.status == Pending <==> ruling == Queue || ruling == Raise)
  {
  }

  lemma LegalIdIsNew(s: State, op: Op)
    requires Legal(s, op) && op.Request?
    ensures forall i :: 0 <= i < |s.history| ==> s.history[i].id != op.id
  {
  }

  lemma MarkExpiredDecides()
    ensures Decides(MarkExpired())
  {
  }

  // ----- one step, entry by entry

  /** What may happen to an existing entry: nothing, unless it is pending and the call decides it. */
  ghost predicate Evolves(cfg: Config, op: Op, before: Entry, after: Entry) {
    || after == before
    || (before.status == Pending &&
        match op
        case Request(_, _, _, _, _, _, _) => false
        case Approve(id, reviewer, comment, now) =>
          id == before.id && after == Reviewed(before, Approved, ReviewerOr(reviewer, cfg), comment, now)
        case Reject(id, reviewer, comment, now) =>
          id == before.id && after == Reviewed(before, Rejected, ReviewerOr(reviewer, cfg), comment, now)
        case Sweep(now) => PastExpiry(before, now) && after == before.(status := Expired))
  }

  lemma StepEvolves(cfg: Config, s: State, op: Op)
    requires Inv(s) && Legal(s, op)
    ensures var t := Step(cfg, s, op);
      |s.history| <= |t.history| <= |s.history| + 1 &&
      forall i :: 0 <= i < |s.history| ==> Evolves(cfg, op, s.history[i], t.history[i])
    ensures |Step(cfg, s, op).history| > |s.history| ==>
      op.Request? && Step(cfg, s, op).history == s.history + [NewEntry(op, RulingOf(cfg, op.kind, op.score))]
  {
    forall i | 0 <= i < |s.history|
      ensures Evolves(cfg, op, s.history[i], Step(cfg, s, op).history[i])
    {
      PendingIsStatus(s, i);
      if op.Sweep? && s.history[i].id in ExpiredIds(s, op.now) {
        var j :| 0 <= j < |s.history| && s.history[j].id in s.pending && PastExpiry(s.history[j], op.now)
          && s.history[j].id == s.history[i].id;
        assert i == j;
      }
    }
  }

  // ----- runs

  function Run(cfg: Config, ops: seq<Op>): State {
    if ops == [] then INITIAL else Step(cfg, Run(cfg, ops[..|ops| - 1]), ops[|ops| - 1])
  }

  ghost predicate LegalRun(cfg: Config, ops: seq<Op>) {
    forall k :: 0 <= k < |ops| ==> Legal(Run(cfg, ops[..k]), ops[k])
  }

  lemma LegalPrefix(cfg: Config, ops: seq<Op>, k: nat)
    requires LegalRun(cfg, ops) && k <= |ops|
    ensures LegalRun(cfg, ops[..k])
    ensures k < |ops| ==> Run(cfg, ops[..k + 1]) == Step(cfg, Run(cfg, ops[..k]), ops[k])
  {
    forall j | 0 <= j < k
      ensures Legal(Run(cfg, ops[..k][..j]), ops[..k][j])
    {
      assert ops[..k][..j] == ops[..j];
    }
    if k < |ops| {
      assert ops[..k + 1][..k] == ops[..k];
    }
  }

  lemma {:induction false} RunKeepsInv(cfg: Config, ops: seq<Op>)
    requires LegalRun(cfg, ops)
    ensures Inv(Run(cfg, ops))
  {
    if ops != [] {
      var k := |ops| - 1;
      LegalPrefix(cfg, ops, k);
      RunKeepsInv(cfg, ops[..k]);
      StepKeepsInv(cfg, Run(cfg, ops[..k]), ops[k]);
    }
  }

  /** What a later state may change in an earlier entry: only the outcome of a pending one. */
  ghost predicate Follows(before: Entry, after: Entry) {
    && (before.status != Pending ==> after == before)
    && after.id == before.id && after.session == before.session && after.agent == before.agent
    && after.action == before.action && after.kind == before.kind
    && after.createdAt == before.createdAt && after.expires == before.expires
  }

  /** The history only grows at its end, and a decided or expired request never changes again. */
  lemma {:induction false} DecisionsAreFinal(cfg: Config, ops: seq<Op>, k: nat)
    requires LegalRun(cfg, ops) && k <= |ops|
    ensures var early, late := Run(cfg, ops[..k]).history, Run(cfg, ops).history;
      |early| <= |late| && forall i :: 0 <= i < |early| ==> Follows(early[i], late[i])
    decreases |ops| - k
  {
    if k == |ops| {
      assert ops[..k] == ops;
    } else {
      LegalPrefix(cfg, ops, k);
      RunKeepsInv(cfg, ops[..k]);
      StepEvolves(cfg, Run(cfg, ops[..k]), ops[k]);
      DecisionsAreFinal(cfg, ops, k + 1);
      var early, next, late := Run(cfg, ops[..k]).history, Run(cfg, ops[..k + 1]).history, Run(cfg, ops).history;
      forall i | 0 <= i < |early|
        ensures Follows(early[i], late[i])
      {
        assert Evolves(cfg, ops[k], early[i], next[i]);
        assert Follows(next[i], late[i]);
      }
    }
  }

  /** `op` is the human approval recorded in e. */
  ghost predicate ApprovedBy(cfg: Config, op: Op, e: Entry) {
    op.Approve? && op.id == e.id && e.reviewer == ReviewerOr(op.reviewer, cfg)
    && e.comment == op.comment && e.reviewedAt == Some(op.now)
  }

  /** In every run, an approved request of a human-required kind was approved by an approve call. */
  lemma {:induction false} RequiredKindsNeedAHuman(cfg: Config, ops: seq<Op>, i: nat)
    requires LegalRun(cfg, ops) && i < |Run(cfg, ops).history|
    requires Run(cfg, ops).history[i].status == Approved && Run(cfg, ops).history[i].kind in cfg.required
    ensures exists k :: 0 <= k < |ops| && ApprovedBy(cfg, ops[k], Run(cfg, ops).history[i])
  {
    var n := |ops| - 1;
    LegalPrefix(cfg, ops, n);
    RunKeepsInv(cfg, ops[..n]);
    var s, t := Run(cfg, ops[..n]), Run(cfg, ops);
    StepEvolves(cfg, s, ops[n]);
    if i < |s.history| {
      if s.history[i] == t.history[i] {
        RequiredKindsNeedAHuman(cfg, ops[..n], i);
        var k :| 0 <= k < n && ApprovedBy(cfg, ops[..n][k], s.history[i]);
        assert ApprovedBy(cfg, ops[k], t.history[i]);
      } else {
        assert Evolves(cfg, ops[n], s.history[i], t.history[i]);
        assert ApprovedBy(cfg, ops[n], t.history[i]);
      }
    }
  }

  // ----- counting

  function Count(history: seq<Entry>, status: Status): nat {
    if history == [] then 0
    else Count(history[..|history| - 1], status) + (if history[|history| - 1].status == status then 1 else 0)
  }

  lemma {:induction false} CountsAddUp(history: seq<Entry>)
    ensures |PendingIds(history)| == Count(history, Pending)
    ensures |history| == Count(history, Pending) + Count(history, Approved) + Count(history, Rejected)
      + Count(history, Expired) + Count(history, Cancelled)
    ensures (forall i :: 0 <= i < |history| ==> history[i].status != Cancelled) ==> Count(history, Cancelled) == 0
  {
    if history != [] {
      CountsAddUp(history[..|history| - 1]);
    }
  }

  lemma CountNone(history: seq<Entry>)
    ensures forall status :: Count(history[..0], status) == 0
  {
  }

  lemma CountNext(history: seq<Entry>, i: nat)
    requires i < |history|
    ensures forall status ::
      Count(history[..i + 1], status) == Count(history[..i], status) + (if history[i].status == status then 1 else 0)
  {
    assert history[..i + 1][..i] == history[..i];
  }

  /** After any run, the total is approved + rejected + pending dict size + expired. */
  lemma TotalsAreConserved(cfg: Config, ops: seq<Op>)
    requires LegalRun(cfg, ops)
    ensures var s := Run(cfg, ops);
      |s.history| == Count(s.history, Approved) + Count(s.history, Rejected) + |s.pending| + Count(s.history, Expired)
  {
    RunKeepsInv(cfg, ops);
    CountsAddUp(Run(cfg, ops).history);
  }

  /** The entries of one session, in history order. */
  function OfSession(history: seq<Entry>, session: string): seq<Entry> {
    if history == [] then []
    else
      var last := history[|history| - 1];
      OfSession(history[..|history| - 1], session) + (if last.session == session then [last] else [])
  }

  /** The session view repeats exactly the entries of that session, as often as the history has them. */
  lemma {:induction false} SessionViewIsExact(history: seq<Entry>, session: string, e: Entry)
    ensures multiset(OfSession(history, session))[e] == if e.session == session then multiset(history)[e] else 0
  {
    if history != [] {
      SessionViewIsExact(history[..|history| - 1], session, e);
      assert history == history[..|history| - 1] + [history[|history| - 1]];
    }
  }

  // ----- the sweep

  lemma {:induction false} WithoutMembers(ids: seq<string>, gone: set<string>)
    ensures forall id :: id in Without(ids, gone) <==> id in ids && id !in gone
    ensures (forall id :: id in ids ==> id !in gone) ==> Without(ids, gone) == ids
  {
    if ids != [] {
      var n := |ids| - 1;
      WithoutMembers(ids[..n], gone);
      assert ids == ids[..n] + [ids[n]];
    }
  }

  lemma {:induction false} WithoutTwice(ids: seq<string>, first: set<string>, second: set<string>)
    ensures Without(Without(ids, first), second) == Without(ids, first + second)
  {
    if ids != [] {
      var n := |ids| - 1;
      WithoutTwice(ids[..n], first, second);
      var last := if ids[n] in first then [] else [ids[n]];
      WithoutSnoc(Without(ids[..n], first), last, second);
      if last != [] {
        assert last[..0] == [];
      }
    }
  }

  lemma AmongSnoc(ids: seq<string>, k: nat, keep: set<string>)
    requires k < |ids|
    ensures Among(ids[..k + 1], keep)
      == if ids[k] in keep then Among(ids[..k], keep) + {ids[k]} else Among(ids[..k], keep)
    ensures Only(ids[..k + 1], keep)
      == if ids[k] in keep then Only(ids[..k], keep) + [ids[k]] else Only(ids[..k], keep)
  {
    assert ids[..k + 1][..k] == ids[..k];
  }

  lemma {:induction false} AmongMembers(ids: seq<string>, keep: set<string>)
    ensures forall id :: id in Among(ids, keep) <==> id in ids && id in keep
  {
    if ids != [] {
      AmongMembers(ids[..|ids| - 1], keep);
    }
  }

  lemma AmongAll(ids: seq<string>, keep: set<string>)
    requires forall id :: id in keep ==> id in ids
    ensures Among(ids, keep) == keep
  {
    AmongMembers(ids, keep);
  }

  /** After a sweep, exactly the pending requests not past their expiry, or unparsable, are still pending. */
  lemma SweepIsExact(cfg: Config, s: State, now: int, i: nat)
    requires Inv(s) && i < |s.history|
    ensures var e, t := s.history[i], Step(cfg, s, Sweep(now));
      && (e.status == Pending && PastExpiry(e, now) <==> e.id in ExpiredIds(s, now))
      && t.history[i] == (if e.status == Pending && PastExpiry(e, now) then e.(status := Expired) else e)
      && (e.id in t.pending <==> e.status == Pending && !PastExpiry(e, now))
      && (e.expires.Unparsable? && e.status == Pending ==> e.id in t.pending)
  {
    PendingIsStatus(s, i);
    WithoutMembers(s.pending, ExpiredIds(s, now));
    if e: Entry :| e in s.history && e.id == s.history[i].id && e.id in ExpiredIds(s, now) {
      var j :| 0 <= j < |s.history| && s.history[j].id in s.pending && PastExpiry(s.history[j], now)
        && s.history[j].id == e.id;
      assert i == j;
    }
  }

  /** Sweeping again at the same or an earlier time changes nothing. */
  lemma SweepTwice(cfg: Config, s: State, now: int, earlier: int)
    requires Inv(s) && earlier <= now
    ensures Step(cfg, Step(cfg, s, Sweep(now)), Sweep(earlier)) == Step(cfg, s, Sweep(now))
  {
    var t := Step(cfg, s, Sweep(now));
    StepKeepsInv(cfg, s, Sweep(now));
    forall i | 0 <= i < |t.history|
      ensures !(t.history[i].id in t.pending && PastExpiry(t.history[i], earlier))
    {
      SweepIsExact(cfg, s, now, i);
    }
    assert ExpiredIds(t, earlier) == {};
    WithoutMembers(t.pending, {});
    assert Marked(t.history, {}, MarkExpired()) == t.history;
  }

  // ----- where the promises stop

  function Favour(r: Ruling): int {
    match r case Raise => -1 case AutoReject => 0 case Queue => 1 case AutoApprove => 2
  }

  /** A higher score never gets a worse ruling: the automatic threshold lets high scores through, not low ones. */
  lemma RulingIsMonotone(cfg: Config, kind: Kind, low: real, high: real)
    requires low <= high
    ensures 0 <= Favour(RulingOf(cfg, kind, Given(low))) <= Favour(RulingOf(cfg, kind, Given(high)))
    ensures kind !in cfg.required ==> RulingOf(cfg, kind, Given(cfg.threshold)) == AutoApprove
    ensures kind !in cfg.required && high < cfg.threshold ==> RulingOf(cfg, kind, Given(high)) != AutoApprove
  {
  }

  /** A human-required request is left to a human iff it is not a risk request scored below 20 or unscored. */
  lemma RequiredKindIsLeftToAHumanIff(cfg: Config, s: State, op: Op)
    requires op.Request? && op.kind in cfg.required && op.id !in s.pending
    ensures op.id in Step(cfg, s, op).pending <==>
      op.kind != RiskThreshold || (op.score.Given? && op.score.value >= REJECT_BELOW)
  {
  }

  /** A required risk request without a score is rejected by the system itself. */
  lemma UnscoredRiskIsRejected(cfg: Config, id: string, now: int)
    requires RiskThreshold in cfg.required
    ensures Run(cfg, [Request(id, "s", "a", "act", RiskThreshold, Absent, now)]).history[0].status == Rejected
  {
    var op := Request(id, "s", "a", "act", RiskThreshold, Absent, now);
    assert [op][..0] == [];
    assert Run(cfg, [op]) == Step(cfg, INITIAL, op);
  }

  /** The call puts a request of this id into the pending dict. */
  predicate Queues(cfg: Config, op: Op, id: string) {
    op.Request? && op.id == id && RulingOf(cfg, op.kind, op.score) == Queue
  }

  /** The call takes out a request of this id and expiry: a decision at any time, or a sweep after the expiry. */
  predicate Ends(op: Op, id: string, expiry: int) {
    match op
    case Request(_, _, _, _, _, _, _) => false
    case Approve(other, _, _, _) => other == id
    case Reject(other, _, _, _) => other == id
    case Sweep(now) => now > expiry
  }

  /** When a request made by call k expires. */
  function Deadline(ops: seq<Op>, k: int): int {
    if 0 <= k < |ops| then ops[k].now + LIFETIME else 0
  }

  /** Call k queued the id, and no later call ended it. */
  ghost predicate Waits(cfg: Config, ops: seq<Op>, id: string, k: int) {
    && 0 <= k < |ops| && Queues(cfg, ops[k], id)
    && forall j :: k < j < |ops| ==> !Ends(ops[j], id, Deadline(ops, k))
  }

  ghost predicate Expires(s: State, id: string, expiry: int) {
    exists i :: 0 <= i < |s.history| && s.history[i].id == id && s.history[i].expires == At(expiry)
  }

  /** A pending id after one more call. */
  lemma StillPending(cfg: Config, s: State, op: Op, id: string, expiry: int)
    requires Inv(s) && Legal(s, op) && id in s.pending && Expires(s, id, expiry)
    ensures Expires(Step(cfg, s, op), id, expiry)
    ensures id in Step(cfg, s, op).pending <==> !Ends(op, id, expiry)
  {
    var i :| 0 <= i < |s.history| && s.history[i].id == id && s.history[i].expires == At(expiry);
    PendingIsStatus(s, i);
    StepEvolves(cfg, s, op);
    StepKeepsInv(cfg, s, op);
    PendingIsStatus(Step(cfg, s, op), i);
    assert Evolves(cfg, op, s.history[i], Step(cfg, s, op).history[i]);
    match op
    case Request(_, _, _, _, _, _, _) =>
    case Approve(other, _, _, _) => WithoutMembers(s.pending, {other});
    case Reject(other, _, _, _) => WithoutMembers(s.pending, {other});
    case Sweep(now) => SweepIsExact(cfg, s, now, i);
  }

  /** An id that is not pending becomes so only when queued, and is then new to the history. */
  lemma NewlyPending(cfg: Config, s: State, op: Op, id: string)
    requires Inv(s) && Legal(s, op)
    ensures id !in s.pending ==> (id in Step(cfg, s, op).pending <==> Queues(cfg, op, id))
    ensures Queues(cfg, op, id) ==> id !in s.pending && Expires(Step(cfg, s, op), id, op.now + LIFETIME)
  {
    PendingIdsAre(s.history);
    match op
    case Request(_, _, _, _, kind, score, _) =>
      if Queues(cfg, op, id) {
        assert Step(cfg, s, op).history[|s.history|] == NewEntry(op, Queue);
      }
    case Approve(other, _, _, _) => WithoutMembers(s.pending, {other});
    case Reject(other, _, _, _) => WithoutMembers(s.pending, {other});
    case Sweep(now) => WithoutMembers(s.pending, ExpiredIds(s, now));
  }

  /** What one more call means for the calls that keep the id waiting. */
  lemma WaitsCases(cfg: Config, ops: seq<Op>, id: string)
    requires ops != []
    ensures forall k :: Waits(cfg, ops, id, k) <==>
      if k == |ops| - 1 then Queues(cfg, ops[k], id)
      else Waits(cfg, ops[..|ops| - 1], id, k) && !Ends(ops[|ops| - 1], id, Deadline(ops, k))
  {
    hide Queues, Ends;
    var before := ops[..|ops| - 1];
    assert forall j :: 0 <= j < |before| ==> before[j] == ops[j];
  }

  /** In every run an id is pending iff some call queued it and none since decided it or swept it after its expiry. */
  lemma {:induction false} PendingIff(cfg: Config, ops: seq<Op>, id: string)
    requires LegalRun(cfg, ops)
    ensures id in Run(cfg, ops).pending <==> exists k :: Waits(cfg, ops, id, k)
    ensures forall k :: Waits(cfg, ops, id, k) ==> Expires(Run(cfg, ops), id, Deadline(ops, k))
  {
    hide *;
    if ops == [] {
      NothingPending(cfg, ops, id);
    } else {
      var n := |ops| - 1;
      var before, op := ops[..n], ops[n];
      var s, t := Run(cfg, before), Run(cfg, ops);
      LastCall(cfg, ops);
      RunKeepsInv(cfg, before);
      PendingIff(cfg, before, id);
      WaitsCases(cfg, ops, id);
      NewlyPending(cfg, s, op, id);
      forall k | Waits(cfg, before, id, k)
        ensures id in s.pending && Expires(t, id, Deadline(ops, k))
        ensures id in t.pending <==> !Ends(op, id, Deadline(ops, k))
      {
        SameExpiry(cfg, ops, id, k);
        StillPending(cfg, s, op, id, Deadline(ops, k));
      }
      if id in t.pending {
        if k :| Waits(cfg, before, id, k) {
          WaitsInRange(cfg, before, id, k);
          assert Waits(cfg, ops, id, k);
        } else {
          assert Waits(cfg, ops, id, n);
        }
      }
      forall k | Waits(cfg, ops, id, k)
        ensures id in t.pending && Expires(t, id, Deadline(ops, k))
      {
        if k == n {
          ExpiryOfLast(ops);
        }
      }
    }
  }

  lemma WaitsInRange(cfg: Config, ops: seq<Op>, id: string, k: int)
    requires Waits(cfg, ops, id, k)
    ensures 0 <= k < |ops|
  {
  }

  lemma ExpiryOfLast(ops: seq<Op>)
    requires ops != []
    ensures Deadline(ops, |ops| - 1) == ops[|ops| - 1].now + LIFETIME
  {
  }

  lemma SameExpiry(cfg: Config, ops: seq<Op>, id: string, k: int)
    requires ops != [] && Waits(cfg, ops[..|ops| - 1], id, k)
    ensures Deadline(ops[..|ops| - 1], k) == Deadline(ops, k)
  {
  }

  lemma LastCall(cfg: Config, ops: seq<Op>)
    requires ops != [] && LegalRun(cfg, ops)
    ensures var n := |ops| - 1;
      LegalRun(cfg, ops[..n]) && Legal(Run(cfg, ops[..n]), ops[n])
      && Run(cfg, ops) == Step(cfg, Run(cfg, ops[..n]), ops[n])
  {
    hide Step, Legal;
    LegalPrefix(cfg, ops, |ops| - 1);
  }

  lemma NothingPending(cfg: Config, ops: seq<Op>, id: string)
    requires ops == []
    ensures id !in Run(cfg, ops).pending && !exists k :: Waits(cfg, ops, id, k)
  {
  }

  /**
   * In every run an approve call takes effect iff the id still waits: at whatever time it comes, so also past the
   * expiry, as long as no sweep ran after the expiry.
   */
  lemma ApprovalTakesIff(cfg: Config, ops: seq<Op>, i: nat, now: int, reviewer: string, comment: string)
    requires LegalRun(cfg, ops) && i < |Run(cfg, ops).history|
    ensures var s := Run(cfg, ops);
      var e := s.history[i];
      var after := Step(cfg, s, Approve(e.id, reviewer, comment, now)).history[i];
      && (after != e ==> after == Reviewed(e, Approved, ReviewerOr(reviewer, cfg), comment, now))
      && (e.status == Pending && after.status == Approved <==> exists k :: Waits(cfg, ops, e.id, k))
  {
    RunKeepsInv(cfg, ops);
    var s := Run(cfg, ops);
    PendingIsStatus(s, i);
    PendingIff(cfg, ops, s.history[i].id);
  }

  /** The configured timeout is never read. */
  lemma {:induction false} TimeoutIsIgnored(cfg: Config, ops: seq<Op>, minutes: int)
    ensures Run(cfg.(timeoutMinutes := minutes), ops) == Run(cfg, ops)
    ensures forall k :: 0 <= k < |ops| && ops[k].Request? ==>
      NewEntry(ops[k], RulingOf(cfg, ops[k].kind, ops[k].score)).expires == At(ops[k].now + 30 * 60)
  {
    if ops != [] {
      TimeoutIsIgnored(cfg, ops[..|ops| - 1], minutes);
    }
  }

  /** Side by side: approving at once works at any time, after a sweep at that same time only before the expiry. */
  lemma LateApproval(cfg: Config, s: State, i: nat, now: int, reviewer: string, comment: string)
    requires Inv(s) && i < |s.history| && s.history[i].status == Pending
    ensures var op := Approve(s.history[i].id, reviewer, comment, now);
      && Step(cfg, s, op).history[i].status == Approved
      && (Step(cfg, Step(cfg, s, Sweep(now)), op).history[i].status == Approved <==> !PastExpiry(s.history[i], now))
  {
    PendingIsStatus(s, i);
    SweepIsExact(cfg, s, now, i);
  }

  // ----- what calls record, from their arguments

  /** A request call records its arguments, expires after 1800 seconds, and is decided at once by score and kind. */
  lemma RequestIsRecorded(cfg: Config, s: State, op: Op, value: real)
    requires op.Request? && value == (if op.score.Given? then op.score.value else 0.0)
    ensures var t := Step(cfg, s, op);
      var free := op.kind !in cfg.required && value >= cfg.threshold;
      var doomed := op.kind == RiskThreshold && value < 20.0;
      if op.score.NotANumber? && (op.kind !in cfg.required || op.kind == RiskThreshold) then t == s
      else
        && |t.history| == |s.history| + 1 && t.history[..|s.history|] == s.history
        && t.pending == (if free || doomed then s.pending else s.pending + [op.id])
        && var e := t.history[|s.history|];
          && e.id == op.id && e.session == op.session && e.agent == op.agent
          && e.action == op.action && e.kind == op.kind
          && e.createdAt == op.now && e.expires == At(op.now + 1800)
          && e.status == (if free then Approved else if doomed then Rejected else Pending)
          && (free || doomed ==> e.reviewer == "auto_system" && e.reviewedAt == Some(op.now))
          && (!free && !doomed ==> e.reviewer == "" && e.reviewedAt == None && e.comment == "")
  {
  }

  /**
   * In every run a decision on a waiting id leaves in its entry the status, comment and time of the call, and the
   * reviewer it named, or the configured one if it named none; nothing else of the entry changes.
   */
  lemma DecisionIsRecorded(cfg: Config, ops: seq<Op>, i: nat, k: int, now: int, reviewer: string, comment: string)
    requires LegalRun(cfg, ops) && i < |Run(cfg, ops).history| && Waits(cfg, ops, Run(cfg, ops).history[i].id, k)
    ensures var s := Run(cfg, ops);
      var e, named := s.history[i], if reviewer != "" then reviewer else cfg.defaultReviewer;
      && |Step(cfg, s, Approve(e.id, reviewer, comment, now)).history| == |s.history|
      && |Step(cfg, s, Reject(e.id, reviewer, comment, now)).history| == |s.history|
      && Step(cfg, s, Approve(e.id, reviewer, comment, now)).history[i]
        == e.(status := Approved, reviewer := named, reviewedAt := Some(now), comment := comment)
      && Step(cfg, s, Reject(e.id, reviewer, comment, now)).history[i]
        == e.(status := Rejected, reviewer := named, reviewedAt := Some(now), comment := comment)
  {
    hide Run, LegalRun, Inv, Waits, Step;
    PendingIff(cfg, ops, Run(cfg, ops).history[i].id);
    DecisionOnPending(cfg, Run(cfg, ops), i, now, reviewer, comment);
  }

  lemma DecisionOnPending(cfg: Config, s: State, i: nat, now: int, reviewer: string, comment: string)
    requires i < |s.history| && s.history[i].id in s.pending
    ensures var e, named := s.history[i], if reviewer != "" then reviewer else cfg.defaultReviewer;
      && |Step(cfg, s, Approve(e.id, reviewer, comment, now)).history| == |s.history|
      && |Step(cfg, s, Reject(e.id, reviewer, comment, now)).history| == |s.history|
      && Step(cfg, s, Approve(e.id, reviewer, comment, now)).history[i]
        == e.(status := Approved, reviewer := named, reviewedAt := Some(now), comment := comment)
      && Step(cfg, s, Reject(e.id, reviewer, comment, now)).history[i]
        == e.(status := Rejected, reviewer := named, reviewedAt := Some(now), comment := comment)
  {
    hide Without;
  }

  /** The approve call behind an approved request of a required kind named its reviewer, or nobody. */
  lemma RequiredKindsNameTheirReviewer(cfg: Config, ops: seq<Op>, i: nat) returns (k: nat)
    requires LegalRun(cfg, ops) && i < |Run(cfg, ops).history|
    requires Run(cfg, ops).history[i].status == Approved && Run(cfg, ops).history[i].kind in cfg.required
    ensures k < |ops| && ops[k].Approve?
    ensures var e := Run(cfg, ops).history[i];
      && ops[k].id == e.id && e.comment == ops[k].comment && e.reviewedAt == Some(ops[k].now)
      && e.reviewer == (if ops[k].reviewer != "" then ops[k].reviewer else cfg.defaultReviewer)
  {
    RequiredKindsNeedAHuman(cfg, ops, i);
    k :| 0 <= k < |ops| && ApprovedBy(cfg, ops[k], Run(cfg, ops).history[i]);
  }

  /** The session view keeps the order of the history. */
  lemma {:induction false} SessionViewKeepsOrder(history: seq<Entry>, session: string) returns (at: seq<nat>)
    ensures |at| == |OfSession(history, session)|
    ensures forall i :: 0 <= i < |at| ==> at[i] < |history| && OfSession(history, session)[i] == history[at[i]]
    ensures forall i, j :: 0 <= i < j < |at| ==> at[i] < at[j]
    ensures forall k :: 0 <= k < |history| && history[k].session == session ==> k in at
  {
    at := [];
    if history != [] {
      var n := |history| - 1;
      at := SessionViewKeepsOrder(history[..n], session);
      if history[n].session == session {
        at := at + [n];
      }
    }
  }
}
