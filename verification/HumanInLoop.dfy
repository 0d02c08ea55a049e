/** The manager itself: mutable request objects shared by a pending dict and a history list. */
module HumanInLoop {
  import opened Common
  import opened Numbers
  import opened Approvals

  datatype RequestError = ScoreNotComparable

  class ApprovalRequest {
    const id: string
    const session: string
    const agent: string
    const action: string
    const kind: Kind
    const createdAt: int
    const expires: Expiry
    var status: Status
    var reviewer: string
    var reviewedAt: Option<int>
    var comment: string

    constructor (id: string, session: string, agent: string, action: string, kind: Kind, now: int)
      ensures View() == Entry(id, session, agent, action, kind, Pending, now, At(now + LIFETIME), "", None, "")
    {
      this.id, this.session, this.agent, this.action, this.kind := id, session, agent, action, kind;
      createdAt, expires := now, At(now + LIFETIME);
      status, reviewer, reviewedAt, comment := Pending, "", None, "";
    }

    function View(): Entry
      reads this
    {
      Entry(id, session, agent, action, kind, status, createdAt, expires, reviewer, reviewedAt, comment)
    }

    method Approve(who: string, text: string, now: int)
      modifies this
      ensures View() == Reviewed(old(View()), Approved, who, text, now)
    {
      status, reviewer, reviewedAt, comment := Approved, who, Some(now), text;
    }

    method Reject(who: string, text: string, now: int)
      modifies this
      ensures View() == Reviewed(old(View()), Rejected, who, text, now)
    {
      status, reviewer, reviewedAt, comment := Rejected, who, Some(now), text;
    }
  }

  class HumanInLoopManager {
    const config: Config
    var pending: map<string, ApprovalRequest>
    var order: seq<string>  // the dict's iteration order
    var history: seq<ApprovalRequest>

    ghost function View(): State
      reads this, history
    {
      State(Views(history), order)
    }

    ghost predicate Valid()
      reads this, history
    {
      Inv(View()) && Linked()
    }

    /** The dict has the keys it iterates, each leading to a request of that id in the history. */
    ghost predicate Linked()
      reads this
    {
      && (forall id :: id in pending <==> id in order)
      && (forall id :: id in pending ==> pending[id] in history && pending[id].id == id)
    }

    constructor (config: Config)
      ensures Valid() && View() == INITIAL && this.config == config
    {
      this.config := config;
      pending, order, history := map[], [], [];
      new;
      assert View() == INITIAL;
    }

    /** `id` is the generated request id. */
    method RequestApproval(id: string, session: string, agent: string, action: string,
        kind: Kind, score: Score, now: int)
      returns (r: Result<ApprovalRequest, RequestError>)
      requires Valid() && Legal(View(), Request(id, session, agent, action, kind, score, now))
      modifies this
      ensures Valid()
      ensures View() == Step(config, old(View()), Request(id, session, agent, action, kind, score, now))
      ensures r.Failure? <==> RulingOf(config, kind, score) == Raise
      ensures r.Failure? ==> history == old(history)
      ensures r.Success? ==> fresh(r.value) && history == old(history) + [r.value]
    {
      ghost var op, before := Request(id, session, agent, action, kind, score, now), View();
      StepKeepsInv(config, before, op);
      if score.NotANumber? && (kind !in config.required || kind == RiskThreshold) {
        return Failure(ScoreNotComparable);
      }
      var request := new ApprovalRequest(id, session, agent, action, kind, now);
      ApplyRules(request, score, now);
      assert request.View() == NewEntry(op, RulingOf(config, kind, score));
      Record(request, Step(config, before, op));
      r := Success(request);
    }

    /** Decides the request on the spot when a rule says so. */
    method ApplyRules(request: ApprovalRequest, score: Score, now: int)
      requires RulingOf(config, request.kind, score) != Raise
      requires request.status == Pending
      modifies request
      ensures request.View() == match RulingOf(config, request.kind, score)
        case AutoApprove => Reviewed(old(request.View()), Approved, AUTO_REVIEWER, AutoComment(AutoApprove), now)
        case AutoReject => Reviewed(old(request.View()), Rejected, AUTO_REVIEWER, AutoComment(AutoReject), now)
        case _ => old(request.View())
    {
      var value := if score.Given? then score.value else 0.0;
      if request.kind !in config.required && value >= config.threshold {
        request.Approve(AUTO_REVIEWER, AutoComment(AutoApprove), now);
      } else if request.kind == RiskThreshold && value < REJECT_BELOW {
        request.Reject(AUTO_REVIEWER, AutoComment(AutoReject), now);
      }
    }

    /** Queues an undecided request and appends it to the history in either case. */
    method Record(request: ApprovalRequest, ghost after: State)
      requires Valid()
      requires Inv(after) && after.history == View().history + [request.View()]
      requires after.pending == if request.status == Pending then order + [request.id] else order
      modifies this
      ensures Valid() && View() == after
      ensures history == old(history) + [request]
    {
      hide Inv;
      if request.status == Pending {
        pending := pending[request.id := request];
        order := order + [request.id];
      }
      history := history + [request];
      assert Views(history) == after.history;
    }

    method ApproveRequest(id: string, reviewer: string, comment: string, now: int) returns (ok: bool)
      requires Valid()
      modifies this, history
      ensures Valid() && history == old(history)
      ensures View() == Step(config, old(View()), Op.Approve(id, reviewer, comment, now))
      ensures ok <==> id in old(View()).pending
    {
      ghost var before := View();
      ghost var mark := MarkAs(Approved, ReviewerOr(reviewer, config), comment, now);
      FindPending(id);
      MarkAsDecides(Approved, ReviewerOr(reviewer, config), comment, now);
      hide Inv, Decides, MarkAs, Settle, Reviewed;
      SettleOther(before, id, mark);
      if id !in pending || pending[id].status != Pending {
        return false;
      }
      var request := pending[id];
      request.Approve(ReviewerOr(reviewer, config), comment, now);
      Close(id, request, before, mark);
      ok := true;
    }

    method RejectRequest(id: string, reviewer: string, comment: string, now: int) returns (ok: bool)
      requires Valid()
      modifies this, history
      ensures Valid() && history == old(history)
      ensures View() == Step(config, old(View()), Op.Reject(id, reviewer, comment, now))
      ensures ok <==> id in old(View()).pending
    {
      ghost var before := View();
      ghost var mark := MarkAs(Rejected, ReviewerOr(reviewer, config), comment, now);
      FindPending(id);
      MarkAsDecides(Rejected, ReviewerOr(reviewer, config), comment, now);
      hide Inv, Decides, MarkAs, Settle, Reviewed;
      SettleOther(before, id, mark);
      if id !in pending || pending[id].status != Pending {
        return false;
      }
      var request := pending[id];
      request.Reject(ReviewerOr(reviewer, config), comment, now);
      Close(id, request, before, mark);
      ok := true;
    }

    lemma OneMarked(id: string, request: ApprovalRequest, base: seq<Entry>, mark: Entry -> Entry)
      requires |base| == |history|
      requires forall i :: 0 <= i < |history| ==> (base[i].id == id <==> history[i] == request)
      requires forall i :: 0 <= i < |history| ==>
        history[i].View() == if history[i] == request then mark(base[i]) else base[i]
      ensures Views(history) == Marked(base, {id}, mark)
    {
    }

    /** `del pending[id]`, after the request itself has been decided. */
    method Close(id: string, request: ApprovalRequest, ghost before: State, ghost mark: Entry -> Entry)
      requires Inv(before) && Decides(mark) && order == before.pending
      requires id in pending && Linked()
      requires |before.history| == |history|
      requires forall i :: 0 <= i < |history| ==> (before.history[i].id == id <==> history[i] == request)
      requires forall i :: 0 <= i < |history| ==>
        history[i].View() == if history[i] == request then mark(before.history[i]) else before.history[i]
      modifies this`pending, this`order
      ensures Valid() && View() == Settle(before, id, mark)
    {
      RemoveKeepsInv(before, {id}, mark);
      OneMarked(id, request, before.history, mark);
      hide Inv, Without, Marked, Decides;
      ghost var keys, items := order, pending;
      pending := pending - {id};
      order := Without(order, {id});
      FinishLinks(keys, items, {id});
    }

    lemma SettleOther(s: State, id: string, mark: Entry -> Entry)
      ensures id !in s.pending ==> Settle(s, id, mark) == s
    {
    }

    /** Iterates a snapshot of the dict's items and deletes the expired ones from the dict itself. */
    method CheckExpired(now: int) returns (expired: seq<ApprovalRequest>)
      requires Valid()
      modifies this, history
      ensures Valid() && history == old(history)
      ensures View() == Step(config, old(View()), Sweep(now))
      ensures Fetched(expired, Only(old(order), ExpiredIds(old(View()), now)), old(pending))
    {
      ghost var before := View();
      ghost var all := ExpiredIds(before, now);
      IndexPending(now);
      expired := SweepItems(order, pending, now, before.history, all);
      FinishSweep(before, old(pending), all, now);
    }

    /** The first k items have been swept. */
    ghost predicate SweptTo(base: seq<Entry>, keys: seq<string>, items: map<string, ApprovalRequest>,
        all: set<string>, k: nat)
      requires k <= |keys|
      reads this, history
    {
      && Views(history) == Marked(base, Among(keys[..k], all), MarkExpired())
      && order == Without(keys, Among(keys[..k], all))
      && pending == items - Among(keys[..k], all)
    }

    lemma FinishSweep(before: State, items: map<string, ApprovalRequest>, all: set<string>, now: int)
      requires Inv(before) && all == ExpiredIds(before, now)
      requires forall id :: id in all ==> id in items
      requires forall id :: id in items <==> id in before.pending
      requires forall id :: id in items ==> items[id] in history && items[id].id == id
      requires SweptTo(before.history, before.pending, items, all, |before.pending|)
      ensures Valid() && View() == Step(config, before, Sweep(now))
    {
      StepKeepsInv(config, before, Sweep(now));
      AmongAll(before.pending, all);
      hide Inv, ExpiredIds, Among, Without, Marked;
      assert before.pending[..|before.pending|] == before.pending;
      FinishLinks(before.pending, items, all);
    }

    lemma FinishLinks(keys: seq<string>, items: map<string, ApprovalRequest>, gone: set<string>)
      requires pending == items - gone && order == Without(keys, gone)
      requires forall id :: id in items <==> id in keys
      requires forall id :: id in items ==> items[id] in history && items[id].id == id
      ensures Linked()
    {
      KeysMatch(keys, items, gone, pending, order);
      hide Without;
    }

    lemma KeysMatch(keys: seq<string>, items: map<string, ApprovalRequest>, gone: set<string>,
        left: map<string, ApprovalRequest>, leftKeys: seq<string>)
      requires forall id :: id in items <==> id in keys
      requires left == items - gone && leftKeys == Without(keys, gone)
      ensures forall id :: id in left <==> id in leftKeys
      ensures forall id :: id in left ==> id in items && left[id] == items[id]
    {
      WithoutMembers(keys, gone);
    }

    method SweepItems(keys: seq<string>, items: map<string, ApprovalRequest>, now: int,
        ghost base: seq<Entry>, ghost all: set<string>)
      returns (expired: seq<ApprovalRequest>)
      requires Views(history) == base && keys == order && items == pending
      requires forall id :: id in keys ==> id in items && items[id] in history && items[id].id == id
      requires forall id :: id in keys ==> (id in all <==> items[id].expires.At? && now > items[id].expires.time)
      requires forall id, i :: id in keys && 0 <= i < |history| ==> (base[i].id == id <==> history[i] == items[id])
      modifies this`pending, this`order, history
      ensures history == old(history) && SweptTo(base, keys, items, all, |keys|)
      ensures Fetched(expired, Only(keys, all), items)
    {
      expired := [];
      StartSweep(keys, items, base, all);
      hide SweptTo, Only, Among, Fetched;
      for k := 0 to |keys|
        invariant history == old(history) && SweptTo(base, keys, items, all, k)
        invariant Fetched(expired, Only(keys[..k], all), items)
      {
        var id := keys[k];
        assert id in keys;
        AmongSnoc(keys, k, all);
        var request := items[id];
        FetchedSnoc(expired, Only(keys[..k], all), items, id);
        SweepItem(id, request, now, base, keys, items, all, k);
        if request.expires.At? && now > request.expires.time {
          expired := expired + [request];
        }
      }
      assert keys[..|keys|] == keys;
    }

    lemma FetchedSnoc(requests: seq<ApprovalRequest>, keys: seq<string>, items: map<string, ApprovalRequest>,
        key: string)
      requires Fetched(requests, keys, items) && key in items
      ensures Fetched(requests + [items[key]], keys + [key], items)
    {
    }

    lemma StartSweep(keys: seq<string>, items: map<string, ApprovalRequest>, base: seq<Entry>, all: set<string>)
      requires Views(history) == base && keys == order && items == pending
      ensures SweptTo(base, keys, items, all, 0)
      ensures Only(keys[..0], all) == [] && Fetched([], [], items)
    {
      WithoutMembers(keys, {});
      assert Marked(base, {}, MarkExpired()) == base;
    }

    method SweepItem(id: string, request: ApprovalRequest, now: int, ghost base: seq<Entry>,
        ghost keys: seq<string>, ghost items: map<string, ApprovalRequest>, ghost all: set<string>, ghost k: nat)
      requires k < |keys| && SweptTo(base, keys, items, all, k) && keys[k] == id
      requires id in all <==> request.expires.At? && now > request.expires.time
      requires |base| == |history|
      requires forall i :: 0 <= i < |history| ==> (base[i].id == id <==> history[i] == request)
      modifies this`pending, this`order, request`status
      ensures SweptTo(base, keys, items, all, k + 1)
    {
      ghost var gone := Among(keys[..k], all);
      AmongSnoc(keys, k, all);
      hide Among, Without, Marked;
      if request.expires.At? && now > request.expires.time {
        WithoutTwice(keys, gone, {id});
        ExpireOne(id, request, base, gone);
        assert pending == items - (gone + {id});
      }
    }

    method ExpireOne(id: string, request: ApprovalRequest, ghost base: seq<Entry>, ghost gone: set<string>)
      requires |base| == |history| && Views(history) == Marked(base, gone, MarkExpired())
      requires forall i :: 0 <= i < |base| ==> (base[i].id == id <==> history[i] == request)
      modifies this`pending, this`order, request`status
      ensures Views(history) == Marked(base, gone + {id}, MarkExpired())
      ensures request.status == Expired
      ensures pending == old(pending) - {id} && order == Without(old(order), {id})
    {
      request.status := Expired;
      pending := pending - {id};
      order := Without(order, {id});
    }

    /** What the sweep relies on about the dict it iterates. */
    lemma IndexPending(now: int)
      requires Valid()
      ensures forall id :: id in ExpiredIds(View(), now) ==> id in pending
      ensures forall id :: id in pending ==>
        (id in ExpiredIds(View(), now) <==> pending[id].expires.At? && now > pending[id].expires.time)
      ensures forall id, i :: id in pending && 0 <= i < |history| ==>
        (history[i].id == id <==> history[i] == pending[id])
    {
      forall id | id in pending
        ensures id in ExpiredIds(View(), now) <==> pending[id].expires.At? && now > pending[id].expires.time
        ensures forall i :: 0 <= i < |history| ==> (history[i].id == id <==> history[i] == pending[id])
      {
        FindPending(id);
        var i :| 0 <= i < |history| && history[i] == pending[id];
        SweepIsExact(config, View(), now, i);
        assert View().history[i] == pending[id].View();
      }
    }

    /** Totals over the whole history, next to the size of the pending dict. */
    method Stats()
      returns (total: nat, approved: nat, rejected: nat, waiting: nat, rate: Option<real>)
      requires Valid()
      ensures total == |View().history| && waiting == |View().pending|
      ensures approved == Count(View().history, Approved) && rejected == Count(View().history, Rejected)
      ensures total == approved + rejected + waiting + Count(View().history, Expired)
      ensures rate.Some? <==> View().history != []
      ensures rate.Some? ==>
        0.0 <= rate.value <= 100.0 && rate.value == Round1(approved as real / total as real * 100.0)
    {
      ghost var views := Views(history);
      CountsOfView();
      hide Valid, Inv, Linked, Count, ApprovalRate, Round1, PendingIds;
      total, approved, rejected := |history|, 0, 0;
      CountNone(views);
      for i := 0 to |history|
        invariant approved == Count(views[..i], Approved) && rejected == Count(views[..i], Rejected)
      {
        CountNext(views, i);
        assert views[i].status == history[i].status;
        if history[i].status == Approved {
          approved := approved + 1;
        }
        if history[i].status == Rejected {
          rejected := rejected + 1;
        }
      }
      assert views[..|history|] == views;
      waiting := |order|;
      rate := ApprovalRate(approved, total);
    }

    lemma CountsOfView()
      requires Valid()
      ensures var h := Views(history);
        |h| == Count(h, Approved) + Count(h, Rejected) + |order| + Count(h, Expired)
      ensures View().history == Views(history) && View().pending == order
    {
      CountsAddUp(Views(history));
    }

    /** The values of the pending dict: the pending history entries, in history order. */
    method GetPendingRequests() returns (requests: seq<ApprovalRequest>)
      requires Valid()
      ensures KeysOf(requests) == PendingIds(View().history)
      ensures forall r :: r in requests ==> r in history && r.status == Pending
    {
      requests := [];
      for k := 0 to |order|
        invariant KeysOf(requests) == order[..k]
        invariant forall r :: r in requests ==> r in history && r.status == Pending
      {
        FindPending(order[k]);
        requests := requests + [pending[order[k]]];
      }
    }

    /** No session, or an empty one, means the whole history. */
    method GetRequestHistory(session: Option<string>) returns (records: seq<Entry>)
      requires Valid()
      ensures records == if session.Some? && session.value != "" then OfSession(View().history, session.value)
        else View().history
    {
      records := [];
      for i := 0 to |history|
        invariant session.Some? && session.value != "" ==> records == OfSession(Views(history)[..i], session.value)
        invariant !(session.Some? && session.value != "") ==> records == Views(history)[..i]
      {
        assert Views(history)[..i + 1][..i] == Views(history)[..i];
        if session.None? || session.value == "" || history[i].session == session.value {
          records := records + [history[i].View()];
        }
      }
      assert Views(history)[..|history|] == Views(history);
    }

    /** A key of the dict leads to the one history entry with that id, and that entry is pending. */
    lemma FindPending(id: string)
      requires Valid()
      ensures id in pending <==> id in View().pending
      ensures id in pending ==> pending[id].status == Pending && pending[id] in history
      ensures forall i :: 0 <= i < |history| && id in pending ==> (history[i].id == id <==> history[i] == pending[id])
    {
      if id in pending {
        PendingIdsAre(Views(history));
        var i :| 0 <= i < |history| && history[i] == pending[id];
        PendingIsStatus(View(), i);
        assert View().history[i].id == id;
        forall j | 0 <= j < |history| && history[j].id == id
          ensures j == i
        {
          assert View().history[j].id == id;
        }
      }
    }
  }

  /** A percentage to one decimal; there is none of nothing. */
  function ApprovalRate(approved: nat, total: nat): (rate: Option<real>)
    requires approved <= total
    ensures rate.Some? <==> total > 0
    ensures rate.Some? ==> 0.0 <= rate.value <= 100.0 && rate.value == Round1(approved as real / total as real * 100.0)
  {
    if total > 0 then
      var part := approved as real / total as real;
      RatioRange(approved as real, total as real, part);
      PercentRounds(part * 100.0);
      Some(Round1(part * 100.0))
    else None
  }

  lemma PercentRounds(x: real)
    requires 0.0 <= x <= 100.0
    ensures 0.0 <= Round1(x) <= 100.0
  {
    RoundToInteger(0.0, 0);
    RoundToInteger(1000.0, 1000);
    RoundMonotone(0.0, x * 10.0);
    RoundMonotone(x * 10.0, 1000.0);
  }

  /** The requests are the dict's values for these keys, in this order. */
  ghost predicate Fetched(requests: seq<ApprovalRequest>, keys: seq<string>, items: map<string, ApprovalRequest>) {
    |requests| == |keys| && forall j :: 0 <= j < |keys| ==> keys[j] in items && requests[j] == items[keys[j]]
  }

  function KeysOf(requests: seq<ApprovalRequest>): seq<string> {
    seq(|requests|, i requires 0 <= i < |requests| => requests[i].id)
  }

  ghost function Views(history: seq<ApprovalRequest>): (vs: seq<Entry>)
    reads history
    ensures |vs| == |history|
    ensures forall i :: 0 <= i < |history| ==> vs[i] == history[i].View()
  {
    seq(|history|, i requires 0 <= i < |history| reads history => history[i].View())
  }
}
