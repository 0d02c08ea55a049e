/**
 * Whole runs of the task repository: every task is its creation followed by the updates made to it. Created ids are
 * freshly generated, which the repository asks of its callers and these results do not need.
 */
module TaskRuns {
  import opened Common
  import opened TaskViews

  datatype Op =
    | Create(id: int, details: Details, config: Config, tenant: Option<string>, now: int)
    | Change(id: int, update: Update)

  function Created(op: Op): TaskView
    requires op.Create?
  {
    TaskView(op.id, op.details, op.now, op.now, Pending, None, "created",
      if op.tenant.Some? then op.config.(tenant := op.tenant) else op.config)
  }

  /** Exactly the task with that id changes. */
  function UpdatedIn(tasks: seq<TaskView>, id: int, u: Update): (r: seq<TaskView>)
    ensures |r| == |tasks|
  {
    seq(|tasks|, i requires 0 <= i < |tasks| => if tasks[i].id == id then Updated(tasks[i], u) else tasks[i])
  }

  function Step(tasks: seq<TaskView>, op: Op): seq<TaskView> {
    if op.Create? then tasks + [Created(op)] else UpdatedIn(tasks, op.id, op.update)
  }

  function Run(ops: seq<Op>): seq<TaskView> {
    if ops == [] then [] else Step(Run(ops[..|ops| - 1]), ops[|ops| - 1])
  }

  /** The calls that created a task, in order. */
  function Creations(ops: seq<Op>): (ks: seq<nat>)
    ensures forall i :: 0 <= i < |ks| ==> ks[i] < |ops| && ops[ks[i]].Create?
    ensures forall i, j :: 0 <= i < j < |ks| ==> ks[i] < ks[j]
    ensures forall k :: 0 <= k < |ops| && ops[k].Create? ==> k in ks
  {
    if ops == [] then []
    else
      var n := |ops| - 1;
      assert forall k :: 0 <= k < n ==> ops[..n][k] == ops[k];
      Creations(ops[..n]) + (if ops[n].Create? then [n] else [])
  }

  /** The updates of one id among the calls. */
  function UpdatesOf(ops: seq<Op>, id: int): seq<Update> {
    if ops == [] then []
    else
      var last := ops[|ops| - 1];
      UpdatesOf(ops[..|ops| - 1], id) + (if last.Change? && last.id == id then [last.update] else [])
  }

  /** The view of the task that call k created, after all calls. */
  function Told(ops: seq<Op>, k: nat): TaskView
    requires k < |ops| && ops[k].Create?
  {
    Applied(Created(ops[k]), UpdatesOf(ops[k + 1..], ops[k].id))
  }

  lemma ToldNext(ops: seq<Op>, k: nat)
    requires k < |ops| - 1 && ops[k].Create?
    ensures var n := |ops| - 1;
      Told(ops, k) == if ops[n].Change? && ops[n].id == ops[k].id then Updated(Told(ops[..n], k), ops[n].update)
        else Told(ops[..n], k)
  {
    var n, id := |ops| - 1, ops[k].id;
    var rest := ops[k + 1..];
    assert rest[..|rest| - 1] == ops[..n][k + 1..] && rest[|rest| - 1] == ops[n];
    var us := UpdatesOf(ops[..n][k + 1..], id);
    hide Updated, Created;
    AppliedSnoc(Created(ops[k]), us, ops[n]);
  }

  lemma AppliedSnoc(t: TaskView, us: seq<Update>, op: Op)
    ensures op.Change? ==> Applied(t, us + [op.update]) == Updated(Applied(t, us), op.update)
    ensures us + [] == us
  {
    if op.Change? {
      assert (us + [op.update])[..|us|] == us;
    }
  }

  lemma ToldAtOnce(ops: seq<Op>)
    requires ops != [] && ops[|ops| - 1].Create?
    ensures Told(ops, |ops| - 1) == Created(ops[|ops| - 1])
  {
    assert ops[|ops|..] == [];
  }

  lemma ToldKeepsId(ops: seq<Op>, k: nat)
    requires k < |ops| && ops[k].Create?
    ensures Told(ops, k).id == ops[k].id
  {
    IdentityIsKept(Created(ops[k]), UpdatesOf(ops[k + 1..], ops[k].id));
  }

  /**
   * After any run of creates and updates, the tasks are those created, in that order, and each is its creation with
   * exactly the later updates of its id applied, in order.
   */
  lemma {:induction false} TasksTellTheirUpdates(ops: seq<Op>)
    ensures |Run(ops)| == |Creations(ops)|
    ensures forall i :: 0 <= i < |Creations(ops)| ==> Run(ops)[i] == Told(ops, Creations(ops)[i])
  {
    if ops != [] {
      var n := |ops| - 1;
      var before, op := ops[..n], ops[n];
      TasksTellTheirUpdates(before);
      hide Told, Updated, Created, Applied;
      forall i | 0 <= i < |Creations(before)|
        ensures Run(ops)[i] == Told(ops, Creations(ops)[i])
      {
        var k := Creations(before)[i];
        assert Creations(ops)[i] == k && before[k] == ops[k];
        ToldNext(ops, k);
        ToldKeepsId(before, k);
      }
      if op.Create? {
        ToldAtOnce(ops);
      }
    }
  }

  /** So in every run the task's history, completion and status are those of its own later updates, and of no others. */
  lemma EveryTaskHasItsHistory(ops: seq<Op>, i: nat)
    requires i < |Creations(ops)|
    ensures |Run(ops)| == |Creations(ops)|
    ensures var k := Creations(ops)[i];
      var us := UpdatesOf(ops[k + 1..], ops[k].id);
      && Run(ops)[i].config.history == (
        if PhasedEntries(us) == [] then ops[k].config.history
        else Some(LastEntries(HistoryOr(ops[k].config) + PhasedEntries(us))))
      && (Run(ops)[i].completedAt.Some? <==> exists j :: 0 <= j < |us| && us[j].status == Completed)
      && Run(ops)[i].status == if us == [] then Pending else us[|us| - 1].status
  {
    hide *;
    TasksTellTheirUpdates(ops);
    var k := Creations(ops)[i];
    ToldIs(ops, k);
    CreatedIs(ops[k]);
    FreshTask(Created(ops[k]), UpdatesOf(ops[k + 1..], ops[k].id), ops[k].config);
  }

  /** In every run the task's history is the end of all entries it was given, of length 20 once there are so many. */
  lemma EveryTaskKeepsItsLastEntries(ops: seq<Op>, i: nat, us: seq<Update>)
    requires i < |Creations(ops)|
    requires us == UpdatesOf(ops[Creations(ops)[i] + 1..], ops[Creations(ops)[i]].id)
    requires exists k :: 0 <= k < |us| && us[k].phase.Some?
    ensures |Run(ops)| == |Creations(ops)|
    ensures var initial, history := ops[Creations(ops)[i]].config.history, Run(ops)[i].config.history;
      var whole := (if initial.Some? then initial.value else []) + PhasedEntries(us);
      && history.Some? && |history.value| == (if |whole| <= 20 then |whole| else 20)
      && history.value == whole[|whole| - |history.value|..]
    ensures us[|us| - 1].phase.Some? ==> (
      var u, history := us[|us| - 1], Run(ops)[i].config.history;
      && history.Some? && history.value != []
      && history.value[|history.value| - 1] == HistoryEntry(u.status, u.phase.value, u.reason, u.now))
  {
    hide *;
    TasksTellTheirUpdates(ops);
    var k := Creations(ops)[i];
    ToldIs(ops, k);
    CreatedIs(ops[k]);
    WindowFromTheEnd(Created(ops[k]), us);
    if us[|us| - 1].phase.Some? {
      LastEntryIsTheUpdate(Created(ops[k]), us);
    }
  }

  lemma ToldIs(ops: seq<Op>, k: nat)
    requires k < |ops| && ops[k].Create?
    ensures Told(ops, k) == Applied(Created(ops[k]), UpdatesOf(ops[k + 1..], ops[k].id))
  {
  }

  /** What updates make of a task that was just created. */
  lemma FreshTask(t: TaskView, us: seq<Update>, config: Config)
    requires t.status == Pending && t.completedAt == None && t.config.history == config.history
    ensures Applied(t, us).config.history ==
      if PhasedEntries(us) == [] then config.history
      else Some(LastEntries(HistoryOr(config) + PhasedEntries(us)))
    ensures Applied(t, us).completedAt.Some? <==> exists j :: 0 <= j < |us| && us[j].status == Completed
    ensures Applied(t, us).status == if us == [] then Pending else us[|us| - 1].status
  {
    hide *;
    HistoryIsAWindow(t, us);
    SameHistory(t.config, config);
    CompletedAtRemembers(t, us);
    LastGivenTextWins(t, us);
    if us == [] {
      NoUpdates(t, us);
    }
  }

  lemma CreatedIs(op: Op)
    requires op.Create?
    ensures Created(op).status == Pending && Created(op).completedAt == None
    ensures Created(op).config.history == op.config.history
  {
  }

  lemma NoUpdates(t: TaskView, us: seq<Update>)
    requires us == []
    ensures Applied(t, us) == t
  {
  }

  lemma SameHistory(a: Config, b: Config)
    requires a.history == b.history
    ensures HistoryOr(a) == HistoryOr(b)
  {
  }
}
