/** The in-memory task repository: a dict of mutable task objects, updated in place. */
module TaskRepository {
  import opened Common
  import opened Sorting
  import opened TaskRuns
  import opened TaskViews

  class Task {
    const id: int
    const details: Details
    const createdAt: int
    var updatedAt: int
    var status: Status
    var completedAt: Option<int>
    var summary: string
    var config: Config

    constructor (id: int, details: Details, config: Config, now: int)
      ensures View() == TaskView(id, details, now, now, Pending, None, "created", config)
    {
      this.id, this.details, createdAt, updatedAt := id, details, now, now;
      status, completedAt, summary, this.config := Pending, None, "created", config;
    }

    method Apply(u: Update)
      modifies this
      ensures View() == Updated(old(View()), u)
    {
      status := u.status;
      updatedAt := u.now;
      if u.summary.Some? {
        summary := u.summary.value;
      }
      var changed := config;
      if u.reason.Some? {
        changed := changed.(reason := u.reason);
      }
      if u.phase.Some? {
        var history := HistoryOr(changed) + [HistoryEntry(u.status, u.phase.value, u.reason, u.now)];
        changed := changed.(history := Some(LastEntries(history)));
      }
      config := changed;
      if u.status == Completed {
        completedAt := Some(updatedAt);
      }
    }

    function View(): TaskView
      reads this
    {
      TaskView(id, details, createdAt, updatedAt, status, completedAt, summary, config)
    }
  }

  ghost function Views(tasks: seq<Task>): (vs: seq<TaskView>)
    reads tasks
    ensures |vs| == |tasks| && forall i :: 0 <= i < |tasks| ==> vs[i] == tasks[i].View()
  {
    seq(|tasks|, i requires 0 <= i < |tasks| reads tasks => tasks[i].View())
  }

  function NewerTask(): (Task, Task) -> bool {
    (a: Task, b: Task) => a.createdAt >= b.createdAt
  }

  class InMemorySelectionRepo {
    var tasks: map<int, Task>
    var order: seq<Task>  // the dict's values, in insertion order

    ghost predicate Valid()
      reads this
    {
      && (forall id :: id in tasks ==> tasks[id] in order && tasks[id].id == id)
      && (forall t :: t in order ==> t.id in tasks && tasks[t.id] == t)
      && (forall i, j :: 0 <= i < j < |order| ==> order[i] != order[j])
    }

    constructor ()
      ensures Valid() && order == []
    {
      tasks, order := map[], [];
    }

    /** `id` is the freshly generated identifier; the config dict is copied before the tenant is set. */
    method CreateTask(id: int, details: Details, config: Config, tenant: Option<string>, now: int)
      returns (task: Task)
      requires Valid() && id !in tasks
      modifies this
      ensures Valid() && fresh(task) && order == old(order) + [task] && tasks == old(tasks)[id := task]
      ensures task.View() == TaskView(id, details, now, now, Pending, None, "created",
        if tenant.Some? then config.(tenant := tenant) else config)
      ensures Views(order) == Step(old(Views(order)), Create(id, details, config, tenant, now))
    {
      task := new Task(id, details, config, now);
      if tenant.Some? {
        task.config := task.config.(tenant := tenant);
      }
      tasks := tasks[id := task];
      order := order + [task];
      assert Views(order) == old(Views(order)) + [task.View()];
    }

    /** Sorted first, filtered second, sliced last; the tenant is not consulted. */
    method ListTasks(status: Option<Status>, limit: int, offset: int) returns (page: seq<Task>, total: nat)
      requires Valid()
      ensures (Views(page), total) == Page(Views(order), status, limit, offset)
      ensures forall i :: 0 <= i < |page| ==> page[i] in order
    {
      hide Valid, Sort, Filter, Slice, NewerTask, NewerFirst, HasStatus;
      var sorted := Sort(order, NewerTask());
      SortViews(order);
      SameMembers(sorted, order);
      assert Views(sorted) == Sort(Views(order), NewerFirst());
      var found := Select(sorted, status);
      total := |found|;
      page := Slice(found, offset, offset + limit);
      SliceViews(found, offset, offset + limit);
      assert Views(sorted) == Sort(Views(order), NewerFirst());
    }

    method Select(sorted: seq<Task>, status: Option<Status>) returns (found: seq<Task>)
      ensures Views(found) == Filter(Views(sorted), HasStatus(status))
      ensures forall i :: 0 <= i < |found| ==> found[i] in sorted
    {
      found := [];
      hide Filter;
      FilterNone(HasStatus(status));
      for i := 0 to |sorted|
        invariant Views(found) == Filter(Views(sorted)[..i], HasStatus(status))
        invariant forall i :: 0 <= i < |found| ==> found[i] in sorted
      {
        FilterSnoc(Views(sorted)[..i], Views(sorted)[i], HasStatus(status));
        assert Views(sorted)[..i + 1] == Views(sorted)[..i] + [Views(sorted)[i]];
        if status.None? || sorted[i].status == status.value {
          found := found + [sorted[i]];
        }
      }
      assert Views(sorted)[..|sorted|] == Views(sorted);
    }

    lemma SameMembers(sorted: seq<Task>, tasks: seq<Task>)
      requires sorted == Sort(tasks, NewerTask())
      ensures forall i :: 0 <= i < |sorted| ==> sorted[i] in tasks
    {
      SortPermutes(tasks, NewerTask());
      forall i | 0 <= i < |sorted|
        ensures sorted[i] in tasks
      {
        assert sorted[i] in multiset(tasks);
      }
    }

    lemma FilterNone(p: TaskView -> bool)
      ensures Filter([], p) == []
    {
    }

    lemma SliceViews(found: seq<Task>, from: int, to: int)
      ensures Views(Slice(found, from, to)) == Slice(Views(found), from, to)
      ensures forall i :: 0 <= i < |Slice(found, from, to)| ==> Slice(found, from, to)[i] in found
    {
      var page, views := Slice(found, from, to), Slice(Views(found), from, to);
      var a := ClampIndex(from, |found|);
      SliceAt(found, from, to);
      SliceAt(Views(found), from, to);
      hide Slice, ClampIndex;
      assert |page| == |views| && forall i :: 0 <= i < |page| ==> page[i] == found[a + i];
      assert forall i :: 0 <= i < |page| ==> Views(page)[i] == views[i];
    }

    /** An absent or empty tenant on either side lets the task through. */
    method GetTask(id: int, tenant: Option<string>) returns (task: Option<Task>)
      requires Valid()
      ensures task.Some? <==> id in tasks && SameTenant(tasks[id].config.tenant, tenant)
      ensures task.None? <==> (id !in tasks || (
        var own := tasks[id].config.tenant;
        own.Some? && tenant.Some? && own.value != "" && tenant.value != "" && own.value != tenant.value))
      ensures task.Some? ==> task.value == tasks[id]
    {
      if id !in tasks {
        return None;
      }
      var own := tasks[id].config.tenant;
      if tenant.Some? && tenant.value != "" && own.Some? && own.value != "" && own.value != tenant.value {
        return None;
      }
      task := Some(tasks[id]);
    }

    method UpdateTaskStatus(id: int, u: Update) returns (ok: bool)
      requires Valid()
      modifies if id in tasks then {tasks[id]} else {}
      ensures Valid() && ok == (id in tasks)
      ensures ok ==> tasks[id].View() == Updated(old(tasks[id].View()), u)
      ensures Views(order) == Step(old(Views(order)), Change(id, u))
    {
      if id !in tasks {
        assert Views(order) == UpdatedIn(Views(order), id, u);
        return false;
      }
      var task := tasks[id];
      task.Apply(u);
      ok := true;
      OneUpdated(task, old(Views(order)), id, u);
    }

    lemma OneUpdated(task: Task, before: seq<TaskView>, id: int, u: Update)
      requires Valid() && id in tasks && task == tasks[id] && |before| == |order|
      requires forall i :: 0 <= i < |order| ==> before[i].id == order[i].id
      requires forall i :: 0 <= i < |order| ==>
        order[i].View() == if order[i] == task then Updated(before[i], u) else before[i]
      ensures Views(order) == UpdatedIn(before, id, u)
    {
    }
  }

  predicate SameTenant(own: Option<string>, tenant: Option<string>) {
    tenant.None? || tenant.value == "" || own.None? || own.value == "" || own == tenant
  }

  lemma {:induction false} InsertViews(x: Task, s: seq<Task>)
    ensures Views(Insert(x, s, NewerTask())) == Insert(x.View(), Views(s), NewerFirst())
  {
    if s == [] || x.createdAt >= s[0].createdAt {
      assert Views([x] + s) == [x.View()] + Views(s);
    } else {
      InsertViews(x, s[1..]);
      assert Views(s)[1..] == Views(s[1..]);
      var rest := Insert(x, s[1..], NewerTask());
      assert Views([s[0]] + rest) == [s[0].View()] + Views(rest);
    }
  }

  /** Sorting the objects sorts their views. */
  lemma {:induction false} SortViews(s: seq<Task>)
    ensures Views(Sort(s, NewerTask())) == Sort(Views(s), NewerFirst())
  {
    if s != [] {
      SortViews(s[1..]);
      InsertViews(s[0], Sort(s[1..], NewerTask()));
      assert Views(s)[1..] == Views(s[1..]);
    }
  }

  lemma {:induction false} FilterSnoc(s: seq<TaskView>, x: TaskView, p: TaskView -> bool)
    ensures Filter(s + [x], p) == Filter(s, p) + (if p(x) then [x] else [])
  {
    if s != [] {
      FilterSnoc(s[1..], x, p);
      assert (s + [x])[1..] == s[1..] + [x];
    }
  }
}
