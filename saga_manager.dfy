/** The saga manager (`getSagaManager`): starts a saga for each descriptor it is not already tracking and
    cancels the task of a tracked descriptor on removal.

    Saga routines (`S`) and their arguments (`A`) are opaque values; a descriptor's equality stands for the
    comparer the source keys its task table with. The middleware and its tasks are outside the model: the
    `run` and `cancel` calls are kept as logs, and the task handle `run` returns is modelled as the
    number of the call. */
module SagaManagers {
  import opened Wrappers
  import opened Lists

  /** `ISagaRegistration`: a bare routine, or a routine with the argument it is to be started with. */
  datatype Saga<S, A> = Bare(routine: S) | WithArgument(routine: S, argument: A)

  /** The handle of a running task. */
  datatype Task = Task(id: nat)

  /** A call `sagaMiddleware.run(routine[, argument])` and the handle it returned. */
  datatype Run<S, A> = Run(routine: S, argument: Option<A>, task: Task)

  /** `runSaga`: a bare routine is run without an argument, a registration with an argument is run with it. */
  function RunCall<S, A>(saga: Saga<S, A>, task: Task): (r: Run<S, A>)
    ensures r.routine == saga.routine && r.task == task
    ensures r.argument.None? <==> saga.Bare?
    ensures saga.WithArgument? ==> r.argument == Some(saga.argument)
  {
    match saga
    case Bare(s) => Run(s, None, task)
    case WithArgument(s, a) => Run(s, Some(a), task)
  }

  /** The run calls made for `sagas`, in order, the first one receiving handle number `first`. */
  function RunsOf<S, A>(sagas: seq<Saga<S, A>>, first: nat): (r: seq<Run<S, A>>)
    ensures |r| == |sagas|
    ensures forall j {:trigger r[j]} :: 0 <= j < |r| ==> r[j] == RunCall(sagas[j], Task(first + j))
  {
    if sagas == [] then [] else RunsOf(sagas[..|sagas| - 1], first) + [RunCall(sagas[|sagas| - 1], Task(first + |sagas| - 1))]
  }

  /** The descriptors `add(sagas)` starts when `tracked` are already running: each present entry that is not
      tracked and not started earlier in the same call, so each one once, in list order. */
  function ToStart<S(==, !new), A(==, !new)>(tracked: set<Saga<S, A>>, sagas: seq<Option<Saga<S, A>>>): (r: seq<Saga<S, A>>)
    ensures forall d {:trigger d in r} {:trigger Listed(sagas, d)} :: d in r <==> Listed(sagas, d) && d !in tracked
  {
    if sagas == [] then []
    else
      var init := sagas[..|sagas| - 1];
      assert sagas == init + [sagas[|sagas| - 1]];
      var started := ToStart(tracked, init);
      match sagas[|sagas| - 1]
      case Some(d) => if d !in tracked && d !in started then started + [d] else started
      case None => started
  }

  /** The descriptors `remove(sagas)` cancels when `tracked` are running: each present entry that is tracked
      and not cancelled earlier in the same call, so each one once, in list order. */
  function ToCancel<S(==, !new), A(==, !new)>(tracked: set<Saga<S, A>>, sagas: seq<Option<Saga<S, A>>>): (r: seq<Saga<S, A>>)
    ensures forall d {:trigger d in r} {:trigger Listed(sagas, d)} :: d in r <==> Listed(sagas, d) && d in tracked
  {
    if sagas == [] then []
    else
      var init := sagas[..|sagas| - 1];
      assert sagas == init + [sagas[|sagas| - 1]];
      var cancelled := ToCancel(tracked, init);
      match sagas[|sagas| - 1]
      case Some(d) => if d in tracked && d !in cancelled then cancelled + [d] else cancelled
      case None => cancelled
  }

  /** `add` starts each descriptor at most once. */
  lemma {:induction false} ToStartDistinct<S(!new), A(!new)>(tracked: set<Saga<S, A>>, sagas: seq<Option<Saga<S, A>>>)
    ensures Distinct(ToStart(tracked, sagas))
  {
    if sagas != [] {
      ToStartDistinct(tracked, sagas[..|sagas| - 1]);
    }
  }

  /** `remove` cancels each descriptor at most once. */
  lemma {:induction false} ToCancelDistinct<S(!new), A(!new)>(tracked: set<Saga<S, A>>, sagas: seq<Option<Saga<S, A>>>)
    ensures Distinct(ToCancel(tracked, sagas))
  {
    if sagas != [] {
      ToCancelDistinct(tracked, sagas[..|sagas| - 1]);
    }
  }

  /** The handles the given tracked descriptors map to, in order. */
  function TasksOf<S(==), A(==)>(sagas: seq<Saga<S, A>>, tasks: map<Saga<S, A>, Task>): (r: seq<Task>)
    requires forall d :: d in sagas ==> d in tasks
    ensures |r| == |sagas|
    ensures forall j {:trigger r[j]} :: 0 <= j < |r| ==> r[j] == tasks[sagas[j]]
  {
    if sagas == [] then [] else TasksOf(sagas[..|sagas| - 1], tasks) + [tasks[sagas[|sagas| - 1]]]
  }

  lemma RunsOfSnoc<S, A>(sagas: seq<Saga<S, A>>, d: Saga<S, A>, first: nat)
    ensures RunsOf(sagas + [d], first) == RunsOf(sagas, first) + [RunCall(d, Task(first + |sagas|))]
  {
    assert (sagas + [d])[..|sagas|] == sagas;
  }

  lemma TasksOfSnoc<S, A>(sagas: seq<Saga<S, A>>, d: Saga<S, A>, tasks: map<Saga<S, A>, Task>)
    requires forall e :: e in sagas ==> e in tasks
    requires d in tasks
    ensures TasksOf(sagas + [d], tasks) == TasksOf(sagas, tasks) + [tasks[d]]
  {
    assert (sagas + [d])[..|sagas|] == sagas;
  }

  lemma ToStartSnoc<S(!new), A(!new)>(tracked: set<Saga<S, A>>, sagas: seq<Option<Saga<S, A>>>, i: nat)
    requires i < |sagas|
    ensures ToStart(tracked, sagas[..i + 1]) ==
      if sagas[i].Some? && sagas[i].value !in tracked && sagas[i].value !in ToStart(tracked, sagas[..i])
      then ToStart(tracked, sagas[..i]) + [sagas[i].value] else ToStart(tracked, sagas[..i])
  {
    assert sagas[..i + 1][..i] == sagas[..i];
  }

  lemma ToCancelSnoc<S(!new), A(!new)>(tracked: set<Saga<S, A>>, sagas: seq<Option<Saga<S, A>>>, i: nat)
    requires i < |sagas|
    ensures ToCancel(tracked, sagas[..i + 1]) ==
      if sagas[i].Some? && sagas[i].value in tracked && sagas[i].value !in ToCancel(tracked, sagas[..i])
      then ToCancel(tracked, sagas[..i]) + [sagas[i].value] else ToCancel(tracked, sagas[..i])
  {
    assert sagas[..i + 1][..i] == sagas[..i];
  }

  lemma AppendAssoc<T>(a: seq<T>, b: seq<T>, c: seq<T>)
    ensures (a + b) + c == a + (b + c)
  {
  }

  /** After the first `i` entries of `add`, the table tracks the descriptors of `before`, under their old
      handles, and the present entries so far, under handles numbered from `first`. */
  ghost predicate Tracking<S(!new), A(!new)>(before: map<Saga<S, A>, Task>, list: seq<Option<Saga<S, A>>>, i: nat,
                                            first: nat, tasks: map<Saga<S, A>, Task>)
    requires i <= |list|
  {
    && (forall d :: d in tasks <==> d in before || Listed(list[..i], d))
    && (forall d :: d in before ==> tasks[d] == before[d])
    && (forall d :: d in tasks && d !in before ==> first <= tasks[d].id)
  }

  /** The `forEach` step of `add` keeps `Tracking`, whether it starts the entry under the next handle or
      passes over it. */
  lemma TrackingStep<S(!new), A(!new)>(before: map<Saga<S, A>, Task>, list: seq<Option<Saga<S, A>>>, i: nat,
                                        first: nat, tasks: map<Saga<S, A>, Task>, issued: nat)
    requires i < |list| && first <= issued
    requires Tracking(before, list, i, first, tasks)
    ensures list[i].Some? && list[i].value !in tasks ==>
      Tracking(before, list, i + 1, first, tasks[list[i].value := Task(issued)])
    ensures !(list[i].Some? && list[i].value !in tasks) ==> Tracking(before, list, i + 1, first, tasks)
  {
    forall e ensures Listed(list[..i + 1], e) <==> Listed(list[..i], e) || list[i] == Some(e) {
      ListedSnoc(list, i, e);
    }
  }

  /** After the first `i` entries of `add`, exactly `ToStart` of them have been run, with handles numbered
      from `first`. */
  ghost predicate Logged<S(!new), A(!new)>(before: set<Saga<S, A>>, list: seq<Option<Saga<S, A>>>, i: nat,
                                          first: nat, runs0: seq<Run<S, A>>, issued: nat, runs: seq<Run<S, A>>)
    requires i <= |list|
  {
    var started := ToStart(before, list[..i]);
    issued == first + |started| && runs == runs0 + RunsOf(started, first)
  }

  /** The `forEach` step of `add` on a descriptor neither tracked before nor listed earlier runs it. */
  lemma LoggedStarts<S(!new), A(!new)>(before: set<Saga<S, A>>, list: seq<Option<Saga<S, A>>>, i: nat,
                                        first: nat, runs0: seq<Run<S, A>>, issued: nat, runs: seq<Run<S, A>>)
    requires i < |list| && list[i].Some? && list[i].value !in before && !Listed(list[..i], list[i].value)
    requires Logged(before, list, i, first, runs0, issued, runs)
    ensures Logged(before, list, i + 1, first, runs0, issued + 1, runs + [RunCall(list[i].value, Task(issued))])
  {
    var started := ToStart(before, list[..i]);
    var d := list[i].value;
    assert d !in started;
    ToStartSnoc(before, list, i);
    assert ToStart(before, list[..i + 1]) == started + [d];
    assert issued == first + |started|;
    var run := RunCall(d, Task(first + |started|));
    RunsOfSnoc(started, d, first);
    AppendAssoc(runs0, RunsOf(started, first), [run]);
  }

  /** The `forEach` step of `add` on an absent entry, or one tracked before or listed earlier, runs nothing. */
  lemma LoggedSkips<S(!new), A(!new)>(before: set<Saga<S, A>>, list: seq<Option<Saga<S, A>>>, i: nat,
                                       first: nat, runs0: seq<Run<S, A>>, issued: nat, runs: seq<Run<S, A>>)
    requires i < |list| && !(list[i].Some? && list[i].value !in before && !Listed(list[..i], list[i].value))
    requires Logged(before, list, i, first, runs0, issued, runs)
    ensures Logged(before, list, i + 1, first, runs0, issued, runs)
  {
    ToStartSnoc(before, list, i);
  }

  /** After the first `i` entries of `remove`, the table holds the descriptors of `before` not listed so
      far, under their old handles. */
  ghost predicate Untracking<S(!new), A(!new)>(before: map<Saga<S, A>, Task>, list: seq<Option<Saga<S, A>>>, i: nat,
                                              tasks: map<Saga<S, A>, Task>)
    requires i <= |list|
  {
    && (forall d :: d in tasks <==> d in before && !Listed(list[..i], d))
    && (forall d :: d in tasks ==> tasks[d] == before[d])
  }

  /** The `forEach` step of `remove` keeps `Untracking`, whether it forgets the entry or passes over it. */
  lemma UntrackingStep<S(!new), A(!new)>(before: map<Saga<S, A>, Task>, list: seq<Option<Saga<S, A>>>, i: nat,
                                          tasks: map<Saga<S, A>, Task>)
    requires i < |list|
    requires Untracking(before, list, i, tasks)
    ensures list[i].Some? && list[i].value in tasks ==> Untracking(before, list, i + 1, tasks - {list[i].value})
    ensures !(list[i].Some? && list[i].value in tasks) ==> Untracking(before, list, i + 1, tasks)
  {
    forall e ensures Listed(list[..i + 1], e) <==> Listed(list[..i], e) || list[i] == Some(e) {
      ListedSnoc(list, i, e);
    }
  }

  /** After the first `i` entries of `remove`, exactly the handles of `ToCancel` of them have been
      cancelled. */
  ghost predicate Cancelled<S(!new), A(!new)>(before: map<Saga<S, A>, Task>, list: seq<Option<Saga<S, A>>>, i: nat,
                                             cancels0: seq<Task>, cancels: seq<Task>)
    requires i <= |list|
  {
    cancels == cancels0 + TasksOf(ToCancel(before.Keys, list[..i]), before)
  }

  /** The `forEach` step of `remove` on a descriptor tracked before and not listed earlier cancels its
      handle. */
  lemma CancelledCancels<S(!new), A(!new)>(before: map<Saga<S, A>, Task>, list: seq<Option<Saga<S, A>>>, i: nat,
                                            cancels0: seq<Task>, cancels: seq<Task>)
    requires i < |list| && list[i].Some? && list[i].value in before && !Listed(list[..i], list[i].value)
    requires Cancelled(before, list, i, cancels0, cancels)
    ensures Cancelled(before, list, i + 1, cancels0, cancels + [before[list[i].value]])
  {
    var cancelled := ToCancel(before.Keys, list[..i]);
    var d := list[i].value;
    ToCancelSnoc(before.Keys, list, i);
    TasksOfSnoc(cancelled, d, before);
    AppendAssoc(cancels0, TasksOf(cancelled, before), [before[d]]);
  }

  /** The `forEach` step of `remove` on an absent entry, or one not tracked before or listed earlier,
      cancels nothing. */
  lemma CancelledSkips<S(!new), A(!new)>(before: map<Saga<S, A>, Task>, list: seq<Option<Saga<S, A>>>, i: nat,
                                          cancels0: seq<Task>, cancels: seq<Task>)
    requires i < |list| && !(list[i].Some? && list[i].value in before && !Listed(list[..i], list[i].value))
    requires Cancelled(before, list, i, cancels0, cancels)
    ensures Cancelled(before, list, i + 1, cancels0, cancels)
  {
    ToCancelSnoc(before.Keys, list, i);
  }

  /** One `forEach` step of `add`, which starts the entry under the next handle when it is present and not
      tracked and otherwise does nothing, keeps `Tracking` and `Logged`. */
  lemma AddStep<S(!new), A(!new)>(before: map<Saga<S, A>, Task>, list: seq<Option<Saga<S, A>>>, i: nat,
                                   first: nat, runs0: seq<Run<S, A>>,
                                   tasks: map<Saga<S, A>, Task>, issued: nat, runs: seq<Run<S, A>>,
                                   tasks': map<Saga<S, A>, Task>, issued': nat, runs': seq<Run<S, A>>)
    requires i < |list| && first <= issued
    requires Tracking(before, list, i, first, tasks)
    requires Logged(before.Keys, list, i, first, runs0, issued, runs)
    requires list[i].Some? && list[i].value !in tasks ==>
      && tasks' == tasks[list[i].value := Task(issued)]
      && runs' == runs + [RunCall(list[i].value, Task(issued))]
      && issued' == issued + 1
    requires !(list[i].Some? && list[i].value !in tasks) ==> tasks' == tasks && runs' == runs && issued' == issued
    ensures first <= issued'
    ensures Tracking(before, list, i + 1, first, tasks')
    ensures Logged(before.Keys, list, i + 1, first, runs0, issued', runs')
  {
    TrackingStep(before, list, i, first, tasks, issued);
    if list[i].Some? && list[i].value !in tasks {
      LoggedStarts(before.Keys, list, i, first, runs0, issued, runs);
    } else {
      LoggedSkips(before.Keys, list, i, first, runs0, issued, runs);
    }
  }

  /** One `forEach` step of `remove`, which cancels and forgets the entry when it is tracked and otherwise
      does nothing, keeps `Untracking` and `Cancelled`. */
  lemma RemoveStep<S(!new), A(!new)>(before: map<Saga<S, A>, Task>, list: seq<Option<Saga<S, A>>>, i: nat,
                                      cancels0: seq<Task>, tasks: map<Saga<S, A>, Task>, cancels: seq<Task>,
                                      tasks': map<Saga<S, A>, Task>, cancels': seq<Task>)
    requires i < |list|
    requires Untracking(before, list, i, tasks)
    requires Cancelled(before, list, i, cancels0, cancels)
    requires list[i].Some? && list[i].value in tasks ==>
      tasks' == tasks - {list[i].value} && cancels' == cancels + [tasks[list[i].value]]
    requires !(list[i].Some? && list[i].value in tasks) ==> tasks' == tasks && cancels' == cancels
    ensures Untracking(before, list, i + 1, tasks')
    ensures Cancelled(before, list, i + 1, cancels0, cancels')
  {
    UntrackingStep(before, list, i, tasks);
    if list[i].Some? && list[i].value in tasks {
      CancelledCancels(before, list, i, cancels0, cancels);
    } else {
      CancelledSkips(before, list, i, cancels0, cancels);
    }
  }

  /** Once `add` has been through every entry, `Tracking` and `Logged` speak of the whole list. */
  lemma AddDone<S(!new), A(!new)>(before: map<Saga<S, A>, Task>, list: seq<Option<Saga<S, A>>>, first: nat,
                                   runs0: seq<Run<S, A>>, tasks: map<Saga<S, A>, Task>, issued: nat, runs: seq<Run<S, A>>)
    requires Tracking(before, list, |list|, first, tasks)
    requires Logged(before.Keys, list, |list|, first, runs0, issued, runs)
    ensures runs == runs0 + RunsOf(ToStart(before.Keys, list), first)
    ensures forall d :: d in tasks <==> d in before || Listed(list, d)
    ensures forall d :: d in before ==> tasks[d] == before[d]
    ensures forall d :: d in tasks && d !in before ==> first <= tasks[d].id
  {
    assert list[..|list|] == list;
  }

  /** Once `remove` has been through every entry, `Untracking` and `Cancelled` speak of the whole list. */
  lemma RemoveDone<S(!new), A(!new)>(before: map<Saga<S, A>, Task>, list: seq<Option<Saga<S, A>>>,
                                      cancels0: seq<Task>, tasks: map<Saga<S, A>, Task>, cancels: seq<Task>)
    requires Untracking(before, list, |list|, tasks)
    requires Cancelled(before, list, |list|, cancels0, cancels)
    ensures cancels == cancels0 + TasksOf(ToCancel(before.Keys, list), before)
    ensures forall d :: d in tasks <==> d in before && !Listed(list, d)
    ensures forall d :: d in tasks ==> tasks[d] == before[d]
  {
    assert list[..|list|] == list;
  }

  class SagaManager<S(==, !new), A(==, !new)> {
    /** `tasks`: the running task of each tracked descriptor. */
    var tasks: map<Saga<S, A>, Task>
    /** Number of `run` calls made so far; the next handle is `Task(issued)`. */
    var issued: nat
    /** The `run` calls made on the middleware, oldest first. */
    var runs: seq<Run<S, A>>
    /** The handles `cancel` was called on, oldest first. */
    var cancels: seq<Task>

    /** Every tracked descriptor holds the handle of a run of that very descriptor that has not been
        cancelled, and no handle is cancelled twice. */
    ghost predicate Valid()
      reads this
    {
      && |runs| == issued
      && (forall j :: 0 <= j < |runs| ==> runs[j].task.id == j)
      && (forall d :: d in tasks ==> tasks[d].id < issued && runs[tasks[d].id] == RunCall(d, tasks[d]))
      && (forall d :: d in tasks ==> tasks[d] !in cancels)
      && (forall j :: 0 <= j < |cancels| ==> cancels[j].id < issued)
      && Distinct(cancels)
    }

    /** `getSagaManager(sagaMiddleware)`. */
    constructor ()
      ensures Valid() && tasks == map[] && runs == [] && cancels == []
    {
      tasks := map[];
      issued := 0;
      runs := [];
      cancels := [];
    }

    /** `getItems()`: the tracked descriptors, each once, in no particular order. */
    method GetItems() returns (items: seq<Saga<S, A>>)
      ensures Distinct(items)
      ensures forall d :: d in items <==> d in tasks
      ensures |items| == |tasks|
    {
      items := [];
      var rest := tasks.Keys;
      while rest != {}
        invariant forall d :: d in tasks <==> d in rest || d in items
        invariant forall d :: d in rest ==> d !in items
        invariant Distinct(items)
        invariant |items| + |rest| == |tasks|
        decreases rest
      {
        var d :| d in rest;
        items := items + [d];
        rest := rest - {d};
      }
    }

    /** `runSaga(sagaMiddleware, saga)`: one `run` call, which returns a handle no earlier call returned. */
    method RunSaga(saga: Saga<S, A>) returns (task: Task)
      requires Valid()
      modifies this
      ensures Valid()
      ensures task == Task(old(issued)) && issued == old(issued) + 1
      ensures runs == old(runs) + [RunCall(saga, task)]
      ensures tasks == old(tasks) && cancels == old(cancels)
    {
      task := Task(issued);
      runs := runs + [RunCall(saga, task)];
      issued := issued + 1;
    }

    /** The `forEach` step of `add`: a present descriptor that is not tracked is started and recorded. */
    method AddOne(entry: Option<Saga<S, A>>)
      requires Valid()
      modifies this
      ensures Valid()
      ensures entry.Some? && entry.value !in old(tasks) ==>
        && tasks == old(tasks)[entry.value := Task(old(issued))]
        && runs == old(runs) + [RunCall(entry.value, Task(old(issued)))]
        && issued == old(issued) + 1
      ensures !(entry.Some? && entry.value !in old(tasks)) ==>
        tasks == old(tasks) && runs == old(runs) && issued == old(issued)
      ensures cancels == old(cancels)
    {
      if entry.Some? && entry.value !in tasks {
        var task := RunSaga(entry.value);
        tasks := tasks[entry.value := task];
      }
    }

    /** `add(sagas)`: nothing for a null list; otherwise each present descriptor not yet tracked is started
        once and its handle recorded, and tracked descriptors keep their task. */
    method Add(sagas: Option<seq<Option<Saga<S, A>>>>)
      requires Valid()
      modifies this
      ensures Valid()
      ensures sagas.None? ==> unchanged(this)
      ensures sagas.Some? ==>
        var started := ToStart(old(tasks).Keys, sagas.value);
        && runs == old(runs) + RunsOf(started, old(issued))
        && (forall d :: d in tasks <==> d in old(tasks) || Listed(sagas.value, d))
        && (forall d :: d in old(tasks) ==> tasks[d] == old(tasks)[d])
        && (forall d :: d in tasks && d !in old(tasks) ==> old(issued) <= tasks[d].id)
      ensures cancels == old(cancels)
    {
      if sagas.None? {
        return;
      }
      var list := sagas.value;
      ghost var before := tasks;
      ghost var first := issued;
      var i := 0;
      while i < |list|
        invariant 0 <= i <= |list|
        invariant Valid()
        invariant first <= issued
        invariant Tracking(before, list, i, first, tasks)
        invariant Logged(before.Keys, list, i, first, old(runs), issued, runs)
        invariant cancels == old(cancels)
      {
        ghost var tasks0, issued0, runs0 := tasks, issued, runs;
        AddOne(list[i]);
        AddStep(before, list, i, first, old(runs), tasks0, issued0, runs0, tasks, issued, runs);
        i := i + 1;
      }
      AddDone(before, list, first, old(runs), tasks, issued, runs);
    }

    /** The `forEach` step of `remove`: a tracked descriptor has its task cancelled and is forgotten. */
    method RemoveOne(entry: Option<Saga<S, A>>)
      requires Valid()
      modifies this
      ensures Valid()
      ensures entry.Some? && entry.value in old(tasks) ==>
        && tasks == old(tasks) - {entry.value}
        && cancels == old(cancels) + [old(tasks)[entry.value]]
      ensures !(entry.Some? && entry.value in old(tasks)) ==> tasks == old(tasks) && cancels == old(cancels)
      ensures runs == old(runs) && issued == old(issued)
    {
      if entry.Some? && entry.value in tasks {
        var d := entry.value;
        var task := tasks[d];
        tasks := tasks - {d};
        forall e | e in tasks ensures tasks[e] != task {
          RunCallDeterminesSaga(e, d, task);
        }
        cancels := cancels + [task];
      }
    }

    /** `remove(sagas)`: nothing for a null list; otherwise each tracked descriptor in the list has its task
        cancelled once and is forgotten, and the others are left alone. */
    method Remove(sagas: Option<seq<Option<Saga<S, A>>>>)
      requires Valid()
      modifies this
      ensures Valid()
      ensures sagas.None? ==> unchanged(this)
      ensures sagas.Some? ==>
        var cancelled := ToCancel(old(tasks).Keys, sagas.value);
        && cancels == old(cancels) + TasksOf(cancelled, old(tasks))
        && (forall d :: d in tasks <==> d in old(tasks) && !Listed(sagas.value, d))
        && (forall d :: d in tasks ==> tasks[d] == old(tasks)[d])
      ensures runs == old(runs) && issued == old(issued)
    {
      if sagas.None? {
        return;
      }
      var list := sagas.value;
      ghost var before := tasks;
      var i := 0;
      while i < |list|
        invariant 0 <= i <= |list|
        invariant Valid()
        invariant Untracking(before, list, i, tasks)
        invariant Cancelled(before, list, i, old(cancels), cancels)
        invariant runs == old(runs) && issued == old(issued)
      {
        ghost var tasks0, cancels0 := tasks, cancels;
        RemoveOne(list[i]);
        RemoveStep(before, list, i, old(cancels), tasks0, cancels0, tasks, cancels);
        i := i + 1;
      }
      RemoveDone(before, list, old(cancels), tasks, cancels);
    }
  }

  /** Two descriptors whose run calls coincide are the same descriptor: registrations that differ in routine,
      in argument, or in having an argument at all are started separately. */
  lemma RunCallDeterminesSaga<S, A>(d: Saga<S, A>, e: Saga<S, A>, task: Task)
    ensures RunCall(d, task) == RunCall(e, task) ==> d == e
  {
  }

  lemma NoKeys<K, V>(m: map<K, V>)
    requires forall d :: d !in m
    ensures |m| == 0
  {
    assert m == map[];
  }

  lemma TwoKeys<K, V>(m: map<K, V>, a: K, b: K)
    requires a != b && forall d :: d in m <==> d == a || d == b
    ensures |m| == 2
  {
    assert m.Keys == {a, b};
  }

  /** A one-entry list starts its descriptor unless it is tracked, and cancels it only if it is. */
  lemma SingleEntry<S(!new), A(!new)>(tracked: set<Saga<S, A>>, d: Saga<S, A>)
    ensures ToStart(tracked, [Some(d)]) == if d in tracked then [] else [d]
    ensures ToCancel(tracked, [Some(d)]) == if d in tracked then [d] else []
    ensures forall e :: Listed([Some(d)], e) <==> e == d
  {
    assert [Some(d)][..0] == [];
  }

  /** An absent entry at the end of a list starts, cancels and lists nothing. */
  lemma AbsentEntry<S(!new), A(!new)>(tracked: set<Saga<S, A>>, sagas: seq<Option<Saga<S, A>>>)
    ensures ToStart(tracked, sagas + [None]) == ToStart(tracked, sagas)
    ensures ToCancel(tracked, sagas + [None]) == ToCancel(tracked, sagas)
    ensures forall e :: Listed(sagas + [None], e) <==> Listed(sagas, e)
  {
    assert (sagas + [None])[..|sagas|] == sagas;
  }

  /** A two-entry list lists exactly its two descriptors. */
  lemma TwoEntries<S, A>(d: Saga<S, A>, e: Saga<S, A>)
    ensures forall x :: Listed([Some(d), Some(e)], x) <==> x == d || x == e
  {
    forall x ensures Listed([Some(d), Some(e)], x) <==> x == d || x == e {
      assert [Some(d)][..0] == [];
      assert Listed([Some(d)], x) <==> x == d;
      assert [Some(d), Some(e)][..1] == [Some(d)];
    }
  }

  /** Adding one descriptor twice, once more next to an empty slot, starts it once. */
  method AddTwiceScenario(f: nat) returns (runCount: nat)
    ensures runCount == 1
  {
    var manager := new SagaManager<nat, int>();
    var once: seq<Option<Saga<nat, int>>> := [Some(Bare(f))];
    SingleEntry<nat, int>({}, Bare(f));
    manager.Add(Some(once));
    SingleEntry(manager.tasks.Keys, Bare(f));
    var again: seq<Option<Saga<nat, int>>> := [Some(Bare(f)), None];
    AbsentEntry(manager.tasks.Keys, once);
    assert once + [None] == again;
    manager.Add(Some(again));
    runCount := manager.issued;
  }

  /** Removing a started descriptor twice cancels its task once. */
  method RemoveTwiceScenario(f: nat) returns (cancelCount: nat)
    ensures cancelCount == 1
  {
    var manager := new SagaManager<nat, int>();
    var once: seq<Option<Saga<nat, int>>> := [Some(Bare(f))];
    SingleEntry<nat, int>({}, Bare(f));
    manager.Add(Some(once));
    SingleEntry(manager.tasks.Keys, Bare(f));
    manager.Remove(Some(once));
    assert |manager.cancels| == 1;
    SingleEntry(manager.tasks.Keys, Bare(f));
    manager.Remove(Some(once));
    cancelCount := |manager.cancels|;
  }

  /** A removed descriptor is no longer among the items. */
  method RemoveForgetsScenario(f: nat) returns (items: seq<Saga<nat, int>>)
    ensures items == []
  {
    var manager := new SagaManager<nat, int>();
    var once: seq<Option<Saga<nat, int>>> := [Some(Bare(f))];
    SingleEntry<nat, int>({}, Bare(f));
    manager.Add(Some(once));
    manager.Remove(Some(once));
    assert Bare(f) !in manager.tasks;
    NoKeys(manager.tasks);
    items := manager.GetItems();
  }

  /** Registrations of one routine with two different arguments run as two tasks. */
  method ArgumentsScenario(f: nat) returns (items: seq<Saga<nat, int>>)
    ensures |items| == 2
  {
    var manager := new SagaManager<nat, int>();
    var both: seq<Option<Saga<nat, int>>> := [Some(WithArgument(f, 1)), Some(WithArgument(f, 2))];
    manager.Add(Some(both));
    TwoEntries(WithArgument(f, 1), WithArgument(f, 2));
    TwoKeys(manager.tasks, WithArgument(f, 1), WithArgument(f, 2));
    items := manager.GetItems();
  }
}
