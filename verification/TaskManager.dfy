/**
 The running tasks. Each has a watcher and a scanner, built from the definition that was
 current when the task was started; after a reload they are reconciled with the new tasks.
 */
module TaskManager {
  import opened ConfigStore
  import opened Records

  type TaskId = string
  type Tasks = map<TaskId, TaskDef>

  /** Whether the monitored folder is there, and whether a watcher on it starts. */
  datatype Env = Env(isDir: string -> bool, observes: TaskDef -> bool)

  predicate Startable(t: TaskDef, env: Env) {
    env.isDir(t.monitorFolder) && env.observes(t)
  }

  function Enabled(tasks: Tasks): Tasks {
    map id | id in tasks && tasks[id].enabled :: tasks[id]
  }

  /** Running tasks whose definition differs between the two configurations. */
  function Changed(running: Tasks, before: Tasks, after: Tasks): set<TaskId> {
    set id | id in running && id in after && (id !in before || before[id] != after[id])
  }

  function RemovedOrDisabled(running: Tasks, after: Tasks): set<TaskId> {
    set id | id in running && (id !in after || !after[id].enabled)
  }

  function New(running: Tasks, after: Tasks): set<TaskId> {
    set id | id in after && after[id].enabled && id !in running
  }

  /** The tasks a reload tries to start. */
  function ToStart(running: Tasks, before: Tasks, after: Tasks): set<TaskId> {
    (Changed(running, before, after) - RemovedOrDisabled(running, after)) + New(running, after)
  }

  /** What a reload leaves running when every start succeeds. */
  function Reconciled(running: Tasks, before: Tasks, after: Tasks): Tasks {
    (running - RemovedOrDisabled(running, after)) + Those(after, ToStart(running, before, after))
  }

  function Those(tasks: Tasks, ids: set<TaskId>): Tasks {
    map id | id in ids && id in tasks :: tasks[id]
  }

  /** The order in which a loop happens to meet these tasks. */
  ghost predicate Lists(order: seq<TaskId>, ids: set<TaskId>) {
    Distinct(order) && forall id :: id in order <==> id in ids
  }

  predicate FailsAt(tasks: Tasks, id: TaskId, env: Env) {
    id in tasks && !Startable(tasks[id], env)
  }

  predicate Fails(tasks: Tasks, order: seq<TaskId>, env: Env) {
    exists i :: 0 <= i < |order| && FailsAt(tasks, order[i], env)
  }

  /** Starting these tasks one by one, up to the first that fails; its old instance is gone by then. */
  function StartAll(running: Tasks, tasks: Tasks, order: seq<TaskId>, env: Env): Tasks {
    if order == [] then running
    else
      var p, id := order[..|order| - 1], order[|order| - 1];
      var r := StartAll(running, tasks, p, env);
      if Fails(tasks, p, env) || id !in tasks then r
      else if Startable(tasks[id], env) then r[id := tasks[id]]
      else r - {id}
  }

  /** What a reload leaves running: the changed tasks are restarted, then the new ones are started. */
  function AfterReload(
      running: Tasks, before: Tasks, after: Tasks, restarts: seq<TaskId>, starts: seq<TaskId>, env: Env): Tasks
  {
    StartAll(running - RemovedOrDisabled(running, after), after, restarts + starts, env)
  }

  ghost predicate GenuineOrder(
      running: Tasks, before: Tasks, after: Tasks, restarts: seq<TaskId>, starts: seq<TaskId>)
  {
    && Lists(restarts, Changed(running, before, after) - RemovedOrDisabled(running, after))
    && Lists(starts, New(running, after))
  }

  class Manager {
    var tasks: Tasks
    var watchers: Tasks
    var scanners: Tasks

    constructor (tasks: Tasks)
      ensures this.tasks == tasks && watchers == map[] && Consistent()
    {
      this.tasks := tasks;
      watchers, scanners := map[], map[];
    }

    ghost predicate Paired()
      reads this
    {
      watchers == scanners
    }

    /** Every running task was built from its current definition. */
    ghost predicate Consistent()
      reads this
    {
      Paired() && UpToDate(watchers, tasks)
    }

    method StopTask(id: TaskId)
      modifies this`watchers, this`scanners
      ensures watchers == old(watchers) - {id} && scanners == old(scanners) - {id}
      ensures watchers == Step(World(tasks, old(watchers)), Stop(id)).running
      ensures old(Consistent()) ==> Consistent()
    {
      watchers := watchers - {id};
      scanners := scanners - {id};
    }

    /** The folder is tested before the old instance is stopped, the watcher is started after. */
    method StartTask(id: TaskId, env: Env) returns (raised: bool)
      modifies this`watchers, this`scanners
      ensures raised <==> id in tasks && !(env.isDir(tasks[id].monitorFolder) && env.observes(tasks[id]))
      ensures watchers == if id !in tasks || !env.isDir(tasks[id].monitorFolder) then old(watchers)
                          else if raised then old(watchers) - {id}
                          else old(watchers)[id := tasks[id]]
      ensures watchers == Step(World(tasks, old(watchers)), Start(id, env)).running
      ensures old(Paired()) ==> Paired()
      ensures old(Consistent()) ==> Consistent()
    {
      if id !in tasks {
        return false;
      }
      var task := tasks[id];
      if !env.isDir(task.monitorFolder) {
        return true;
      }
      if id in watchers || id in scanners {
        StopTask(id);
      }
      if !env.observes(task) {
        watchers := watchers - {id};
        scanners := scanners - {id};
        return true;
      }
      watchers := watchers[id := task];
      scanners := scanners[id := task];
      return false;
    }

    /** The listener of a reload; the task index already is the new one. */
    method OnConfigChanged(before: Tasks, env: Env)
      returns (raised: bool, restarts: seq<TaskId>, starts: seq<TaskId>)
      requires Paired()
      modifies this`watchers, this`scanners
      ensures Paired()
      ensures GenuineOrder(old(watchers), before, tasks, restarts, starts)
      ensures raised <==> Fails(tasks, restarts + starts, env)
      ensures watchers == AfterReload(old(watchers), before, tasks, restarts, starts, env)
    {
      var running := watchers.Keys + scanners.Keys;
      var changed := set id | id in running && id in tasks && (id !in before || before[id] != tasks[id]);
      var removed := set id | id in running && (id !in tasks || !tasks[id].enabled);
      var added := set id | id in tasks && tasks[id].enabled && id !in running && id !in removed;
      assert changed == Changed(watchers, before, tasks) && removed == RemovedOrDisabled(watchers, tasks);
      assert added == New(watchers, tasks);
      restarts := Listed(changed - removed);
      starts := Listed(added);
      StopAll(removed);
      ghost var stopped := watchers;
      raised := Restart(restarts, env);
      FailsInTwo(tasks, restarts, starts, env);
      StartInTwo(stopped, tasks, restarts, starts, env);
      if raised {
        return;
      }
      OthersUntouched(stopped, tasks, restarts, env);
      raised := StartNew(starts, env);
    }

    /** The order in which Python iterates over a set is not known. */
    static method Listed(ids: set<TaskId>) returns (order: seq<TaskId>)
      ensures Lists(order, ids)
    {
      order := [];
      var todo := ids;
      while todo != {}
        invariant todo <= ids
        invariant Distinct(order) && forall id :: id in order <==> id in ids - todo
      {
        var id :| id in todo;
        DistinctInTwo(order, [id]);
        order := order + [id];
        todo := todo - {id};
      }
    }

    method StopAll(ids: set<TaskId>)
      requires Paired()
      modifies this`watchers, this`scanners
      ensures Paired() && watchers == old(watchers) - ids
    {
      var todo := ids;
      while todo != {}
        invariant todo <= ids
        invariant Paired() && watchers == old(watchers) - (ids - todo)
      {
        var id :| id in todo;
        StopTask(id);
        todo := todo - {id};
      }
    }

    /** Stops and starts each of these tasks, until one of them fails. */
    method Restart(order: seq<TaskId>, env: Env) returns (raised: bool)
      requires Paired() && forall id :: id in order ==> id in tasks
      modifies this`watchers, this`scanners
      ensures Paired()
      ensures raised <==> Fails(tasks, order, env)
      ensures watchers == StartAll(old(watchers), tasks, order, env)
    {
      for i := 0 to |order|
        invariant Paired() && !Fails(tasks, order[..i], env)
        invariant watchers == StartAll(old(watchers), tasks, order[..i], env)
      {
        StartStep(old(watchers), tasks, order, i, env);
        StopTask(order[i]);
        raised := StartTask(order[i], env);
        if raised {
          return;
        }
      }
      raised := false;
      assert order[..|order|] == order;
    }

    /** Starts each of these tasks, none of which runs, until one of them fails. */
    method StartNew(order: seq<TaskId>, env: Env) returns (raised: bool)
      requires Paired() && Distinct(order) && forall id :: id in order ==> id in tasks && id !in watchers
      modifies this`watchers, this`scanners
      ensures Paired()
      ensures raised <==> Fails(tasks, order, env)
      ensures watchers == StartAll(old(watchers), tasks, order, env)
    {
      for i := 0 to |order|
        invariant Paired() && !Fails(tasks, order[..i], env)
        invariant watchers == StartAll(old(watchers), tasks, order[..i], env)
        invariant forall j :: i <= j < |order| ==> order[j] !in watchers
      {
        StartStep(old(watchers), tasks, order, i, env);
        raised := StartTask(order[i], env);
        if raised {
          return;
        }
      }
      raised := false;
      assert order[..|order|] == order;
    }

    /** A hot reload that has passed validation. */
    method Reload(newTasks: Tasks, env: Env) returns (raised: bool, restarts: seq<TaskId>, starts: seq<TaskId>)
      requires Paired()
      modifies this
      ensures tasks == newTasks && Paired()
      ensures GenuineOrder(old(watchers), old(tasks), newTasks, restarts, starts)
      ensures raised <==> Fails(newTasks, restarts + starts, env)
      ensures watchers == AfterReload(old(watchers), old(tasks), newTasks, restarts, starts, env)
      ensures World(tasks, watchers)
           == Step(World(old(tasks), old(watchers)), Reloaded(newTasks, restarts, starts, env))
      ensures !raised ==> watchers == Reconciled(old(watchers), old(tasks), newTasks)
      ensures old(Consistent()) ==> (watchers == Enabled(newTasks) <==> !raised)
      ensures old(Consistent()) && !raised ==> Consistent()
    {
      var before := tasks;
      ghost var running := watchers;
      tasks := newTasks;
      raised, restarts, starts := OnConfigChanged(before, env);
      if !raised {
        AllStarted(running, before, newTasks, restarts, starts, env);
        ReconciledIsEnabledIff(running, before, newTasks);
      }
      if UpToDate(running, before) {
        ReloadCompletesIff(running, before, newTasks, restarts, starts, env);
      }
    }
  }

  // ---------------------------------------------------------------- starting tasks one by one

  lemma DistinctInTwo(a: seq<TaskId>, b: seq<TaskId>)
    requires Distinct(a) && Distinct(b) && forall id :: id in a ==> id !in b
    ensures Distinct(a + b)
  {
    var c := a + b;
    forall i, j | 0 <= i < j < |c| ensures c[i] != c[j] {
      if i < |a| <= j {
        assert c[i] == a[i] && c[j] == b[j - |a|];
        assert a[i] in a && b[j - |a|] in b;
      }
    }
  }

  lemma FailsInTwo(tasks: Tasks, a: seq<TaskId>, b: seq<TaskId>, env: Env)
    ensures Fails(tasks, a + b, env) <==> Fails(tasks, a, env) || Fails(tasks, b, env)
  {
    if Fails(tasks, a, env) {
      var i :| 0 <= i < |a| && FailsAt(tasks, a[i], env);
      assert (a + b)[i] == a[i];
    }
    if Fails(tasks, b, env) {
      var i :| 0 <= i < |b| && FailsAt(tasks, b[i], env);
      assert (a + b)[|a| + i] == b[i];
    }
  }

  lemma {:induction false} StartInTwo(running: Tasks, tasks: Tasks, a: seq<TaskId>, b: seq<TaskId>, env: Env)
    ensures StartAll(running, tasks, a + b, env)
         == if Fails(tasks, a, env) then StartAll(running, tasks, a, env)
            else StartAll(StartAll(running, tasks, a, env), tasks, b, env)
  {
    if b == [] {
      assert a + b == a;
    } else {
      var p := b[..|b| - 1];
      StartInTwo(running, tasks, a, p, env);
      assert (a + b)[..|a + b| - 1] == a + p;
      FailsInTwo(tasks, a, p, env);
    }
  }

  /** The i-th start ends the loop, or is added to the ones before it. */
  lemma StartStep(running: Tasks, tasks: Tasks, order: seq<TaskId>, i: nat, env: Env)
    requires i < |order| && order[i] in tasks && !Fails(tasks, order[..i], env)
    ensures var r := StartAll(running, tasks, order[..i], env);
      if Startable(tasks[order[i]], env)
      then StartAll(running, tasks, order[..i + 1], env) == r[order[i] := tasks[order[i]]]
           && !Fails(tasks, order[..i + 1], env)
      else StartAll(running, tasks, order, env) == r - {order[i]} && Fails(tasks, order, env)
  {
    assert order[..i + 1][..i] == order[..i];
    if !Startable(tasks[order[i]], env) {
      assert order == order[..i + 1] + order[i + 1..];
      assert FailsAt(tasks, order[..i + 1][i], env);
      FailsInTwo(tasks, order[..i + 1], order[i + 1..], env);
      StartInTwo(running, tasks, order[..i + 1], order[i + 1..], env);
    }
  }

  lemma {:induction false} OthersUntouched(running: Tasks, tasks: Tasks, order: seq<TaskId>, env: Env)
    ensures forall id :: id !in order ==>
      (id in StartAll(running, tasks, order, env) <==> id in running)
      && (id in running ==> StartAll(running, tasks, order, env)[id] == running[id])
  {
    if order != [] {
      OthersUntouched(running, tasks, order[..|order| - 1], env);
      assert order == order[..|order| - 1] + [order[|order| - 1]];
    }
  }

  /** The j-th task of the order: as before if the loop does not get to it, else started or gone. */
  lemma {:induction false} StartAllAt(running: Tasks, tasks: Tasks, order: seq<TaskId>, j: nat, env: Env)
    requires Distinct(order) && j < |order| && order[j] in tasks
    ensures var r, id := StartAll(running, tasks, order, env), order[j];
      if Fails(tasks, order[..j], env)
      then (id in r <==> id in running) && (id in running ==> r[id] == running[id])
      else (id in r <==> Startable(tasks[id], env)) && (id in r ==> r[id] == tasks[id])
  {
    var p, last := order[..|order| - 1], order[|order| - 1];
    if j < |p| {
      StartAllAt(running, tasks, p, j, env);
      assert p[..j] == order[..j];
      assert last != order[j];
    } else {
      OthersUntouched(running, tasks, p, env);
      assert order[j] !in p;
    }
  }

  /** With every start succeeding all of them run in their current definition. */
  lemma AllStarted(
      running: Tasks, before: Tasks, after: Tasks, restarts: seq<TaskId>, starts: seq<TaskId>, env: Env)
    requires GenuineOrder(running, before, after, restarts, starts) && !Fails(after, restarts + starts, env)
    ensures AfterReload(running, before, after, restarts, starts, env) == Reconciled(running, before, after)
  {
    var kept, order := running - RemovedOrDisabled(running, after), restarts + starts;
    StartedIs(kept, after, order, env);
    ThoseInOrder(after, order, ToStart(running, before, after));
  }

  lemma ThoseInOrder(tasks: Tasks, order: seq<TaskId>, ids: set<TaskId>)
    requires forall id :: id in order <==> id in ids
    ensures (map id | id in order && id in tasks :: tasks[id]) == Those(tasks, ids)
  {
  }

  lemma {:induction false} StartedIs(running: Tasks, tasks: Tasks, order: seq<TaskId>, env: Env)
    requires !Fails(tasks, order, env)
    ensures StartAll(running, tasks, order, env) == running + map id | id in order && id in tasks :: tasks[id]
  {
    if order != [] {
      var p, last := order[..|order| - 1], order[|order| - 1];
      assert order == p + [last];
      FailsInTwo(tasks, p, [last], env);
      assert !FailsAt(tasks, order[|order| - 1], env);
      StartedIs(running, tasks, p, env);
    }
  }

  ghost predicate UpToDate(running: Tasks, tasks: Tasks) {
    forall id :: id in running ==> id in tasks && running[id] == tasks[id]
  }

  /** A running task that stays enabled and whose definition does not change, which a reload leaves alone. */
  predicate Kept(running: Tasks, before: Tasks, after: Tasks, id: TaskId) {
    id in running && id in after && after[id].enabled && id in before && before[id] == after[id]
  }

  lemma ReconciledAt(running: Tasks, before: Tasks, after: Tasks, id: TaskId)
    ensures var r := Reconciled(running, before, after);
      && (id in r <==> id in after && after[id].enabled)
      && (id in r ==> r[id] == if Kept(running, before, after, id) then running[id] else after[id])
  {
  }

  /**
   With every start succeeding, exactly the enabled tasks run afterwards, in their current
   definition, iff no enabled task whose definition did not change was running in another one.
   */
  lemma ReconciledIsEnabledIff(running: Tasks, before: Tasks, after: Tasks)
    ensures Reconciled(running, before, after) == Enabled(after) <==>
      forall id :: Kept(running, before, after, id) ==> running[id] == after[id]
  {
    var r, e := Reconciled(running, before, after), Enabled(after);
    forall id ensures id in r <==> id in e {
      ReconciledAt(running, before, after, id);
    }
    assert r.Keys == e.Keys;
    if forall id :: Kept(running, before, after, id) ==> running[id] == after[id] {
      forall id | id in e ensures r[id] == e[id] {
        ReconciledAt(running, before, after, id);
      }
      assert r == e;
    } else {
      var id :| Kept(running, before, after, id) && running[id] != after[id];
      ReconciledAt(running, before, after, id);
      assert r[id] != e[id];
    }
  }

  // ---------------------------------------------------------------- a reload that is broken off

  predicate Stale(running: Tasks, tasks: Tasks, id: TaskId) {
    id in running && id in tasks && running[id] != tasks[id]
  }

  /** The loop that restarts the changed tasks did not get to this one. */
  ghost predicate NotReached(tasks: Tasks, restarts: seq<TaskId>, id: TaskId, env: Env) {
    exists j :: 0 <= j < |restarts| && restarts[j] == id && Fails(tasks, restarts[..j], env)
  }

  /**
   Exactly which tasks an aborted reload leaves in an old definition: the changed ones that stand
   behind the failing one. Nothing removed or disabled keeps running.
   */
  lemma StaleAfterReloadIff(
      running: Tasks, before: Tasks, after: Tasks, restarts: seq<TaskId>, starts: seq<TaskId>, env: Env, id: TaskId)
    requires UpToDate(running, before) && GenuineOrder(running, before, after, restarts, starts)
    ensures var r := AfterReload(running, before, after, restarts, starts, env);
      && (Stale(r, after, id) <==> NotReached(after, restarts, id, env))
      && (id in r ==> id in after && after[id].enabled)
  {
    var kept, order := running - RemovedOrDisabled(running, after), restarts + starts;
    if id in order {
      var j :| 0 <= j < |order| && order[j] == id;
      DistinctInTwo(restarts, starts);
      StartAllAt(kept, after, order, j, env);
      if id in restarts {
        assert j < |restarts| && order[..j] == restarts[..j] && restarts[j] == id;
      }
    } else {
      OthersUntouched(kept, after, order, env);
    }
  }

  /** The task whose start fails, and the new tasks behind it. */
  ghost predicate NotStarted(
      tasks: Tasks, restarts: seq<TaskId>, starts: seq<TaskId>, id: TaskId, env: Env)
  {
    var order := restarts + starts;
    exists j :: 0 <= j < |order| && order[j] == id
      && if Fails(tasks, order[..j], env) then id in starts else FailsAt(tasks, id, env)
  }

  /** Exactly which enabled tasks an aborted reload leaves without a running instance. */
  lemma MissingAfterReloadIff(
      running: Tasks, before: Tasks, after: Tasks, restarts: seq<TaskId>, starts: seq<TaskId>, env: Env, id: TaskId)
    requires GenuineOrder(running, before, after, restarts, starts) && id in Enabled(after)
    ensures id !in AfterReload(running, before, after, restarts, starts, env)
       <==> NotStarted(after, restarts, starts, id, env)
  {
    var kept, order := running - RemovedOrDisabled(running, after), restarts + starts;
    if id in order {
      DistinctInTwo(restarts, starts);
      var j :| 0 <= j < |order| && order[j] == id;
      StartAllAt(kept, after, order, j, env);
      assert forall k :: 0 <= k < |order| && order[k] == id ==> k == j;
    } else {
      OthersUntouched(kept, after, order, env);
    }
  }

  /** The first start that fails. */
  lemma {:induction false} FirstFailure(tasks: Tasks, order: seq<TaskId>, env: Env) returns (j: nat)
    requires Fails(tasks, order, env)
    ensures j < |order| && FailsAt(tasks, order[j], env) && !Fails(tasks, order[..j], env)
  {
    var p := order[..|order| - 1];
    assert forall k :: 0 <= k < |p| ==> p[k] == order[k];
    if Fails(tasks, p, env) {
      j := FirstFailure(tasks, p, env);
      assert p[..j] == order[..j];
    } else {
      var i :| 0 <= i < |order| && FailsAt(tasks, order[i], env);
      j := i;
      assert i == |p|;
    }
  }

  /** A reload ends with exactly the enabled tasks, in their current definitions, iff no start fails. */
  lemma ReloadCompletesIff(
      running: Tasks, before: Tasks, after: Tasks, restarts: seq<TaskId>, starts: seq<TaskId>, env: Env)
    requires UpToDate(running, before) && GenuineOrder(running, before, after, restarts, starts)
    ensures AfterReload(running, before, after, restarts, starts, env) == Enabled(after)
       <==> !Fails(after, restarts + starts, env)
  {
    if Fails(after, restarts + starts, env) {
      var j := FirstFailure(after, restarts + starts, env);
      var id := (restarts + starts)[j];
      assert id in restarts || id in starts;
      assert NotStarted(after, restarts, starts, id, env);
      MissingAfterReloadIff(running, before, after, restarts, starts, env, id);
    } else {
      AllStarted(running, before, after, restarts, starts, env);
      ReconciledIsEnabledIff(running, before, after);
    }
  }

  // ---------------------------------------------------------------- whole runs

  datatype Event =
    | Start(id: TaskId, env: Env)
    | Stop(id: TaskId)
    | Reloaded(tasks: Tasks, restarts: seq<TaskId>, starts: seq<TaskId>, env: Env)

  /** The current tasks and the running ones. */
  datatype World = World(tasks: Tasks, running: Tasks)

  /** A manual start leaves the old instance alone if the folder is missing. */
  function Step(w: World, e: Event): World {
    match e
    case Start(id, env) =>
      if id !in w.tasks || !env.isDir(w.tasks[id].monitorFolder) then w
      else if env.observes(w.tasks[id]) then w.(running := w.running[id := w.tasks[id]])
      else w.(running := w.running - {id})
    case Stop(id) => w.(running := w.running - {id})
    case Reloaded(tasks, restarts, starts, env) =>
      World(tasks, AfterReload(w.running, w.tasks, tasks, restarts, starts, env))
  }

  function Run(w: World, es: seq<Event>): World {
    if es == [] then w else Step(Run(w, es[..|es| - 1]), es[|es| - 1])
  }

  /** Each reload meets the tasks it has to restart and to start, in some order. */
  ghost predicate Genuine(w: World, es: seq<Event>) {
    es == [] ||
    var p, e := es[..|es| - 1], es[|es| - 1];
    && Genuine(w, p)
    && (e.Reloaded? ==> GenuineOrder(Run(w, p).running, Run(w, p).tasks, e.tasks, e.restarts, e.starts))
  }

  predicate Completes(e: Event) {
    e.Reloaded? ==> !Fails(e.tasks, e.restarts + e.starts, e.env)
  }

  /** Whatever manual starts, stops and complete reloads came before, a complete reload converges. */
  lemma {:induction false} ReloadsConverge(w: World, es: seq<Event>)
    requires UpToDate(w.running, w.tasks) && Genuine(w, es) && forall e :: e in es ==> Completes(e)
    ensures UpToDate(Run(w, es).running, Run(w, es).tasks)
    ensures es != [] && es[|es| - 1].Reloaded? ==> Run(w, es).running == Enabled(es[|es| - 1].tasks)
  {
    if es != [] {
      var v, e := Run(w, es[..|es| - 1]), es[|es| - 1];
      assert e in es;
      ReloadsConverge(w, es[..|es| - 1]);
      if e.Reloaded? {
        AllStarted(v.running, v.tasks, e.tasks, e.restarts, e.starts, e.env);
        ReconciledIsEnabledIff(v.running, v.tasks, e.tasks);
      }
    }
  }

  /** Nobody starts or stops the task by hand, and its definition stays what it is. */
  predicate LeavesAlone(e: Event, id: TaskId, t: TaskDef) {
    match e
    case Start(other, _) => other != id
    case Stop(other) => other != id
    case Reloaded(tasks, _, _, _) => id in tasks && tasks[id] == t
  }

  /** A stale task stays stale through all reloads that keep its new definition, complete or not. */
  lemma {:induction false} StaleTaskStaysStale(w: World, id: TaskId, es: seq<Event>)
    requires Stale(w.running, w.tasks, id) && w.tasks[id].enabled
    requires Genuine(w, es) && forall e :: e in es ==> LeavesAlone(e, id, w.tasks[id])
    ensures var v := Run(w, es);
      id in v.running && v.running[id] == w.running[id] && id in v.tasks && v.tasks[id] == w.tasks[id]
  {
    if es != [] {
      var v, e := Run(w, es[..|es| - 1]), es[|es| - 1];
      assert e in es;
      StaleTaskStaysStale(w, id, es[..|es| - 1]);
      if e.Reloaded? {
        assert id !in e.restarts + e.starts;
        OthersUntouched(v.running - RemovedOrDisabled(v.running, e.tasks), e.tasks, e.restarts + e.starts, e.env);
      }
    }
  }

  /**
   How it comes about: two running tasks are changed, and the new folder of the one that is met
   first is missing. It is stopped and the reload ends there, so the other one goes on in its old
   definition, and does so through every later reload that keeps the new one.
   */
  lemma FailedStartLeavesStaleTask(
      w: World, tasks: Tasks, a: TaskId, b: TaskId, env: Env, later: seq<Event>)
    requires a != b && w.tasks.Keys == {a, b} && w.running == w.tasks && tasks.Keys == {a, b}
    requires tasks[a] != w.tasks[a] && tasks[b] != w.tasks[b] && tasks[a].enabled && tasks[b].enabled
    requires !env.isDir(tasks[a].monitorFolder)
    requires Genuine(Step(w, Reloaded(tasks, [a, b], [], env)), later)
    requires forall e :: e in later ==> LeavesAlone(e, b, tasks[b])
    ensures Genuine(w, [Reloaded(tasks, [a, b], [], env)])
    ensures var v := Step(w, Reloaded(tasks, [a, b], [], env));
      && a !in v.running && b in v.running && v.running[b] == w.tasks[b]
      && b in Run(v, later).running && Run(v, later).running[b] == w.tasks[b]
  {
    var e := Reloaded(tasks, [a, b], [], env);
    BothChanged(w, tasks, a, b);
    assert [e][..0] == [];
    FirstFails(w.running - RemovedOrDisabled(w.running, tasks), tasks, a, b, env);
    assert [a, b] + [] == [a, b];
    StaleTaskStaysStale(Step(w, e), b, later);
  }

  lemma BothChanged(w: World, tasks: Tasks, a: TaskId, b: TaskId)
    requires a != b && w.tasks.Keys == {a, b} && w.running == w.tasks && tasks.Keys == {a, b}
    requires tasks[a] != w.tasks[a] && tasks[b] != w.tasks[b] && tasks[a].enabled && tasks[b].enabled
    ensures GenuineOrder(w.running, w.tasks, tasks, [a, b], [])
  {
    assert Changed(w.running, w.tasks, tasks) == {a, b};
    assert RemovedOrDisabled(w.running, tasks) == {} && New(w.running, tasks) == {};
  }

  lemma FirstFails(running: Tasks, tasks: Tasks, a: TaskId, b: TaskId, env: Env)
    requires a in tasks && !Startable(tasks[a], env)
    ensures StartAll(running, tasks, [a, b], env) == running - {a}
  {
    assert [a, b][..0] == [];
    StartStep(running, tasks, [a, b], 0, env);
  }
}
