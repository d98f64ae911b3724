/**
 The claim protocol and the loads of one file together: a worker that has started the file
 commits the loads of its attempt one by one, and reports success only after the last of them.
 Claims, starts, loads, marks and crashes of all instances interleave in any way, with each other
 and with the loads of other files into the same tables.
 */
module Delivery {
  import opened Wrappers
  import opened Records
  import opened Loader
  import opened ExactlyOnce
  import ClaimProtocol
  import ProcessedFiles
  import Pipeline

  /** What an active worker is doing: the how-manieth start of the file it is, and its loads so far. */
  datatype Attempt = Attempt(number: nat, done: nat)

  /**
   `furthest` is how many loads the furthest attempt has committed. `serial` lists every load of
   the file at its first commit and every load of another file, `foreign` the latter alone, and
   `repeated` holds the keyless rows of all loads of the file that were committed again.
   */
  datatype World<K(==)> = World(
    row: ClaimProtocol.World,
    attempts: map<ClaimProtocol.Worker, Attempt>,
    tables: Tables<K>,
    furthest: nat,
    serial: seq<Load>,
    foreign: seq<Load>,
    repeated: multiset<(string, Stored)>)

  datatype Event =
    | Protocol(event: ClaimProtocol.Event)
    | LoadNext(loader: ClaimProtocol.Worker)
    | LoadOther(load: Load)

  /** The loads of each attempt; its clock decides where undated rows go. */
  type Plans = nat -> seq<Load>

  function Start<K(==)>(db: Tables<K>): World<K> {
    World(ClaimProtocol.INITIAL, map[], db, 0, [], [], multiset{})
  }

  /** A worker marks success only if its pipeline came to the end. */
  predicate Sends<K(==)>(w: World<K>, plans: Plans, e: ClaimProtocol.Event) {
    e.Finish? && e.mark.MarkSuccess? ==>
      e.finisher in w.attempts && w.attempts[e.finisher].done == |plans(w.attempts[e.finisher].number)|
  }

  predicate CanLoad<K(==)>(w: World<K>, plans: Plans, worker: ClaimProtocol.Worker) {
    && worker in w.row.active && worker in w.attempts
    && w.attempts[worker].done < |plans(w.attempts[worker].number)|
  }

  function LoadStep<K(==)>(
      w: World<K>, plans: Plans, worker: ClaimProtocol.Worker, keyOf: KeyOf<K>): World<K>
    requires CanLoad(w, plans, worker)
  {
    var a := w.attempts[worker];
    var load := plans(a.number)[a.done];
    w.(attempts := w.attempts[worker := Attempt(a.number, a.done + 1)],
       tables := Commit(w.tables, load, keyOf),
       furthest := if a.done < w.furthest then w.furthest else a.done + 1,
       serial := if a.done < w.furthest then w.serial else w.serial + [load],
       repeated := w.repeated + (if a.done < w.furthest then KeylessOf(load, keyOf) else multiset{}))
  }

  function Step<K(==)>(w: World<K>, plans: Plans, e: Event, keyOf: KeyOf<K>): World<K> {
    match e
    case Protocol(pe) =>
      if !Sends(w, plans, pe) then w
      else
        var row := ClaimProtocol.Step(w.row, pe);
        if pe.MarkProcessing? && row.starts > w.row.starts
        then w.(row := row, attempts := w.attempts[pe.worker := Attempt(row.starts, 0)])
        else w.(row := row)
    case LoadNext(worker) => if CanLoad(w, plans, worker) then LoadStep(w, plans, worker, keyOf) else w
    case LoadOther(load) =>
      w.(tables := Commit(w.tables, load, keyOf), serial := w.serial + [load], foreign := w.foreign + [load])
  }

  function Run<K(==)>(db: Tables<K>, plans: Plans, es: seq<Event>, keyOf: KeyOf<K>): World<K> {
    if es == [] then Start(db)
    else Step(Run(db, plans, es[..|es| - 1], keyOf), plans, es[|es| - 1], keyOf)
  }

  /** The statements that were sent. */
  function Sent<K(==)>(db: Tables<K>, plans: Plans, es: seq<Event>, keyOf: KeyOf<K>)
    : seq<ClaimProtocol.Event>
  {
    if es == [] then []
    else
      var p, e := es[..|es| - 1], es[|es| - 1];
      var before := Sent(db, plans, p, keyOf);
      if e.Protocol? && Sends(Run(db, plans, p, keyOf), plans, e.event) then before + [e.event] else before
  }

  lemma RowStep<K>(w: World<K>, plans: Plans, e: Event, keyOf: KeyOf<K>)
    ensures Step(w, plans, e, keyOf).row
         == if e.Protocol? && Sends(w, plans, e.event) then ClaimProtocol.Step(w.row, e.event) else w.row
  {
  }

  /** The row goes through a run of the claim protocol, so all that holds for its runs holds here. */
  lemma {:induction false} RowFollowsProtocol<K>(
      db: Tables<K>, plans: Plans, es: seq<Event>, keyOf: KeyOf<K>)
    ensures Run(db, plans, es, keyOf).row == ClaimProtocol.Run(ClaimProtocol.INITIAL, Sent(db, plans, es, keyOf))
  {
    if es != [] {
      var p, e := es[..|es| - 1], es[|es| - 1];
      RowFollowsProtocol(db, plans, p, keyOf);
      RowStep(Run(db, plans, p, keyOf), plans, e, keyOf);
      if e.Protocol? && Sends(Run(db, plans, p, keyOf), plans, e.event) {
        ClaimProtocol.RunLast(ClaimProtocol.INITIAL, Sent(db, plans, p, keyOf), e.event);
      }
    }
  }

  predicate Succeeded<K(==)>(w: World<K>) {
    ClaimProtocol.InStatus(w.row, ProcessedFiles.Success)
  }

  /**
   The tables are those of a serial run, which holds the file's loads as far as the furthest
   attempt, and SUCCESS means to its end.
   */
  ghost predicate DeliveryInv<K>(w: World<K>, db: Tables<K>, plan: seq<Load>, keyOf: KeyOf<K>) {
    && w.furthest <= |plan|
    && IsRun(w.tables, db, w.serial, w.repeated, keyOf)
    && IsMerge(w.serial, plan[..w.furthest], w.foreign)
    && (forall worker :: worker in w.attempts ==> w.attempts[worker].done <= w.furthest)
    && (Succeeded(w) ==> w.furthest == |plan|)
    && (PlanKeyed(plan, keyOf) ==> w.repeated == multiset{})
  }

  lemma RepeatKeepsInv<K>(
      w: World<K>, db: Tables<K>, plans: Plans, plan: seq<Load>, worker: ClaimProtocol.Worker, keyOf: KeyOf<K>)
    requires DeliveryInv(w, db, plan, keyOf) && CanLoad(w, plans, worker)
    requires plans(w.attempts[worker].number) == plan && w.attempts[worker].done < w.furthest
    ensures DeliveryInv(LoadStep(w, plans, worker, keyOf), db, plan, keyOf)
  {
    var load := plan[w.attempts[worker].done];
    assert load in plan[..w.furthest];
    MergeHasOwn(w.serial, plan[..w.furthest], w.foreign, load);
    CommitRepeated(w.tables, db, w.serial, w.repeated, load, keyOf);
    if PlanKeyed(plan, keyOf) {
      assert load in plan;
      NoKeylessIff(load.table, StoredRows(load.rows), keyOf);
    }
  }

  lemma AdvanceKeepsInv<K>(
      w: World<K>, db: Tables<K>, plans: Plans, plan: seq<Load>, worker: ClaimProtocol.Worker, keyOf: KeyOf<K>)
    requires DeliveryInv(w, db, plan, keyOf) && CanLoad(w, plans, worker)
    requires plans(w.attempts[worker].number) == plan && w.attempts[worker].done == w.furthest
    ensures DeliveryInv(LoadStep(w, plans, worker, keyOf), db, plan, keyOf)
  {
    var n := w.furthest;
    CommitNext(w.tables, db, w.serial, w.repeated, plan[n], keyOf);
    MergeOwn(w.serial, plan[..n], w.foreign, plan[n]);
    assert plan[..n] + [plan[n]] == plan[..n + 1];
    assert w.repeated + multiset{} == w.repeated;
  }

  lemma OtherKeepsInv<K>(
      w: World<K>, db: Tables<K>, plans: Plans, plan: seq<Load>, load: Load, keyOf: KeyOf<K>)
    requires DeliveryInv(w, db, plan, keyOf)
    ensures DeliveryInv(Step(w, plans, LoadOther(load), keyOf), db, plan, keyOf)
  {
    CommitNext(w.tables, db, w.serial, w.repeated, load, keyOf);
    MergeForeign(w.serial, plan[..w.furthest], w.foreign, load);
  }

  lemma ProtocolKeepsInv<K>(
      w: World<K>, db: Tables<K>, plans: Plans, plan: seq<Load>, e: ClaimProtocol.Event, keyOf: KeyOf<K>)
    requires DeliveryInv(w, db, plan, keyOf) && Sends(w, plans, e)
    requires forall n :: plans(n) == plan
    ensures DeliveryInv(Step(w, plans, Protocol(e), keyOf), db, plan, keyOf)
  {
  }

  lemma {:induction false} RunKeepsInv<K>(
      db: Tables<K>, plans: Plans, plan: seq<Load>, es: seq<Event>, keyOf: KeyOf<K>)
    requires forall n :: plans(n) == plan
    ensures DeliveryInv(Run(db, plans, es, keyOf), db, plan, keyOf)
  {
    if es == [] {
      assert plan[..0] == [];
    } else {
      var p, e := es[..|es| - 1], es[|es| - 1];
      var w := Run(db, plans, p, keyOf);
      RunKeepsInv(db, plans, plan, p, keyOf);
      match e
      case Protocol(pe) =>
        if Sends(w, plans, pe) {
          ProtocolKeepsInv(w, db, plans, plan, pe, keyOf);
        }
      case LoadNext(worker) =>
        if CanLoad(w, plans, worker) {
          if w.attempts[worker].done < w.furthest {
            RepeatKeepsInv(w, db, plans, plan, worker, keyOf);
          } else {
            AdvanceKeepsInv(w, db, plans, plan, worker, keyOf);
          }
        }
      case LoadOther(load) => OtherKeepsInv(w, db, plans, plan, load, keyOf);
    }
  }

  /** Every row of the plan is in the tables, or one that came before under its key. */
  ghost predicate Holds<K>(tables: Tables<K>, db: Tables<K>, serial: seq<Load>, plan: seq<Load>, keyOf: KeyOf<K>) {
    forall load, row :: load in plan && row in StoredRows(load.rows) ==>
      Kept(tables, db, serial, load.table, row, keyOf)
  }

  /**
   In every run, whatever is claimed, taken over, crashed or repeated, and whatever other files
   load meanwhile: once the row is SUCCESS every row of the file is in the tables, and they are
   those of a serial run with the whole file in it once, up to keyless rows committed again, and
   exactly those if every row of the file has its key.
   */
  lemma SuccessMeansLoaded<K>(db: Tables<K>, plans: Plans, plan: seq<Load>, es: seq<Event>, keyOf: KeyOf<K>)
    requires forall n :: plans(n) == plan
    ensures var w := Run(db, plans, es, keyOf);
      Succeeded(w) ==>
        && Holds(w.tables, db, w.serial, plan, keyOf)
        && IsMerge(w.serial, plan, w.foreign)
        && IsRun(w.tables, db, w.serial, w.repeated, keyOf)
        && (PlanKeyed(plan, keyOf) ==> w.tables == RunAll(db, w.serial, keyOf))
  {
    RunKeepsInv(db, plans, plan, es, keyOf);
    var w := Run(db, plans, es, keyOf);
    if Succeeded(w) {
      assert plan[..|plan|] == plan;
      forall load, row | load in plan && row in StoredRows(load.rows)
        ensures Kept(w.tables, db, w.serial, load.table, row, keyOf)
      {
        MergeHasOwn(w.serial, plan, w.foreign, load);
        RunHasRow(w.tables, db, w.serial, w.repeated, load, row, keyOf);
      }
    }
  }

  lemma {:induction false} NothingForeign<K>(db: Tables<K>, plans: Plans, es: seq<Event>, keyOf: KeyOf<K>)
    requires forall e :: e in es ==> !e.LoadOther?
    ensures Run(db, plans, es, keyOf).foreign == []
  {
    if es != [] {
      assert es[|es| - 1] in es;
      NothingForeign(db, plans, es[..|es| - 1], keyOf);
    }
  }

  /** The same for a file: its rows name their own months, so every attempt has the same loads. */
  lemma SuccessfulFileIsLoadedOnce<K>(
      db: Tables<K>, batches: seq<seq<Record>>, job: Pipeline.Job, clocks: nat -> nat -> nat -> string,
      es: seq<Event>, keyOf: KeyOf<K>)
    requires Pipeline.FileDated(batches, job) && PlanKeyed(Pipeline.Plan(batches, job), keyOf)
    ensures var plans := (n: nat) => Pipeline.Plan(batches, job.(clock := clocks(n)));
      var w := Run(db, plans, es, keyOf);
      Succeeded(w) ==>
        && w.tables == RunAll(db, w.serial, keyOf)
        && IsMerge(w.serial, Pipeline.Plan(batches, job), w.foreign)
        && ((forall e :: e in es ==> !e.LoadOther?) ==> w.serial == Pipeline.Plan(batches, job))
  {
    var plans := (n: nat) => Pipeline.Plan(batches, job.(clock := clocks(n)));
    forall n ensures plans(n) == Pipeline.Plan(batches, job) {
      Pipeline.DatedFileHasOnePlan(batches, job, clocks(n));
    }
    SuccessMeansLoaded(db, plans, Pipeline.Plan(batches, job), es, keyOf);
    var w := Run(db, plans, es, keyOf);
    if Succeeded(w) && forall e :: e in es ==> !e.LoadOther? {
      NothingForeign(db, plans, es, keyOf);
      MergeAlone(w.serial, Pipeline.Plan(batches, job));
    }
  }

  lemma RunNext<K>(db: Tables<K>, plans: Plans, es: seq<Event>, e: Event, keyOf: KeyOf<K>)
    ensures Run(db, plans, es + [e], keyOf) == Step(Run(db, plans, es, keyOf), plans, e, keyOf)
  {
    assert (es + [e])[..|es|] == es;
  }

  /** A worker that has started the file for the first time and committed n of its loads. */
  predicate IsLoading<K(==)>(w: World<K>, n: nat) {
    && ClaimProtocol.InStatus(w.row, ProcessedFiles.Processing)
    && 0 in w.row.active && 0 in w.attempts && w.attempts[0] == Attempt(1, n)
  }

  lemma {:induction false} LoadsHappen<K>(
      db: Tables<K>, plans: Plans, instance: ProcessedFiles.Instance, n: nat, keyOf: KeyOf<K>)
    returns (es: seq<Event>)
    requires n <= |plans(1)|
    ensures IsLoading(Run(db, plans, es, keyOf), n)
  {
    if n == 0 {
      var c := ProcessedFiles.Claim(instance, 0, 600, 3);
      var claim := Protocol(ClaimProtocol.TryClaim(c, ProcessedFiles.LeftToRight));
      var start := Protocol(ClaimProtocol.MarkProcessing(0, instance));
      RunNext(db, plans, [], claim, keyOf);
      RunNext(db, plans, [] + [claim], start, keyOf);
      es := [] + [claim] + [start];
    } else {
      var p := LoadsHappen(db, plans, instance, n - 1, keyOf);
      RunNext(db, plans, p, LoadNext(0), keyOf);
      es := p + [LoadNext(0)];
    }
  }

  /** And every file can be delivered: there is a run of one worker that ends in SUCCESS. */
  lemma DeliveryHappens<K>(db: Tables<K>, plans: Plans, instance: ProcessedFiles.Instance, keyOf: KeyOf<K>)
    returns (es: seq<Event>)
    ensures Succeeded(Run(db, plans, es, keyOf))
  {
    var p := LoadsHappen(db, plans, instance, |plans(1)|, keyOf);
    var finish := Protocol(ClaimProtocol.Finish(0, ClaimProtocol.MarkSuccess));
    RunNext(db, plans, p, finish, keyOf);
    es := p + [finish];
  }
}
