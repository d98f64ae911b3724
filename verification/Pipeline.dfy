/**
 The ETL pipeline over a stream of batches: transform, filter, route, load. The sandboxed
 transformer is an arbitrary function from a batch to rows or an exception, where None marks
 a row that was filtered out.
 */
module Pipeline {
  import opened Wrappers
  import opened Records
  import opened Loader
  import opened ExactlyOnce
  import opened TableRouter
  import opened Extractor

  datatype Transformed = Rows(rows: seq<Option<Record>>) | Raised(exn: Exn)

  /** The clock is given per batch and row: clock(i)(j) is the month when row j of batch i is routed. */
  datatype Job = Job(
    transform: seq<Record> -> Transformed,
    routing: RoutingConfig,
    clock: nat -> nat -> string)

  /** What goes wrong at the k-th group of a run, creating its table or loading its rows. */
  datatype Faults = Faults(create: nat -> Option<Exn>, load: nat -> Option<(nat, DbError)>)

  datatype PipelineStatus = Success | Failed | Skipped | Retry

  /** `score` is that of the quality report, if there is one. */
  datatype PipelineResult = PipelineResult(status: PipelineStatus, counters: Counters, score: Option<real>)

  function StatusOf(e: Exn): PipelineStatus {
    match e
    case SkipFile => Skipped
    case Retryable => Retry
    case FatalError => Failed
    case OtherError => Failed
  }

  /** What the status of a result says about how the run ended. */
  predicate Tells(status: PipelineStatus, ending: Option<Exn>) {
    && (status.Success? <==> ending == None)
    && (status.Skipped? <==> ending == Some(Exn.SkipFile))
    && (status.Retry? <==> ending == Some(Exn.Retryable))
    && (status.Failed? <==> ending == Some(Exn.FatalError) || ending == Some(Exn.OtherError))
  }

  lemma StatusTells(ending: Option<Exn>)
    ensures Tells(match ending case None => PipelineStatus.Success case Some(e) => StatusOf(e), ending)
  {
  }

  function Valid(outs: seq<Option<Record>>): seq<Record> {
    if outs == [] then []
    else
      var rest := Valid(outs[..|outs| - 1]);
      match outs[|outs| - 1] case None => rest case Some(r) => rest + [r]
  }

  /** The rows of the batch whose output is None or missing. */
  function Errors(batch: seq<Record>, outs: seq<Option<Record>>): seq<Record> {
    if batch == [] then []
    else
      var n := |batch| - 1;
      if n < |outs| && outs[n].Some? then Errors(batch[..n], outs) else Errors(batch[..n], outs) + [batch[n]]
  }

  function Outputs(batch: seq<Record>, job: Job): seq<Option<Record>> {
    match job.transform(batch) case Rows(outs) => outs case Raised(_) => []
  }

  function AllValid(batches: seq<seq<Record>>, job: Job): seq<Record> {
    if batches == [] then []
    else AllValid(batches[..|batches| - 1], job) + Valid(Outputs(batches[|batches| - 1], job))
  }

  function AllErrors(batches: seq<seq<Record>>, job: Job): seq<Record> {
    if batches == [] then []
    else
      var last := batches[|batches| - 1];
      AllErrors(batches[..|batches| - 1], job) + Errors(last, Outputs(last, job))
  }

  function BatchPlan(batch: seq<Record>, i: nat, job: Job): seq<Load> {
    BatchLoads(Valid(Outputs(batch, job)), job.routing, job.clock(i))
  }

  /** All loads of a file, in order. */
  function Plan(batches: seq<seq<Record>>, job: Job): seq<Load> {
    if batches == [] then []
    else
      var n := |batches| - 1;
      Plan(batches[..n], job) + BatchPlan(batches[n], n, job)
  }

  predicate LoadFails(load: Load, fault: Option<(nat, DbError)>) {
    fault.Some? && fault.value.0 * CHUNK_SIZE < |load.rows|
  }

  function Or(a: Option<Exn>, b: Option<Exn>): Option<Exn> { if a.Some? then a else b }

  /** What creating the table of the k-th group of a run, or loading it, raises. */
  function FaultOf(load: Load, k: nat, faults: Faults): Option<Exn> {
    Or(faults.create(k),
       if LoadFails(load, faults.load(k))
       then Some(if faults.load(k).value.1.Transient? then Retryable else FatalError) else None)
  }

  /** The first exception of these groups, counted from `start`. */
  function GroupFault(loads: seq<Load>, start: nat, faults: Faults): Option<Exn> {
    if loads == [] then None
    else
      var n := |loads| - 1;
      Or(GroupFault(loads[..n], start, faults), FaultOf(loads[n], start + n, faults))
  }

  function BatchFault(batch: seq<Record>, i: nat, job: Job, start: nat, faults: Faults): Option<Exn> {
    match job.transform(batch)
    case Raised(e) => Some(e)
    case Rows(_) => GroupFault(BatchPlan(batch, i, job), start, faults)
  }

  /** The first exception of a whole run, before that of the stream itself. */
  function FirstFault(batches: seq<seq<Record>>, job: Job, faults: Faults): Option<Exn> {
    if batches == [] then None
    else
      var n := |batches| - 1;
      Or(FirstFault(batches[..n], job, faults),
         BatchFault(batches[n], n, job, |Plan(batches[..n], job)|, faults))
  }

  /** The counters of a result, the error rows gathered, and the number of committed loads. */
  datatype Counters = Counters(raw: nat, valid: nat, errors: int, errorRows: seq<Record>, loads: nat)

  const NO_ROWS := Counters(0, 0, 0, [], 0)

  /** How many of these groups are committed before the first fault among them. */
  function Committed(loads: seq<Load>, start: nat, faults: Faults): nat {
    if loads == [] then 0
    else
      var n := |loads| - 1;
      Committed(loads[..n], start, faults) + (if GroupFault(loads, start, faults).None? then 1 else 0)
  }

  /** A round counts its rows first; a transformer that raises leaves it at that. */
  function RoundCounters(c: Counters, batch: seq<Record>, i: nat, job: Job, faults: Faults): Counters {
    match job.transform(batch)
    case Raised(_) => c.(raw := c.raw + |batch|)
    case Rows(outs) =>
      Counters(c.raw + |batch|, c.valid + |Valid(outs)|, c.errors + (|batch| - |Valid(outs)|),
               c.errorRows + Errors(batch, outs), c.loads + Committed(BatchPlan(batch, i, job), c.loads, faults))
  }

  /** The counters after a run, whether it gets to the end or not. */
  function CountersOf(batches: seq<seq<Record>>, job: Job, faults: Faults): Counters {
    if batches == [] then NO_ROWS
    else
      var n := |batches| - 1;
      var c := CountersOf(batches[..n], job, faults);
      if FirstFault(batches[..n], job, faults).Some? then c else RoundCounters(c, batches[n], n, job, faults)
  }

  /** The rows of the batch on which the transformer raised, if that ended the run. */
  function RaisedRows(batches: seq<seq<Record>>, job: Job, faults: Faults): nat {
    if batches == [] then 0
    else
      var n := |batches| - 1;
      if FirstFault(batches[..n], job, faults).Some? then RaisedRows(batches[..n], job, faults)
      else if job.transform(batches[n]).Raised? then |batches[n]| else 0
  }

  /** The counters of a run without an exception. */
  predicate Tally(batches: seq<seq<Record>>, job: Job, c: Counters) {
    && c.raw == |Flatten(batches)|
    && c.valid == |AllValid(batches, job)|
    && c.raw == c.valid + c.errors
    && c.errorRows == AllErrors(batches, job)
    && c.loads == |Plan(batches, job)|
  }

  lemma {:induction false} FewErrors(batch: seq<Record>, outs: seq<Option<Record>>)
    ensures |Errors(batch, outs)| <= |batch|
  {
    if batch != [] {
      FewErrors(batch[..|batch| - 1], outs);
    }
  }

  lemma PlanLast(batches: seq<seq<Record>>, i: nat, job: Job)
    requires i < |batches|
    ensures Plan(batches[..i + 1], job)
         == Plan(batches[..i], job) + BatchPlan(batches[i], i, job)
    ensures AllValid(batches[..i + 1], job) == AllValid(batches[..i], job) + Valid(Outputs(batches[i], job))
    ensures AllErrors(batches[..i + 1], job)
         == AllErrors(batches[..i], job) + Errors(batches[i], Outputs(batches[i], job))
    ensures Flatten(batches[..i + 1]) == Flatten(batches[..i]) + batches[i]
  {
    assert batches[..i + 1][..i] == batches[..i];
  }

  lemma {:induction false} PlanGrows(batches: seq<seq<Record>>, i: nat, job: Job)
    requires i <= |batches|
    ensures Plan(batches[..i], job) <= Plan(batches, job)
    decreases |batches| - i
  {
    if i < |batches| {
      PlanLast(batches, i, job);
      PlanGrows(batches, i + 1, job);
    } else {
      assert batches[..i] == batches;
    }
  }

  ghost predicate Reached<K>(db: Tables<K>, now: Tables<K>, plan: seq<Load>, loads: int, keyOf: KeyOf<K>) {
    0 <= loads <= |plan| && now == RunAll(db, plan[..loads], keyOf)
  }

  lemma RunFurther<K>(
      db: Tables<K>, now: Tables<K>, after: Tables<K>, before: seq<Load>, group: seq<Load>, both: seq<Load>,
      keyOf: KeyOf<K>)
    requires now == RunAll(db, before, keyOf) && after == RunAll(now, group, keyOf) && both == before + group
    ensures after == RunAll(db, both, keyOf)
  {
    RunInTwo(db, before, group, keyOf);
  }

  lemma ReachFurther<K>(
      db: Tables<K>, now: Tables<K>, after: Tables<K>, before: seq<Load>, group: seq<Load>, both: seq<Load>,
      loads: nat, next: nat, keyOf: KeyOf<K>)
    requires both == before + group && loads == |before| && loads <= next <= loads + |group|
    requires Reached(db, now, before, loads, keyOf) && after == RunAll(now, group[..next - loads], keyOf)
    ensures Reached(db, after, both, next, keyOf)
  {
    AllReached(db, now, before, loads, keyOf);
    assert both[..next] == before + group[..next - loads];
    RunFurther(db, now, after, before, group[..next - loads], both[..next], keyOf);
  }

  lemma ReachNext<K>(db: Tables<K>, now: Tables<K>, loads: seq<Load>, n: nat, keyOf: KeyOf<K>)
    requires n < |loads| && Reached(db, now, loads, n, keyOf)
    ensures Reached(db, Commit(now, loads[n], keyOf), loads, n + 1, keyOf)
  {
    RunLast(db, loads, n, keyOf);
  }

  lemma AllReached<K>(db: Tables<K>, now: Tables<K>, plan: seq<Load>, loads: int, keyOf: KeyOf<K>)
    requires Reached(db, now, plan, loads, keyOf) && loads == |plan|
    ensures now == RunAll(db, plan, keyOf)
  {
    assert plan[..loads] == plan;
  }

  /** A prefix of a prefix of the plan. */
  lemma ReachedLater<K>(
      db: Tables<K>, now: Tables<K>, plan: seq<Load>, longer: seq<Load>, loads: int, keyOf: KeyOf<K>)
    requires Reached(db, now, plan, loads, keyOf) && plan <= longer
    ensures Reached(db, now, longer, loads, keyOf)
  {
    assert longer[..loads] == plan[..loads];
  }

  lemma {:induction false} GroupFaultKeeps(loads: seq<Load>, n: nat, start: nat, faults: Faults)
    requires n <= |loads| && GroupFault(loads[..n], start, faults).Some?
    ensures GroupFault(loads, start, faults) == GroupFault(loads[..n], start, faults)
    decreases |loads| - n
  {
    if n < |loads| {
      assert loads[..n + 1][..n] == loads[..n];
      GroupFaultKeeps(loads, n + 1, start, faults);
    } else {
      assert loads[..n] == loads;
    }
  }

  lemma {:induction false} CommittedKeeps(loads: seq<Load>, n: nat, start: nat, faults: Faults)
    requires n <= |loads| && GroupFault(loads[..n], start, faults).Some?
    ensures Committed(loads, start, faults) == Committed(loads[..n], start, faults)
    decreases |loads| - n
  {
    if n < |loads| {
      assert loads[..n + 1][..n] == loads[..n];
      CommittedKeeps(loads, n + 1, start, faults);
    } else {
      assert loads[..n] == loads;
    }
  }

  /** The groups before the first fault are committed, all of them if there is none. */
  lemma {:induction false} CommittedFits(loads: seq<Load>, start: nat, faults: Faults)
    ensures Committed(loads, start, faults) <= |loads|
    ensures GroupFault(loads, start, faults).None? <==> Committed(loads, start, faults) == |loads|
  {
    if loads != [] {
      CommittedFits(loads[..|loads| - 1], start, faults);
    }
  }

  /** The first n groups raise nothing and are committed. */
  predicate Through(loads: seq<Load>, n: nat, start: nat, faults: Faults)
    requires n <= |loads|
  {
    GroupFault(loads[..n], start, faults).None? && Committed(loads[..n], start, faults) == n
  }

  /** The groups come to this exception, if any, after so many commits. */
  predicate Ends(loads: seq<Load>, done: nat, raised: Option<Exn>, start: nat, faults: Faults) {
    raised == GroupFault(loads, start, faults) && done == Committed(loads, start, faults)
  }

  lemma ThroughAll(loads: seq<Load>, start: nat, faults: Faults)
    ensures Through(loads, 0, start, faults)
    ensures Through(loads, |loads|, start, faults) ==> Ends(loads, |loads|, None, start, faults)
  {
    assert loads[..0] == [] && loads[..|loads|] == loads;
  }

  /** The n-th group ends the run, or is committed on top of the groups before it. */
  lemma GroupStep(loads: seq<Load>, n: nat, start: nat, faults: Faults)
    requires n < |loads| && Through(loads, n, start, faults)
    ensures FaultOf(loads[n], start + n, faults).None? ==> Through(loads, n + 1, start, faults)
    ensures FaultOf(loads[n], start + n, faults).Some? ==>
      Ends(loads, n, FaultOf(loads[n], start + n, faults), start, faults)
  {
    assert loads[..n + 1][..n] == loads[..n];
    if FaultOf(loads[n], start + n, faults).Some? {
      GroupFaultKeeps(loads, n + 1, start, faults);
      CommittedKeeps(loads, n + 1, start, faults);
    }
  }

  lemma {:induction false} FirstFaultKeeps(batches: seq<seq<Record>>, n: nat, job: Job, faults: Faults)
    requires n <= |batches| && FirstFault(batches[..n], job, faults).Some?
    ensures FirstFault(batches, job, faults) == FirstFault(batches[..n], job, faults)
    ensures CountersOf(batches, job, faults) == CountersOf(batches[..n], job, faults)
    decreases |batches| - n
  {
    if n < |batches| {
      assert batches[..n + 1][..n] == batches[..n];
      FirstFaultKeeps(batches, n + 1, job, faults);
    } else {
      assert batches[..n] == batches;
    }
  }

  /** On every exit: what the counters of a run say about it. */
  lemma {:induction false} CountersAreExact(batches: seq<seq<Record>>, job: Job, faults: Faults)
    ensures var c := CountersOf(batches, job, faults);
      && c.raw == c.valid + c.errors + RaisedRows(batches, job, faults)
      && |c.errorRows| <= c.raw
      && c.loads <= |Plan(batches, job)|
      && (FirstFault(batches, job, faults).None? ==> Tally(batches, job, c))
      && (FirstFault(batches, job, faults).None? ==> RaisedRows(batches, job, faults) == 0)
  {
    if batches != [] {
      var n := |batches| - 1;
      CountersAreExact(batches[..n], job, faults);
      if FirstFault(batches[..n], job, faults).None? {
        RoundIsExact(CountersOf(batches[..n], job, faults), batches, job, faults);
      }
    }
  }

  lemma RoundIsExact(c: Counters, batches: seq<seq<Record>>, job: Job, faults: Faults)
    requires batches != [] && |c.errorRows| <= c.raw
    requires Tally(batches[..|batches| - 1], job, c)
    ensures var n := |batches| - 1;
      var next := RoundCounters(c, batches[n], n, job, faults);
      && next.raw == next.valid + next.errors + (if job.transform(batches[n]).Raised? then |batches[n]| else 0)
      && |next.errorRows| <= next.raw
      && next.loads <= |Plan(batches, job)|
      && (BatchFault(batches[n], n, job, c.loads, faults).None? ==> Tally(batches, job, next))
  {
    var n := |batches| - 1;
    FewErrors(batches[n], Outputs(batches[n], job));
    CommittedFits(BatchPlan(batches[n], n, job), c.loads, faults);
  }

  lemma RoundStep(batches: seq<seq<Record>>, i: nat, job: Job, faults: Faults, c: Counters)
    requires i < |batches| && FirstFault(batches[..i], job, faults).None?
    requires c == CountersOf(batches[..i], job, faults)
    ensures c.loads == |Plan(batches[..i], job)|
    ensures FirstFault(batches[..i + 1], job, faults) == BatchFault(batches[i], i, job, c.loads, faults)
    ensures CountersOf(batches[..i + 1], job, faults) == RoundCounters(c, batches[i], i, job, faults)
  {
    CountersAreExact(batches[..i], job, faults);
    assert batches[..i + 1][..i] == batches[..i];
  }

  /** What holds before round i: the tables, the counters and the exception so far. */
  ghost predicate RoundInv<K>(
      db: Tables<K>, now: Tables<K>, batches: seq<seq<Record>>, i: nat, job: Job, faults: Faults,
      c: Counters, raised: Option<Exn>, keyOf: KeyOf<K>)
    requires i <= |batches|
  {
    && Reached(db, now, Plan(batches[..i], job), c.loads, keyOf)
    && c == CountersOf(batches[..i], job, faults)
    && raised == FirstFault(batches[..i], job, faults)
  }

  lemma RoundReaches<K>(
      db: Tables<K>, now: Tables<K>, after: Tables<K>, batches: seq<seq<Record>>, i: nat, job: Job,
      loads: nat, next: nat, keyOf: KeyOf<K>)
    requires i < |batches| && loads <= next <= loads + |BatchPlan(batches[i], i, job)|
    requires Reached(db, now, Plan(batches[..i], job), loads, keyOf) && loads == |Plan(batches[..i], job)|
    requires after == RunAll(now, BatchPlan(batches[i], i, job)[..next - loads], keyOf)
    ensures Reached(db, after, Plan(batches[..i + 1], job), next, keyOf)
  {
    PlanStep(batches, i, job);
    ReachFurther(db, now, after, Plan(batches[..i], job), BatchPlan(batches[i], i, job), Plan(batches[..i + 1], job),
                 loads, next, keyOf);
  }

  lemma PlanStep(batches: seq<seq<Record>>, i: nat, job: Job)
    requires i < |batches|
    ensures Plan(batches[..i + 1], job) == Plan(batches[..i], job) + BatchPlan(batches[i], i, job)
  {
    PlanLast(batches, i, job);
  }

  lemma RoundsEnd<K>(
      db: Tables<K>, now: Tables<K>, batches: seq<seq<Record>>, i: nat, job: Job, faults: Faults,
      c: Counters, raised: Option<Exn>, keyOf: KeyOf<K>)
    requires i <= |batches| && RoundInv(db, now, batches, i, job, faults, c, raised, keyOf)
    requires i == |batches| || raised.Some?
    ensures raised == FirstFault(batches, job, faults) && c == CountersOf(batches, job, faults)
    ensures Reached(db, now, Plan(batches, job), c.loads, keyOf)
  {
    assert batches[..|batches|] == batches;
    PlanGrows(batches, i, job);
    ReachedLater(db, now, Plan(batches[..i], job), Plan(batches, job), c.loads, keyOf);
    if raised.Some? {
      FirstFaultKeeps(batches, i, job, faults);
    }
  }

  /** The streaming quality report: no rows are kept, so only the error rate counts. */
  function Score(errors: nat, total: nat): real
    requires total > 0
  {
    var score := 100.0 - errors as real / total as real * 60.0;
    if score < 0.0 then 0.0 else score
  }

  /** With no more errors than rows the score lies in [40, 100], and max(0, ...) never decides. */
  lemma ScoreRange(errors: nat, total: nat)
    requires errors <= total && total > 0
    ensures 40.0 <= Score(errors, total) <= 100.0
    ensures Score(errors, total) == 100.0 - errors as real / total as real * 60.0
    ensures Score(errors, total) == 40.0 <==> errors == total
    ensures Score(errors, total) == 100.0 <==> errors == 0
  {
    RateRange(errors as real, total as real, errors as real / total as real);
  }

  lemma RateRange(e: real, t: real, rate: real)
    requires 0.0 <= e <= t && 0.0 < t && rate * t == e
    ensures 0.0 <= rate <= 1.0
    ensures rate == 1.0 <==> e == t
    ensures rate == 0.0 <==> e == 0.0
  {
    assert (rate - 1.0) * t == e - t;
    assert rate > 1.0 ==> (rate - 1.0) * t > 0.0;
    assert rate < 0.0 ==> (0.0 - rate) * t > 0.0;
  }

  class ETLPipeline<K(==)> {
    const loader: BatchLoader<K>

    constructor (loader: BatchLoader<K>)
      ensures this.loader == loader
    {
      this.loader := loader;
    }

    /** Creates and loads the groups of one batch; `start` loads of the file came before. */
    method LoadGroups(
        order: seq<string>, groups: map<string, seq<Record>>, ghost loads: seq<Load>, start: nat, faults: Faults)
      returns (done: nat, raised: Option<Exn>)
      requires |order| == |loads|
      requires forall k :: 0 <= k < |order| ==> order[k] in groups && loads[k] == Load(order[k], groups[order[k]])
      modifies loader.db
      ensures Ends(loads, done, raised, start, faults)
      ensures Reached(old(loader.db.tables), loader.db.tables, loads, done, loader.keyOf)
    {
      done := 0;
      assert loads[..0] == [];
      ThroughAll(loads, start, faults);
      while done < |order|
        invariant done <= |order|
        invariant Reached(old(loader.db.tables), loader.db.tables, loads, done, loader.keyOf)
        invariant Through(loads, done, start, faults)
      {
        raised := LoadNext(order[done], groups[order[done]], loads, done, start, faults, old(loader.db.tables));
        if raised.Some? {
          return;
        }
        done := done + 1;
      }
      raised := None;
    }

    /** One round of that loop: the n-th group is loaded on top of those before it, or ends the run. */
    method LoadNext(
        table: string, rows: seq<Record>, ghost loads: seq<Load>, n: nat, start: nat, faults: Faults,
        ghost db0: Tables<K>)
      returns (raised: Option<Exn>)
      requires n < |loads| && loads[n] == Load(table, rows)
      requires Through(loads, n, start, faults) && Reached(db0, loader.db.tables, loads, n, loader.keyOf)
      modifies loader.db
      ensures raised.None? ==>
        Through(loads, n + 1, start, faults) && Reached(db0, loader.db.tables, loads, n + 1, loader.keyOf)
      ensures raised.Some? ==>
        Ends(loads, n, raised, start, faults) && Reached(db0, loader.db.tables, loads, n, loader.keyOf)
    {
      GroupStep(loads, n, start, faults);
      ReachNext(db0, loader.db.tables, loads, n, loader.keyOf);
      raised := LoadGroup(table, rows, loads[n], start + n, faults);
    }

    /** Creates and loads the k-th group of a run. An exception leaves the tables as they were. */
    method LoadGroup(table: string, rows: seq<Record>, ghost load: Load, k: nat, faults: Faults)
      returns (raised: Option<Exn>)
      requires load == Load(table, rows)
      modifies loader.db
      ensures raised == FaultOf(load, k, faults)
      ensures faults.create(k).Some? ==> raised == faults.create(k)
      ensures faults.create(k).None? ==>
        match faults.load(k)
        case Some((chunk, Transient)) => raised == if chunk * 1000 < |rows| then Some(Exn.Retryable) else None
        case Some((chunk, Permanent)) => raised == if chunk * 1000 < |rows| then Some(Exn.FatalError) else None
        case None => raised == None
      ensures loader.db.tables == if raised.Some? then old(loader.db.tables)
                                  else Commit(old(loader.db.tables), load, loader.keyOf)
    {
      raised := faults.create(k);
      if raised.Some? {
        return;
      }
      var fault := faults.load(k);
      var written := loader.LoadBatch(table, rows, if fault.Some? then Some(fault.value.0) else None);
      if written.None? {
        raised := Some(if fault.value.1.Transient? then Retryable else FatalError);
      }
    }

    /** One round of the batch loop. */
    method ProcessBatch(batch: seq<Record>, i: nat, job: Job, c: Counters, faults: Faults)
      returns (next: Counters, raised: Option<Exn>)
      modifies loader.db
      ensures next == RoundCounters(c, batch, i, job, faults)
      ensures raised == BatchFault(batch, i, job, c.loads, faults)
      ensures c.loads <= next.loads <= c.loads + |BatchPlan(batch, i, job)|
      ensures loader.db.tables
           == RunAll(old(loader.db.tables), BatchPlan(batch, i, job)[..next.loads - c.loads], loader.keyOf)
    {
      next := c.(raw := c.raw + |batch|);
      var transformed := job.transform(batch);
      if transformed.Raised? {
        return next, Some(transformed.exn);
      }
      var kept, dropped := Split(batch, transformed.rows);
      next := next.(valid := next.valid + |kept|, errors := next.errors + (|batch| - |kept|),
                    errorRows := next.errorRows + dropped);
      if kept == [] {
        return next, None;
      }
      var order, groups := GroupByTable(kept, job.routing, job.clock(i));
      var done;
      done, raised := LoadGroups(order, groups, BatchPlan(batch, i, job), c.loads, faults);
      next := next.(loads := next.loads + done);
    }

    /** One round of the batch loop as part of the run. */
    method Round(batches: seq<seq<Record>>, i: nat, job: Job, faults: Faults, c: Counters, ghost db0: Tables<K>)
      returns (next: Counters, raised: Option<Exn>)
      requires i < |batches| && c.loads == |Plan(batches[..i], job)|
      requires Reached(db0, loader.db.tables, Plan(batches[..i], job), c.loads, loader.keyOf)
      modifies loader.db
      ensures next == RoundCounters(c, batches[i], i, job, faults)
      ensures raised == BatchFault(batches[i], i, job, c.loads, faults)
      ensures Reached(db0, loader.db.tables, Plan(batches[..i + 1], job), next.loads, loader.keyOf)
    {
      ghost var now := loader.db.tables;
      next, raised := ProcessBatch(batches[i], i, job, c, faults);
      RoundReaches(db0, now, loader.db.tables, batches, i, job, c.loads, next.loads, loader.keyOf);
    }

    /** The batch loop: it ends at the first exception, or with the last batch. */
    method RunBatches(batches: seq<seq<Record>>, job: Job, faults: Faults) returns (c: Counters, raised: Option<Exn>)
      modifies loader.db
      ensures Reached(old(loader.db.tables), loader.db.tables, Plan(batches, job), c.loads, loader.keyOf)
      ensures raised == FirstFault(batches, job, faults) && c == CountersOf(batches, job, faults)
    {
      ghost var db0 := loader.db.tables;
      c, raised := NO_ROWS, None;
      var i := 0;
      while i < |batches| && raised.None?
        invariant i <= |batches|
        invariant RoundInv(db0, loader.db.tables, batches, i, job, faults, c, raised, loader.keyOf)
      {
        RoundStep(batches, i, job, faults, c);
        c, raised := Round(batches, i, job, faults, c, db0);
        i := i + 1;
      }
      RoundsEnd(db0, loader.db.tables, batches, i, job, faults, c, raised, loader.keyOf);
    }

    /**
     On every exit the tables hold exactly a prefix of the plan. If nothing is raised before the
     stream ends they hold the whole plan, even when the stream ends in an exception.
     */
    method Execute(stream: Stream, job: Job, faults: Faults) returns (result: PipelineResult)
      modifies loader.db
      ensures result.counters == CountersOf(stream.batches, job, faults)
      ensures result.counters.raw
           == result.counters.valid + result.counters.errors + RaisedRows(stream.batches, job, faults)
      ensures Reached(old(loader.db.tables), loader.db.tables, Plan(stream.batches, job), result.counters.loads,
                      loader.keyOf)
      ensures Tells(result.status, Or(FirstFault(stream.batches, job, faults), stream.failure))
      ensures FirstFault(stream.batches, job, faults).None? ==> Tally(stream.batches, job, result.counters)
      ensures result.score.Some? <==> result.counters.raw > 0
      ensures result.score.Some? ==> 40.0 <= result.score.value <= 100.0
      ensures result.score.Some? ==> result.score.value == Score(|result.counters.errorRows|, result.counters.raw)
    {
      var c, raised := RunBatches(stream.batches, job, faults);
      CountersAreExact(stream.batches, job, faults);
      if raised.None? {
        raised := stream.failure;
      }
      var status := match raised case None => PipelineStatus.Success case Some(e) => StatusOf(e);
      StatusTells(raised);
      var score := None;
      if c.raw > 0 {
        ScoreRange(|c.errorRows|, c.raw);
        score := Some(Score(|c.errorRows|, c.raw));
      }
      result := PipelineResult(status, c, score);
    }

    /**
     A file from its rows to the tables. On success nothing was lost on the way. A JSON file that
     breaks off is skipped, but what could be read of it in full batches is loaded. On every exit
     the tables are unchanged iff every row of the committed loads has a key that was taken before.
     */
    method ProcessFile(file: File, batchSize: int, job: Job, faults: Faults) returns (result: PipelineResult)
      modifies loader.db
      ensures result.status.Success? <==>
        FirstFault(FileBatches(file, batchSize), job, faults).None? && FailureOf(file).None?
      ensures result.status.Success? ==>
        && Flatten(FileBatches(file, batchSize)) == RowsIn(file)
        && loader.db.tables == RunAll(old(loader.db.tables), FilePlan(file, batchSize, job), loader.keyOf)
        && multiset(RowsOf(FilePlan(file, batchSize, job))) == multiset(AllValid(FileBatches(file, batchSize), job))
        && result.counters.raw == |RowsIn(file)| == result.counters.valid + result.counters.errors
      ensures file.Json? && file.broken && FirstFault(FileBatches(file, batchSize), job, faults).None? ==>
        && result.status.Skipped?
        && AllFull(FileBatches(file, batchSize), EffectiveSize(batchSize))
        && loader.db.tables == RunAll(old(loader.db.tables), FilePlan(file, batchSize, job), loader.keyOf)
      ensures forall k: nat :: OnlyLoadFault(FileBatches(file, batchSize), job, faults, k) ==>
        && result.counters.loads == k
        && match faults.load(k).value.1
           case Transient => result.status.Retry?
           case Permanent => result.status.Failed?
      ensures result.counters.loads <= |FilePlan(file, batchSize, job)|
      ensures loader.db.tables == old(loader.db.tables) <==>
        AllStored(old(loader.db.tables), FilePlan(file, batchSize, job)[..result.counters.loads], loader.keyOf)
    {
      var stream := Extract(file, batchSize);
      result := Execute(stream, job, faults);
      FilePlanRows(file, batchSize, job);
      forall k: nat | OnlyLoadFault(stream.batches, job, faults, k)
        ensures result.counters.loads == k
        ensures FirstFault(stream.batches, job, faults) == Some(RaisedFor(faults.load(k).value.1))
      {
        OnlyFaultEndsRun(stream.batches, job, faults, k);
      }
      PrefixChangesNothingIff(old(loader.db.tables), loader.db.tables, FilePlan(file, batchSize, job),
                              result.counters.loads, loader.keyOf);
    }

    /** The zip_longest loop over a batch and its outputs. */
    method Split(batch: seq<Record>, outs: seq<Option<Record>>) returns (kept: seq<Record>, dropped: seq<Record>)
      ensures kept == Valid(outs)
      ensures dropped == Errors(batch, outs)
    {
      kept, dropped := [], [];
      var n := if |batch| < |outs| then |outs| else |batch|;
      for i := 0 to n
        invariant kept == Valid(outs[..Capped(i, |outs|)])
        invariant dropped == Errors(batch[..Capped(i, |batch|)], outs)
      {
        if i < |outs| {
          assert outs[..i + 1][..i] == outs[..i];
        }
        if i < |batch| {
          assert batch[..i + 1][..i] == batch[..i];
        }
        if i < |outs| && outs[i].Some? {
          kept := kept + [outs[i].value];
        } else if i < |batch| {
          dropped := dropped + [batch[i]];
        }
      }
      assert outs[..|outs|] == outs && batch[..|batch|] == batch;
    }
  }

  // ---------------------------------------------------------------- conservation end to end

  function FileBatches(file: File, batchSize: int): seq<seq<Record>> {
    StreamOf(RowsIn(file), batchSize, FailureOf(file)).batches
  }

  function FilePlan(file: File, batchSize: int, job: Job): seq<Load> {
    Plan(FileBatches(file, batchSize), job)
  }

  lemma FilePlanRows(file: File, batchSize: int, job: Job)
    ensures multiset(RowsOf(FilePlan(file, batchSize, job))) == multiset(AllValid(FileBatches(file, batchSize), job))
  {
    PlanConservesRows(FileBatches(file, batchSize), job);
  }

  /** The only thing that goes wrong is an error of the driver in load k, at a chunk that this load has. */
  ghost predicate OnlyLoadFault(batches: seq<seq<Record>>, job: Job, faults: Faults, k: nat) {
    && (forall i :: 0 <= i < |batches| ==> job.transform(batches[i]).Rows?)
    && (forall n: nat :: faults.create(n).None?)
    && (forall n: nat :: n != k ==> faults.load(n).None?)
    && k < |Plan(batches, job)| && LoadFails(Plan(batches, job)[k], faults.load(k))
  }

  function RaisedFor(error: DbError): Exn {
    match error case Transient => Exn.Retryable case Permanent => Exn.FatalError
  }

  /** Where load k stands among these groups decides whether they raise. */
  lemma {:induction false} OnlyFaultInGroups(loads: seq<Load>, start: nat, faults: Faults, k: nat)
    requires forall n: nat :: faults.create(n).None?
    requires forall n: nat :: n != k ==> faults.load(n).None?
    ensures k < start || start + |loads| <= k ==> Ends(loads, |loads|, None, start, faults)
    ensures start <= k < start + |loads| && LoadFails(loads[k - start], faults.load(k)) ==>
      Ends(loads, k - start, Some(RaisedFor(faults.load(k).value.1)), start, faults)
  {
    if loads != [] {
      var n := |loads| - 1;
      OnlyFaultInGroups(loads[..n], start, faults, k);
    }
  }

  lemma {:induction false} NoFaultBefore(batches: seq<seq<Record>>, job: Job, faults: Faults, k: nat)
    requires forall i :: 0 <= i < |batches| ==> job.transform(batches[i]).Rows?
    requires forall n: nat :: faults.create(n).None?
    requires forall n: nat :: n != k ==> faults.load(n).None?
    requires |Plan(batches, job)| <= k
    ensures FirstFault(batches, job, faults).None?
  {
    if batches != [] {
      var n := |batches| - 1;
      assert forall i :: 0 <= i < n ==> batches[..n][i] == batches[i];
      NoFaultBefore(batches[..n], job, faults, k);
      OnlyFaultInGroups(BatchPlan(batches[n], n, job), |Plan(batches[..n], job)|, faults, k);
    }
  }

  /** It ends the run with exactly the loads before it committed. */
  lemma {:induction false} OnlyFaultEndsRun(batches: seq<seq<Record>>, job: Job, faults: Faults, k: nat)
    requires OnlyLoadFault(batches, job, faults, k)
    ensures FirstFault(batches, job, faults) == Some(RaisedFor(faults.load(k).value.1))
    ensures CountersOf(batches, job, faults).loads == k
  {
    var front := batches[..|batches| - 1];
    if k < |Plan(front, job)| {
      OnlyFaultInFront(batches, job, faults, k);
      OnlyFaultEndsRun(front, job, faults, k);
    } else {
      var c := CountersOf(front, job, faults);
      NoFaultInFront(batches, job, faults, k);
      OnlyFaultInLast(batches, job, faults, c, k);
      LastRoundEndsRun(batches, job, faults, c);
    }
  }

  lemma OnlyFaultInFront(batches: seq<seq<Record>>, job: Job, faults: Faults, k: nat)
    requires OnlyLoadFault(batches, job, faults, k) && k < |Plan(batches[..|batches| - 1], job)|
    ensures OnlyLoadFault(batches[..|batches| - 1], job, faults, k)
  {
    var front := batches[..|batches| - 1];
    assert forall i :: 0 <= i < |front| ==> front[i] == batches[i];
    assert Plan(batches, job)[k] == Plan(front, job)[k];
  }

  lemma LastRound(batch: seq<Record>, i: nat, job: Job, c: Counters, faults: Faults, k: nat)
    requires job.transform(batch).Rows?
    requires forall n: nat :: faults.create(n).None?
    requires forall n: nat :: n != k ==> faults.load(n).None?
    requires c.loads <= k < c.loads + |BatchPlan(batch, i, job)|
    requires LoadFails(BatchPlan(batch, i, job)[k - c.loads], faults.load(k))
    ensures BatchFault(batch, i, job, c.loads, faults) == Some(RaisedFor(faults.load(k).value.1))
    ensures RoundCounters(c, batch, i, job, faults).loads == k
  {
    OnlyFaultInGroups(BatchPlan(batch, i, job), c.loads, faults, k);
  }

  lemma LoadInLast(batches: seq<seq<Record>>, job: Job, k: nat)
    requires batches != [] && |Plan(batches[..|batches| - 1], job)| <= k < |Plan(batches, job)|
    ensures var n := |batches| - 1;
      var group, before := BatchPlan(batches[n], n, job), |Plan(batches[..n], job)|;
      k < before + |group| && Plan(batches, job)[k] == group[k - before]
  {
  }

  lemma OnlyFaultInLast(batches: seq<seq<Record>>, job: Job, faults: Faults, c: Counters, k: nat)
    requires OnlyLoadFault(batches, job, faults, k) && k >= |Plan(batches[..|batches| - 1], job)|
    requires c.loads == |Plan(batches[..|batches| - 1], job)|
    ensures var n := |batches| - 1;
      && BatchFault(batches[n], n, job, c.loads, faults) == Some(RaisedFor(faults.load(k).value.1))
      && RoundCounters(c, batches[n], n, job, faults).loads == k
  {
    LoadInLast(batches, job, k);
    LastRound(batches[|batches| - 1], |batches| - 1, job, c, faults, k);
  }

  lemma LastRoundEndsRun(batches: seq<seq<Record>>, job: Job, faults: Faults, c: Counters)
    requires batches != [] && FirstFault(batches[..|batches| - 1], job, faults).None?
    requires c == CountersOf(batches[..|batches| - 1], job, faults)
    requires c.loads == |Plan(batches[..|batches| - 1], job)|
    ensures FirstFault(batches, job, faults)
         == BatchFault(batches[|batches| - 1], |batches| - 1, job, c.loads, faults)
    ensures CountersOf(batches, job, faults) == RoundCounters(c, batches[|batches| - 1], |batches| - 1, job, faults)
  {
  }

  lemma NoFaultInFront(batches: seq<seq<Record>>, job: Job, faults: Faults, k: nat)
    requires OnlyLoadFault(batches, job, faults, k) && k >= |Plan(batches[..|batches| - 1], job)|
    ensures FirstFault(batches[..|batches| - 1], job, faults).None?
    ensures CountersOf(batches[..|batches| - 1], job, faults).loads == |Plan(batches[..|batches| - 1], job)|
  {
    var front := batches[..|batches| - 1];
    assert forall i :: 0 <= i < |front| ==> front[i] == batches[i];
    NoFaultBefore(front, job, faults, k);
    CountersAreExact(front, job, faults);
  }

  lemma PrefixChangesNothingIff<K>(
      db: Tables<K>, now: Tables<K>, plan: seq<Load>, loads: nat, keyOf: KeyOf<K>)
    requires Reached(db, now, plan, loads, keyOf)
    ensures now == db <==> AllStored(db, plan[..loads], keyOf)
    ensures loads == |plan| ==> now == RunAll(db, plan, keyOf)
  {
    RunChangesNothingIff(db, plan[..loads], keyOf);
    assert plan[..|plan|] == plan;
  }

  /** The insert receives exactly the rows the transformer let through, over all tables. */
  lemma {:induction false} PlanConservesRows(batches: seq<seq<Record>>, job: Job)
    ensures multiset(RowsOf(Plan(batches, job))) == multiset(AllValid(batches, job))
  {
    if batches != [] {
      var n := |batches| - 1;
      PlanConservesRows(batches[..n], job);
      RowsOfInTwo(Plan(batches[..n], job), BatchPlan(batches[n], n, job));
      BatchLoadsConserveRows(Valid(Outputs(batches[n], job)), job.routing, job.clock(n));
    }
  }

  lemma {:induction false} RowsOfInTwo(a: seq<Load>, b: seq<Load>)
    ensures RowsOf(a + b) == RowsOf(a) + RowsOf(b)
  {
    if b == [] {
      assert a + b == a;
    } else {
      var p, last := b[..|b| - 1], b[|b| - 1];
      RowsOfInTwo(a, p);
      RowsOfSnoc(p, last);
      RowsOfSnoc(a + p, last);
      Associates(RowsOf(a), RowsOf(p), last.rows);
      Associates(a, p, [last]);
      assert p + [last] == b;
    }
  }

  lemma Associates<T>(a: seq<T>, b: seq<T>, c: seq<T>)
    ensures a + b + c == a + (b + c)
  {
  }

  lemma RowsOfSnoc(loads: seq<Load>, last: Load)
    ensures RowsOf(loads + [last]) == RowsOf(loads) + last.rows
  {
    assert (loads + [last])[..|loads|] == loads;
  }

  /**
   What the counters mean: error_count is raw minus valid, while the error rows are those
   without output. They agree exactly when no output beyond the batch is a row.
   */
  lemma {:induction false} ErrorCountIsErrorRowsIff(batch: seq<Record>, outs: seq<Option<Record>>)
    ensures var n := Capped(|batch|, |outs|);
      |batch| - |Valid(outs)| == |Errors(batch, outs)| - |Valid(outs[n..])|
    ensures |batch| - |Valid(outs)| == |Errors(batch, outs)|
        <==> forall i :: |batch| <= i < |outs| ==> outs[i].None?
  {
    var n := Capped(|batch|, |outs|);
    ValidInTwo(outs[..n], outs[n..]);
    assert outs[..n] + outs[n..] == outs;
    ErrorsAndValid(batch, outs);
    NoValidIff(outs[n..]);
    assert forall i :: n <= i < |outs| ==> outs[i] == outs[n..][i - n];
  }

  lemma {:induction false} ValidInTwo(a: seq<Option<Record>>, b: seq<Option<Record>>)
    ensures Valid(a + b) == Valid(a) + Valid(b)
  {
    if b == [] {
      assert a + b == a;
    } else {
      ValidInTwo(a, b[..|b| - 1]);
      assert (a + b)[..|a + b| - 1] == a + b[..|b| - 1];
    }
  }

  lemma {:induction false} NoValidIff(outs: seq<Option<Record>>)
    ensures Valid(outs) == [] <==> forall i :: 0 <= i < |outs| ==> outs[i].None?
  {
    if outs != [] {
      NoValidIff(outs[..|outs| - 1]);
    }
  }

  lemma {:induction false} ErrorsAndValid(batch: seq<Record>, outs: seq<Option<Record>>)
    ensures |Errors(batch, outs)| + |Valid(outs[..Capped(|batch|, |outs|)])| == |batch|
  {
    if batch != [] {
      var n := |batch| - 1;
      ErrorsAndValid(batch[..n], outs);
      if n < |outs| {
        assert outs[..n + 1][..n] == outs[..n];
      }
    }
  }

  /** The positions of the outputs that are rows. */
  function KeptAt(outs: seq<Option<Record>>): seq<nat> {
    if outs == [] then []
    else
      var rest, n := KeptAt(outs[..|outs| - 1]), |outs| - 1;
      if outs[n].Some? then rest + [n] else rest
  }

  /** The picked elements are those at these positions, in their order. */
  predicate Picks<T(==)>(source: seq<T>, at: seq<nat>, picked: seq<T>) {
    && |at| == |picked|
    && (forall k :: 0 <= k < |at| ==> at[k] < |source| && source[at[k]] == picked[k])
    && (forall j, k :: 0 <= j < k < |at| ==> at[j] < at[k])
  }

  lemma PicksOfMore<T>(source: seq<T>, at: seq<nat>, picked: seq<T>, last: T)
    requires Picks(source, at, picked)
    ensures Picks(source + [last], at, picked)
    ensures Picks(source + [last], at + [|source|], picked + [last])
  {
  }

  function AsOutputs(rows: seq<Record>): seq<Option<Record>> {
    seq(|rows|, i requires 0 <= i < |rows| => Some(rows[i]))
  }

  lemma AsOutputsLast(rows: seq<Record>, last: Record)
    ensures AsOutputs(rows + [last]) == AsOutputs(rows) + [Some(last)]
  {
  }

  /** The outputs that are rows are kept as they are and in their order. */
  lemma {:induction false} ValidIsKept(outs: seq<Option<Record>>)
    ensures Picks(outs, KeptAt(outs), AsOutputs(Valid(outs)))
  {
    if outs != [] {
      var p, last := outs[..|outs| - 1], outs[|outs| - 1];
      assert p + [last] == outs;
      ValidIsKept(p);
      PicksOfMore(p, KeptAt(p), AsOutputs(Valid(p)), last);
      if last.Some? {
        AsOutputsLast(Valid(p), last.value);
      }
    }
  }

  lemma {:induction false} NoRowIsMissed(outs: seq<Option<Record>>, i: nat)
    requires i < |outs|
    ensures i in KeptAt(outs) <==> outs[i].Some?
  {
    var p := outs[..|outs| - 1];
    ValidIsKept(p);
    if i < |p| {
      NoRowIsMissed(p, i);
    }
  }

  /** The positions of the rows without an output. */
  function DroppedAt(batch: seq<Record>, outs: seq<Option<Record>>): seq<nat> {
    if batch == [] then []
    else
      var n := |batch| - 1;
      var rest := DroppedAt(batch[..n], outs);
      if n >= |outs| || outs[n].None? then rest + [n] else rest
  }

  /** The error rows are rows of the batch as they are and in their order. */
  lemma {:induction false} ErrorsAreDropped(batch: seq<Record>, outs: seq<Option<Record>>)
    ensures Picks(batch, DroppedAt(batch, outs), Errors(batch, outs))
  {
    if batch != [] {
      var p, last := batch[..|batch| - 1], batch[|batch| - 1];
      assert p + [last] == batch;
      ErrorsAreDropped(p, outs);
      PicksOfMore(p, DroppedAt(p, outs), Errors(p, outs), last);
    }
  }

  lemma {:induction false} NoErrorIsMissed(batch: seq<Record>, outs: seq<Option<Record>>, i: nat)
    requires i < |batch|
    ensures i in DroppedAt(batch, outs) <==> i >= |outs| || outs[i].None?
  {
    var p := batch[..|batch| - 1];
    ErrorsAreDropped(p, outs);
    if i < |p| {
      NoErrorIsMissed(p, outs, i);
    }
  }

  // ---------------------------------------------------------------- a file processed more than once

  /** Every row that is loaded names its own month. */
  predicate FileDated(batches: seq<seq<Record>>, job: Job) {
    forall i :: 0 <= i < |batches| ==> AllDated(Valid(Outputs(batches[i], job)), job.routing)
  }

  lemma {:induction false} DatedFileHasOnePlan(batches: seq<seq<Record>>, job: Job, clock: nat -> nat -> string)
    requires FileDated(batches, job)
    ensures Plan(batches, job.(clock := clock)) == Plan(batches, job)
  {
    if batches != [] {
      var n := |batches| - 1;
      forall i | 0 <= i < n ensures AllDated(Valid(Outputs(batches[..n][i], job)), job.routing) {
        assert batches[..n][i] == batches[i];
      }
      DatedFileHasOnePlan(batches[..n], job, clock);
      DatedRowsIgnoreClock(Valid(Outputs(batches[n], job)), job.routing, job.clock(n), clock(n));
      assert Outputs(batches[n], job.(clock := clock)) == Outputs(batches[n], job);
    }
  }

  /**
   The claim protocol delivers a file at least once. Whatever attempts run on a dated file,
   whenever and however interleaved with each other and with the loads of other files: once one
   of them completes, the tables are those of a serial run with this file in it once, iff no row
   without a key was committed again, and so they are if all its rows are keyed.
   */
  lemma ReprocessingIsHarmless<K>(
      db: Tables<K>, batches: seq<seq<Record>>, job: Job, clocks: Worker -> nat -> nat -> string,
      schedule: seq<Turn>, finisher: Worker, keyOf: KeyOf<K>)
    requires FileDated(batches, job)
    requires Progress(Plan(batches, job), schedule, finisher) == |Plan(batches, job)|
    ensures var plans := (w: Worker) => Plan(batches, job.(clock := clocks(w)));
      var serial := Once(Plan(batches, job), schedule);
      && IsMerge(serial, Plan(batches, job), ForeignLoads(schedule))
      && (Interleaved(db, plans, schedule, keyOf) == RunAll(db, serial, keyOf)
          <==> Repeated(Plan(batches, job), schedule, keyOf) == multiset{})
      && (PlanKeyed(Plan(batches, job), keyOf) ==>
            Interleaved(db, plans, schedule, keyOf) == RunAll(db, serial, keyOf))
      && (ForeignLoads(schedule) == [] ==> serial == Plan(batches, job))
  {
    var plans := (w: Worker) => Plan(batches, job.(clock := clocks(w)));
    forall w | Own(w) in schedule ensures plans(w) == Plan(batches, job) {
      DatedFileHasOnePlan(batches, job, clocks(w));
    }
    ExactlyOnceEffect(db, plans, Plan(batches, job), schedule, finisher, keyOf);
  }

  /** The job as it runs in one month. */
  function InMonth(job: Job, month: string): Job {
    job.(clock := (i: nat) => Always(month))
  }

  lemma {:induction false} RowsToInTwo(a: seq<Load>, b: seq<Load>, table: string)
    ensures RowsTo(a + b, table) == RowsTo(a, table) + RowsTo(b, table)
  {
    if b == [] {
      assert a + b == a;
    } else {
      RowsToInTwo(a, b[..|b| - 1], table);
      assert (a + b)[..|a + b| - 1] == a + b[..|b| - 1];
    }
  }

  lemma FileDatedLast(batches: seq<seq<Record>>, job: Job)
    requires batches != []
    ensures var n := |batches| - 1;
      FileDated(batches, job)
      <==> FileDated(batches[..n], job) && AllDated(Valid(Outputs(batches[n], job)), job.routing)
  {
    var n := |batches| - 1;
    assert forall i :: 0 <= i < n ==> batches[..n][i] == batches[i];
    if !FileDated(batches, job) {
      var i :| 0 <= i < |batches| && !AllDated(Valid(Outputs(batches[i], job)), job.routing);
      assert i < n ==> !AllDated(Valid(Outputs(batches[..n][i], job)), job.routing);
    }
  }

  /** What the month's own table receives over the whole file drops in another month iff a row is undated. */
  lemma {:induction false} UndatedFileMoves(batches: seq<seq<Record>>, job: Job, month: string, other: string)
    requires month != other
    ensures var t := job.routing.baseTable + "_" + month;
      var a, b := RowsTo(Plan(batches, InMonth(job, month)), t), RowsTo(Plan(batches, InMonth(job, other)), t);
      a >= b && (a > b <==> !FileDated(batches, job))
  {
    if batches != [] {
      var t, n := job.routing.baseTable + "_" + month, |batches| - 1;
      UndatedFileMoves(batches[..n], job, month, other);
      FileDatedLast(batches, job);
      LastBatchRowsTo(batches, job, month, t);
      LastBatchRowsTo(batches, job, other, t);
      UndatedRowsMove(Valid(Outputs(batches[n], job)), job.routing, month, other);
    }
  }

  lemma LastBatchRowsTo(batches: seq<seq<Record>>, job: Job, month: string, table: string)
    requires batches != []
    ensures var n := |batches| - 1;
      RowsTo(Plan(batches, InMonth(job, month)), table)
      == RowsTo(Plan(batches[..n], InMonth(job, month)), table)
       + |RowsFor(Route(Valid(Outputs(batches[n], job)), job.routing, Always(month)), table)|
  {
    var n, there := |batches| - 1, InMonth(job, month);
    RowsToInTwo(Plan(batches[..n], there), BatchPlan(batches[n], n, there), table);
    assert Outputs(batches[n], there) == Outputs(batches[n], job);
    RowsToBatch(Valid(Outputs(batches[n], job)), job.routing, Always(month), table);
  }

  /** A file leads to the same loads in two different months iff every loaded row names its own month. */
  lemma FilePlanIgnoresMonthIff(batches: seq<seq<Record>>, job: Job, month: string, other: string)
    requires month != other
    ensures Plan(batches, InMonth(job, month)) == Plan(batches, InMonth(job, other)) <==> FileDated(batches, job)
  {
    UndatedFileMoves(batches, job, month, other);
    if FileDated(batches, job) {
      DatedFileHasOnePlan(batches, job, InMonth(job, month).clock);
      DatedFileHasOnePlan(batches, job, InMonth(job, other).clock);
    }
  }

  /** A row that holds every cell of the record. */
  predicate Covers(stored: Stored, row: Record) {
    forall c :: c in row.names ==> c in stored && stored[c] == Get(row, c)
  }

  /** The row is stored, or its key was taken by a row that came before. */
  ghost predicate IsIn<K>(
      row: Record, now: Tables<K>, db: Tables<K>, loads: seq<Load>, table: string, keyOf: KeyOf<K>)
  {
    exists stored: Stored :: Covers(stored, row) && Kept(now, db, loads, table, stored, keyOf)
  }

  /** An undated row is stored once per month in which the file is processed. */
  lemma UndatedRowIsStoredTwice<K>(
      db: Tables<K>, batches: seq<seq<Record>>, i: nat, job: Job, month: string, other: string, row: Record,
      keyOf: KeyOf<K>)
    requires month != other && i < |batches|
    requires row in Valid(Outputs(batches[i], job)) && OwnMonth(row, job.routing).None?
    ensures var loads := Plan(batches, InMonth(job, month)) + Plan(batches, InMonth(job, other));
      var tables := RunAll(db, loads, keyOf);
      && IsIn(row, tables, db, loads, TableOf(job, month), keyOf)
      && IsIn(row, tables, db, loads, TableOf(job, other), keyOf)
      && TableOf(job, month) != TableOf(job, other)
  {
    var first, second := Plan(batches, InMonth(job, month)), Plan(batches, InMonth(job, other));
    var a := UndatedLoad(batches, i, job, month, row);
    var b := UndatedLoad(batches, i, job, other, row);
    RowOfLoadIsIn(db, first + second, a, row, keyOf);
    RowOfLoadIsIn(db, first + second, b, row, keyOf);
    MonthsNameTables(job.routing, month, other);
  }

  lemma RowOfLoadIsIn<K>(db: Tables<K>, loads: seq<Load>, load: Load, row: Record, keyOf: KeyOf<K>)
    requires load in loads && row in load.rows
    ensures IsIn(row, RunAll(db, loads, keyOf), db, loads, load.table, keyOf)
  {
    var tables := RunAll(db, loads, keyOf);
    var stored := StoredRowOf(load.rows, row);
    assert tables.keyless + multiset{} == tables.keyless;
    RunHasRow(tables, db, loads, multiset{}, load, stored, keyOf);
  }

  function TableOf(job: Job, month: string): string {
    job.routing.baseTable + "_" + month
  }

  lemma UndatedRowIsRouted(rows: seq<Record>, cfg: RoutingConfig, month: string, row: Record)
    returns (k: nat)
    requires row in rows && OwnMonth(row, cfg).None?
    ensures k < |BatchLoads(rows, cfg, Always(month))|
    ensures var load := BatchLoads(rows, cfg, Always(month))[k];
      load.table == cfg.baseTable + "_" + month && row in load.rows
  {
    var routed := Route(rows, cfg, Always(month));
    var i :| 0 <= i < |rows| && rows[i] == row;
    var table := ResolveTable(row, cfg, month);
    assert routed[i] == Routed(table, row);
    TablesAreDistinct(routed);
    RowIsInItsGroup(routed, i);
    k :| 0 <= k < |TablesOf(routed)| && TablesOf(routed)[k] == table;
  }

  lemma {:induction false} BatchInPlan(batches: seq<seq<Record>>, i: nat, job: Job, load: Load)
    requires i < |batches| && load in BatchPlan(batches[i], i, job)
    ensures load in Plan(batches, job)
  {
    if i < |batches| - 1 {
      BatchInPlan(batches[..|batches| - 1], i, job, load);
    }
  }

  lemma UndatedLoad(batches: seq<seq<Record>>, i: nat, job: Job, month: string, row: Record) returns (load: Load)
    requires i < |batches| && row in Valid(Outputs(batches[i], job)) && OwnMonth(row, job.routing).None?
    ensures load in Plan(batches, InMonth(job, month)) && load.table == TableOf(job, month) && row in load.rows
  {
    var there := InMonth(job, month);
    assert Outputs(batches[i], there) == Outputs(batches[i], job);
    var k := UndatedRowIsRouted(Valid(Outputs(batches[i], job)), job.routing, month, row);
    load := BatchPlan(batches[i], i, there)[k];
    BatchInPlan(batches, i, there, load);
  }

  lemma StoredRowOf(rows: seq<Record>, row: Record) returns (stored: Stored)
    requires row in rows
    ensures stored in StoredRows(rows) && Covers(stored, row)
  {
    var j :| 0 <= j < |rows| && rows[j] == row;
    stored := StoredRows(rows)[j];
    ColumnsAreUnion(rows);
  }
}
