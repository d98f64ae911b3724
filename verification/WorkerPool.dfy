/**
 The worker pool: admission of a file to the queue, and the backlog counters, which are kept
 beside the queue and not under its lock. Putting a file and counting it are two steps, and so
 are taking it and uncounting it, so any interleaving of submitters and workers is possible.
 The priority order of the queue does not matter here: a worker may take any queued file.
 */
module WorkerPool {
  import CircuitBreakers

  type Task = string

  /**
   `uncounted` holds the files put but not yet counted, `inFlight` those taken and not yet
   uncounted, and `clamped` the decrements lost because a counter stood at zero.
   */
  datatype Pool = Pool(
    queue: multiset<Task>,
    counts: map<Task, nat>,
    uncounted: multiset<Task>,
    inFlight: multiset<Task>,
    clamped: multiset<Task>)

  const EMPTY := Pool(multiset{}, map[], multiset{}, multiset{}, multiset{})

  datatype Event = Put(task: Task) | Count(task: Task) | Take(task: Task) | Done(task: Task)

  /** A queue with a maxsize below one is unbounded. */
  predicate Full(p: Pool, maxSize: int) {
    1 <= maxSize <= |p.queue|
  }

  function Backlog(p: Pool, t: Task): nat {
    if t in p.counts then p.counts[t] else 0
  }

  /** An event that nobody is in a position to send changes nothing. */
  function Step(p: Pool, maxSize: int, e: Event): Pool {
    match e
    case Put(t) =>
      if Full(p, maxSize) then p
      else p.(queue := p.queue + multiset{t}, uncounted := p.uncounted + multiset{t})
    case Count(t) =>
      if t !in p.uncounted then p
      else p.(uncounted := p.uncounted - multiset{t}, counts := p.counts[t := Backlog(p, t) + 1])
    case Take(t) =>
      if t !in p.queue then p
      else p.(queue := p.queue - multiset{t}, inFlight := p.inFlight + multiset{t})
    case Done(t) =>
      if t !in p.inFlight then p
      else
        var q := p.(inFlight := p.inFlight - multiset{t});
        if Backlog(p, t) > 0 then q.(counts := q.counts[t := Backlog(p, t) - 1])
        else q.(clamped := q.clamped + multiset{t})
  }

  function Run(p: Pool, maxSize: int, es: seq<Event>): Pool {
    if es == [] then p else Step(Run(p, maxSize, es[..|es| - 1]), maxSize, es[|es| - 1])
  }

  /** What processing a file comes to in the worker loop, apart from what it does to the breaker itself. */
  datatype WorkOutcome = Returned | SkipRaised | Escaped

  datatype SubmitResult = Queued | RejectedCircuitOpen | RejectedHaStandby | RejectedTaskPaused | QueueFull

  class Workers {
    const maxSize: int
    var queue: multiset<Task>
    var counts: map<Task, nat>
    var paused: set<Task>
    ghost var uncounted: multiset<Task>
    ghost var inFlight: multiset<Task>
    ghost var clamped: multiset<Task>

    constructor (maxSize: int)
      ensures this.maxSize == maxSize && Value() == EMPTY && paused == {}
    {
      this.maxSize := maxSize;
      queue, counts, paused := multiset{}, map[], {};
      uncounted, inFlight, clamped := multiset{}, multiset{}, multiset{};
    }

    ghost function Value(): Pool
      reads this
    {
      Pool(queue, counts, uncounted, inFlight, clamped)
    }

    method PutNowait(t: Task) returns (put: bool)
      modifies this
      ensures Value() == Step(old(Value()), maxSize, Put(t)) && paused == old(paused)
      ensures put <==> maxSize < 1 || |old(queue)| < maxSize
      ensures put ==> queue == old(queue) + multiset{t}
    {
      if 1 <= maxSize <= |queue| {
        return false;
      }
      queue := queue + multiset{t};
      uncounted := uncounted + multiset{t};
      return true;
    }

    method CountUp(t: Task)
      requires t in uncounted
      modifies this
      ensures Value() == Step(old(Value()), maxSize, Count(t)) && paused == old(paused)
    {
      counts := counts[t := (if t in counts then counts[t] else 0) + 1];
      uncounted := uncounted - multiset{t};
    }

    method TakeOne(t: Task)
      requires t in queue
      modifies this
      ensures Value() == Step(old(Value()), maxSize, Take(t)) && paused == old(paused)
    {
      queue := queue - multiset{t};
      inFlight := inFlight + multiset{t};
    }

    method CountDown(t: Task)
      requires t in inFlight
      modifies this
      ensures Value() == Step(old(Value()), maxSize, Done(t)) && paused == old(paused)
    {
      inFlight := inFlight - multiset{t};
      if t in counts && counts[t] > 0 {
        counts := counts[t := counts[t] - 1];
      } else {
        clamped := clamped + multiset{t};
      }
    }

    /**
     One round of the worker loop. The file processor reports to the breaker itself; only an
     exception that escapes from it is reported here, and a skip is not.
     */
    method WorkOne(t: Task, outcome: WorkOutcome, breaker: CircuitBreakers.CircuitBreaker, failTime: real)
      requires t in queue && breaker as object != this
      modifies this, breaker
      ensures Value() == Step(Step(old(Value()), maxSize, Take(t)), maxSize, Done(t))
      ensures breaker.Value() == if outcome.Escaped?
                                 then CircuitBreakers.Step(old(breaker.Value()), breaker.settings,
                                                           CircuitBreakers.FailedAt(failTime))
                                 else old(breaker.Value())
      ensures paused == old(paused)
    {
      TakeOne(t);
      if outcome.Escaped? {
        breaker.RecordFailure(failTime);
      }
      CountDown(t);
    }

    /** The checks in their order. A probe granted by the breaker is spent even if the queue is full. */
    method Submit(t: Task, isActive: bool, breaker: CircuitBreakers.CircuitBreaker, decide: real, record: real)
      returns (result: SubmitResult)
      requires breaker as object != this
      modifies this, breaker
      ensures result ==
        if !isActive then RejectedHaStandby
        else if t in paused then RejectedTaskPaused
        else if !CircuitBreakers.Grants(old(breaker.Value()), breaker.settings, decide) then RejectedCircuitOpen
        else if 1 <= maxSize <= |old(queue)| then QueueFull
        else Queued
      ensures Value() == if result == Queued then Step(Step(old(Value()), maxSize, Put(t)), maxSize, Count(t))
                         else old(Value())
      ensures breaker.Value() ==
        if !isActive || t in paused then old(breaker.Value())
        else CircuitBreakers.Step(old(breaker.Value()), breaker.settings, CircuitBreakers.Allow(decide, record))
      ensures paused == old(paused)
    {
      if !isActive {
        return RejectedHaStandby;
      }
      if t in paused {
        return RejectedTaskPaused;
      }
      var granted := breaker.TryAllow(decide, record);
      if !granted {
        return RejectedCircuitOpen;
      }
      var put := PutNowait(t);
      if !put {
        return QueueFull;
      }
      CountUp(t);
      return Queued;
    }
  }

  // ---------------------------------------------------------------- the accounting

  /** Every counter is what is queued or in flight, less the uncounted, plus the lost decrements. */
  predicate AccountOf(p: Pool, t: Task) {
    Backlog(p, t) + p.uncounted[t] == p.queue[t] + p.inFlight[t] + p.clamped[t]
  }

  ghost predicate Accounted(p: Pool) {
    forall t :: AccountOf(p, t)
  }

  lemma StepKeepsAccount(p: Pool, maxSize: int, e: Event, t: Task)
    requires AccountOf(p, t)
    ensures AccountOf(Step(p, maxSize, e), t)
  {
  }

  lemma {:induction false} RunKeepsAccount(p: Pool, maxSize: int, es: seq<Event>, t: Task)
    requires AccountOf(p, t)
    ensures AccountOf(Run(p, maxSize, es), t)
  {
    if es != [] {
      RunKeepsAccount(p, maxSize, es[..|es| - 1], t);
      StepKeepsAccount(Run(p, maxSize, es[..|es| - 1]), maxSize, es[|es| - 1], t);
    }
  }

  lemma BacklogAccounting(maxSize: int, es: seq<Event>)
    ensures Accounted(Run(EMPTY, maxSize, es))
  {
    forall t: Task ensures AccountOf(Run(EMPTY, maxSize, es), t) {
      RunKeepsAccount(EMPTY, maxSize, es, t);
    }
  }

  /** A worker is done with a file of the task while the counter stands at zero. */
  predicate MeetsZero(p: Pool, e: Event, t: Task) {
    e == Done(t) && t in p.inFlight && Backlog(p, t) == 0
  }

  predicate EverMeetsZero(p: Pool, maxSize: int, es: seq<Event>, t: Task) {
    es != [] &&
    var before := es[..|es| - 1];
    EverMeetsZero(p, maxSize, before, t) || MeetsZero(Run(p, maxSize, before), es[|es| - 1], t)
  }

  lemma StepClamps(p: Pool, maxSize: int, e: Event, t: Task)
    ensures Step(p, maxSize, e).clamped[t] == p.clamped[t] + (if MeetsZero(p, e, t) then 1 else 0)
  {
  }

  lemma {:induction false} ClampedIffMetZero(p: Pool, maxSize: int, es: seq<Event>, t: Task)
    ensures Run(p, maxSize, es).clamped[t] >= p.clamped[t]
    ensures Run(p, maxSize, es).clamped[t] == p.clamped[t] <==> !EverMeetsZero(p, maxSize, es, t)
  {
    if es != [] {
      ClampedIffMetZero(p, maxSize, es[..|es| - 1], t);
      StepClamps(Run(p, maxSize, es[..|es| - 1]), maxSize, es[|es| - 1], t);
    }
  }

  /**
   With no submitter between its two steps a counter never under-reports, and it is exact iff
   no worker of the run ever met it at zero.
   */
  lemma QuiescentBacklog(maxSize: int, es: seq<Event>, t: Task)
    requires t !in Run(EMPTY, maxSize, es).uncounted
    ensures var p := Run(EMPTY, maxSize, es);
      && Backlog(p, t) >= p.queue[t] + p.inFlight[t]
      && (Backlog(p, t) == p.queue[t] + p.inFlight[t] <==> !EverMeetsZero(EMPTY, maxSize, es, t))
  {
    RunKeepsAccount(EMPTY, maxSize, es, t);
    ClampedIffMetZero(EMPTY, maxSize, es, t);
  }

  /**
   What was over-reported once is over-reported for good: in every continuation, whenever no
   submitter is between its two steps, the counter exceeds the queued and running files by at
   least the decrements lost so far.
   */
  lemma PhantomStays(p: Pool, maxSize: int, es: seq<Event>, t: Task)
    requires AccountOf(p, t) && t !in Run(p, maxSize, es).uncounted
    ensures var q := Run(p, maxSize, es);
      && Backlog(q, t) >= q.queue[t] + q.inFlight[t] + p.clamped[t]
      && (Backlog(q, t) == q.queue[t] + q.inFlight[t] + p.clamped[t] <==> !EverMeetsZero(p, maxSize, es, t))
  {
    RunKeepsAccount(p, maxSize, es, t);
    ClampedIffMetZero(p, maxSize, es, t);
  }

  /** A decrement is lost only while a submitter of the same task is between its two steps. */
  lemma LossNeedsOverlap(maxSize: int, es: seq<Event>, t: Task)
    requires var p := Run(EMPTY, maxSize, es); t in p.inFlight && Backlog(p, t) == 0
    ensures Run(EMPTY, maxSize, es).uncounted[t] > Run(EMPTY, maxSize, es).clamped[t]
  {
    BacklogAccounting(maxSize, es);
    assert AccountOf(Run(EMPTY, maxSize, es), t);
  }

  /** And that does happen: a fast worker leaves a backlog of one for an empty pool. */
  lemma FastWorkerLeavesPhantom(p: Pool, t: Task)
    requires p.queue == p.uncounted == p.inFlight == multiset{} && Backlog(p, t) == 0
    ensures var q := Run(p, 0, [Put(t), Take(t), Done(t), Count(t)]);
      && Backlog(q, t) == 1 && q.queue == q.inFlight == q.uncounted == multiset{}
      && q.clamped[t] == p.clamped[t] + 1
  {
    var es := [Put(t), Take(t), Done(t), Count(t)];
    var p1 := Step(p, 0, Put(t));
    var p2 := Step(p1, 0, Take(t));
    var p3 := Step(p2, 0, Done(t));
    assert p1.queue == multiset{t} && p2.queue == multiset{} && p2.inFlight == multiset{t};
    RunLast(p, 0, [], Put(t));
    RunLast(p, 0, [] + [Put(t)], Take(t));
    RunLast(p, 0, [] + [Put(t)] + [Take(t)], Done(t));
    RunLast(p, 0, [] + [Put(t)] + [Take(t)] + [Done(t)], Count(t));
    assert [] + [Put(t)] + [Take(t)] + [Done(t)] + [Count(t)] == es;
  }

  /** The phantom is never worked off, whatever comes later. */
  lemma PhantomIsForGood(maxSize: int, es: seq<Event>, t: Task)
    requires var p := Run(EMPTY, 0, [Put(t), Take(t), Done(t), Count(t)]); t !in Run(p, maxSize, es).uncounted
    ensures var p := Run(EMPTY, 0, [Put(t), Take(t), Done(t), Count(t)]);
      var q := Run(p, maxSize, es);
      Backlog(q, t) >= q.queue[t] + q.inFlight[t] + 1
  {
    var p := Run(EMPTY, 0, [Put(t), Take(t), Done(t), Count(t)]);
    FastWorkerLeavesPhantom(EMPTY, t);
    RunKeepsAccount(EMPTY, 0, [Put(t), Take(t), Done(t), Count(t)], t);
    PhantomStays(p, maxSize, es, t);
  }

  lemma RunLast(p: Pool, maxSize: int, es: seq<Event>, e: Event)
    ensures Run(p, maxSize, es + [e]) == Step(Run(p, maxSize, es), maxSize, e)
  {
    assert (es + [e])[..|es|] == es;
  }

  /** A bounded queue never holds more than its maxsize. */
  lemma {:induction false} QueueIsBounded(maxSize: int, es: seq<Event>)
    requires maxSize >= 1
    ensures |Run(EMPTY, maxSize, es).queue| <= maxSize
  {
    if es != [] {
      QueueIsBounded(maxSize, es[..|es| - 1]);
    }
  }
}
