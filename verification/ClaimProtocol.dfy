/**
 The claim protocol over one row, as a state machine. Any number of instances and worker
 threads send the statements of ProcessedFiles in any order. A worker is active from its
 successful mark_processing to its final mark, or until it crashes.

 Nothing rests on the return value of try_claim: a MarkProcessing event may come from any
 worker at any time, which covers every spurious success.
 */
module ClaimProtocol {
  import opened Wrappers
  import opened ProcessedFiles

  type Worker = nat

  datatype FailureKind = Retryable | Fatal | Unhandled

  datatype Mark =
    | MarkSuccess
    | MarkSkipped
    | MarkFailed(kind: FailureKind, maxRetries: int)

  datatype Event =
    | TryClaim(claim: Claim, order: SetOrder)
    | MarkProcessing(worker: Worker, instance: Instance)
    | Finish(finisher: Worker, mark: Mark)
    | Crash(crashed: Worker)
    | ManualRetry

  /**
   The row, the active workers with their instances, and what happened so far:
   `starts` pipeline starts, `failedClaims` claims of a FAILED row, `expired` takeovers of a
   PROCESSING row, `overruns` those takeovers that hit a live worker, `deadLetters` moves to
   the dead letter directory.
   */
  datatype World = World(
    slot: Option<Row>,
    active: map<Worker, Instance>,
    starts: nat,
    failedClaims: nat,
    expired: nat,
    overruns: nat,
    deadLetters: nat)

  const INITIAL := World(None, map[], 0, 0, 0, 0, 0)

  predicate Takes(w: World, status: Status, c: Claim) {
    w.slot.Some? && w.slot.value.status == status && Claimable(w.slot.value, c.now, c.maxRetries)
  }

  function Marked(row: Row, mark: Mark): Row {
    match mark
    case MarkSuccess => row.(status := Success)
    case MarkSkipped => row.(status := Skipped)
    case MarkFailed(_, _) => Fail(row)
  }

  /** The decision of the file processor after a mark, from the retry count mark_failed returns. */
  predicate DeadLettered(newRetry: nat, mark: Mark) {
    mark.MarkFailed? && (mark.kind.Fatal? || (mark.kind.Retryable? && newRetry >= mark.maxRetries))
  }

  function One(b: bool): nat { if b then 1 else 0 }

  /** An event that its sender cannot take leaves the world as it is. */
  function Step(w: World, e: Event): World {
    match e
    case TryClaim(c, order) =>
      w.(slot := Some(Upsert(w.slot, c, order)),
         failedClaims := w.failedClaims + One(Takes(w, Failed, c)),
         expired := w.expired + One(Takes(w, Processing, c)),
         overruns := w.overruns + One(Takes(w, Processing, c) && w.active != map[]))
    case MarkProcessing(worker, instance) =>
      if worker !in w.active && w.slot.Some? && CanStart(w.slot.value, instance) then
        w.(slot := Some(w.slot.value.(status := Processing)),
           active := w.active[worker := instance],
           starts := w.starts + 1)
      else w
    case Finish(worker, mark) =>
      if worker in w.active && w.slot.Some? then
        var row := Marked(w.slot.value, mark);
        w.(slot := Some(row),
           active := w.active - {worker},
           deadLetters := w.deadLetters + One(DeadLettered(row.retryCount, mark)))
      else w
    case Crash(worker) => w.(active := w.active - {worker})
    case ManualRetry => if w.slot.Some? then w.(slot := Some(Requeue(w.slot.value))) else w
  }

  function Run(w: World, es: seq<Event>): World {
    if es == [] then w else Step(Run(w, es[..|es| - 1]), es[|es| - 1])
  }

  /** The world before event i of a run from the empty table. */
  function Before(es: seq<Event>, i: nat): World
    requires i <= |es|
  {
    Run(INITIAL, es[..i])
  }

  predicate InStatus(w: World, status: Status) {
    w.slot.Some? && w.slot.value.status == status
  }

  // ---------------------------------------------------------------- concurrency

  ghost predicate ConcurrencyInv(w: World) {
    |w.active| + One(!InStatus(w, Processing)) <= 1 + w.overruns
  }

  lemma StepKeepsConcurrencyInv(w: World, e: Event)
    requires ConcurrencyInv(w)
    ensures ConcurrencyInv(Step(w, e))
  {
    match e
    case TryClaim(c, order) => ClaimKeepsConcurrencyInv(w, c, order);
    case MarkProcessing(worker, instance) => StartKeepsConcurrencyInv(w, worker, instance);
    case Finish(worker, mark) => RemovalShrinks(w.active, worker);
    case Crash(worker) => RemovalShrinks(w.active, worker);
    case ManualRetry =>
  }

  lemma StartKeepsConcurrencyInv(w: World, worker: Worker, instance: Instance)
    requires ConcurrencyInv(w)
    ensures ConcurrencyInv(Step(w, MarkProcessing(worker, instance)))
  {
    InsertionGrows(w.active, worker, instance);
  }

  lemma ClaimKeepsConcurrencyInv(w: World, c: Claim, order: SetOrder)
    requires ConcurrencyInv(w)
    ensures ConcurrencyInv(Step(w, TryClaim(c, order)))
  {
    var v := Step(w, TryClaim(c, order));
    assert v.active == w.active;
    assert InStatus(v, Processing) <==> InStatus(w, Processing) && !Takes(w, Processing, c);
    if w.active == map[] {
      assert |w.active| == 0;
    }
  }

  lemma InsertionGrows(m: map<Worker, Instance>, worker: Worker, instance: Instance)
    ensures |m[worker := instance]| == |m| + One(worker !in m)
  {
    assert m[worker := instance].Keys == m.Keys + {worker};
    assert |m[worker := instance].Keys| == |m.Keys| + One(worker !in m);
  }

  lemma RemovalShrinks(m: map<Worker, Instance>, worker: Worker)
    ensures |m - {worker}| == |m| - One(worker in m)
  {
    assert (m - {worker}).Keys == m.Keys - {worker};
    assert |(m - {worker}).Keys| == |m.Keys| - One(worker in m);
  }

  /**
   With no assumption on clocks or leases: the workers active at once never outnumber the
   takeovers of a live worker's row by more than one.
   */
  lemma {:induction false} ActiveWorkersBounded(es: seq<Event>)
    ensures ConcurrencyInv(Run(INITIAL, es))
    ensures |Run(INITIAL, es).active| <= 1 + Run(INITIAL, es).overruns
  {
    if es != [] {
      ActiveWorkersBounded(es[..|es| - 1]);
      StepKeepsConcurrencyInv(Run(INITIAL, es[..|es| - 1]), es[|es| - 1]);
    }
  }

  /** No instance tries to claim the row after the lease of a worker that is still active. */
  ghost predicate LeasesRespected(es: seq<Event>) {
    forall i :: 0 <= i < |es| && es[i].TryClaim? && Before(es, i).active != map[] && Before(es, i).slot.Some?
      ==> !LeaseExpired(Before(es, i).slot.value, es[i].claim.now)
  }

  lemma RespectedPrefix(es: seq<Event>, n: nat)
    requires LeasesRespected(es) && n <= |es|
    ensures LeasesRespected(es[..n])
  {
    forall i | 0 <= i < n
      ensures Before(es[..n], i) == Before(es, i)
    {
      assert es[..n][..i] == es[..i];
    }
  }

  lemma LastRespected(es: seq<Event>)
    requires LeasesRespected(es) && es != []
    ensures LeasesRespected(es[..|es| - 1])
    ensures var w, e := Run(INITIAL, es[..|es| - 1]), es[|es| - 1];
            e.TryClaim? && w.active != map[] && w.slot.Some? ==> !LeaseExpired(w.slot.value, e.claim.now)
  {
    RespectedPrefix(es, |es| - 1);
    assert Before(es, |es| - 1) == Run(INITIAL, es[..|es| - 1]);
  }

  /** The world of a run that respects leases: nobody was overrun, and a worker's row is its own. */
  ghost predicate Exclusive(w: World) {
    && w.overruns == 0
    && (forall a, b :: a in w.active && b in w.active ==> a == b)
    && (forall a :: a in w.active ==> InStatus(w, Processing) && w.slot.value.claimedBy == Some(w.active[a]))
  }

  lemma StepKeepsExclusive(w: World, e: Event)
    requires Exclusive(w)
    requires e.TryClaim? && w.active != map[] && w.slot.Some? ==> !LeaseExpired(w.slot.value, e.claim.now)
    ensures Exclusive(Step(w, e))
    ensures forall a :: a in w.active && a in Step(w, e).active ==> Step(w, e).slot == w.slot
  {
    if w.active != map[] {
      var a :| a in w.active;
      assert InStatus(w, Processing);
    }
  }

  /**
   Lease exclusion over whole runs: if every worker still active finishes before its lease is
   claimed away, at most one worker is ever active, and the row is PROCESSING under its name.
   */
  lemma {:induction false} LeaseExclusion(es: seq<Event>)
    requires LeasesRespected(es)
    ensures Exclusive(Run(INITIAL, es))
  {
    if es != [] {
      LastRespected(es);
      LeaseExclusion(es[..|es| - 1]);
      StepKeepsExclusive(Run(INITIAL, es[..|es| - 1]), es[|es| - 1]);
    }
  }

  /** No statement of anyone else changes the row between a worker's start and its final mark. */
  lemma {:induction false} RowFrozenWhileActive(es: seq<Event>, i: nat, worker: Worker)
    requires LeasesRespected(es) && i <= |es|
    requires forall j :: i <= j <= |es| ==> worker in Before(es, j).active
    ensures Run(INITIAL, es).slot == Before(es, i).slot
    decreases |es|
  {
    assert es[..|es|] == es;
    if i < |es| {
      var p := es[..|es| - 1];
      LastRespected(es);
      forall j | i <= j <= |p|
        ensures worker in Before(p, j).active
      {
        assert p[..j] == es[..j];
        assert worker in Before(es, j).active;
      }
      RowFrozenWhileActive(p, i, worker);
      assert p[..i] == es[..i];
      LeaseExclusion(p);
      StepKeepsExclusive(Run(INITIAL, p), es[|es| - 1]);
      assert p[..|p|] == p;
      assert worker in Before(es, |es|).active && worker in Before(p, |p|).active;
    }
  }

  /** SUCCESS and SKIPPED are final in every run that respects leases. */
  lemma {:induction false} DoneIsFinal(es: seq<Event>, i: nat)
    requires LeasesRespected(es) && i <= |es|
    requires InStatus(Before(es, i), Success) || InStatus(Before(es, i), Skipped)
    ensures Run(INITIAL, es).slot == Before(es, i).slot
    decreases |es|
  {
    assert es[..|es|] == es;
    if i < |es| {
      var p := es[..|es| - 1];
      LastRespected(es);
      assert p[..i] == es[..i];
      DoneIsFinal(p, i);
      LeaseExclusion(p);
      var w := Run(INITIAL, p);
      assert w.active == map[] by {
        assert forall a :: a !in w.active;
      }
    }
  }

  lemma {:induction false} FrozenWhenIdle(w: World, es: seq<Event>)
    requires (InStatus(w, Success) || InStatus(w, Skipped)) && w.active == map[]
    ensures Run(w, es).slot == w.slot && Run(w, es).active == map[]
  {
    if es != [] {
      FrozenWhenIdle(w, es[..|es| - 1]);
    }
  }

  /** Exactly when SUCCESS and SKIPPED are final: no worker is still active on the row. */
  lemma FinalIff(w: World)
    requires InStatus(w, Success) || InStatus(w, Skipped)
    ensures (forall es :: Run(w, es).slot == w.slot) <==> w.active == map[]
  {
    if w.active == map[] {
      forall es ensures Run(w, es).slot == w.slot {
        FrozenWhenIdle(w, es);
      }
    } else {
      var worker :| worker in w.active;
      var late := Finish(worker, MarkFailed(Retryable, 3));
      RunLast(w, [], late);
      assert InStatus(Run(w, [] + [late]), Failed);
    }
  }

  lemma RunLast(w: World, es: seq<Event>, e: Event)
    ensures Run(w, es + [e]) == Step(Run(w, es), e)
  {
    assert (es + [e])[..|es|] == es;
  }

  /** A worker of a that is still active when b has taken over its expired lease. */
  lemma OverrunWorker(a: Instance, b: Instance) returns (es: seq<Event>)
    ensures var w := Run(INITIAL, es);
      w.active == map[0 := a] && InStatus(w, Claimed) && w.slot.value.claimedBy == Some(b)
  {
    var e1, e2 := TryClaim(Claim(a, 0, 600, 3), LeftToRight), MarkProcessing(0, a);
    var e3 := TryClaim(Claim(b, 601, 1201, 3), LeftToRight);
    var w1 := World(Some(Row(Claimed, Some(a), 0, Some(600), 0)), map[], 0, 0, 0, 0, 0);
    var w2 := World(Some(Row(Processing, Some(a), 0, Some(600), 0)), map[0 := a], 1, 0, 0, 0, 0);
    var w3 := World(Some(Row(Claimed, Some(b), 601, Some(1201), 0)), map[0 := a], 1, 0, 1, 1, 0);
    assert Step(INITIAL, e1) == w1;
    assert Step(w1, e2) == w2;
    assert Step(w2, e3) == w3 by { assert 0 in w2.active; }
    es := [e1, e2, e3];
    RunThree(INITIAL, e1, e2, e3);
  }

  lemma RunThree(w: World, a: Event, b: Event, c: Event)
    ensures Run(w, [a, b, c]) == Step(Step(Step(w, a), b), c)
  {
    RunLast(w, [], a);
    RunLast(w, [a], b);
    RunLast(w, [a, b], c);
    assert [] + [a] == [a] && [a] + [b] == [a, b] && [a, b] + [c] == [a, b, c];
  }

  /** Without that assumption the unguarded final marks let a late failure undo a success. */
  lemma LateFailureUndoesSuccess(a: Instance, b: Instance) returns (es: seq<Event>, late: Event)
    ensures InStatus(Run(INITIAL, es), Success)
    ensures InStatus(Run(INITIAL, es + [late]), Failed)
  {
    var p := OverrunWorker(a, b);
    var start, done := MarkProcessing(1, b), Finish(1, MarkSuccess);
    es, late := p + [start] + [done], Finish(0, MarkFailed(Retryable, 3));
    RunLast(INITIAL, p, start);
    RunLast(INITIAL, p + [start], done);
    RunLast(INITIAL, es, late);
  }

  /**
   A crash is recovered from: once the lease of the crashed worker has expired any instance takes
   the row over and starts the file, and nobody is overrun by that.
   */
  lemma CrashIsRecovered(w: World, crashed: Worker, c: Claim, order: SetOrder, worker: Worker)
    requires w.active.Keys == {crashed} && InStatus(w, Processing)
    requires LeaseExpired(w.slot.value, c.now)
    ensures var v := Step(Step(Step(w, Crash(crashed)), TryClaim(c, order)), MarkProcessing(worker, c.instance));
      && v.starts == w.starts + 1 && v.overruns == w.overruns && v.active == map[worker := c.instance]
      && InStatus(v, Processing) && v.slot.value.claimedBy == Some(c.instance)
      && v.slot.value.claimExpiresAt == Some(c.expires)
  {
    var w1 := Step(w, Crash(crashed));
    assert w1.active == map[];
    var w2 := Step(w1, TryClaim(c, order));
    assert w2.active == map[];
  }

  // ---------------------------------------------------------------- retry budget

  /** Every claim is made under the same max_retries. */
  predicate FixedBudget(es: seq<Event>, maxRetries: int) {
    forall e :: e in es && e.TryClaim? ==> e.claim.maxRetries == maxRetries
  }

  predicate NoManualRetry(es: seq<Event>) {
    forall e :: e in es ==> !e.ManualRetry?
  }

  /** How MySQL evaluates the statement. */
  predicate ClaimsLeftToRight(es: seq<Event>) {
    forall e :: e in es && e.TryClaim? ==> e.order == LeftToRight
  }

  /** No owner and no lease: what a manual retry of a FAILED row leaves. */
  predicate Ownerless(w: World) {
    w.slot.Some? && w.slot.value.claimedBy.None? && w.slot.value.claimExpiresAt.None?
  }

  ghost predicate BudgetInv(w: World, maxRetries: int) {
    && (w.slot.None? ==> w.starts == 0 && w.failedClaims == 0 && w.expired == 0)
    && (w.slot.Some? ==>
          && w.starts + One(InStatus(w, Claimed)) <= 1 + w.failedClaims + w.expired
          && w.failedClaims + One(InStatus(w, Failed)) <= w.slot.value.retryCount)
    && (w.failedClaims == 0 || w.failedClaims < maxRetries)
  }

  lemma StepKeepsBudgetInv(w: World, e: Event, maxRetries: int)
    requires BudgetInv(w, maxRetries)
    requires !e.ManualRetry? && (e.TryClaim? ==> e.claim.maxRetries == maxRetries)
    ensures BudgetInv(Step(w, e), maxRetries)
  {
  }

  function Max(a: int, b: int): int { if a < b then b else a }

  predicate WithinBudget(w: World, maxRetries: int) {
    w.starts <= Max(1, maxRetries) + w.expired
  }

  lemma StepKeepsOwnerless(w: World, e: Event)
    requires Ownerless(w) && (e.TryClaim? ==> e.order == LeftToRight)
    ensures Ownerless(Step(w, e)) && Step(w, e).starts == w.starts && Step(w, e).expired == w.expired
  {
  }

  lemma RetryMakesOwnerless(w: World, maxRetries: int)
    requires BudgetInv(w, maxRetries)
    ensures var v := Step(w, ManualRetry);
      v == w || (Ownerless(v) && WithinBudget(v, maxRetries))
  {
  }

  /**
   However late stale workers write, and however often the file is retried by hand, the pipeline
   starts stay within the retry budget.
   */
  lemma {:induction false} RetryBudget(es: seq<Event>, maxRetries: int)
    requires FixedBudget(es, maxRetries) && (NoManualRetry(es) || ClaimsLeftToRight(es))
    ensures BudgetInv(Run(INITIAL, es), maxRetries) || (Ownerless(Run(INITIAL, es)) && !NoManualRetry(es))
    ensures WithinBudget(Run(INITIAL, es), maxRetries)
  {
    if es != [] {
      var p, e := es[..|es| - 1], es[|es| - 1];
      assert es == p + [e];
      var w := Run(INITIAL, p);
      RetryBudget(p, maxRetries);
      if !BudgetInv(w, maxRetries) {
        StepKeepsOwnerless(w, e);
      } else if e.ManualRetry? {
        RetryMakesOwnerless(w, maxRetries);
        assert !NoManualRetry(es);
      } else {
        StepKeepsBudgetInv(w, e, maxRetries);
      }
    }
  }

  lemma RespectedNext(es: seq<Event>, e: Event)
    requires LeasesRespected(es)
    requires e.TryClaim? ==> Run(INITIAL, es).active == map[]
    ensures LeasesRespected(es + [e])
  {
    var all := es + [e];
    forall i | 0 <= i < |all| && all[i].TryClaim?
      ensures Before(all, i).active != map[] && Before(all, i).slot.Some?
              ==> !LeaseExpired(Before(all, i).slot.value, all[i].claim.now)
    {
      if i < |es| {
        assert all[..i] == es[..i] && all[i] == es[i];
        assert Before(all, i) == Before(es, i);
      } else {
        assert all[..i] == es;
      }
    }
  }

  lemma BudgetNext(es: seq<Event>, e: Event, maxRetries: int)
    requires FixedBudget(es, maxRetries) && NoManualRetry(es)
    requires !e.ManualRetry? && (e.TryClaim? ==> e.claim.maxRetries == maxRetries)
    ensures FixedBudget(es + [e], maxRetries) && NoManualRetry(es + [e])
  {
  }

  /** A world whose row has failed n times on one instance, with nobody active. */
  predicate FailedTimes(w: World, a: Instance, n: nat) {
    && w.starts == n && w.expired == 0 && w.active == map[]
    && if n == 0 then w == INITIAL
       else InStatus(w, Failed) && w.slot.value.retryCount == n
            && w.slot.value.claimedBy == Some(a) && w.slot.value.claimExpiresAt.None?
  }

  lemma FailOnceMore(w: World, a: Instance, n: nat, c: Claim)
    requires FailedTimes(w, a, n) && n < c.maxRetries && c.instance == a
    ensures var w2 := Step(Step(w, TryClaim(c, LeftToRight)), MarkProcessing(0, a));
      FailedTimes(Step(w2, Finish(0, MarkFailed(Retryable, c.maxRetries))), a, n + 1)
  {
    var w1 := Step(w, TryClaim(c, LeftToRight));
    assert w1.active == map[] && CanStart(w1.slot.value, a);
    var w2 := Step(w1, MarkProcessing(0, a));
    assert w2.active == map[0 := a];
    assert w2.active - {0} == map[];
  }

  /** The bound is attained: one instance, no expired lease, n failures, n starts. */
  lemma {:induction false} RetryBudgetIsTight(a: Instance, n: nat, maxRetries: int) returns (es: seq<Event>)
    requires n <= maxRetries
    ensures FixedBudget(es, maxRetries) && NoManualRetry(es) && LeasesRespected(es)
    ensures Run(INITIAL, es).starts == n && Run(INITIAL, es).expired == 0
    ensures FailedTimes(Run(INITIAL, es), a, n)
  {
    es := [];
    if n > 0 {
      var p := RetryBudgetIsTight(a, n - 1, maxRetries);
      var c := Claim(a, 0, 600, maxRetries);
      var e1, e2, e3 := TryClaim(c, LeftToRight), MarkProcessing(0, a), Finish(0, MarkFailed(Retryable, maxRetries));
      FailOnceMore(Run(INITIAL, p), a, n - 1, c);
      RunLast(INITIAL, p, e1);
      RunLast(INITIAL, p + [e1], e2);
      RunLast(INITIAL, p + [e1] + [e2], e3);
      BudgetNext(p, e1, maxRetries);
      BudgetNext(p + [e1], e2, maxRetries);
      BudgetNext(p + [e1] + [e2], e3, maxRetries);
      RespectedNext(p, e1);
      RespectedNext(p + [e1], e2);
      RespectedNext(p + [e1] + [e2], e3);
      es := p + [e1] + [e2] + [e3];
    }
  }

  /** Besides, every failure is retryable and is judged against the same max_retries. */
  predicate RetryableOnly(es: seq<Event>, maxRetries: int) {
    FixedBudget(es, maxRetries) && NoManualRetry(es)
    && forall e :: e in es && e.Finish? && e.mark.MarkFailed? ==> e.mark == MarkFailed(Retryable, maxRetries)
  }

  ghost predicate DeadLetterInv(w: World, maxRetries: int) {
    && w.deadLetters <= 1
    && (w.deadLetters == 1 <==> InStatus(w, Failed) && w.slot.value.retryCount >= maxRetries)
    && (InStatus(w, Failed) ==> w.active == map[])
  }

  /**
   The dead letter move happens at most once, and exactly at the failure that leaves the row
   where no later claim can take it.
   */
  lemma {:induction false} DeadLetterOnce(es: seq<Event>, maxRetries: int)
    requires LeasesRespected(es) && RetryableOnly(es, maxRetries)
    ensures DeadLetterInv(Run(INITIAL, es), maxRetries)
    ensures Run(INITIAL, es).deadLetters == 1 <==>
            InStatus(Run(INITIAL, es), Failed)
            && forall now :: !Claimable(Run(INITIAL, es).slot.value, now, maxRetries)
  {
    if es != [] {
      var p := es[..|es| - 1];
      LastRespected(es);
      DeadLetterOnce(p, maxRetries);
      LeaseExclusion(p);
      var w, e := Run(INITIAL, p), es[|es| - 1];
      assert e in es;
      LeaseExclusion(es);
      if e.Finish? && e.finisher in w.active {
        assert forall a :: a in w.active ==> a == e.finisher;
        assert w.active - {e.finisher} == map[];
      }
      if w.active != map[] {
        var a :| a in w.active;
        assert InStatus(w, Processing);
      }
    }
    var w := Run(INITIAL, es);
    if InStatus(w, Failed) {
      assert Claimable(w.slot.value, 0, maxRetries) <==> w.slot.value.retryCount < maxRetries;
    }
  }

  // ---------------------------------------------------------------- the left-to-right SET list

  ghost predicate FailedHasNoLease(w: World) {
    InStatus(w, Failed) ==> w.slot.value.claimExpiresAt.None?
  }

  lemma {:induction false} FailedRowsHaveNoLease(es: seq<Event>)
    ensures FailedHasNoLease(Run(INITIAL, es))
  {
    if es != [] {
      FailedRowsHaveNoLease(es[..|es| - 1]);
    }
  }

  /**
   On every reachable row the two evaluation orders agree, except on a FAILED row within its
   budget: there the left-to-right statement changes the status and nothing else.
   */
  lemma {:induction false} TakeoverUnderEitherOrder(es: seq<Event>, c: Claim)
    requires Run(INITIAL, es).slot.Some?
    ensures var row := Run(INITIAL, es).slot.value;
      && (UpdateLeftToRight(row, c) == UpdateSimultaneously(row, c)
          <==> !(row.status == Failed && row.retryCount < c.maxRetries))
      && (row.status == Failed && row.retryCount < c.maxRetries
          ==> UpdateLeftToRight(row, c) == row.(status := Claimed))
      && (UpdateLeftToRight(row, c) == row || UpdateLeftToRight(row, c) == UpdateSimultaneously(row, c)
          || row.status == Failed)
  {
    FailedRowsHaveNoLease(es);
  }

  /** So the instance that claims a failed file can start it iff it is the one that failed before. */
  lemma RetryStartsOnlyOnOldOwner(es: seq<Event>, c: Claim, worker: Worker)
    requires InStatus(Run(INITIAL, es), Failed)
    requires Run(INITIAL, es).slot.value.retryCount < c.maxRetries
    requires worker !in Run(INITIAL, es).active
    ensures var w := Run(INITIAL, es);
      Step(Step(w, TryClaim(c, LeftToRight)), MarkProcessing(worker, c.instance)).starts
      == w.starts + One(w.slot.value.claimedBy == Some(c.instance))
    ensures var w := Run(INITIAL, es);
      Step(Step(w, TryClaim(c, Simultaneous)), MarkProcessing(worker, c.instance)).starts == w.starts + 1
  {
    FailedRowsHaveNoLease(es);
  }

  /** When a worker that claims the file of this row and then marks it gets to start it. */
  predicate GetsToStart(slot: Option<Row>, c: Claim) {
    match slot
    case None => true
    case Some(row) =>
      || (row.status in {Claimed, Processing} && LeaseExpired(row, c.now))
      || (row.status == Claimed && row.claimedBy == Some(c.instance))
      || (row.status == Failed && row.retryCount < c.maxRetries && row.claimedBy == Some(c.instance))
  }

  /**
   The exact outcome of claim and start on every reachable row. An expired lease is always
   taken over, so a crashed worker's file is recovered by anyone, unless its lease is NULL.
   */
  lemma {:induction false} ClaimThenStartIff(es: seq<Event>, c: Claim, worker: Worker)
    requires worker !in Run(INITIAL, es).active
    ensures var w := Run(INITIAL, es);
      Step(Step(w, TryClaim(c, LeftToRight)), MarkProcessing(worker, c.instance)).starts
      == w.starts + One(GetsToStart(w.slot, c))
  {
    FailedRowsHaveNoLease(es);
  }

  /** A row with a NULL lease. */
  predicate Leaseless(w: World) {
    w.slot.Some? && w.slot.value.claimExpiresAt.None?
  }

  /** A row in flight that no claim can ever take over. */
  predicate Stranded(w: World) {
    (InStatus(w, Claimed) || InStatus(w, Processing)) && Leaseless(w)
  }

  /** A retry claim always strands the row; with simultaneous evaluation it would not. */
  lemma {:induction false} RetryLeavesNoLease(es: seq<Event>, c: Claim)
    requires InStatus(Run(INITIAL, es), Failed)
    requires Run(INITIAL, es).slot.value.retryCount < c.maxRetries
    ensures Stranded(Step(Run(INITIAL, es), TryClaim(c, LeftToRight)))
    ensures !Stranded(Step(Run(INITIAL, es), TryClaim(c, Simultaneous)))
  {
    FailedRowsHaveNoLease(es);
  }

  /** Once the lease is NULL it stays so: no claim ever takes the row over as expired. */
  lemma {:induction false} NoLeaseForGood(w: World, es: seq<Event>)
    requires Leaseless(w) && ClaimsLeftToRight(es)
    ensures Leaseless(Run(w, es)) && Run(w, es).expired == w.expired
  {
    if es != [] {
      assert es[|es| - 1] in es;
      NoLeaseForGood(w, es[..|es| - 1]);
    }
  }

  /** None of these starts is tried by the recorded owner of the row. */
  predicate OwnerStaysAway(w: World, es: seq<Event>)
    requires w.slot.Some?
  {
    forall e :: e in es && e.MarkProcessing? ==> Some(e.instance) != w.slot.value.claimedBy
  }

  /**
   Whatever all the other instances, the operator and workers that are still active do, a row
   without a lease is started by nobody but its recorded owner.
   */
  lemma {:induction false} OnlyOwnerStartsLeaseless(w: World, es: seq<Event>)
    requires Leaseless(w) && ClaimsLeftToRight(es) && OwnerStaysAway(w, es)
    ensures Run(w, es).starts == w.starts && Leaseless(Run(w, es))
    ensures Run(w, es).slot.value.claimedBy in {w.slot.value.claimedBy, None}
  {
    if es != [] {
      assert es[|es| - 1] in es;
      OnlyOwnerStartsLeaseless(w, es[..|es| - 1]);
    }
  }

  /**
   With nobody active a stranded row does not even change until its recorded owner starts it; and
   if it is already PROCESSING (the owner crashed), it never does.
   */
  lemma {:induction false} StrandedUntilOwnerReturns(w: World, es: seq<Event>)
    requires Stranded(w) && w.active == map[]
    requires InStatus(w, Processing) || OwnerStaysAway(w, es)
    ensures Run(w, es).slot == w.slot && Run(w, es).active == map[]
  {
    if es != [] {
      var e := es[|es| - 1];
      assert e in es;
      StrandedUntilOwnerReturns(w, es[..|es| - 1]);
    }
  }

  lemma ManualRetryLeavesOwnerless(w: World)
    requires InStatus(w, Failed)
    ensures Ownerless(Step(w, ManualRetry)) && InStatus(Step(w, ManualRetry), Pending)
  {
  }

  /**
   The manual retry endpoint answers "queued", but no run ever starts the file again, whatever
   workers that are still active write, and however often a late failure is claimed or requeued.
   Without such workers the row does not even change.
   */
  lemma {:induction false} RequeuedFileIsNeverStarted(w: World, es: seq<Event>)
    requires Ownerless(w) && ClaimsLeftToRight(es)
    ensures Ownerless(Run(w, es)) && Run(w, es).starts == w.starts
    ensures InStatus(w, Pending) && w.active == map[] ==> Run(w, es).slot == w.slot && Run(w, es).active == map[]
  {
    if es != [] {
      var p, e := es[..|es| - 1], es[|es| - 1];
      assert e in es;
      RequeuedFileIsNeverStarted(w, p);
      StepKeepsOwnerless(Run(w, p), e);
    }
  }
}
