/** The worker's path through the claim protocol for one file, and what it reports to the breaker. */
module FileProcessor {
  import opened Wrappers
  import opened ProcessedFiles
  import opened ClaimProtocol
  import CircuitBreakers
  import Pipeline

  /** What executing the pipeline comes to: a result status, or an exception that escapes it. */
  datatype Outcome = Completed(status: Pipeline.PipelineStatus) | Escaped

  function MarkFor(outcome: Outcome, maxRetries: int): Mark {
    match outcome
    case Escaped => MarkFailed(Unhandled, maxRetries)
    case Completed(Success) => MarkSuccess
    case Completed(Skipped) => MarkSkipped
    case Completed(Retry) => MarkFailed(Retryable, maxRetries)
    case Completed(Failed) => MarkFailed(Fatal, maxRetries)
  }

  /** Skipped and retryable files report nothing, so they leave a probe of the breaker open. */
  function ReportFor(outcome: Outcome, now: real): seq<CircuitBreakers.Event> {
    match outcome
    case Escaped => [CircuitBreakers.FailedAt(now)]
    case Completed(Success) => [CircuitBreakers.Succeeded]
    case Completed(Failed) => [CircuitBreakers.FailedAt(now)]
    case Completed(_) => []
  }

  /** The row after a call that came to this outcome, from the retry count it had before. */
  predicate Concluded(row: Row, retries: nat, outcome: Outcome) {
    && (row.status == Status.Success <==> outcome == Completed(Pipeline.PipelineStatus.Success))
    && (row.status == Status.Skipped <==> outcome == Completed(Pipeline.PipelineStatus.Skipped))
    && (row.status == Status.Failed <==>
          (|| outcome.Escaped?
           || outcome == Completed(Pipeline.PipelineStatus.Failed)
           || outcome == Completed(Pipeline.PipelineStatus.Retry)))
    && row.retryCount == (if row.status == Status.Failed then retries + 1 else retries)
    && (row.status == Status.Failed ==> row.claimExpiresAt.None?)
  }

  /** The file goes to the dead letter directory: failed, or to be retried without a retry left. */
  predicate GivenUp(outcome: Outcome, newRetry: nat, max: int) {
    || outcome == Completed(Pipeline.PipelineStatus.Failed)
    || (outcome == Completed(Pipeline.PipelineStatus.Retry) && newRetry >= max)
  }

  /** The breaker after it: a failure and an escaped exception count, a success closes it, the rest is not seen. */
  predicate Reported(before: CircuitBreakers.Breaker, after: CircuitBreakers.Breaker, outcome: Outcome) {
    if outcome == Completed(Pipeline.PipelineStatus.Skipped) || outcome == Completed(Pipeline.PipelineStatus.Retry)
    then after == before
    else if outcome == Completed(Pipeline.PipelineStatus.Success)
    then after.state.Closed? && after.failures == 0 && !after.halfOpenInProgress
    else after.failures == before.failures + 1 && !after.halfOpenInProgress
  }

  /** The row as a world with nobody at work on it. */
  function Idle(slot: Option<Row>): World {
    World(slot, map[], 0, 0, 0, 0, 0)
  }

  function RetriesOf(slot: Option<Row>): nat {
    match slot case None => 0 case Some(row) => row.retryCount
  }

  class Processor {
    const repo: ProcessedFileRepository

    constructor (repo: ProcessedFileRepository)
      ensures this.repo == repo
    {
      this.repo := repo;
    }

    /**
     One uninterrupted call. `maxRetries` is that of the task, None if the task is not
     configured; `outcome` is what the pipeline would come to. The result lists the protocol
     events the call performs: it conforms to the protocol step by step.
     */
    method Call(key: FileKey, maxRetries: Option<int>, now: int, outcome: Outcome,
                breaker: CircuitBreakers.CircuitBreaker, failTime: real)
      returns (events: seq<Event>, deadLettered: bool)
      requires repo.db as object != breaker
      modifies repo.db, breaker
      ensures repo.db.Slot(key) == Run(Idle(old(repo.db.Slot(key))), events).slot
      ensures forall other :: other != key ==> repo.db.Slot(other) == old(repo.db.Slot(other))
      ensures Run(Idle(old(repo.db.Slot(key))), events).active == map[]
      ensures deadLettered <==> Run(Idle(old(repo.db.Slot(key))), events).deadLetters == 1
      ensures events == if maxRetries.None? then [] else
        var claim := TryClaim(repo.ClaimAt(now, maxRetries.value), LeftToRight);
        var row := Step(Idle(old(repo.db.Slot(key))), claim).slot.value;
        if old(repo.db.Slot(key)) == Some(row) && !repo.db.foundRows then [claim]
        else if !CanStart(row, repo.instanceId) then [claim, MarkProcessing(0, repo.instanceId)]
        else [claim, MarkProcessing(0, repo.instanceId), Finish(0, MarkFor(outcome, maxRetries.value))]
      ensures |events| == 3 ==>
        && repo.db.Slot(key).Some?
        && Concluded(repo.db.Slot(key).value, RetriesOf(old(repo.db.Slot(key))), outcome)
        && Reported(old(breaker.Value()), breaker.Value(), outcome)
      ensures |events| != 3 ==> !deadLettered
      ensures |events| == 3 ==>
        (deadLettered <==> GivenUp(outcome, RetriesOf(repo.db.Slot(key)), maxRetries.value))
      ensures breaker.Value() == CircuitBreakers.Run(old(breaker.Value()), breaker.settings,
        if |events| == 3 then ReportFor(outcome, failTime) else [])
    {
      deadLettered, events := false, [];
      ghost var w0 := Idle(repo.db.Slot(key));
      if maxRetries.None? {
        return;
      }
      var max := maxRetries.value;
      var claim := TryClaim(repo.ClaimAt(now, max), LeftToRight);
      var claimed := repo.TryClaim(key, now, max);
      events := [claim];
      RunOne(w0, claim);
      ghost var w1 := Step(w0, claim);
      if !claimed {
        return;
      }
      var start := MarkProcessing(0, repo.instanceId);
      RunTwo(w0, claim, start);
      var started := repo.MarkProcessing(key);
      events := [claim, start];
      if !started {
        return;
      }
      ghost var w2 := Step(w1, start);
      var finish := Finish(0, MarkFor(outcome, max));
      RunThree(w0, claim, start, finish);
      events := [claim, start, finish];
      deadLettered := Conclude(key, max, outcome, breaker, failTime);
      assert w2.active == map[0 := repo.instanceId];
      assert Step(w2, finish).active == map[];
    }

    /** The final mark, the report to the breaker, and the dead letter move. */
    method Conclude(key: FileKey, max: int, outcome: Outcome, breaker: CircuitBreakers.CircuitBreaker, failTime: real)
      returns (deadLettered: bool)
      requires repo.db as object != breaker && key in repo.db.files
      modifies repo.db, breaker
      ensures repo.db.files == old(repo.db.files)[key := Marked(old(repo.db.files[key]), MarkFor(outcome, max))]
      ensures deadLettered <==> DeadLettered(repo.db.files[key].retryCount, MarkFor(outcome, max))
      ensures Concluded(repo.db.files[key], old(repo.db.files[key]).retryCount, outcome)
      ensures deadLettered <==> GivenUp(outcome, repo.db.files[key].retryCount, max)
      ensures Reported(old(breaker.Value()), breaker.Value(), outcome)
      ensures breaker.Value()
           == CircuitBreakers.Run(old(breaker.Value()), breaker.settings, ReportFor(outcome, failTime))
    {
      deadLettered := false;
      match outcome {
        case Escaped =>
          var _ := repo.MarkFailed(key);
          breaker.RecordFailure(failTime);
        case Completed(status) =>
          match status {
            case Success =>
              var _ := repo.MarkSuccess(key);
              breaker.RecordSuccess();
            case Skipped =>
              repo.MarkSkipped(key);
            case Retry =>
              var retryCount := repo.MarkFailed(key);
              deadLettered := retryCount >= max;
            case Failed =>
              var _ := repo.MarkFailed(key);
              breaker.RecordFailure(failTime);
              deadLettered := true;
          }
      }
    }
  }

  lemma RunOne(w: World, a: Event)
    ensures Run(w, [a]) == Step(w, a)
  {
    RunLast(w, [], a);
    assert [] + [a] == [a];
  }

  lemma RunTwo(w: World, a: Event, b: Event)
    ensures Run(w, [a, b]) == Step(Step(w, a), b)
  {
    RunOne(w, a);
    RunLast(w, [a], b);
    assert [a] + [b] == [a, b];
  }
}
