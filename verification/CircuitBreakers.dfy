/**
 The per-task circuit breaker: its fields and methods, and what they compute from the whole
 history of calls. Times are readings of a monotonic clock. A granted probe reads the clock
 twice, once to decide and once to record.
 */
module CircuitBreakers {
  datatype CircuitState = Closed | Open | HalfOpen

  datatype Breaker = Breaker(
    state: CircuitState,
    failures: nat,
    openedAt: real,
    halfOpenInProgress: bool,
    halfOpenAt: real)

  const FRESH := Breaker(Closed, 0, 0.0, false, 0.0)

  datatype Settings = Settings(failureThreshold: int, recoveryTimeout: real)

  datatype Event =
    | Allow(decide: real, record: real)
    | Succeeded
    | FailedAt(at: real)

  predicate Grants(b: Breaker, s: Settings, decide: real) {
    match b.state
    case Closed => true
    case Open => decide - b.openedAt > s.recoveryTimeout
    case HalfOpen => !b.halfOpenInProgress || decide - b.halfOpenAt > s.recoveryTimeout
  }

  function Step(b: Breaker, s: Settings, e: Event): Breaker {
    match e
    case Allow(decide, record) =>
      if b.state.Closed? || !Grants(b, s, decide) then b
      else b.(state := HalfOpen, halfOpenInProgress := true, halfOpenAt := record)
    case Succeeded => b.(state := Closed, failures := 0, halfOpenInProgress := false)
    case FailedAt(t) =>
      var b1 := b.(halfOpenInProgress := false, failures := b.failures + 1);
      if b.state.HalfOpen? || b1.failures >= s.failureThreshold
      then b1.(state := Open, openedAt := t) else b1
  }

  function Run(b: Breaker, s: Settings, es: seq<Event>): Breaker {
    if es == [] then b else Step(Run(b, s, es[..|es| - 1]), s, es[|es| - 1])
  }

  class CircuitBreaker {
    const settings: Settings
    var state: CircuitState
    var failures: nat
    var openedAt: real
    var halfOpenInProgress: bool
    var halfOpenAt: real

    constructor (settings: Settings)
      ensures this.settings == settings && Value() == FRESH
    {
      this.settings := settings;
      state, failures, openedAt, halfOpenInProgress, halfOpenAt := Closed, 0, 0.0, false, 0.0;
    }

    function Value(): Breaker
      reads this
    {
      Breaker(state, failures, openedAt, halfOpenInProgress, halfOpenAt)
    }

    method TryAllow(decide: real, record: real) returns (granted: bool)
      modifies this
      ensures Value() == Step(old(Value()), settings, Allow(decide, record))
      ensures granted == Grants(old(Value()), settings, decide)
    {
      if state == Closed {
        return true;
      }
      if state == Open {
        if decide - openedAt > settings.recoveryTimeout {
          state := HalfOpen;
          halfOpenAt := record;
          halfOpenInProgress := true;
          return true;
        }
        return false;
      }
      if halfOpenInProgress {
        if decide - halfOpenAt > settings.recoveryTimeout {
          halfOpenInProgress := false;
        } else {
          return false;
        }
      }
      halfOpenInProgress := true;
      halfOpenAt := record;
      return true;
    }

    method RecordSuccess()
      modifies this
      ensures Value() == Step(old(Value()), settings, Succeeded)
    {
      failures := 0;
      halfOpenInProgress := false;
      state := Closed;
    }

    method RecordFailure(now: real)
      modifies this
      ensures Value() == Step(old(Value()), settings, FailedAt(now))
    {
      halfOpenInProgress := false;
      failures := failures + 1;
      if state == HalfOpen || failures >= settings.failureThreshold {
        state := Open;
        openedAt := now;
      }
    }
  }

  // ---------------------------------------------------------------- refinement of the history

  function FailuresSinceSuccess(es: seq<Event>): nat {
    if es == [] then 0
    else
      var n := FailuresSinceSuccess(es[..|es| - 1]);
      match es[|es| - 1]
      case Allow(_, _) => n
      case Succeeded => 0
      case FailedAt(_) => n + 1
  }

  /** The decision read off the history alone: two numbers, no states and no probe flag. */
  predicate HistoryGrants(s: Settings, es: seq<Event>, decide: real)
    decreases |es|, 1
  {
    FailuresSinceSuccess(es) < s.failureThreshold || decide - LastSign(s, es) > s.recoveryTimeout
  }

  /** The time of the latest failure, or of the latest grant that was not given freely. */
  function LastSign(s: Settings, es: seq<Event>): real
    decreases |es|, 0
  {
    if es == [] then 0.0
    else
      var p := es[..|es| - 1];
      match es[|es| - 1]
      case Allow(decide, record) =>
        if FailuresSinceSuccess(p) >= s.failureThreshold && HistoryGrants(s, p, decide) then record
        else LastSign(s, p)
      case Succeeded => LastSign(s, p)
      case FailedAt(t) => t
  }

  ghost predicate RefinesHistory(b: Breaker, s: Settings, es: seq<Event>) {
    && b.failures == FailuresSinceSuccess(es)
    && (b.state.Closed? <==> FailuresSinceSuccess(es) < s.failureThreshold)
    && (b.state.Open? ==> b.openedAt == LastSign(s, es))
    && (b.state.HalfOpen? ==> b.halfOpenInProgress && b.halfOpenAt == LastSign(s, es))
  }

  /**
   After any calls at any times, the breaker is CLOSED exactly while the failures since the
   last success are below the threshold, HALF_OPEN always has a probe in progress, and the
   next decision is the one of the history.
   */
  lemma {:induction false} BreakerRefinesHistory(s: Settings, es: seq<Event>, decide: real)
    requires s.failureThreshold >= 1
    ensures RefinesHistory(Run(FRESH, s, es), s, es)
    ensures Grants(Run(FRESH, s, es), s, decide) <==> HistoryGrants(s, es, decide)
  {
    if es != [] {
      var p, e := es[..|es| - 1], es[|es| - 1];
      BreakerRefinesHistory(s, p, if e.Allow? then e.decide else decide);
    }
  }

  /** Hence the HALF_OPEN disjunct of record_failure never decides. */
  lemma HalfOpenTestIsRedundant(s: Settings, es: seq<Event>)
    requires s.failureThreshold >= 1
    ensures Run(FRESH, s, es).state.HalfOpen? ==> Run(FRESH, s, es).failures + 1 >= s.failureThreshold
  {
    BreakerRefinesHistory(s, es, 0.0);
  }

  /** A series of calls that are all refused. */
  ghost predicate Refused(b: Breaker, s: Settings, es: seq<Event>) {
    forall i :: 0 <= i < |es| ==> es[i].Allow? && !Grants(Run(b, s, es[..i]), s, es[i].decide)
  }

  /**
   The breaker never wedges, in whatever state it was left. Outcomes that report nothing (queue
   full, skipped, retryable) leave a probe open, and still refused calls do not postpone the next
   grant: any later call past both timestamps is granted.
   */
  lemma {:induction false} NeverWedged(b: Breaker, s: Settings, refused: seq<Event>, decide: real)
    requires Refused(b, s, refused)
    requires decide > b.openedAt + s.recoveryTimeout && decide > b.halfOpenAt + s.recoveryTimeout
    ensures Run(b, s, refused) == b
    ensures Grants(Run(b, s, refused), s, decide)
  {
    if refused != [] {
      var p := refused[..|refused| - 1];
      forall i | 0 <= i < |p| ensures p[i].Allow? && !Grants(Run(b, s, p[..i]), s, p[i].decide) {
        assert p[..i] == refused[..i] && p[i] == refused[i];
      }
      NeverWedged(b, s, p, decide);
    }
  }

  // ---------------------------------------------------------------- spacing of the probes

  /** The events of a tripped breaker: no success, and a clock that never runs backwards from c. */
  ghost predicate ProbingFrom(c: real, es: seq<Event>) {
    forall i :: 0 <= i < |es| ==>
      && !es[i].Succeeded?
      && ClockAfter(c, es[..i]) <= Start(es[i]) <= End(es[i])
  }

  function Start(e: Event): real {
    match e case Allow(decide, _) => decide case Succeeded => 0.0 case FailedAt(t) => t
  }

  function End(e: Event): real {
    match e case Allow(_, record) => record case Succeeded => 0.0 case FailedAt(t) => t
  }

  function ClockAfter(c: real, es: seq<Event>): real {
    if es == [] then c else End(es[|es| - 1])
  }

  /** A grant: the clock reading that decided it and the one recorded for it. */
  datatype Grant = Grant(decide: real, record: real)

  /** The granted Allow events of the run, in order. */
  function Granted(b: Breaker, s: Settings, es: seq<Event>): seq<Grant> {
    if es == [] then []
    else
      var p, e := es[..|es| - 1], es[|es| - 1];
      Granted(b, s, p)
      + (if e.Allow? && Grants(Run(b, s, p), s, e.decide) then [Grant(e.decide, e.record)] else [])
  }

  /** What the next probe has to wait for. */
  function Gate(b: Breaker): real {
    if b.state.Open? then b.openedAt else b.halfOpenAt
  }

  ghost predicate Tripped(b: Breaker, s: Settings, c: real) {
    && b.failures >= s.failureThreshold
    && (b.state.Open? || (b.state.HalfOpen? && b.halfOpenInProgress))
    && Gate(b) <= c
  }

  /** Every tripped breaker of a real run qualifies as a starting point. */
  lemma ReachableIsTripped(s: Settings, es: seq<Event>, c: real)
    requires s.failureThreshold >= 1 && FailuresSinceSuccess(es) >= s.failureThreshold
    requires LastSign(s, es) <= c
    ensures Tripped(Run(FRESH, s, es), s, c)
  {
    BreakerRefinesHistory(s, es, 0.0);
  }

  function Timeouts(n: nat, s: Settings): real {
    if n == 0 then 0.0 else Timeouts(n - 1, s) + s.recoveryTimeout
  }

  lemma {:induction false} TimeoutsIsProduct(n: nat, s: Settings)
    ensures Timeouts(n, s) == n as real * s.recoveryTimeout
  {
    if n > 0 {
      TimeoutsIsProduct(n - 1, s);
      assert n as real == (n - 1) as real + 1.0;
      assert ((n - 1) as real + 1.0) * s.recoveryTimeout == (n - 1) as real * s.recoveryTimeout + s.recoveryTimeout;
    }
  }

  ghost predicate Spaced(gs: seq<Grant>, s: Settings) {
    forall i, j :: 0 <= i < j < |gs| ==> gs[j].decide - gs[i].record > Timeouts(j - i, s)
  }

  ghost predicate Leads(gate: real, gs: seq<Grant>, s: Settings) {
    forall i :: 0 <= i < |gs| ==>
      gs[i].decide <= gs[i].record && gs[i].record + Timeouts(|gs| - 1 - i, s) <= gate
  }

  lemma {:induction false} GateLeadsGrants(b: Breaker, s: Settings, c: real, es: seq<Event>)
    requires Tripped(b, s, c) && ProbingFrom(c, es) && s.recoveryTimeout >= 0.0
    ensures Tripped(Run(b, s, es), s, ClockAfter(c, es))
    ensures Leads(Gate(Run(b, s, es)), Granted(b, s, es), s)
    ensures Spaced(Granted(b, s, es), s)
  {
    if es != [] {
      var p, i := es[..|es| - 1], |es| - 1;
      ProbingPrefix(c, es);
      GateLeadsGrants(b, s, c, p);
      var w, gs := Run(b, s, p), Granted(b, s, p);
      TrippedStep(w, s, ClockAfter(c, p), es[i]);
      if es[i].Allow? && Grants(w, s, es[i].decide) {
        NextGrant(gs, Grant(es[i].decide, es[i].record), Gate(w), s);
      } else {
        LaterGate(Gate(w), Gate(Step(w, s, es[i])), gs, s);
      }
    }
  }

  lemma ProbingPrefix(c: real, es: seq<Event>)
    requires ProbingFrom(c, es) && es != []
    ensures var p, e := es[..|es| - 1], es[|es| - 1];
      ProbingFrom(c, p) && !e.Succeeded? && ClockAfter(c, p) <= Start(e) <= End(e)
  {
    var p := es[..|es| - 1];
    forall k | 0 <= k < |p|
      ensures !p[k].Succeeded? && ClockAfter(c, p[..k]) <= Start(p[k]) <= End(p[k])
    {
      assert p[..k] == es[..k] && p[k] == es[k];
    }
  }

  /** One event of a tripped breaker; a grant waits for the old gate and sets the new one. */
  lemma TrippedStep(b: Breaker, s: Settings, c: real, e: Event)
    requires Tripped(b, s, c) && !e.Succeeded? && c <= Start(e) <= End(e) && s.recoveryTimeout >= 0.0
    ensures Tripped(Step(b, s, e), s, End(e)) && Gate(Step(b, s, e)) >= Gate(b)
    ensures e.Allow? && Grants(b, s, e.decide) ==>
      e.decide - Gate(b) > s.recoveryTimeout && Gate(Step(b, s, e)) == e.record
  {
  }

  lemma LaterGate(gate: real, later: real, gs: seq<Grant>, s: Settings)
    requires Leads(gate, gs, s) && gate <= later
    ensures Leads(later, gs, s)
  {
  }

  lemma NextGrant(gs: seq<Grant>, g: Grant, gate: real, s: Settings)
    requires Leads(gate, gs, s) && Spaced(gs, s)
    requires g.decide - gate > s.recoveryTimeout >= 0.0 && g.decide <= g.record
    ensures Leads(g.record, gs + [g], s) && Spaced(gs + [g], s)
  {
    var hs := gs + [g];
    forall i | 0 <= i < |gs|
      ensures g.decide - gs[i].record > Timeouts(|gs| - i, s)
    {
      assert Timeouts(|gs| - i, s) == Timeouts(|gs| - 1 - i, s) + s.recoveryTimeout;
    }
    forall i | 0 <= i < |hs|
      ensures hs[i].decide <= hs[i].record && hs[i].record + Timeouts(|hs| - 1 - i, s) <= g.record
    {
      if i < |gs| {
        assert hs[i] == gs[i];
      }
    }
  }

  lemma Apart(gs: seq<Grant>, s: Settings, i: nat, j: nat)
    requires Spaced(gs, s) && i < j < |gs|
    ensures gs[j].decide - gs[i].record > Timeouts(j - i, s)
  {
  }

  lemma ProbesAreApart(b: Breaker, s: Settings, c: real, es: seq<Event>, i: nat, j: nat)
    requires Tripped(b, s, c) && ProbingFrom(c, es) && s.recoveryTimeout >= 0.0
    requires i < j < |Granted(b, s, es)|
    ensures Granted(b, s, es)[j].decide - Granted(b, s, es)[i].record > Timeouts(j - i, s)
  {
    GateLeadsGrants(b, s, c, es);
    Apart(Granted(b, s, es), s, i, j);
  }

  /** Without a success, grants i and j of a tripped breaker lie more than (j - i) timeouts apart. */
  lemma ProbesAreSpaced(b: Breaker, s: Settings, c: real, es: seq<Event>, i: nat, j: nat)
    requires Tripped(b, s, c) && ProbingFrom(c, es) && s.recoveryTimeout >= 0.0
    requires i < j < |Granted(b, s, es)|
    ensures Granted(b, s, es)[j].decide - Granted(b, s, es)[i].record > (j - i) as real * s.recoveryTimeout
  {
    ProbesAreApart(b, s, c, es, i, j);
    AsProduct(Granted(b, s, es)[j].decide - Granted(b, s, es)[i].record, j - i, s);
  }

  lemma AsProduct(x: real, n: nat, s: Settings)
    requires x > Timeouts(n, s)
    ensures x > n as real * s.recoveryTimeout
  {
    TimeoutsIsProduct(n, s);
  }

  /** So any window that holds grants i to j holds at most length/timeout + 1 grants. */
  lemma ProbesPerWindow(b: Breaker, s: Settings, c: real, es: seq<Event>, i: nat, j: nat, length: real)
    requires Tripped(b, s, c) && ProbingFrom(c, es) && s.recoveryTimeout > 0.0
    requires i <= j < |Granted(b, s, es)| && length >= 0.0
    requires Granted(b, s, es)[j].decide - Granted(b, s, es)[i].decide <= length
    ensures j - i + 1 <= (length / s.recoveryTimeout).Floor + 1
  {
    var gs, n := Granted(b, s, es), j - i;
    assert Timeouts(n, s) <= length by {
      GateLeadsGrants(b, s, c, es);
      assert gs[i].decide <= gs[i].record;
      if i < j {
        Apart(gs, s, i, j);
      }
    }
    TimeoutsIsProduct(n, s);
    Quotient(n, s.recoveryTimeout, length);
  }

  lemma Quotient(n: int, r: real, length: real)
    requires r > 0.0 && n as real * r <= length
    ensures n <= (length / r).Floor
  {
    var q := length / r;
    assert q * r == length;
    assert (q - n as real) * r >= 0.0;
    assert q >= n as real;
  }
}
