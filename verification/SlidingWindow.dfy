/**
 The sliding-window limiters: login attempts per address, and restarts per worker. Both keep
 a list of admission times and throw the old ones away at every call.
 */
module SlidingWindow {
  datatype Limits = Limits(max: nat, window: real)

  const LOGIN := Limits(5, 60.0)
  const RESTART := Limits(3, 300.0)

  /** The entries of the log that are younger than the window. */
  function Recent(log: seq<real>, now: real, l: Limits): seq<real> {
    if log == [] then []
    else
      var p, t := log[..|log| - 1], log[|log| - 1];
      if now - t < l.window then Recent(p, now, l) + [t] else Recent(p, now, l)
  }

  /** A denied request leaves the log of the login limiter as it was, unpruned. */
  function LogStep(log: seq<real>, now: real, l: Limits): seq<real> {
    var recent := Recent(log, now, l);
    if |recent| >= l.max then log else recent + [now]
  }

  function Log(requests: seq<real>, l: Limits): seq<real> {
    if requests == [] then []
    else LogStep(Log(requests[..|requests| - 1], l), requests[|requests| - 1], l)
  }

  /** The ideal sliding window: the request max admissions ago must have left the window. */
  predicate Admissible(history: seq<real>, now: real, l: Limits) {
    l.max > 0 && (|history| < l.max || now - history[|history| - l.max] >= l.window)
  }

  /** Everything the ideal limiter ever admitted, nothing thrown away. */
  function Admitted(requests: seq<real>, l: Limits): seq<real> {
    if requests == [] then []
    else
      var h, now := Admitted(requests[..|requests| - 1], l), requests[|requests| - 1];
      if Admissible(h, now, l) then h + [now] else h
  }

  predicate Sorted(s: seq<real>) {
    forall i, j :: 0 <= i < j < |s| ==> s[i] <= s[j]
  }

  predicate AtMost(s: seq<real>, now: real) {
    forall i :: 0 <= i < |s| ==> s[i] <= now
  }

  lemma {:induction false} RecentOfRecent(log: seq<real>, earlier: real, now: real, l: Limits)
    requires earlier <= now
    ensures Recent(Recent(log, earlier, l), now, l) == Recent(log, now, l)
  {
    if log != [] {
      var p, t := log[..|log| - 1], log[|log| - 1];
      RecentOfRecent(p, earlier, now, l);
      if earlier - t < l.window {
        RecentLast(Recent(p, earlier, l), t, now, l);
      }
    }
  }

  lemma RecentLast(log: seq<real>, t: real, now: real, l: Limits)
    ensures Recent(log + [t], now, l)
         == if now - t < l.window then Recent(log, now, l) + [t] else Recent(log, now, l)
  {
    assert (log + [t])[..|log|] == log;
  }

  /** In a sorted history the recent entries are exactly those from some index on. */
  lemma {:induction false} RecentIsSuffix(s: seq<real>, now: real, l: Limits, k: nat)
    requires Sorted(s) && k < |s|
    ensures now - s[k] < l.window ==> |Recent(s, now, l)| >= |s| - k
    ensures now - s[k] >= l.window ==> |Recent(s, now, l)| < |s| - k
    decreases |s|
  {
    var p := s[..|s| - 1];
    if k < |p| {
      RecentIsSuffix(p, now, l, k);
    } else if k > 0 {
      RecentIsSuffix(p, now, l, k - 1);
    }
  }

  lemma {:induction false} AdmittedSorted(requests: seq<real>, l: Limits)
    requires Sorted(requests)
    ensures Sorted(Admitted(requests, l))
    ensures requests != [] ==> AtMost(Admitted(requests, l), requests[|requests| - 1])
    ensures requests == [] ==> Admitted(requests, l) == []
  {
    if requests != [] {
      var p := requests[..|requests| - 1];
      AdmittedSorted(p, l);
    }
  }

  lemma {:induction false} RecentIsShorter(s: seq<real>, now: real, l: Limits)
    ensures |Recent(s, now, l)| <= |s|
  {
    if s != [] {
      RecentIsShorter(s[..|s| - 1], now, l);
    }
  }

  lemma CountDecides(history: seq<real>, now: real, l: Limits)
    requires Sorted(history)
    ensures |Recent(history, now, l)| < l.max <==> Admissible(history, now, l)
  {
    RecentIsShorter(history, now, l);
    if 0 < l.max <= |history| {
      RecentIsSuffix(history, now, l, |history| - l.max);
    }
  }

  lemma StepKeepsRecent(log: seq<real>, history: seq<real>, last: real, now: real, l: Limits)
    requires last <= now && Recent(log, last, l) == Recent(history, last, l)
    ensures Recent(LogStep(log, last, l), now, l)
         == Recent(if |Recent(log, last, l)| < l.max then history + [last] else history, now, l)
  {
    RecentOfRecent(log, last, now, l);
    RecentOfRecent(history, last, now, l);
    RecentLast(Recent(log, last, l), last, now, l);
    RecentLast(history, last, now, l);
  }

  /**
   Under a clock that does not run backwards the pruned log decides like the ideal limiter
   on the whole history: the next request is admitted iff the one max admissions ago is out
   of the window.
   */
  lemma {:induction false} PrunedLogIsExact(requests: seq<real>, now: real, l: Limits)
    requires Sorted(requests) && AtMost(requests, now)
    ensures Recent(Log(requests, l), now, l) == Recent(Admitted(requests, l), now, l)
    ensures |Recent(Log(requests, l), now, l)| < l.max <==> Admissible(Admitted(requests, l), now, l)
  {
    if requests != [] {
      var p, last := requests[..|requests| - 1], requests[|requests| - 1];
      PrunedLogIsExact(p, last, l);
      StepKeepsRecent(Log(p, l), Admitted(p, l), last, now, l);
    }
    AdmittedSorted(requests, l);
    CountDecides(Admitted(requests, l), now, l);
  }

  /** Any max + 1 consecutive admissions span at least a whole window. */
  lemma {:induction false} AdmissionsAreSpaced(requests: seq<real>, l: Limits, i: nat)
    requires i + l.max < |Admitted(requests, l)|
    ensures Admitted(requests, l)[i + l.max] - Admitted(requests, l)[i] >= l.window
  {
    var p := requests[..|requests| - 1];
    if i + l.max < |Admitted(p, l)| {
      AdmissionsAreSpaced(p, l, i);
    }
  }

  // ---------------------------------------------------------------- the two users

  class LoginLimiter {
    var attempts: map<string, seq<real>>

    constructor ()
      ensures attempts == map[]
    {
      attempts := map[];
    }

    function LogOf(ip: string): seq<real>
      reads this
    {
      if ip in attempts then attempts[ip] else []
    }

    method CheckLoginRate(ip: string, now: real) returns (allowed: bool)
      modifies this
      ensures allowed <==> |Recent(old(LogOf(ip)), now, Limits(5, 60.0))| < 5
      ensures LogOf(ip) == LogStep(old(LogOf(ip)), now, Limits(5, 60.0))
      ensures forall other :: other != ip ==> LogOf(other) == old(LogOf(other))
    {
      var recent := Recent(LogOf(ip), now, LOGIN);
      if |recent| >= LOGIN.max {
        return false;
      }
      recent := recent + [now];
      attempts := attempts[ip := recent];
      return true;
    }
  }

  /** What the supervisor remembers about one worker. */
  datatype WorkerRecord = WorkerRecord(restarts: seq<real>, disabled: bool)

  /** The reaction to a dead worker: restart it, or disable it for good. */
  function OnDeath(r: WorkerRecord, now: real): WorkerRecord {
    if r.disabled then r
    else
      var recent := Recent(r.restarts, now, RESTART);
      if |recent| >= RESTART.max then WorkerRecord(recent, true)
      else WorkerRecord(recent + [now], false)
  }

  predicate Restarted(r: WorkerRecord, now: real) {
    !r.disabled && |Recent(r.restarts, now, RESTART)| < RESTART.max
  }

  class Supervisor {
    var workers: array<WorkerRecord>

    constructor (numWorkers: nat)
      ensures fresh(workers) && workers.Length == numWorkers
      ensures forall i :: 0 <= i < numWorkers ==> workers[i] == WorkerRecord([], false)
    {
      workers := new WorkerRecord[numWorkers](_ => WorkerRecord([], false));
    }

    /** One pass of the supervision loop over all workers. */
    method Pass(alive: seq<bool>, now: real) returns (restarted: seq<bool>)
      requires |alive| == workers.Length
      modifies workers
      ensures |restarted| == workers.Length
      ensures forall i :: 0 <= i < workers.Length ==>
        && workers[i] == (if alive[i] then old(workers[i]) else OnDeath(old(workers[i]), now))
        && (restarted[i] <==> !alive[i] && Restarted(old(workers[i]), now))
        && (restarted[i] <==> !alive[i] && !old(workers[i]).disabled && !workers[i].disabled)
        && (restarted[i] ==> workers[i].restarts != [] && workers[i].restarts[|workers[i].restarts| - 1] == now)
    {
      restarted := [];
      for i := 0 to workers.Length
        invariant |restarted| == i
        invariant forall j :: 0 <= j < i ==>
          && workers[j] == (if alive[j] then old(workers[j]) else OnDeath(old(workers[j]), now))
          && (restarted[j] <==> !alive[j] && Restarted(old(workers[j]), now))
        invariant forall j :: i <= j < workers.Length ==> workers[j] == old(workers[j])
      {
        var r := workers[i];
        var again := false;
        if !r.disabled && !alive[i] {
          var recent := Recent(r.restarts, now, RESTART);
          if |recent| >= RESTART.max {
            workers[i] := WorkerRecord(recent, true);
          } else {
            again := true;
            workers[i] := WorkerRecord(recent + [now], false);
          }
        }
        restarted := restarted + [again];
      }
    }
  }

  function AfterDeaths(deaths: seq<real>): WorkerRecord {
    if deaths == [] then WorkerRecord([], false)
    else OnDeath(AfterDeaths(deaths[..|deaths| - 1]), deaths[|deaths| - 1])
  }

  /** Some four deaths in a row, seen by the supervisor within less than 300 seconds. */
  predicate CrashLoop(deaths: seq<real>) {
    deaths != [] &&
    var k := |deaths| - 1;
    CrashLoop(deaths[..k]) || (k >= 3 && deaths[k] - deaths[k - 3] < 300.0)
  }

  lemma {:induction false} AllAdmitted(deaths: seq<real>)
    requires !CrashLoop(deaths)
    ensures Admitted(deaths, RESTART) == deaths
  {
    if deaths != [] {
      AllAdmitted(deaths[..|deaths| - 1]);
    }
  }

  lemma SortedFront(deaths: seq<real>)
    requires Sorted(deaths) && deaths != []
    ensures Sorted(deaths[..|deaths| - 1]) && AtMost(deaths[..|deaths| - 1], deaths[|deaths| - 1])
  {
  }

  /** A worker is disabled iff it ever crash-looped, whatever its log has forgotten since. */
  lemma {:induction false} DisabledIffCrashLoop(deaths: seq<real>)
    requires Sorted(deaths)
    ensures AfterDeaths(deaths).disabled <==> CrashLoop(deaths)
    ensures !CrashLoop(deaths) ==> AfterDeaths(deaths).restarts == Log(deaths, RESTART)
  {
    if deaths != [] {
      var p, last := deaths[..|deaths| - 1], deaths[|deaths| - 1];
      SortedFront(deaths);
      DisabledIffCrashLoop(p);
      if !CrashLoop(p) {
        AllAdmitted(p);
        PrunedLogIsExact(p, last, RESTART);
        assert Admissible(p, last, RESTART) <==> !CrashLoop(deaths);
      }
    }
  }
}
