/**
 Debounce and stability detection of the file watcher. A stability check stats the file, then
 under the lock compares with the previous observation and counts, and, if the count suffices,
 takes the lock again to clear the entry and emits. New events start new timer chains without
 stopping the old ones, so checks of one path may overlap in any way.
 */
module EventHandler {
  import opened Wrappers

  datatype Stat = Stat(mtime: real, size: nat)

  /** The `path:prev` and `path:count` entries of one path. */
  datatype Tracker = Tracker(prev: Option<Stat>, count: nat)

  const UNTRACKED := Tracker(None, 0)

  function Observe(t: Tracker, s: Stat): Tracker {
    Tracker(Some(s), if t.prev == Some(s) then t.count + 1 else 1)
  }

  class StabilityChecker {
    const stableCount: int
    var prev: map<string, Stat>
    var count: map<string, nat>

    constructor (stableCount: int)
      ensures this.stableCount == stableCount
      ensures forall path :: TrackerOf(path) == UNTRACKED
    {
      this.stableCount := stableCount;
      prev, count := map[], map[];
    }

    function TrackerOf(path: string): Tracker
      reads this
    {
      Tracker(if path in prev then Some(prev[path]) else None, if path in count then count[path] else 0)
    }

    /** First locked section: record the observation and return the count the check goes on with. */
    method Record(path: string, cur: Stat) returns (n: nat)
      modifies this
      ensures TrackerOf(path) == Observe(old(TrackerOf(path)), cur) && n == TrackerOf(path).count
      ensures forall other :: other != path ==> TrackerOf(other) == old(TrackerOf(other))
    {
      if path in prev && prev[path] == cur {
        n := (if path in count then count[path] else 0) + 1;
      } else {
        n := 1;
      }
      prev := prev[path := cur];
      count := count[path := n];
    }

    /** Second locked section, and what happens when the file has vanished: forget the path. */
    method Forget(path: string)
      modifies this
      ensures TrackerOf(path) == UNTRACKED
      ensures forall other :: other != path ==> TrackerOf(other) == old(TrackerOf(other))
    {
      prev := prev - {path};
      count := count - {path};
    }

    /** A whole check without interference. None stands for a file that cannot be stat'ed. */
    method CheckStability(path: string, stat: Option<Stat>) returns (emitted: bool)
      modifies this
      ensures emitted <==> stat.Some? && Observe(old(TrackerOf(path)), stat.value).count >= stableCount
      ensures TrackerOf(path) == if emitted || stat.None? then UNTRACKED else Observe(old(TrackerOf(path)), stat.value)
      ensures forall other :: other != path ==> TrackerOf(other) == old(TrackerOf(other))
    {
      if stat.None? {
        Forget(path);
        return false;
      }
      var n := Record(path, stat.value);
      if n >= stableCount {
        Forget(path);
        return true;
      }
      return false;
    }
  }

  // ---------------------------------------------------------------- overlapping checks of one path

  /** What the locked sections did to a path, oldest first. */
  datatype Entry = Recorded(stat: Stat) | Cleared

  type CheckId = nat

  /** A check after its first section: what it saw, its count, and the place of its log entry. */
  datatype Pending = Pending(stat: Stat, count: nat, at: nat)

  datatype World = World(
    tracker: Tracker,
    log: seq<Entry>,
    pending: map<CheckId, Pending>,
    emitted: seq<Pending>)

  const START := World(UNTRACKED, [], map[], [])

  /** Any check may reach any of its sections at any time; a stale stat may be recorded late. */
  datatype Event =
    | RecordBy(check: CheckId, stat: Stat)
    | FinishBy(check: CheckId)
    | Vanish

  function Step(w: World, stableCount: int, e: Event): World {
    match e
    case RecordBy(id, s) =>
      var t := Observe(w.tracker, s);
      w.(tracker := t, log := w.log + [Recorded(s)], pending := w.pending[id := Pending(s, t.count, |w.log|)])
    case FinishBy(id) =>
      if id in w.pending then
        var c := w.pending[id];
        if c.count >= stableCount then
          World(UNTRACKED, w.log + [Cleared], w.pending - {id}, w.emitted + [c])
        else w.(pending := w.pending - {id})
      else w
    case Vanish => w.(tracker := UNTRACKED, log := w.log + [Cleared])
  }

  function Run(stableCount: int, es: seq<Event>): World {
    if es == [] then START else Step(Run(stableCount, es[..|es| - 1]), stableCount, es[|es| - 1])
  }

  /** How many observations at the end of the log are equal, with nothing cleared in between. */
  function TrailingRun(log: seq<Entry>): nat {
    if log == [] || log[|log| - 1].Cleared? then 0
    else if |log| >= 2 && log[|log| - 2] == log[|log| - 1] then TrailingRun(log[..|log| - 1]) + 1
    else 1
  }

  /** The check recorded its stat as the last of exactly `count` equal observations in a row. */
  ghost predicate Witnessed(log: seq<Entry>, c: Pending) {
    && c.at < |log| && log[c.at] == Recorded(c.stat)
    && c.count == TrailingRun(log[..c.at + 1])
  }

  ghost predicate StabilityInv(w: World, stableCount: int) {
    && w.tracker.count == TrailingRun(w.log)
    && w.tracker.prev == (if TrailingRun(w.log) == 0 then None else Some(w.log[|w.log| - 1].stat))
    && (forall id :: id in w.pending ==> Witnessed(w.log, w.pending[id]))
    && (forall c :: c in w.emitted ==> Witnessed(w.log, c) && c.count >= stableCount)
  }

  lemma WitnessedLater(log: seq<Entry>, e: Entry, c: Pending)
    requires Witnessed(log, c)
    ensures Witnessed(log + [e], c)
  {
    assert (log + [e])[..c.at + 1] == log[..c.at + 1];
  }

  lemma RecordStep(w: World, stableCount: int, id: CheckId, s: Stat)
    requires StabilityInv(w, stableCount)
    ensures StabilityInv(Step(w, stableCount, RecordBy(id, s)), stableCount)
  {
    var v := Step(w, stableCount, RecordBy(id, s));
    assert v.log[..|w.log|] == w.log;
    assert v.log[..|v.log|] == v.log;
    assert v.tracker.count == TrailingRun(v.log);
    forall i | i in v.pending ensures Witnessed(v.log, v.pending[i]) {
      if i != id {
        WitnessedLater(w.log, Recorded(s), w.pending[i]);
      }
    }
    forall c | c in v.emitted ensures Witnessed(v.log, c) && c.count >= stableCount {
      WitnessedLater(w.log, Recorded(s), c);
    }
  }

  lemma ClearStep(w: World, stableCount: int, e: Event)
    requires StabilityInv(w, stableCount) && !e.RecordBy?
    ensures StabilityInv(Step(w, stableCount, e), stableCount)
  {
    var v := Step(w, stableCount, e);
    if v.log != w.log {
      forall i | i in v.pending ensures Witnessed(v.log, v.pending[i]) {
        WitnessedLater(w.log, Cleared, w.pending[i]);
      }
      forall c | c in v.emitted ensures Witnessed(v.log, c) && c.count >= stableCount {
        if c in w.emitted {
          WitnessedLater(w.log, Cleared, c);
        } else {
          WitnessedLater(w.log, Cleared, w.pending[e.check]);
        }
      }
    }
  }

  lemma {:induction false} RunKeepsInv(stableCount: int, es: seq<Event>)
    ensures StabilityInv(Run(stableCount, es), stableCount)
  {
    if es != [] {
      var p, e := es[..|es| - 1], es[|es| - 1];
      RunKeepsInv(stableCount, p);
      if e.RecordBy? {
        RecordStep(Run(stableCount, p), stableCount, e.check, e.stat);
      } else {
        ClearStep(Run(stableCount, p), stableCount, e);
      }
    }
  }

  lemma {:induction false} TrailingRunIsConstant(log: seq<Entry>, k: nat)
    requires log != [] && |log| - TrailingRun(log) <= k < |log|
    ensures TrailingRun(log) <= |log| && log[k] == log[|log| - 1] && log[k].Recorded?
    decreases |log|
  {
    if k < |log| - 1 {
      TrailingRunIsConstant(log[..|log| - 1], k);
    }
    TrailingRunFits(log);
  }

  lemma {:induction false} TrailingRunFits(log: seq<Entry>)
    ensures TrailingRun(log) <= |log|
    ensures log != [] && log[|log| - 1].Recorded? ==> TrailingRun(log) >= 1
  {
    if log != [] {
      TrailingRunFits(log[..|log| - 1]);
    }
  }

  /**
   However checks overlap, an emission is preceded by at least stableCount consecutive
   observations of the path, the emitted one last, all equal to it, with no reset between them.
   */
  lemma EmissionsAreStable(stableCount: int, es: seq<Event>, n: nat, k: int)
    requires n < |Run(stableCount, es).emitted|
    ensures var w, c := Run(stableCount, es), Run(stableCount, es).emitted[n];
      && c.at < |w.log| && stableCount <= c.at + 1
      && (0 <= k <= c.at && c.at - stableCount < k ==> w.log[k] == Recorded(c.stat))
  {
    RunKeepsInv(stableCount, es);
    var w := Run(stableCount, es);
    var c := w.emitted[n];
    assert c in w.emitted;
    var log := w.log[..c.at + 1];
    TrailingRunFits(log);
    if 0 <= k <= c.at && c.at - stableCount < k {
      TrailingRunIsConstant(log, k);
    }
  }

  /** And conversely a check emits iff its observation completes such a run. */
  lemma CheckEmitsIff(stableCount: int, es: seq<Event>, id: CheckId)
    requires id in Run(stableCount, es).pending
    ensures Run(stableCount, es).pending[id].at < |Run(stableCount, es).log|
    ensures var w := Run(stableCount, es);
      var v, c := Step(w, stableCount, FinishBy(id)), w.pending[id];
      && id !in v.pending
      && (if TrailingRun(w.log[..c.at + 1]) >= stableCount
          then v.emitted == w.emitted + [c] && v.tracker == UNTRACKED && TrailingRun(v.log) == 0
          else v.emitted == w.emitted && v.tracker == w.tracker)
  {
    RunKeepsInv(stableCount, es);
    assert Witnessed(Run(stableCount, es).log, Run(stableCount, es).pending[id]);
  }

  /** After the file has vanished the count starts anew. */
  lemma VanishForgets(stableCount: int, es: seq<Event>, id: CheckId, stat: Stat)
    ensures var v := Step(Run(stableCount, es), stableCount, Vanish);
      && TrailingRun(v.log) == 0
      && Step(v, stableCount, RecordBy(id, stat)).pending[id].count == 1
  {
  }
}
