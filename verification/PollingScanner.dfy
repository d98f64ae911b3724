/**
 The incremental polling scanner. A scan submits the files newer than its watermark, and a
 scan that completes moves the watermark to its own start. Scans are serialised by a lock.
 */
module PollingScanner {
  import opened Wrappers

  /**
   A file as the directory walk meets it. `mtime` is None if the file cannot be stat'ed, `done`
   says that its row is SUCCESS, and `unreadable` that looking up its row or hashing it raises, which ends the scan.
   */
  datatype Entry = Entry(path: string, matches: bool, mtime: Option<real>, done: bool, unreadable: bool)

  predicate Wanted(e: Entry, incremental: bool, watermark: real) {
    && e.matches && e.mtime.Some?
    && (!incremental || e.mtime.value > watermark)
    && !e.done
  }

  /** The wanted entries, up to the first that cannot be read. */
  function Submitted(walk: seq<Entry>, incremental: bool, watermark: real): seq<string> {
    if walk == [] then []
    else
      var p, e := walk[..|walk| - 1], walk[|walk| - 1];
      var before := Submitted(p, incremental, watermark);
      if Aborts(p, incremental, watermark) || !Wanted(e, incremental, watermark) || e.unreadable then before
      else before + [e.path]
  }

  predicate Aborts(walk: seq<Entry>, incremental: bool, watermark: real) {
    exists i :: 0 <= i < |walk| && Wanted(walk[i], incremental, watermark) && walk[i].unreadable
  }

  class Scanner {
    const incremental: bool
    var lastScanMtime: real

    constructor (incremental: bool)
      ensures this.incremental == incremental && lastScanMtime == 0.0
    {
      this.incremental := incremental;
      lastScanMtime := 0.0;
    }

    method ScanImpl(walk: seq<Entry>, scanStart: real) returns (submitted: seq<string>, completed: bool)
      modifies this
      ensures completed <==> !Aborts(walk, incremental, old(lastScanMtime))
      ensures submitted == Submitted(walk, incremental, old(lastScanMtime))
      ensures lastScanMtime == if completed then Latest(old(lastScanMtime), scanStart) else old(lastScanMtime)
    {
      var watermark := lastScanMtime;
      submitted := [];
      for i := 0 to |walk|
        invariant submitted == Submitted(walk[..i], incremental, watermark)
        invariant !Aborts(walk[..i], incremental, watermark)
        invariant lastScanMtime == watermark
      {
        var e := walk[i];
        assert walk[..i + 1][..i] == walk[..i];
        if !e.matches || e.mtime.None? {
          continue;
        }
        if incremental && e.mtime.value <= watermark {
          continue;
        }
        if e.done {
          continue;
        }
        if e.unreadable {
          assert Wanted(walk[i], incremental, watermark);
          NothingAfterAbort(walk, i + 1, incremental, watermark);
          return submitted, false;
        }
        submitted := submitted + [e.path];
      }
      assert walk[..|walk|] == walk;
      lastScanMtime := Latest(lastScanMtime, scanStart);
      completed := true;
    }
  }

  lemma {:induction false} NothingAfterAbort(walk: seq<Entry>, n: nat, incremental: bool, watermark: real)
    requires n <= |walk| && Aborts(walk[..n], incremental, watermark)
    ensures Aborts(walk, incremental, watermark)
    ensures Submitted(walk, incremental, watermark) == Submitted(walk[..n], incremental, watermark)
  {
    var i :| 0 <= i < n && Wanted(walk[..n][i], incremental, watermark) && walk[..n][i].unreadable;
    assert walk[i] == walk[..n][i];
    if n < |walk| {
      var p := walk[..|walk| - 1];
      assert p[..n] == walk[..n];
      NothingAfterAbort(p, n, incremental, watermark);
    } else {
      assert walk[..n] == walk;
    }
  }

  function Latest(a: real, b: real): real { if a < b then b else a }

  /**
   An entry is submitted iff it matches, can be stat'ed, is newer than the watermark of an
   incremental scan, not yet done and readable, and nothing before it ended the scan.
   */
  lemma {:induction false} SubmittedIff(walk: seq<Entry>, incremental: bool, watermark: real, i: nat)
    requires i < |walk| && forall j :: 0 <= j < |walk| && j != i ==> walk[j].path != walk[i].path
    ensures walk[i].path in Submitted(walk, incremental, watermark) <==>
      && walk[i].matches && walk[i].mtime.Some? && (incremental ==> walk[i].mtime.value > watermark)
      && !walk[i].done && !walk[i].unreadable
      && forall j :: 0 <= j < i ==> !(Wanted(walk[j], incremental, watermark) && walk[j].unreadable)
  {
    var p, last := walk[..|walk| - 1], walk[|walk| - 1];
    if i < |p| {
      assert forall j :: 0 <= j < |p| ==> p[j] == walk[j];
      SubmittedIff(p, incremental, watermark, i);
    } else {
      SubmittedIsFromWalk(p, incremental, watermark);
      assert forall j :: 0 <= j < |p| ==> p[j] == walk[j];
    }
  }

  lemma {:induction false} SubmittedIsFromWalk(walk: seq<Entry>, incremental: bool, watermark: real)
    ensures forall path :: path in Submitted(walk, incremental, watermark) ==>
      exists j :: 0 <= j < |walk| && walk[j].path == path
  {
    if walk != [] {
      var p := walk[..|walk| - 1];
      SubmittedIsFromWalk(p, incremental, watermark);
      forall path | path in Submitted(walk, incremental, watermark)
        ensures exists j :: 0 <= j < |walk| && walk[j].path == path
      {
        if path in Submitted(p, incremental, watermark) {
          var j :| 0 <= j < |p| && p[j].path == path;
          assert walk[j] == p[j];
        }
      }
    }
  }

  // ---------------------------------------------------------------- coverage of one file

  /**
   One scan from the viewpoint of one file: when it starts, looks at the file, and ends, and
   whether the pool takes the file if it is submitted. The scanner ignores that answer.
   */
  datatype Scan = Scan(start: real, seen: real, end: real, completed: bool, taken: bool)

  function Watermark(scans: seq<Scan>): real {
    if scans == [] then 0.0
    else
      var w, s := Watermark(scans[..|scans| - 1]), scans[|scans| - 1];
      if s.completed then Latest(w, s.start) else w
  }

  function Clock(scans: seq<Scan>): real {
    if scans == [] then 0.0 else scans[|scans| - 1].end
  }

  ghost predicate Serialised(scans: seq<Scan>) {
    scans == [] ||
    var p, s := scans[..|scans| - 1], scans[|scans| - 1];
    Serialised(p) && Clock(p) <= s.start <= s.seen <= s.end
  }

  /** The file is there from `appears` on, unchanged, with modification time `mtime`. */
  datatype File = File(mtime: real, appears: real)

  predicate Sees(s: Scan, f: File) {
    s.completed && f.appears <= s.seen
  }

  /** Scan i meets the file and lets it through the mtime filter. */
  predicate PassesIn(scans: seq<Scan>, i: nat, f: File)
    requires i < |scans|
  {
    f.appears <= scans[i].seen && f.mtime > Watermark(scans[..i])
  }

  /** A scan of the directory, with the time at which it looks at the file in question. */
  datatype Pass = Pass(walk: seq<Entry>, start: real, seen: real, end: real, taken: bool)

  /** The watermark of an incremental scanner after these scans, as ScanImpl moves it. */
  function WatermarkAfter(passes: seq<Pass>): real {
    if passes == [] then 0.0
    else
      var w, p := WatermarkAfter(passes[..|passes| - 1]), passes[|passes| - 1];
      if Aborts(p.walk, true, w) then w else Latest(w, p.start)
  }

  function Views(passes: seq<Pass>): seq<Scan> {
    if passes == [] then []
    else
      var before, p := passes[..|passes| - 1], passes[|passes| - 1];
      Views(before) + [Scan(p.start, p.seen, p.end, !Aborts(p.walk, true, WatermarkAfter(before)), p.taken)]
  }

  lemma {:induction false} ViewsHaveWatermark(passes: seq<Pass>)
    ensures |Views(passes)| == |passes| && Watermark(Views(passes)) == WatermarkAfter(passes)
  {
    if passes != [] {
      var before := passes[..|passes| - 1];
      ViewsHaveWatermark(before);
      assert Views(passes)[..|before|] == Views(before);
    }
  }

  /**
   What is proved below about scans of one file is about the submissions of ScanImpl: a readable
   entry that is not done, and that the scan reaches, is submitted iff the file passes the filter.
   */
  lemma PassIsSubmission(passes: seq<Pass>, i: nat, f: File)
    requires passes != [] && i < |passes[|passes| - 1].walk|
    requires var p := passes[|passes| - 1];
      && p.walk[i].matches && !p.walk[i].done && !p.walk[i].unreadable
      && p.walk[i].mtime == Some(f.mtime) && f.appears <= p.seen
      && (forall j :: 0 <= j < |p.walk| && j != i ==> p.walk[j].path != p.walk[i].path)
      && !Aborts(p.walk[..i], true, WatermarkAfter(passes[..|passes| - 1]))
    ensures |Views(passes)| == |passes|
    ensures var n := |passes| - 1;
      passes[n].walk[i].path in Submitted(passes[n].walk, true, WatermarkAfter(passes[..n]))
      <==> PassesIn(Views(passes), n, f)
  {
    var n := |passes| - 1;
    var before, walk := passes[..n], passes[n].walk;
    ViewsHaveWatermark(passes);
    ViewsHaveWatermark(before);
    assert Views(passes)[..n] == Views(before);
    SubmittedIff(walk, true, WatermarkAfter(before), i);
    assert forall j :: 0 <= j < i ==> walk[..i][j] == walk[j];
  }

  /** In how many completed scans the file passes the filter. */
  function Passes(scans: seq<Scan>, f: File): nat {
    if scans == [] then 0
    else
      var n := |scans| - 1;
      Passes(scans[..n], f) + (if scans[n].completed && PassesIn(scans, n, f) then 1 else 0)
  }

  /** Some completed scan looked after the file had appeared. */
  predicate Seen(scans: seq<Scan>, f: File) {
    scans != [] && (Seen(scans[..|scans| - 1], f) || Sees(scans[|scans| - 1], f))
  }

  /** Some completed scan started at or after the mtime but looked before the file appeared. */
  predicate Overtaken(scans: seq<Scan>, f: File) {
    scans != [] &&
    var s := scans[|scans| - 1];
    Overtaken(scans[..|scans| - 1], f) || (s.completed && f.mtime <= s.start && s.seen < f.appears)
  }

  /** Some completed scan that sees the file was already under way at its mtime. */
  predicate WrittenDuring(scans: seq<Scan>, f: File) {
    scans != [] &&
    var s := scans[|scans| - 1];
    WrittenDuring(scans[..|scans| - 1], f) || (Sees(s, f) && s.start < f.mtime)
  }

  /** And a later scan completed. */
  predicate WrittenDuringThenScanned(scans: seq<Scan>, f: File) {
    scans != [] &&
    var p := scans[..|scans| - 1];
    WrittenDuringThenScanned(p, f) || (WrittenDuring(p, f) && scans[|scans| - 1].completed)
  }

  /**
   Exact coverage. A file passes twice if it was written during a scan and another scan follows,
   and once otherwise; it is missed iff no completed scan sees it, a completed scan overtook its
   mtime before it appeared, or its mtime is not after the epoch.
   */
  lemma {:induction false} Coverage(scans: seq<Scan>, f: File)
    requires Serialised(scans) && f.mtime <= f.appears
    ensures Passes(scans, f) == if f.mtime <= 0.0 || !Seen(scans, f) || Overtaken(scans, f) then 0
                                else if WrittenDuringThenScanned(scans, f) then 2 else 1
    ensures Watermark(scans) >= 0.0
    ensures Watermark(scans) < f.mtime <==>
      && f.mtime > 0.0 && !Overtaken(scans, f)
      && (Seen(scans, f) ==> WrittenDuring(scans, f) && !WrittenDuringThenScanned(scans, f))
    ensures Seen(scans, f) ==> Clock(scans) >= f.appears
    ensures WrittenDuring(scans, f) ==> Seen(scans, f)
    ensures WrittenDuringThenScanned(scans, f) ==> WrittenDuring(scans, f)
  {
    if scans != [] {
      Coverage(scans[..|scans| - 1], f);
    }
  }

  /** A file that is visible from its mtime on passes once or twice as soon as one scan sees it. */
  lemma {:induction false} VisibleFileIsCovered(scans: seq<Scan>, f: File)
    requires Serialised(scans) && f.appears == f.mtime && f.mtime > 0.0 && Seen(scans, f)
    ensures 1 <= Passes(scans, f) <= 2
  {
    Coverage(scans, f);
    NeverOvertaken(scans, f);
  }

  lemma {:induction false} NeverOvertaken(scans: seq<Scan>, f: File)
    requires Serialised(scans) && f.appears == f.mtime
    ensures !Overtaken(scans, f)
  {
    if scans != [] {
      NeverOvertaken(scans[..|scans| - 1], f);
    }
  }

  /** A file moved in with an old mtime is lost for good once a scan has overtaken it. */
  lemma OvertakenFileIsLost(scans: seq<Scan>, later: seq<Scan>, f: File)
    requires Serialised(scans + later) && f.mtime <= f.appears && Overtaken(scans, f)
    ensures Passes(scans + later, f) == 0
  {
    OvertakenStays(scans, later, f);
    Coverage(scans + later, f);
  }

  lemma {:induction false} OvertakenStays(scans: seq<Scan>, later: seq<Scan>, f: File)
    requires Overtaken(scans, f)
    ensures Overtaken(scans + later, f)
  {
    if later == [] {
      assert scans + later == scans;
    } else {
      OvertakenStays(scans, later[..|later| - 1], f);
      assert (scans + later)[..|scans + later| - 1] == scans + later[..|later| - 1];
    }
  }

  function CompletedOnly(scans: seq<Scan>): seq<Scan> {
    if scans == [] then []
    else
      var rest, s := CompletedOnly(scans[..|scans| - 1]), scans[|scans| - 1];
      if s.completed then rest + [s] else rest
  }

  /** Aborted scans lose nothing: what passes is the same as if they had not run. */
  lemma {:induction false} AbortedScansLoseNothing(scans: seq<Scan>, f: File)
    ensures Watermark(CompletedOnly(scans)) == Watermark(scans)
    ensures Passes(CompletedOnly(scans), f) == Passes(scans, f)
  {
    if scans != [] {
      var p, s := scans[..|scans| - 1], scans[|scans| - 1];
      AbortedScansLoseNothing(p, f);
      if s.completed {
        assert (CompletedOnly(p) + [s])[..|CompletedOnly(p)|] == CompletedOnly(p);
      }
    }
  }

  /** Some scan submitted the file, and the pool took it. */
  predicate Queued(scans: seq<Scan>, f: File) {
    scans != [] &&
    var n := |scans| - 1;
    Queued(scans[..n], f) || (scans[n].taken && PassesIn(scans, n, f))
  }

  lemma {:induction false} NotQueuedLater(scans: seq<Scan>, later: seq<Scan>, f: File)
    requires !Queued(scans, f) && Watermark(scans) >= f.mtime
    ensures !Queued(scans + later, f) && Watermark(scans + later) >= f.mtime
  {
    if later == [] {
      assert scans + later == scans;
    } else {
      NotQueuedLater(scans, later[..|later| - 1], f);
      assert (scans + later)[..|scans + later| - 1] == scans + later[..|later| - 1];
    }
  }

  /** The next scan can still queue the file, if it looks after the file has appeared. */
  lemma NextScanQueues(scans: seq<Scan>, f: File) returns (later: seq<Scan>)
    requires Serialised(scans) && Watermark(scans) < f.mtime
    ensures Serialised(scans + later) && Queued(scans + later, f)
  {
    var t := Latest(Clock(scans), f.appears);
    later := [Scan(t, t, t, true, true)];
    assert (scans + later)[..|scans|] == scans;
  }

  /**
   Exactly when a file is lost to the scanner: the watermark has passed its mtime, and the pool
   refused it (queue full, paused, circuit open) in every scan that submitted it before that.
   */
  lemma LostIff(scans: seq<Scan>, f: File)
    requires Serialised(scans)
    ensures (forall later :: Serialised(scans + later) ==> !Queued(scans + later, f))
       <==> !Queued(scans, f) && Watermark(scans) >= f.mtime
  {
    if !Queued(scans, f) && Watermark(scans) >= f.mtime {
      forall later | Serialised(scans + later) ensures !Queued(scans + later, f) {
        NotQueuedLater(scans, later, f);
      }
    } else if Queued(scans, f) {
      assert scans + [] == scans;
      assert Serialised(scans + []) && Queued(scans + [], f);
    } else {
      var later := NextScanQueues(scans, f);
      assert Serialised(scans + later) && Queued(scans + later, f);
    }
  }
}
