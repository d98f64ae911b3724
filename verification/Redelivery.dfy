/**
 How often a file reaches a worker: the scanners and the watcher submit it, and every item taken
 from the queue gives a worker one try at the claim protocol. Nothing else puts a file back, so a
 failed one that is to be retried waits for its next submission.
 */
module Redelivery {
  import opened Wrappers
  import opened PollingScanner
  import ClaimProtocol
  import ProcessedFiles

  /** A scanner from its start to its stop; every restart of the task makes a new one. */
  type ScannerId = nat

  datatype Event =
    | Scanned(scanner: ScannerId, scan: Scan)
    | Emitted(taken: bool)
    | Protocol(event: ClaimProtocol.Event)

  /** How many items of the file wait in the queue, and its row. */
  datatype World = World(waiting: nat, row: ClaimProtocol.World)

  /** The scans of one scanner, in order. */
  function ScansOf(es: seq<Event>, id: ScannerId): seq<Scan> {
    if es == [] then []
    else
      var before, e := ScansOf(es[..|es| - 1], id), es[|es| - 1];
      if e.Scanned? && e.scanner == id then before + [e.scan] else before
  }

  predicate Submits(before: seq<Scan>, scan: Scan, f: File) {
    scan.taken && f.appears <= scan.seen && f.mtime > Watermark(before)
  }

  /** The next event after these ones. */
  function Step(w: World, es: seq<Event>, e: Event, f: File): World {
    match e
    case Scanned(id, scan) => if Submits(ScansOf(es, id), scan, f) then w.(waiting := w.waiting + 1) else w
    case Emitted(taken) => if taken then w.(waiting := w.waiting + 1) else w
    case Protocol(pe) =>
      if !pe.MarkProcessing? then w.(row := ClaimProtocol.Step(w.row, pe))
      else if w.waiting > 0 then World(w.waiting - 1, ClaimProtocol.Step(w.row, pe))
      else w
  }

  function Run(es: seq<Event>, f: File): World {
    if es == [] then World(0, ClaimProtocol.INITIAL)
    else Step(Run(es[..|es| - 1], f), es[..|es| - 1], es[|es| - 1], f)
  }

  function Aborted(es: seq<Event>): nat {
    if es == [] then 0
    else
      var e := es[|es| - 1];
      Aborted(es[..|es| - 1]) + (if e.Scanned? && !e.scan.completed then 1 else 0)
  }

  function Emissions(es: seq<Event>): nat {
    if es == [] then 0 else Emissions(es[..|es| - 1]) + (if es[|es| - 1].Emitted? then 1 else 0)
  }

  /** In how many completed scans of the first k scanners the file passes the filter. */
  function AllPasses(es: seq<Event>, f: File, k: nat): nat {
    if k == 0 then 0 else AllPasses(es, f, k - 1) + Passes(ScansOf(es, k - 1), f)
  }

  predicate KnownScanners(es: seq<Event>, k: nat) {
    forall e :: e in es && e.Scanned? ==> e.scanner < k
  }

  lemma PassesLast(before: seq<Scan>, scan: Scan, f: File)
    ensures Passes(before + [scan], f) >= Passes(before, f)
    ensures scan.completed && Submits(before, scan, f) ==> Passes(before + [scan], f) == Passes(before, f) + 1
  {
    assert (before + [scan])[..|before|] == before;
  }

  lemma ScansLast(es: seq<Event>, e: Event, id: ScannerId)
    ensures ScansOf(es + [e], id)
         == if e.Scanned? && e.scanner == id then ScansOf(es, id) + [e.scan] else ScansOf(es, id)
  {
    assert (es + [e])[..|es|] == es;
  }

  lemma {:induction false} NextScan(es: seq<Event>, id: ScannerId, scan: Scan, f: File, k: nat)
    ensures AllPasses(es + [Scanned(id, scan)], f, k) >= AllPasses(es, f, k)
    ensures id < k && scan.completed && Submits(ScansOf(es, id), scan, f) ==>
      AllPasses(es + [Scanned(id, scan)], f, k) > AllPasses(es, f, k)
  {
    if k > 0 {
      NextScan(es, id, scan, f, k - 1);
      ScansLast(es, Scanned(id, scan), k - 1);
      PassesLast(ScansOf(es, k - 1), scan, f);
    }
  }

  lemma {:induction false} NoScan(es: seq<Event>, e: Event, f: File, k: nat)
    requires !e.Scanned?
    ensures AllPasses(es + [e], f, k) == AllPasses(es, f, k)
  {
    if k > 0 {
      NoScan(es, e, f, k - 1);
      ScansLast(es, e, k - 1);
    }
  }

  lemma StartsTakeOne(w: ClaimProtocol.World, e: ClaimProtocol.Event)
    ensures ClaimProtocol.Step(w, e).starts <= w.starts + (if e.MarkProcessing? then 1 else 0)
  {
  }

  /** Every start uses up a submission. */
  lemma {:induction false} StartsNeedSubmissions(es: seq<Event>, f: File, k: nat)
    requires KnownScanners(es, k)
    ensures var w := Run(es, f);
      w.row.starts + w.waiting <= AllPasses(es, f, k) + Aborted(es) + Emissions(es)
  {
    if es != [] {
      var p, e := es[..|es| - 1], es[|es| - 1];
      assert es == p + [e];
      StartsNeedSubmissions(p, f, k);
      match e
      case Scanned(id, scan) =>
        assert e in es;
        NextScan(p, id, scan, f, k);
      case Emitted(_) => NoScan(p, e, f, k);
      case Protocol(pe) =>
        NoScan(p, e, f, k);
        StartsTakeOne(Run(p, f).row, pe);
    }
  }

  lemma {:induction false} TwoPassesEach(es: seq<Event>, f: File, k: nat)
    requires f.mtime <= f.appears && forall id :: 0 <= id < k ==> Serialised(ScansOf(es, id))
    ensures AllPasses(es, f, k) <= 2 * k
  {
    if k > 0 {
      TwoPassesEach(es, f, k - 1);
      Coverage(ScansOf(es, k - 1), f);
    }
  }

  /**
   Whatever max_retries allows: with k scanners over time an unchanged file is started at most
   twice per scanner, once per aborted scan, and once per event of the watcher.
   */
  lemma StartsAreLimitedByScans(es: seq<Event>, f: File, k: nat)
    requires KnownScanners(es, k) && f.mtime <= f.appears
    requires forall id :: 0 <= id < k ==> Serialised(ScansOf(es, id))
    ensures Run(es, f).row.starts <= 2 * k + Aborted(es) + Emissions(es)
  {
    StartsNeedSubmissions(es, f, k);
    TwoPassesEach(es, f, k);
  }

  lemma RunNext(es: seq<Event>, e: Event, f: File)
    ensures Run(es + [e], f) == Step(Run(es, f), es, e, f)
    ensures Aborted(es + [e]) == Aborted(es) + (if e.Scanned? && !e.scan.completed then 1 else 0)
    ensures Emissions(es + [e]) == Emissions(es) + (if e.Emitted? then 1 else 0)
  {
    assert (es + [e])[..|es|] == es;
  }

  /** A worker takes an item, and the file fails once more. */
  lemma FailOnce(es: seq<Event>, f: File, a: string, n: nat, maxRetries: int) returns (more: seq<Event>)
    requires ClaimProtocol.FailedTimes(Run(es, f).row, a, n) && n < maxRetries && Run(es, f).waiting > 0
    ensures ClaimProtocol.FailedTimes(Run(more, f).row, a, n + 1) && Run(more, f).waiting == Run(es, f).waiting - 1
    ensures ScansOf(more, 0) == ScansOf(es, 0) && Aborted(more) == Aborted(es) && Emissions(more) == Emissions(es)
  {
    var c := ProcessedFiles.Claim(a, 0, 600, maxRetries);
    var e1 := Protocol(ClaimProtocol.TryClaim(c, ProcessedFiles.LeftToRight));
    var e2 := Protocol(ClaimProtocol.MarkProcessing(0, a));
    var e3 := Protocol(ClaimProtocol.Finish(0, ClaimProtocol.MarkFailed(ClaimProtocol.Retryable, maxRetries)));
    more := es + [e1] + [e2] + [e3];
    ClaimProtocol.FailOnceMore(Run(es, f).row, a, n, c);
    RunNext(es, e1, f);
    RunNext(es + [e1], e2, f);
    RunNext(es + [e1] + [e2], e3, f);
    ScansLast(es, e1, 0);
    ScansLast(es + [e1], e2, 0);
    ScansLast(es + [e1] + [e2], e3, 0);
  }

  /** The bound is attained: one scanner, two scans, two starts, and no third scan submits the file. */
  lemma TwoStartsHappen(f: File, a: string, maxRetries: int) returns (es: seq<Event>)
    requires f.mtime == f.appears && f.mtime > 0.0 && maxRetries >= 2
    ensures Run(es, f).row.starts == 2 && Aborted(es) == 0 && Emissions(es) == 0
    ensures Watermark(ScansOf(es, 0)) > f.mtime && Serialised(ScansOf(es, 0))
  {
    var m := f.mtime;
    var first, second := Scan(m / 2.0, m, m, true, true), Scan(m + 1.0, m + 1.0, m + 1.0, true, true);
    var p := [] + [Scanned(0, first)] + [Scanned(0, second)];
    RunNext([], Scanned(0, first), f);
    ScansLast([], Scanned(0, first), 0);
    RunNext([] + [Scanned(0, first)], Scanned(0, second), f);
    ScansLast([] + [Scanned(0, first)], Scanned(0, second), 0);
    assert ScansOf(p, 0) == [first, second];
    assert [first, second][..1] == [first] && [first][..0] == [];
    assert Watermark([first]) == m / 2.0;
    var q := FailOnce(p, f, a, 0, maxRetries);
    es := FailOnce(q, f, a, 1, maxRetries);
  }
}
