/**
 Creation of monthly tables by concurrent threads: an unlocked test, a lock per table handed
 out under a lock of its own, a second test under the table's lock, and the body that creates
 and registers the table. Every access to shared state is one step, and threads take turns in
 any order.
 */
module TableCreation {
  type Table = string
  type Thread = nat
  type LockId = nat

  /** Where a thread is in ensure_table_exists. */
  datatype Place =
    | Called(table: Table)
    | NeedsLock(table: Table)
    | Waiting(table: Table, lock: LockId)
    | Testing(table: Table, lock: LockId)
    | Building(table: Table, lock: LockId)
    | Built(table: Table, lock: LockId)
    | Leaving(table: Table, lock: LockId, ok: bool)
    | Returned(table: Table)
    | Raised(table: Table)

  /** `builds` counts the bodies that ran to their commit, which puts the table in `committed`. */
  datatype World = World(
    created: set<Table>,
    locks: map<Table, LockId>,
    holders: map<LockId, Thread>,
    threads: map<Thread, Place>,
    committed: set<Table>,
    builds: map<Table, nat>)

  const START := World({}, map[], map[], map[], {}, map[])

  /** A call, or the next step of a thread. `ok` says whether a body succeeds or raises. */
  datatype Event = Call(thread: Thread, table: Table) | Turn(thread: Thread, ok: bool)

  function Builds(w: World, t: Table): nat {
    if t in w.builds then w.builds[t] else 0
  }

  function Goto(w: World, th: Thread, p: Place): World {
    w.(threads := w.threads[th := p])
  }

  /** The identity of a new lock object. */
  function FreshLock(w: World): LockId {
    |w.locks|
  }

  predicate Idle(w: World, th: Thread) {
    th !in w.threads || w.threads[th].Returned? || w.threads[th].Raised?
  }

  /** The table's lock object: the registered one, or a new one. */
  function LockFor(w: World, t: Table): LockId {
    if t in w.locks then w.locks[t] else FreshLock(w)
  }

  /** Where the thread's next step takes it. */
  function NextPlace(w: World, p: Place, ok: bool): Place {
    match p
    case Called(t) => if t in w.created then Returned(t) else NeedsLock(t)
    case NeedsLock(t) => Waiting(t, LockFor(w, t))
    case Waiting(t, l) => if l in w.holders then p else Testing(t, l)
    case Testing(t, l) => if t in w.created then Leaving(t, l, true) else Building(t, l)
    case Building(t, l) => if ok then Built(t, l) else Leaving(t, l, false)
    case Built(t, l) => Leaving(t, l, true)
    case Leaving(t, l, done) => if done then Returned(t) else Raised(t)
    case Returned(_) => p
    case Raised(_) => p
  }

  /** What that step does to the shared state. */
  function Effect(w: World, th: Thread, p: Place, ok: bool): World {
    match p
    case NeedsLock(t) => w.(locks := w.locks[t := LockFor(w, t)])
    case Waiting(_, l) => if l in w.holders then w else w.(holders := w.holders[l := th])
    case Building(t, _) =>
      if ok then w.(committed := w.committed + {t}, builds := w.builds[t := Builds(w, t) + 1]) else w
    case Built(t, _) => w.(created := w.created + {t})
    case Leaving(_, l, _) => w.(holders := w.holders - {l})
    case _ => w
  }

  function Step(w: World, e: Event): World {
    match e
    case Call(th, t) => if Idle(w, th) then Goto(w, th, Called(t)) else w
    case Turn(th, ok) =>
      if th !in w.threads then w
      else Goto(Effect(w, th, w.threads[th], ok), th, NextPlace(w, w.threads[th], ok))
  }

  function Run(es: seq<Event>): World {
    if es == [] then START else Step(Run(es[..|es| - 1]), es[|es| - 1])
  }

  predicate Inside(p: Place) {
    p.Testing? || p.Building? || p.Built? || p.Leaving?
  }

  /** The lock of a table is one object, and whoever is inside holds it. */
  predicate LockSound(w: World, th: Thread)
    requires th in w.threads
  {
    var p := w.threads[th];
    && (p.Waiting? || Inside(p) ==> p.table in w.locks && w.locks[p.table] == p.lock)
    && (Inside(p) ==> p.lock in w.holders && w.holders[p.lock] == th)
  }

  ghost predicate LockInv(w: World) {
    forall th :: th in w.threads ==> LockSound(w, th)
  }

  ghost predicate BuiltBy(w: World, t: Table) {
    exists th :: th in w.threads && w.threads[th].Built? && w.threads[th].table == t
  }

  /** Either the build is recorded, or its builder is about to record it. */
  ghost predicate Counted(w: World, t: Table) {
    Builds(w, t) == (if t in w.created || BuiltBy(w, t) then 1 else 0)
  }

  /** Who builds finds the table unrecorded, who returns normally finds it recorded. */
  predicate Sound(w: World, p: Place) {
    && (p.Building? || p.Built? ==> p.table !in w.created)
    && (p.Returned? || (p.Leaving? && p.ok) ==> p.table in w.created)
  }

  /** One build per table. */
  ghost predicate BuildInv(w: World) {
    && (forall t :: Counted(w, t))
    && (forall t :: Builds(w, t) > 0 <==> t in w.committed)
    && (forall th :: th in w.threads ==> Sound(w, w.threads[th]))
  }

  /** No two threads are inside for the same table. */
  lemma MutualExclusion(w: World, a: Thread, b: Thread)
    requires LockInv(w) && a in w.threads && b in w.threads
    requires Inside(w.threads[a]) && Inside(w.threads[b]) && w.threads[a].table == w.threads[b].table
    ensures a == b
  {
    assert LockSound(w, a) && LockSound(w, b);
  }

  predicate IsBuilt(w: World, th: Thread, t: Table) {
    th in w.threads && w.threads[th].Built? && w.threads[th].table == t
  }

  /** Who has built a table changes only through the thread that moves. */
  lemma BuiltByOthers(w: World, v: World, th: Thread, t: Table)
    requires forall o :: o != th ==> (o in v.threads <==> o in w.threads)
    requires forall o :: o != th && o in w.threads ==> v.threads[o] == w.threads[o]
    ensures BuiltBy(v, t) ==> BuiltBy(w, t) || IsBuilt(v, th, t)
    ensures BuiltBy(w, t) ==> BuiltBy(v, t) || IsBuilt(w, th, t)
  {
    if BuiltBy(v, t) && !IsBuilt(v, th, t) {
      var o :| o in v.threads && v.threads[o].Built? && v.threads[o].table == t;
      assert w.threads[o] == v.threads[o];
    }
    if BuiltBy(w, t) && !IsBuilt(w, th, t) {
      var o :| o in w.threads && w.threads[o].Built? && w.threads[o].table == t;
      assert v.threads[o] == w.threads[o];
    }
  }

  lemma BodyCompletes(w: World, th: Thread, t: Table)
    requires LockInv(w) && BuildInv(w)
    requires th in w.threads && w.threads[th].Building?
    ensures Counted(Step(w, Turn(th, true)), t)
  {
    var v := Step(w, Turn(th, true));
    assert Counted(w, t);
    BuiltByOthers(w, v, th, t);
    if t == w.threads[th].table {
      if BuiltBy(w, t) {
        var o :| o in w.threads && w.threads[o].Built? && w.threads[o].table == t;
        MutualExclusion(w, th, o);
      }
      assert IsBuilt(v, th, t);
    }
  }

  lemma BodyIsRecorded(w: World, th: Thread, ok: bool, t: Table)
    requires BuildInv(w)
    requires th in w.threads && w.threads[th].Built?
    ensures Counted(Step(w, Turn(th, ok)), t)
  {
    assert Counted(w, t);
    BuiltByOthers(w, Step(w, Turn(th, ok)), th, t);
    assert t == w.threads[th].table ==> IsBuilt(w, th, t);
  }

  lemma OtherwiseNoBuild(w: World, e: Event, t: Table)
    requires e.Turn? && e.thread in w.threads ==>
      !w.threads[e.thread].Built? && !(w.threads[e.thread].Building? && e.ok)
    ensures Step(w, e).builds == w.builds && Step(w, e).created == w.created
    ensures IsBuilt(Step(w, e), e.thread, t) ==> IsBuilt(w, e.thread, t)
    ensures IsBuilt(w, e.thread, t) ==> IsBuilt(Step(w, e), e.thread, t)
  {
  }

  lemma StepKeepsCount(w: World, e: Event, t: Table)
    requires LockInv(w) && BuildInv(w)
    ensures Counted(Step(w, e), t)
  {
    var th := e.thread;
    assert Counted(w, t);
    if e.Turn? && th in w.threads && w.threads[th].Building? && e.ok {
      BodyCompletes(w, th, t);
    } else if e.Turn? && th in w.threads && w.threads[th].Built? {
      BodyIsRecorded(w, th, e.ok, t);
    } else {
      OtherwiseNoBuild(w, e, t);
      BuiltByOthers(w, Step(w, e), th, t);
    }
  }

  lemma MoverIsSound(w: World, e: Event)
    requires BuildInv(w) && e.thread in Step(w, e).threads
    ensures Sound(Step(w, e), Step(w, e).threads[e.thread])
  {
    if e.thread in w.threads {
      assert Sound(w, w.threads[e.thread]);
    }
  }

  /** A table is only added to the recorded ones, and only by the thread that has built it. */
  lemma RecordedByBuilder(w: World, e: Event, t: Table)
    ensures t in w.created ==> t in Step(w, e).created
    ensures t in Step(w, e).created && t !in w.created ==> IsBuilt(w, e.thread, t)
  {
  }

  lemma OthersAreSound(w: World, e: Event, th: Thread)
    requires LockInv(w) && BuildInv(w) && th in w.threads && th != e.thread
    ensures th in Step(w, e).threads && Sound(Step(w, e), Step(w, e).threads[th])
  {
    var t := w.threads[th].table;
    OthersStay(w, e, th);
    assert Sound(w, w.threads[th]);
    RecordedByBuilder(w, e, t);
    if Inside(w.threads[th]) && IsBuilt(w, e.thread, t) {
      MutualExclusion(w, e.thread, th);
    }
  }

  lemma StepKeepsBuildInv(w: World, e: Event)
    requires LockInv(w) && BuildInv(w)
    ensures BuildInv(Step(w, e))
  {
    var v := Step(w, e);
    forall t ensures Counted(v, t) {
      StepKeepsCount(w, e, t);
    }
    forall t ensures Builds(v, t) > 0 <==> t in v.committed {
      assert Builds(w, t) > 0 <==> t in w.committed;
    }
    forall th | th in v.threads ensures Sound(v, v.threads[th]) {
      if th == e.thread {
        MoverIsSound(w, e);
      } else {
        OthersAreSound(w, e, th);
      }
    }
  }

  lemma LocksAreForever(w: World, e: Event, t: Table)
    requires t in w.locks
    ensures t in Step(w, e).locks && Step(w, e).locks[t] == w.locks[t]
  {
  }

  lemma EnteringKeepsLock(w: World, th: Thread, ok: bool)
    requires LockInv(w) && th in w.threads && (w.threads[th].NeedsLock? || w.threads[th].Waiting?)
    ensures LockSound(Step(w, Turn(th, ok)), th)
  {
    assert LockSound(w, th);
  }

  lemma InsideKeepsLock(w: World, th: Thread, ok: bool)
    requires LockInv(w) && th in w.threads && Inside(w.threads[th])
    ensures LockSound(Step(w, Turn(th, ok)), th)
  {
    assert LockSound(w, th);
  }

  lemma MoverKeepsLock(w: World, e: Event)
    requires LockInv(w) && e.thread in Step(w, e).threads
    ensures LockSound(Step(w, e), e.thread)
  {
    if e.thread in w.threads {
      assert LockSound(w, e.thread);
      var p := w.threads[e.thread];
      if e.Turn? && (p.NeedsLock? || p.Waiting?) {
        EnteringKeepsLock(w, e.thread, e.ok);
      } else if e.Turn? && Inside(p) {
        InsideKeepsLock(w, e.thread, e.ok);
      }
    }
  }

  lemma OthersStay(w: World, e: Event, th: Thread)
    requires th in w.threads && th != e.thread
    ensures th in Step(w, e).threads && Step(w, e).threads[th] == w.threads[th]
  {
  }

  lemma HoldersStay(w: World, e: Event, l: LockId, th: Thread)
    requires LockInv(w) && l in w.holders && w.holders[l] == th && th != e.thread
    ensures l in Step(w, e).holders && Step(w, e).holders[l] == th
  {
    if e.thread in w.threads && w.threads[e.thread].Leaving? {
      assert LockSound(w, e.thread);
    }
  }

  lemma OthersKeepLock(w: World, e: Event, th: Thread)
    requires LockInv(w) && th in w.threads && th != e.thread
    ensures th in Step(w, e).threads && LockSound(Step(w, e), th)
  {
    var p := w.threads[th];
    assert LockSound(w, th);
    OthersStay(w, e, th);
    if p.table in w.locks {
      LocksAreForever(w, e, p.table);
    }
    if Inside(p) {
      HoldersStay(w, e, p.lock, th);
    }
  }

  lemma StepKeepsLockInv(w: World, e: Event)
    requires LockInv(w)
    ensures LockInv(Step(w, e))
  {
    forall th | th in Step(w, e).threads ensures LockSound(Step(w, e), th) {
      if th == e.thread {
        MoverKeepsLock(w, e);
      } else {
        OthersKeepLock(w, e, th);
      }
    }
  }

  /**
   Under every interleaving, with bodies that fail and are retried, the body completes at most
   once per table, and whoever returns normally finds the table created, recorded and committed.
   */
  lemma {:induction false} CreatedAtMostOnce(es: seq<Event>)
    ensures LockInv(Run(es)) && BuildInv(Run(es))
    ensures forall t :: Builds(Run(es), t) <= 1
    ensures forall th :: th in Run(es).threads && Run(es).threads[th].Returned? ==>
      var t := Run(es).threads[th].table;
      t in Run(es).created && t in Run(es).committed && Builds(Run(es), t) == 1
  {
    if es != [] {
      CreatedAtMostOnce(es[..|es| - 1]);
      StepKeepsLockInv(Run(es[..|es| - 1]), es[|es| - 1]);
      StepKeepsBuildInv(Run(es[..|es| - 1]), es[|es| - 1]);
    }
    forall t ensures Builds(Run(es), t) <= 1 {
      assert Counted(Run(es), t);
    }
    forall th | th in Run(es).threads && Run(es).threads[th].Returned?
      ensures var t := Run(es).threads[th].table;
        t in Run(es).created && t in Run(es).committed && Builds(Run(es), t) == 1
    {
      assert Sound(Run(es), Run(es).threads[th]);
      assert Counted(Run(es), Run(es).threads[th].table);
    }
  }

  // ---------------------------------------------------------------- how a call ends

  /** A turn of the thread in the body raised since its last call. */
  predicate BodyFailed(es: seq<Event>, th: Thread) {
    if es == [] then false
    else
      var p, e := es[..|es| - 1], es[|es| - 1];
      if e.Call? && e.thread == th && Idle(Run(p), th) then false
      else BodyFailed(p, th) || (e == Turn(th, false) && th in Run(p).threads && Run(p).threads[th].Building?)
  }

  /** Where a thread can be, given whether its body has failed. */
  predicate Fits(p: Place, failed: bool) {
    match p
    case Returned(_) => !failed
    case Raised(_) => failed
    case Leaving(_, _, ok) => ok == !failed
    case _ => !failed
  }

  /** A call raises iff its own body raised, and so every other one that ends returns normally. */
  lemma {:induction false} RaisedIffBodyFailed(es: seq<Event>, th: Thread)
    requires th in Run(es).threads
    ensures Fits(Run(es).threads[th], BodyFailed(es, th))
    ensures Run(es).threads[th].Raised? ==> BodyFailed(es, th)
    ensures Run(es).threads[th].Returned? ==> !BodyFailed(es, th)
  {
    var p, e := es[..|es| - 1], es[|es| - 1];
    if th in Run(p).threads {
      RaisedIffBodyFailed(p, th);
      if th != e.thread {
        OthersStay(Run(p), e, th);
      }
    } else {
      NotYetCalled(p, th);
    }
  }

  lemma {:induction false} NotYetCalled(es: seq<Event>, th: Thread)
    requires th !in Run(es).threads
    ensures !BodyFailed(es, th)
  {
    if es != [] {
      var p, e := es[..|es| - 1], es[|es| - 1];
      if th in Run(p).threads {
        ThreadsStay(Run(p), e, th);
      }
      NotYetCalled(p, th);
    }
  }

  lemma ThreadsStay(w: World, e: Event, th: Thread)
    requires th in w.threads
    ensures th in Step(w, e).threads
  {
  }

  // ---------------------------------------------------------------- locks are held exactly inside

  /** A held lock is held by a thread that is inside with it. */
  ghost predicate HeldInv(w: World) {
    forall l :: l in w.holders ==>
      w.holders[l] in w.threads && Inside(w.threads[w.holders[l]]) && w.threads[w.holders[l]].lock == l
  }

  lemma HeldAfterStep(w: World, e: Event, l: LockId)
    requires LockInv(w) && HeldInv(w) && l in Step(w, e).holders
    ensures var v := Step(w, e);
      v.holders[l] in v.threads && Inside(v.threads[v.holders[l]]) && v.threads[v.holders[l]].lock == l
  {
    if l in w.holders && w.holders[l] != e.thread {
      OthersStay(w, e, w.holders[l]);
    }
    if e.thread in w.threads {
      assert LockSound(w, e.thread);
    }
  }

  lemma {:induction false} HeldInRun(es: seq<Event>)
    ensures HeldInv(Run(es))
  {
    if es != [] {
      var w, e := Run(es[..|es| - 1]), es[|es| - 1];
      HeldInRun(es[..|es| - 1]);
      CreatedAtMostOnce(es[..|es| - 1]);
      forall l | l in Step(w, e).holders
        ensures var v := Step(w, e);
          v.holders[l] in v.threads && Inside(v.threads[v.holders[l]]) && v.threads[v.holders[l]].lock == l
      {
        HeldAfterStep(w, e, l);
      }
    }
  }

  ghost predicate SomeoneInside(w: World, l: LockId) {
    exists th :: th in w.threads && Inside(w.threads[th]) && w.threads[th].lock == l
  }

  /** In every run a lock is held iff some thread is inside with it. */
  lemma HeldIffInside(es: seq<Event>, l: LockId)
    ensures l in Run(es).holders <==> SomeoneInside(Run(es), l)
  {
    HeldInRun(es);
    CreatedAtMostOnce(es);
    var w := Run(es);
    if SomeoneInside(w, l) {
      var th :| th in w.threads && Inside(w.threads[th]) && w.threads[th].lock == l;
      assert LockSound(w, th);
    }
  }

  /** So a waiting thread enters at its next turn iff nobody is inside. */
  lemma WaitingEntersIff(es: seq<Event>, th: Thread, ok: bool)
    requires th in Run(es).threads && Run(es).threads[th].Waiting?
    ensures Step(Run(es), Turn(th, ok)).threads[th].Testing? <==> !SomeoneInside(Run(es), Run(es).threads[th].lock)
  {
    HeldIffInside(es, Run(es).threads[th].lock);
  }

  // ---------------------------------------------------------------- every call comes to an end

  /** How many turns a thread is from the end of its call, waiting aside. */
  function Rank(p: Place): nat {
    match p
    case Called(_) => 7
    case NeedsLock(_) => 6
    case Waiting(_, _) => 5
    case Testing(_, _) => 4
    case Building(_, _) => 3
    case Built(_, _) => 2
    case Leaving(_, _, _) => 1
    case Returned(_) => 0
    case Raised(_) => 0
  }

  function RunFrom(w: World, es: seq<Event>): World {
    if es == [] then w else Step(RunFrom(w, es[..|es| - 1]), es[|es| - 1])
  }

  function Turns(es: seq<Event>, th: Thread): nat {
    if es == [] then 0
    else
      var e := es[|es| - 1];
      Turns(es[..|es| - 1], th) + (if e.Turn? && e.thread == th then 1 else 0)
  }

  /** In this call the thread has not failed so far: it is not raising and will not be. */
  predicate Well(p: Place) {
    !p.Raised? && (p.Leaving? ==> p.ok)
  }

  predicate NoNewCall(es: seq<Event>, th: Thread) {
    forall e :: e in es ==> e != Turn(th, false) && !(e.Call? && e.thread == th)
  }

  lemma OwnTurn(w: World, th: Thread)
    requires th in w.threads && Inside(w.threads[th]) && Well(w.threads[th])
    ensures var v := Step(w, Turn(th, true));
      && th in v.threads && Well(v.threads[th]) && v.threads[th].table == w.threads[th].table
      && Rank(v.threads[th]) < Rank(w.threads[th])
      && (Inside(v.threads[th]) || v.threads[th].Returned?)
  {
  }

  /**
   Nobody waits in vain for a thread that is inside: whatever the others do, after as many
   turns of its own as its place asks for, at most four and none of them failing, it has returned.
   */
  lemma {:induction false} InsideReturns(w: World, es: seq<Event>, th: Thread)
    requires th in w.threads && Inside(w.threads[th]) && Well(w.threads[th]) && NoNewCall(es, th)
    ensures var v := RunFrom(w, es);
      && th in v.threads && Well(v.threads[th]) && v.threads[th].table == w.threads[th].table
      && (Inside(v.threads[th]) || v.threads[th].Returned?)
      && (Rank(v.threads[th]) + Turns(es, th) <= Rank(w.threads[th]) || v.threads[th].Returned?)
    ensures Turns(es, th) >= 4 ==> RunFrom(w, es).threads[th] == Returned(w.threads[th].table)
  {
    if es != [] {
      var p, e := es[..|es| - 1], es[|es| - 1];
      assert es == p + [e];
      assert e in es;
      InsideReturns(w, p, th);
      var v := RunFrom(w, p);
      if e.thread != th {
        OthersStay(v, e, th);
      } else if Inside(v.threads[th]) {
        OwnTurn(v, th);
      }
    }
  }

  /** A call on its own: it needs seven turns at most, and ends with the table created and committed. */
  function Alone(th: Thread, t: Table, n: nat): seq<Event> {
    if n == 0 then [Call(th, t)] else Alone(th, t, n - 1) + [Turn(th, true)]
  }

  /** The thread is in a call for the table, has not failed, and nothing is in its way. */
  predicate CanGoOn(w: World, th: Thread, t: Table) {
    && th in w.threads && w.threads[th].table == t && Well(w.threads[th])
    && match w.threads[th]
       case Called(_) => LockFor(w, t) !in w.holders
       case NeedsLock(_) => LockFor(w, t) !in w.holders
       case Waiting(_, l) => l !in w.holders
       case _ => true
  }

  lemma AloneTurn(w: World, th: Thread, t: Table)
    requires CanGoOn(w, th, t)
    ensures var v := Step(w, Turn(th, true));
      CanGoOn(v, th, t) && (Rank(v.threads[th]) < Rank(w.threads[th]) || v.threads[th].Returned?)
  {
  }

  lemma AloneCall(w: World, th: Thread, t: Table)
    requires Idle(w, th) && LockFor(w, t) !in w.holders
    ensures CanGoOn(Step(w, Call(th, t)), th, t)
  {
  }

  lemma {:induction false} AloneGoesOn(w: World, th: Thread, t: Table, n: nat)
    requires Idle(w, th) && LockFor(w, t) !in w.holders
    ensures var v := RunFrom(w, Alone(th, t, n));
      CanGoOn(v, th, t) && (Rank(v.threads[th]) + n <= 7 || v.threads[th].Returned?)
  {
    if n == 0 {
      assert [Call(th, t)][..0] == [];
      AloneCall(w, th, t);
    } else {
      AloneGoesOn(w, th, t, n - 1);
      var p := Alone(th, t, n - 1);
      assert (p + [Turn(th, true)])[..|p|] == p;
      AloneTurn(RunFrom(w, p), th, t);
    }
  }

  lemma {:induction false} RunInTwo(a: seq<Event>, b: seq<Event>)
    ensures RunFrom(Run(a), b) == Run(a + b)
  {
    if b == [] {
      assert a + b == a;
    } else {
      RunInTwo(a, b[..|b| - 1]);
      assert (a + b)[..|a + b| - 1] == a + b[..|b| - 1];
    }
  }

  /**
   From every reachable world: a call that finds nobody inside for its table, and whose body does
   not raise, returns after at most seven turns with the table created, recorded and committed.
   */
  lemma AloneReturns(es: seq<Event>, th: Thread, t: Table)
    requires Idle(Run(es), th) && !SomeoneInside(Run(es), LockFor(Run(es), t))
    ensures var v := Run(es + Alone(th, t, 7));
      th in v.threads && v.threads[th] == Returned(t) && t in v.created && t in v.committed
  {
    HeldIffInside(es, LockFor(Run(es), t));
    AloneGoesOn(Run(es), th, t, 7);
    RunInTwo(es, Alone(th, t, 7));
    CreatedAtMostOnce(es + Alone(th, t, 7));
  }
}
