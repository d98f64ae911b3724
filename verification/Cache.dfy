/**
 The in-process cache: bounded, with a time to live and eviction of the least recently used
 entry. Its ordered dict is a sequence of items with distinct keys, oldest use first.
 */
module Cache {
  import opened Wrappers

  datatype Item<K, V> = Item(key: K, deadline: real, value: V)

  datatype Settings = Settings(maxSize: nat, ttl: real)

  function Find<K(==), V>(items: seq<Item<K, V>>, key: K): Option<Item<K, V>> {
    if items == [] then None
    else if items[|items| - 1].key == key then Some(items[|items| - 1])
    else Find(items[..|items| - 1], key)
  }

  function Without<K(==), V>(items: seq<Item<K, V>>, key: K): seq<Item<K, V>> {
    if items == [] then []
    else
      var rest := Without(items[..|items| - 1], key);
      if items[|items| - 1].key == key then rest else rest + [items[|items| - 1]]
  }

  function Live<K, V>(items: seq<Item<K, V>>, now: real): seq<Item<K, V>> {
    if items == [] then []
    else
      var rest := Live(items[..|items| - 1], now);
      if items[|items| - 1].deadline <= now then rest else rest + [items[|items| - 1]]
  }

  function Newest<K, V>(items: seq<Item<K, V>>, n: nat): seq<Item<K, V>> {
    if |items| > n then items[|items| - n..] else items
  }

  datatype Op<K, V> =
    | Set(key: K, value: V, at: real, evictAt: real)
    | Get(key: K, at: real)
    | Delete(key: K)
    | Size(at: real)

  function Step<K(==), V>(items: seq<Item<K, V>>, s: Settings, op: Op<K, V>): seq<Item<K, V>> {
    match op
    case Set(key, value, at, evictAt) =>
      Newest(Live(Without(items, key) + [Item(key, at + s.ttl, value)], evictAt), s.maxSize)
    case Get(key, at) =>
      (match Find(items, key)
       case None => items
       case Some(item) =>
         if item.deadline <= at then Without(items, key) else Without(items, key) + [item])
    case Delete(key) => Without(items, key)
    case Size(at) => Live(items, at)
  }

  function Lookup<K(==), V>(items: seq<Item<K, V>>, key: K, at: real): Option<V> {
    match Find(items, key)
    case None => None
    case Some(item) => if item.deadline <= at then None else Some(item.value)
  }

  predicate DistinctKeys<K(==), V>(items: seq<Item<K, V>>) {
    forall i, j :: 0 <= i < j < |items| ==> items[i].key != items[j].key
  }

  class CacheManager<K(==), V> {
    const settings: Settings
    var items: seq<Item<K, V>>

    ghost predicate Valid()
      reads this
    {
      DistinctKeys(items)
    }

    constructor (settings: Settings)
      ensures this.settings == settings && items == [] && Valid()
    {
      this.settings := settings;
      items := [];
    }

    /** None stands for the ValueError on a bad size or time to live. */
    static method Create(maxSize: int, ttl: real) returns (cache: CacheManager?<K, V>)
      ensures cache == null <==> maxSize < 1 || ttl <= 0.0
      ensures cache != null ==> fresh(cache) && cache.Valid()
      ensures cache != null ==> cache.items == [] && cache.settings == Settings(maxSize, ttl)
    {
      if maxSize < 1 || ttl <= 0.0 {
        return null;
      }
      cache := new CacheManager(Settings(maxSize, ttl));
    }

    method Put(key: K, value: V, at: real, evictAt: real)
      requires Valid()
      modifies this
      ensures Valid()
      ensures items == Step(old(items), settings, Set(key, value, at, evictAt))
      ensures IsSet(old(items), settings, Item(key, at + settings.ttl, value), evictAt, items)
    {
      ghost var next := Step(items, settings, Set(key, value, at, evictAt));
      SetIs(items, settings, key, value, at, evictAt);
      assert next
          == Newest(Live(Without(items, key) + [Item(key, at + settings.ttl, value)], evictAt), settings.maxSize);
      MoveToEnd(Item(key, at + settings.ttl, value));
      EvictExpired(evictAt);
      EvictOldest();
      assert items == next;
    }

    method MoveToEnd(item: Item<K, V>)
      requires Valid()
      modifies this
      ensures Valid() && items == Without(old(items), item.key) + [item]
    {
      WithoutIsDistinct(items, item.key);
      AppendIsDistinct(Without(items, item.key), item);
      items := Without(items, item.key) + [item];
    }

    method EvictOldest()
      requires Valid()
      modifies this
      ensures Valid() && items == Newest(old(items), settings.maxSize)
      ensures forall x :: x in items ==> x in old(items)
    {
      var n := 0;
      while |items| > settings.maxSize
        invariant n <= |old(items)| && items == old(items)[n..]
        invariant n > 0 ==> |items| >= settings.maxSize
      {
        items := items[1..];
        n := n + 1;
      }
    }

    method Fetch(key: K, at: real) returns (value: Option<V>)
      requires Valid()
      modifies this
      ensures Valid()
      ensures items == Step(old(items), settings, Get(key, at))
      ensures value == Lookup(old(items), key, at)
    {
      var found := Find(items, key);
      if found.None? {
        return None;
      }
      FindHasKey(items, key);
      if found.value.deadline <= at {
        Remove(key);
        return None;
      }
      MoveToEnd(found.value);
      return Some(found.value.value);
    }

    method Remove(key: K)
      requires Valid()
      modifies this
      ensures Valid()
      ensures items == Step(old(items), settings, Op<K, V>.Delete(key))
    {
      WithoutIsDistinct(items, key);
      items := Without(items, key);
    }

    method Length(at: real) returns (n: nat)
      requires Valid()
      modifies this
      ensures Valid()
      ensures items == Step(old(items), settings, Op<K, V>.Size(at)) && n == |items|
      ensures forall x {:trigger x in items} {:trigger x in old(items)} ::
        x in items <==> x in old(items) && x.deadline > at
    {
      EvictExpired(at);
      n := |items|;
    }

    method EvictExpired(now: real)
      requires Valid()
      modifies this
      ensures Valid() && items == Live(old(items), now)
      ensures forall x {:trigger x in items} {:trigger x in old(items)} ::
        x in items <==> x in old(items) && x.deadline > now
    {
      var before := items;
      for i := 0 to |before|
        invariant DistinctKeys(items)
        invariant items == Live(before[..i], now) + before[i..]
      {
        if before[i].deadline <= now {
          WithoutIsDistinct(items, before[i].key);
        }
        SkipOrEvict(before, i, now);
        if before[i].deadline <= now {
          items := Without(items, before[i].key);
        }
      }
      assert before[..|before|] == before;
      LiveIsSubset(before, now);
    }
  }

  lemma {:induction false} FindHasKey<K, V>(items: seq<Item<K, V>>, key: K)
    ensures Find(items, key).Some? ==> Find(items, key).value in items && Find(items, key).value.key == key
    ensures Find(items, key).None? ==> forall x :: x in items ==> x.key != key
  {
    if items != [] && items[|items| - 1].key != key {
      FindHasKey(items[..|items| - 1], key);
    }
  }

  lemma AppendIsDistinct<K, V>(items: seq<Item<K, V>>, x: Item<K, V>)
    requires DistinctKeys(items) && forall y :: y in items ==> y.key != x.key
    ensures DistinctKeys(items + [x])
  {
  }

  lemma SkipOrEvict<K, V>(before: seq<Item<K, V>>, i: nat, now: real)
    requires i < |before| && DistinctKeys(Live(before[..i], now) + before[i..])
    ensures var items := Live(before[..i], now) + before[i..];
      Live(before[..i + 1], now) + before[i + 1..]
      == if before[i].deadline <= now then Without(items, before[i].key) else items
  {
    var left := Live(before[..i], now);
    assert before[..i + 1][..i] == before[..i];
    assert before[i..] == [before[i]] + before[i + 1..];
    if before[i].deadline <= now {
      WithoutMiddle(left, before[i], before[i + 1..]);
    } else {
      assert left + ([before[i]] + before[i + 1..]) == left + [before[i]] + before[i + 1..];
    }
  }

  lemma {:induction false} WithoutIsDistinct<K, V>(items: seq<Item<K, V>>, key: K)
    ensures forall x {:trigger x in Without(items, key)} :: x in Without(items, key) ==> x in items && x.key != key
    ensures forall x {:trigger x in items} :: x in items && x.key != key ==> x in Without(items, key)
    ensures DistinctKeys(items) ==> DistinctKeys(Without(items, key))
  {
    if items != [] {
      var p, last := items[..|items| - 1], items[|items| - 1];
      assert items == p + [last];
      WithoutIsDistinct(p, key);
      if DistinctKeys(items) {
        assert forall x :: x in p ==> x.key != last.key;
        AppendIsDistinct(Without(p, key), last);
      }
    }
  }

  /** What a set leaves: nothing expired, the new item last if it is to stay at all, and old ones. */
  ghost predicate IsSet<K, V>(
      before: seq<Item<K, V>>, s: Settings, used: Item<K, V>, evictAt: real, after: seq<Item<K, V>>)
  {
    && (forall x :: x in after ==> x.deadline > evictAt)
    && (forall x :: x in after ==> x == used || (x in before && x.key != used.key))
    && (s.maxSize >= 1 && used.deadline > evictAt ==> after != [] && after[|after| - 1] == used)
  }

  lemma NewestIsPart<K, V>(items: seq<Item<K, V>>, n: nat)
    ensures forall x :: x in Newest(items, n) ==> x in items
    ensures n >= 1 && items != [] ==>
      Newest(items, n) != [] && Newest(items, n)[|Newest(items, n)| - 1] == items[|items| - 1]
  {
  }

  lemma SetIs<K, V>(items: seq<Item<K, V>>, s: Settings, key: K, value: V, at: real, evictAt: real)
    ensures IsSet(items, s, Item(key, at + s.ttl, value), evictAt, Step(items, s, Set(key, value, at, evictAt)))
  {
    var used := Item(key, at + s.ttl, value);
    var live := Live(Without(items, key) + [used], evictAt);
    WithoutIsDistinct(items, key);
    LiveIsSubset(Without(items, key) + [used], evictAt);
    NewestIsPart(live, s.maxSize);
    if used.deadline > evictAt {
      LastIsLive(Without(items, key), used, evictAt);
    }
  }

  lemma LastIsLive<K, V>(items: seq<Item<K, V>>, last: Item<K, V>, now: real)
    requires last.deadline > now
    ensures Live(items + [last], now) == Live(items, now) + [last]
  {
    assert (items + [last])[..|items|] == items;
  }

  lemma {:induction false} LiveIsSubset<K, V>(items: seq<Item<K, V>>, now: real)
    ensures forall x {:trigger x in Live(items, now)} :: x in Live(items, now) ==> x in items && x.deadline > now
    ensures forall x {:trigger x in items} :: x in items && x.deadline > now ==> x in Live(items, now)
  {
    if items != [] {
      assert items == items[..|items| - 1] + [items[|items| - 1]];
      LiveIsSubset(items[..|items| - 1], now);
    }
  }

  lemma {:induction false} WithoutNothing<K, V>(items: seq<Item<K, V>>, key: K)
    requires forall x :: x in items ==> x.key != key
    ensures Without(items, key) == items
  {
    if items != [] {
      WithoutNothing(items[..|items| - 1], key);
    }
  }

  lemma {:induction false} WithoutMiddle<K, V>(left: seq<Item<K, V>>, x: Item<K, V>, right: seq<Item<K, V>>)
    requires DistinctKeys(left + ([x] + right))
    ensures Without(left + ([x] + right), x.key) == left + right
  {
    var all := left + ([x] + right);
    assert forall y :: y in left ==> y.key != x.key by {
      forall i | 0 <= i < |left| ensures left[i].key != x.key {
        assert all[i] == left[i] && all[|left|] == x;
      }
    }
    if right == [] {
      assert all[..|all| - 1] == left;
      WithoutNothing(left, x.key);
    } else {
      var r := right[..|right| - 1];
      assert all[..|all| - 1] == left + ([x] + r);
      WithoutMiddle(left, x, r);
      assert all[|left|] == x && all[|all| - 1] == right[|right| - 1];
      assert left + r + [right[|right| - 1]] == left + right;
    }
  }

  // ---------------------------------------------------------------- the cache against its history

  function Run<K(==), V>(s: Settings, ops: seq<Op<K, V>>): seq<Item<K, V>> {
    if ops == [] then [] else Step(Run(s, ops[..|ops| - 1]), s, ops[|ops| - 1])
  }

  /** The last value set and not deleted since, with the time at which it expires. */
  function LastWrite<K(==), V>(s: Settings, ops: seq<Op<K, V>>, key: K): Option<(real, V)> {
    if ops == [] then None
    else
      match ops[|ops| - 1]
      case Set(k, v, at, _) => if k == key then Some((at + s.ttl, v)) else LastWrite(s, ops[..|ops| - 1], key)
      case Delete(k) => if k == key then None else LastWrite(s, ops[..|ops| - 1], key)
      case Get(_, _) => LastWrite(s, ops[..|ops| - 1], key)
      case Size(_) => LastWrite(s, ops[..|ops| - 1], key)
  }

  /** Whether the operation uses the key: it sets it, or it gets it and hits. */
  predicate Uses<K(==), V>(items: seq<Item<K, V>>, op: Op<K, V>, key: K) {
    || (op.Set? && op.key == key)
    || (op.Get? && op.key == key && Lookup(items, key, op.at).Some?)
  }

  /** The distinct other keys used since the last use of the key. */
  function UsedSince<K(==), V>(s: Settings, ops: seq<Op<K, V>>, key: K): set<K> {
    if ops == [] then {}
    else
      var p, op := ops[..|ops| - 1], ops[|ops| - 1];
      if Uses(Run(s, p), op, key) then {}
      else if (op.Set? || op.Get?) && Uses(Run(s, p), op, op.key) then UsedSince(s, p, key) + {op.key}
      else UsedSince(s, p, key)
  }

  function Start<K, V>(op: Op<K, V>, otherwise: real): real {
    match op
    case Set(_, _, at, _) => at
    case Get(_, at) => at
    case Delete(_) => otherwise
    case Size(at) => at
  }

  function Clock<K, V>(ops: seq<Op<K, V>>): real {
    if ops == [] then 0.0
    else if ops[|ops| - 1].Set? then ops[|ops| - 1].evictAt
    else Start(ops[|ops| - 1], Clock(ops[..|ops| - 1]))
  }

  /** The clock never runs backwards. */
  ghost predicate Timely<K, V>(ops: seq<Op<K, V>>) {
    ops == [] ||
    var p, op := ops[..|ops| - 1], ops[|ops| - 1];
    Timely(p) && Clock(p) <= Start(op, Clock(p)) && (op.Set? ==> op.at <= op.evictAt)
  }

  /** Distinct keys, each used after all the keys before it. */
  ghost predicate Chain<K, V>(s: Settings, ops: seq<Op<K, V>>, items: seq<Item<K, V>>) {
    items == [] ||
    var front, last := items[..|items| - 1], items[|items| - 1];
    && Chain(s, ops, front)
    && forall x :: x in front ==> x.key != last.key && last.key in UsedSince(s, ops, x.key)
  }

  ghost predicate Faithful<K, V>(s: Settings, ops: seq<Op<K, V>>, items: seq<Item<K, V>>) {
    forall x :: x in items ==> LastWrite(s, ops, x.key) == Some((x.deadline, x.value))
  }

  ghost predicate Explained<K, V>(s: Settings, ops: seq<Op<K, V>>, items: seq<Item<K, V>>, key: K) {
    LastWrite(s, ops, key).Some? && Find(items, key).None?
    ==> LastWrite(s, ops, key).value.0 <= Clock(ops) || |UsedSince(s, ops, key)| >= s.maxSize
  }

  ghost predicate CacheInv<K(!new), V>(s: Settings, ops: seq<Op<K, V>>, items: seq<Item<K, V>>) {
    Chain(s, ops, items) && Faithful(s, ops, items) && forall key :: Explained(s, ops, items, key)
  }

  lemma {:induction false} ChainWithout<K, V>(s: Settings, ops: seq<Op<K, V>>, items: seq<Item<K, V>>, key: K)
    requires Chain(s, ops, items)
    ensures Chain(s, ops, Without(items, key))
  {
    if items != [] {
      var front, last := items[..|items| - 1], items[|items| - 1];
      ChainWithout(s, ops, front, key);
      WithoutIsDistinct(front, key);
      assert (Without(front, key) + [last])[..|Without(front, key)|] == Without(front, key);
    }
  }

  lemma {:induction false} ChainLive<K, V>(s: Settings, ops: seq<Op<K, V>>, items: seq<Item<K, V>>, now: real)
    requires Chain(s, ops, items)
    ensures Chain(s, ops, Live(items, now))
  {
    if items != [] {
      var front, last := items[..|items| - 1], items[|items| - 1];
      ChainLive(s, ops, front, now);
      LiveIsSubset(front, now);
      assert (Live(front, now) + [last])[..|Live(front, now)|] == Live(front, now);
    }
  }

  /** Dropping the oldest items keeps the chain, and each dropped key has been overtaken by the rest. */
  lemma {:induction false} ChainDrop<K, V>(s: Settings, ops: seq<Op<K, V>>, items: seq<Item<K, V>>, n: nat)
    requires Chain(s, ops, items) && n <= |items|
    ensures Chain(s, ops, items[n..])
    ensures forall x, y :: x in items[..n] && y in items[n..] ==> y.key in UsedSince(s, ops, x.key) && x.key != y.key
  {
    if n < |items| {
      var front, last := items[..|items| - 1], items[|items| - 1];
      ChainDrop(s, ops, front, n);
      assert front[..n] == items[..n];
      assert items[n..][..|items| - n - 1] == front[n..];
      assert items[n..] == front[n..] + [last];
      assert forall x :: x in front[..n] || x in front[n..] ==> x in front;
    }
  }

  lemma {:induction false} ChainFits<K, V>(s: Settings, ops: seq<Op<K, V>>, items: seq<Item<K, V>>, keys: set<K>)
    requires Chain(s, ops, items)
    requires forall x :: x in items ==> x.key in keys
    ensures |items| <= |keys|
  {
    if items != [] {
      ChainFits(s, ops, items[..|items| - 1], keys - {items[|items| - 1].key});
    }
  }

  lemma {:induction false} ChainFind<K, V>(s: Settings, ops: seq<Op<K, V>>, items: seq<Item<K, V>>, x: Item<K, V>)
    requires Chain(s, ops, items) && x in items
    ensures Find(items, x.key) == Some(x)
  {
    if x != items[|items| - 1] {
      ChainFind(s, ops, items[..|items| - 1], x);
    }
  }

  /** The next operation leaves the relation between the keys it does not use as it was. */
  lemma {:induction false} ChainNext<K, V>(s: Settings, ops: seq<Op<K, V>>, op: Op<K, V>, items: seq<Item<K, V>>)
    requires Chain(s, ops, items)
    requires forall x :: x in items ==> !Uses(Run(s, ops), op, x.key)
    ensures Chain(s, ops + [op], items)
  {
    assert (ops + [op])[..|ops|] == ops;
    if items != [] {
      ChainNext(s, ops, op, items[..|items| - 1]);
    }
  }

  lemma ChainUse<K, V>(s: Settings, ops: seq<Op<K, V>>, op: Op<K, V>, items: seq<Item<K, V>>, used: Item<K, V>)
    requires Chain(s, ops, items)
    requires (op.Set? || op.Get?) && op.key == used.key && Uses(Run(s, ops), op, used.key)
    requires forall x :: x in items ==> x.key != used.key
    ensures Chain(s, ops + [op], items + [used])
  {
    ChainNext(s, ops, op, items);
    assert (items + [used])[..|items|] == items;
    assert (ops + [op])[..|ops|] == ops;
  }

  /** The items right after the assignment of a set, and what expiry leaves of them. */
  function Assign<K(==), V>(items: seq<Item<K, V>>, s: Settings, op: Op<K, V>): seq<Item<K, V>>
    requires op.Set?
  {
    Without(items, op.key) + [Item(op.key, op.at + s.ttl, op.value)]
  }

  function SetAndExpire<K(==), V>(items: seq<Item<K, V>>, s: Settings, op: Op<K, V>): seq<Item<K, V>>
    requires op.Set?
  {
    Live(Assign(items, s, op), op.evictAt)
  }

  lemma SetIsFaithful<K(!new), V>(s: Settings, ops: seq<Op<K, V>>, op: Op<K, V>, items: seq<Item<K, V>>)
    requires op.Set? && Faithful(s, ops, items)
    ensures Faithful(s, ops + [op], Assign(items, s, op))
  {
    WithoutIsDistinct(items, op.key);
    assert (ops + [op])[..|ops|] == ops;
  }

  lemma SetIsChain<K(!new), V>(s: Settings, ops: seq<Op<K, V>>, op: Op<K, V>, items: seq<Item<K, V>>)
    requires op.Set? && items == Run(s, ops) && Chain(s, ops, items)
    ensures Chain(s, ops + [op], Assign(items, s, op))
  {
    WithoutIsDistinct(items, op.key);
    ChainWithout(s, ops, items, op.key);
    ChainUse(s, ops, op, Without(items, op.key), Item(op.key, op.at + s.ttl, op.value));
  }

  lemma FaithfulLive<K(!new), V>(s: Settings, ops: seq<Op<K, V>>, items: seq<Item<K, V>>, now: real)
    requires Faithful(s, ops, items)
    ensures Faithful(s, ops, Live(items, now))
  {
    LiveIsSubset(items, now);
  }

  lemma SetAndExpireIsChain<K(!new), V>(s: Settings, ops: seq<Op<K, V>>, op: Op<K, V>, items: seq<Item<K, V>>)
    requires op.Set? && items == Run(s, ops) && Chain(s, ops, items)
    ensures Chain(s, ops + [op], SetAndExpire(items, s, op))
  {
    SetIsChain(s, ops, op, items);
    ChainLive(s, ops + [op], Assign(items, s, op), op.evictAt);
  }

  lemma SetAndExpireIsFaithful<K(!new), V>(s: Settings, ops: seq<Op<K, V>>, op: Op<K, V>, items: seq<Item<K, V>>)
    requires op.Set? && Faithful(s, ops, items)
    ensures Faithful(s, ops + [op], SetAndExpire(items, s, op))
  {
    SetIsFaithful(s, ops, op, items);
    FaithfulLive(s, ops + [op], Assign(items, s, op), op.evictAt);
  }

  lemma SetExplains<K(!new), V>(s: Settings, ops: seq<Op<K, V>>, op: Op<K, V>, items: seq<Item<K, V>>, key: K)
    requires op.Set? && items == Run(s, ops)
    requires CacheInv(s, ops, items) && Timely(ops + [op])
    ensures Explained(s, ops + [op], SetAndExpire(items, s, op), key)
  {
    var all := ops + [op];
    assert all[..|ops|] == ops;
    var full := Assign(items, s, op);
    LiveIsSubset(full, op.evictAt);
    WithoutIsDistinct(items, op.key);
    FindHasKey(items, key);
    FindHasKey(SetAndExpire(items, s, op), key);
    assert Explained(s, ops, items, key);
    if Find(items, key).None? {
      Grows(UsedSince(s, ops, key), op.key);
    } else if key != op.key {
      assert Find(items, key).value in full;
    } else {
      assert full[|full| - 1] in full;
    }
  }

  lemma SetKeepsInv<K(!new), V>(s: Settings, ops: seq<Op<K, V>>, op: Op<K, V>, items: seq<Item<K, V>>)
    requires op.Set? && items == Run(s, ops)
    requires CacheInv(s, ops, items) && Timely(ops + [op])
    ensures CacheInv(s, ops + [op], Step(items, s, op))
  {
    var all, live := ops + [op], SetAndExpire(items, s, op);
    SetAndExpireIsChain(s, ops, op, items);
    SetAndExpireIsFaithful(s, ops, op, items);
    var n := if |live| > s.maxSize then |live| - s.maxSize else 0;
    ChainDrop(s, all, live, n);
    var kept := live[n..];
    assert live == live[..n] + kept;
    assert kept == Step(items, s, op);
    forall key ensures Explained(s, all, kept, key) {
      SetExplains(s, ops, op, items, key);
      FindHasKey(kept, key);
      FindHasKey(live, key);
      if Find(live, key).Some? && Find(kept, key).None? {
        assert Find(live, key).value in live[..n];
        ChainFits(s, all, kept, UsedSince(s, all, key));
      }
    }
  }

  lemma Grows<K>(keys: set<K>, key: K)
    ensures |keys + {key}| >= |keys|
  {
    if key in keys {
      assert keys + {key} == keys;
    }
  }

  lemma GetIsChain<K(!new), V>(s: Settings, ops: seq<Op<K, V>>, op: Op<K, V>, items: seq<Item<K, V>>)
    requires op.Get? && items == Run(s, ops) && Chain(s, ops, items)
    ensures Chain(s, ops + [op], Step(items, s, op))
  {
    FindHasKey(items, op.key);
    var rest := Without(items, op.key);
    WithoutIsDistinct(items, op.key);
    ChainWithout(s, ops, items, op.key);
    var found := Find(items, op.key);
    if found.Some? && found.value.deadline > op.at {
      ChainUse(s, ops, op, rest, found.value);
    } else if found.Some? {
      ChainNext(s, ops, op, rest);
    } else {
      ChainNext(s, ops, op, items);
    }
  }

  lemma GetExplains<K(!new), V>(s: Settings, ops: seq<Op<K, V>>, op: Op<K, V>, items: seq<Item<K, V>>, key: K)
    requires op.Get? && items == Run(s, ops)
    requires CacheInv(s, ops, items) && Timely(ops + [op])
    ensures Explained(s, ops + [op], Step(items, s, op), key)
  {
    assert (ops + [op])[..|ops|] == ops;
    FindHasKey(items, op.key);
    WithoutIsDistinct(items, op.key);
    FindHasKey(Step(items, s, op), key);
    FindHasKey(items, key);
    assert Explained(s, ops, items, key);
    if Find(items, key).None? {
      Grows(UsedSince(s, ops, key), op.key);
    } else if Find(Step(items, s, op), key).None? {
      assert key == op.key;
    }
  }

  lemma GetKeepsInv<K(!new), V>(s: Settings, ops: seq<Op<K, V>>, op: Op<K, V>, items: seq<Item<K, V>>)
    requires op.Get? && items == Run(s, ops)
    requires CacheInv(s, ops, items) && Timely(ops + [op])
    ensures CacheInv(s, ops + [op], Step(items, s, op))
  {
    assert (ops + [op])[..|ops|] == ops;
    FindHasKey(items, op.key);
    WithoutIsDistinct(items, op.key);
    GetIsChain(s, ops, op, items);
    forall key ensures Explained(s, ops + [op], Step(items, s, op), key) {
      GetExplains(s, ops, op, items, key);
    }
  }

  lemma OtherKeepsInv<K(!new), V>(s: Settings, ops: seq<Op<K, V>>, op: Op<K, V>, items: seq<Item<K, V>>)
    requires (op.Delete? || op.Size?) && items == Run(s, ops)
    requires CacheInv(s, ops, items) && Timely(ops + [op])
    ensures CacheInv(s, ops + [op], Step(items, s, op))
  {
    var all := ops + [op];
    assert all[..|ops|] == ops;
    var next := Step(items, s, op);
    if op.Delete? {
      WithoutIsDistinct(items, op.key);
      ChainWithout(s, ops, items, op.key);
    } else {
      LiveIsSubset(items, op.at);
      ChainLive(s, ops, items, op.at);
    }
    ChainNext(s, ops, op, next);
    forall key ensures Explained(s, all, next, key) {
      FindHasKey(next, key);
      FindHasKey(items, key);
      assert Explained(s, ops, items, key);
    }
  }

  lemma {:induction false} CacheFollowsHistory<K(!new), V>(s: Settings, ops: seq<Op<K, V>>)
    requires Timely(ops)
    ensures CacheInv(s, ops, Run(s, ops))
    ensures |Run(s, ops)| <= s.maxSize
  {
    if ops == [] {
      forall key ensures Explained(s, ops, Run(s, ops), key) {
      }
    } else {
      var p, op := ops[..|ops| - 1], ops[|ops| - 1];
      assert p + [op] == ops;
      var items := Run(s, p);
      CacheFollowsHistory(s, p);
      match op
      case Set(_, _, _, _) => SetKeepsInv(s, p, op, items);
      case Get(key, _) =>
        GetKeepsInv(s, p, op, items);
        FindHasKey(items, key);
        if Find(items, key).Some? {
          Shrinks(items, Find(items, key).value);
        }
      case Delete(key) =>
        OtherKeepsInv(s, p, op, items);
        NoLonger(items, key);
      case Size(at) =>
        OtherKeepsInv(s, p, op, items);
        LiveNoLonger(items, at);
    }
  }

  lemma {:induction false} NoLonger<K, V>(items: seq<Item<K, V>>, key: K)
    ensures |Without(items, key)| <= |items|
  {
    if items != [] {
      NoLonger(items[..|items| - 1], key);
    }
  }

  lemma {:induction false} LiveNoLonger<K, V>(items: seq<Item<K, V>>, now: real)
    ensures |Live(items, now)| <= |items|
  {
    if items != [] {
      LiveNoLonger(items[..|items| - 1], now);
    }
  }

  lemma {:induction false} Shrinks<K, V>(items: seq<Item<K, V>>, x: Item<K, V>)
    requires x in items
    ensures |Without(items, x.key)| < |items|
  {
    NoLonger(items[..|items| - 1], x.key);
    if x != items[|items| - 1] {
      Shrinks(items[..|items| - 1], x);
    }
  }

  /**
   A hit returns the value last set, not deleted and not expired. A miss on such a value
   happens only if at least maxSize other keys were set or hit since its last use.
   */
  lemma HitsAndMissesAreRight<K(!new), V>(s: Settings, ops: seq<Op<K, V>>, key: K, at: real)
    requires Timely(ops) && Clock(ops) <= at
    ensures var written := LastWrite(s, ops, key);
      match Lookup(Run(s, ops), key, at)
      case Some(v) => written.Some? && written.value.0 > at && written.value.1 == v
      case None => written.None? || written.value.0 <= at || |UsedSince(s, ops, key)| >= s.maxSize
  {
    CacheFollowsHistory(s, ops);
    var items := Run(s, ops);
    FindHasKey(items, key);
    assert Explained(s, ops, items, key);
  }
}
