/** The sharded cache: independent segments, a hash that places every key in one of them. */
module Cache {
  import opened Lru
  import opened Shards
  import opened TinyLfu
  import A = Admission

  /** Number of segments for a configured capacity; `shards` 0 or less asks for the default. */
  function ShardCount(capacity: nat, shards: int): (n: nat)
    requires capacity >= 1
    ensures 1 <= n <= capacity
  {
    var n := if shards <= 0 then (if capacity / 256 > 16 then 16 else capacity / 256) else shards;
    var m := if n > capacity then capacity else n;
    if m < 1 then 1 else m
  }

  /** As many segments as asked for but at most one per entry; by default one per 256 entries, at most 16. */
  lemma ShardsByCapacity(capacity: nat, shards: int)
    requires capacity >= 1
    ensures 0 < shards <= capacity ==> ShardCount(capacity, shards) == shards
    ensures shards > capacity ==> ShardCount(capacity, shards) == capacity
    ensures shards <= 0 && capacity < 512 ==> ShardCount(capacity, shards) == 1
    ensures shards <= 0 && 512 <= capacity < 4096 ==>
              ShardCount(capacity, shards) * 256 <= capacity < ShardCount(capacity, shards) * 256 + 256
    ensures shards <= 0 && capacity >= 4096 ==> ShardCount(capacity, shards) == 16
  {
  }

  /** Capacity is rounded up per segment, bytes are rounded down. */
  function PerShard(capacity: nat, maxBytes: nat, n: nat): Limits
    requires 1 <= n <= capacity
  {
    Limits((capacity + n - 1) / n, maxBytes / n)
  }

  function Entries(views: seq<View>): nat {
    if views == [] then 0 else Entries(views[..|views| - 1]) + |views[|views| - 1]|
  }

  function AllBytes(views: seq<View>): nat {
    if views == [] then 0 else AllBytes(views[..|views| - 1]) + Total(views[|views| - 1])
  }

  function KeysTagged(views: seq<View>, tag: string): set<string> {
    set i, k | 0 <= i < |views| && k in TaggedKeys(views[i], tag) :: k
  }

  lemma KeysTaggedNext(views: seq<View>, i: nat, tag: string)
    requires i < |views|
    ensures KeysTagged(views[..i + 1], tag) == KeysTagged(views[..i], tag) + TaggedKeys(views[i], tag)
  {
  }

  ghost predicate AllWithin(views: seq<View>, lim: Limits) {
    forall i :: 0 <= i < |views| ==> Within(views[i], lim)
  }

  lemma {:induction false} EntriesBound(views: seq<View>, lim: Limits)
    requires AllWithin(views, lim)
    ensures Entries(views) <= |views| * lim.capacity
    ensures lim.maxBytes > 0 ==> AllBytes(views) <= |views| * lim.maxBytes
  {
    if views != [] {
      var init := views[..|views| - 1];
      EntriesBound(init, lim);
      assert |views| * lim.capacity == |init| * lim.capacity + lim.capacity;
      assert |views| * lim.maxBytes == |init| * lim.maxBytes + lim.maxBytes;
    }
  }

  lemma MulDiv(a: nat, n: nat)
    requires n >= 1
    ensures n * (a / n) <= a && a - n * (a / n) < n
  {
  }

  /** The cache never holds more than the configured capacity plus the rounding term. */
  lemma SizeWithinRounding(views: seq<View>, capacity: nat, maxBytes: nat, n: nat)
    requires 1 <= n <= capacity && |views| == n && AllWithin(views, PerShard(capacity, maxBytes, n))
    ensures Entries(views) <= capacity + n - 1
    ensures capacity % n == 0 ==> Entries(views) <= capacity
  {
    EntriesBound(views, PerShard(capacity, maxBytes, n));
    MulDiv(capacity + n - 1, n);
    if capacity % n == 0 {
      var q := capacity / n;
      assert capacity == n * q;
      assert (capacity + n - 1) / n == q by {
        RoundsUpExact(q, n);
      }
    }
  }

  lemma RoundsUpExact(q: nat, n: nat)
    requires n >= 1
    ensures (n * q + n - 1) / n == q
  {
    var d: int := (n * q + n - 1) / n - q;
    MulDiv(n * q + n - 1, n);
    assert 0 - n < n * d < n;
    assert d >= 1 ==> n * d >= n;
    assert d <= -1 ==> n * d <= 0 - n;
  }

  /** The segments together hold the capacity, and with one entry less each they would not; their byte
      budgets stay within the limit, and with one byte more each they would not. */
  lemma PerShardIsTight(capacity: nat, maxBytes: nat, n: nat)
    requires 1 <= n <= capacity
    ensures var lim := PerShard(capacity, maxBytes, n);
            && capacity <= n * lim.capacity < capacity + n
            && n * lim.maxBytes <= maxBytes < n * lim.maxBytes + n
  {
    var a, b := capacity + n - 1, maxBytes;
    assert a == n * (a / n) + a % n;
    assert b == n * (b / n) + b % n;
  }

  lemma PerShardHasRoom(capacity: nat, maxBytes: nat, n: nat)
    requires 1 <= n <= capacity
    ensures PerShard(capacity, maxBytes, n).capacity >= 1
    ensures PerShard(capacity, maxBytes, n).maxBytes > 0 <==> maxBytes >= n
  {
  }

  function Placement(hash: string -> nat, n: nat, key: string): (i: nat)
    requires n >= 1
    ensures i < n
  {
    if n == 1 then 0 else hash(key) % n
  }

  ghost predicate Placed(views: seq<View>, hash: string -> nat) {
    && |views| >= 1
    && (forall i :: 0 <= i < |views| ==> Distinct(views[i]))
    && (forall i, e :: 0 <= i < |views| && e in views[i] ==> Placement(hash, |views|, e.item.key) == i)
  }

  /** What the segments of a cache can hold: every entry in the segment of its key and charged with
      its item's size, every segment within its limits. */
  ghost predicate Possible(views: seq<View>, hash: string -> nat, lim: Limits) {
    && Placed(views, hash) && AllWithin(views, lim)
    && (forall i, e :: 0 <= i < |views| && e in views[i] ==> e.size == ItemSize(e.item))
  }

  ghost predicate BytesAlwaysKept(capacity: nat, maxBytes: nat, n: nat, hash: string -> nat)
    requires 1 <= n <= capacity
  {
    forall views: seq<View> :: |views| == n && Possible(views, hash, PerShard(capacity, maxBytes, n)) ==>
      AllBytes(views) <= maxBytes
  }

  lemma {:induction false} ContainsOne(views: seq<View>, i: nat)
    requires i < |views|
    ensures AllBytes(views) >= Total(views[i])
  {
    if i < |views| - 1 {
      ContainsOne(views[..|views| - 1], i);
    }
  }

  /** An item larger than the whole cache. */
  function Oversized(key: string, maxBytes: nat): (item: Item)
    ensures item.key == key && ItemSize(item) > maxBytes
  {
    Item(key, seq(maxBytes + 1, _ => 0), [], 200, 0, 0, 1, 0, [])
  }

  function Empty(n: nat): (views: seq<View>)
    ensures |views| == n && forall i :: 0 <= i < n ==> views[i] == []
  {
    seq(n, _ => [])
  }

  /** What storing an item does to the segments of an empty cache. */
  function AfterFirstSet(n: nat, hash: string -> nat, item: Item, now: int, lim: Limits): (views: seq<View>)
    requires n >= 1
    ensures |views| == n
  {
    Empty(n)[Placement(hash, n, item.key) := Put([], NewEntry(item, now), lim)]
  }

  /** Below the number of segments the byte limit rounds down to "no limit": an empty cache takes an
      item larger than the whole cache, under every admission policy, and is over its limit. */
  lemma TinyLimitIsNoLimit(capacity: nat, maxBytes: nat, n: nat, hash: string -> nat, key: string, m: A.Metrics,
                           p: A.Policy)
    requires 1 <= n <= capacity && 0 < maxBytes < n && key != ""
    ensures var lim, item := PerShard(capacity, maxBytes, n), Oversized(key, maxBytes);
            && Accepts([], lim, item, m, p)
            && Possible(AfterFirstSet(n, hash, item, 1, lim), hash, lim)
            && AllBytes(AfterFirstSet(n, hash, item, 1, lim)) > maxBytes
  {
    var lim, item := PerShard(capacity, maxBytes, n), Oversized(key, maxBytes);
    PerShardHasRoom(capacity, maxBytes, n);
    var e := NewEntry(item, 1);
    assert Put([], e, lim) == [e] by {
      assert Pushed([], e) == [e];
    }
    assert [e][1..] == [];
    FittingItemIsStored([], lim, item, 1, m, p);
    ContainsOne(AfterFirstSet(n, hash, item, 1, lim), Placement(hash, n, key));
  }

  /** The byte limit holds in everything the cache can hold exactly if it is at least the number of
      segments. */
  lemma BytesKeptIffLimitReachesShards(capacity: nat, maxBytes: nat, n: nat, hash: string -> nat)
    requires 1 <= n <= capacity && maxBytes > 0
    ensures BytesAlwaysKept(capacity, maxBytes, n, hash) <==> maxBytes >= n
  {
    var lim := PerShard(capacity, maxBytes, n);
    if maxBytes >= n {
      PerShardHasRoom(capacity, maxBytes, n);
      MulDiv(maxBytes, n);
      forall views: seq<View> | |views| == n && Possible(views, hash, lim)
        ensures AllBytes(views) <= maxBytes
      {
        EntriesBound(views, lim);
      }
    } else {
      TinyLimitIsNoLimit(capacity, maxBytes, n, hash, "k", A.Metrics(0.0, 1, 0, "", false), A.Always);
    }
  }

  predicate Cached(views: seq<View>, e: Entry) {
    exists i :: 0 <= i < |views| && e in views[i]
  }

  method NewShards(n: nat, capacity: nat, maxBytes: nat) returns (made: seq<Shard>)
    requires capacity >= 1
    ensures |made| == n && fresh(made)
    ensures forall i, j :: 0 <= i < j < n ==> made[i] != made[j]
    ensures forall i :: 0 <= i < n ==>
              made[i].Valid() && made[i].limits == Limits(capacity, maxBytes) && made[i].items == map[]
  {
    made := [];
    while |made| < n
      invariant |made| <= n && fresh(made)
      invariant forall i, j :: 0 <= i < j < |made| ==> made[i] != made[j]
      invariant forall i :: 0 <= i < |made| ==>
        made[i].Valid() && made[i].limits == Limits(capacity, maxBytes) && made[i].items == map[]
    {
      var s := new Shard(capacity, maxBytes);
      made := made + [s];
    }
  }

  lemma OneSegment(before: seq<View>, after: seq<View>, i: nat)
    requires i < |before| == |after| && forall j :: 0 <= j < |after| && j != i ==> after[j] == before[j]
    ensures after == before[i := after[i]]
  {
  }

  class InMemoryCache {
    const shards: seq<Shard>
    const capacity: nat
    const maxBytes: nat
    const hash: string -> nat
    const admission: TinyLfuAdmission?

    ghost predicate Valid()
      reads shards
    {
      && 1 <= |shards| <= capacity
      && (forall i, j :: 0 <= i < j < |shards| ==> shards[i] != shards[j])
      && (forall i :: 0 <= i < |shards| ==>
            shards[i].Valid() && shards[i].limits == PerShard(capacity, maxBytes, |shards|))
      && (forall i, k :: 0 <= i < |shards| && k in shards[i].items ==> ShardOf(k) == i)
    }

    function ShardOf(key: string): (i: nat)
      requires |shards| >= 1
      ensures i < |shards|
    {
      Placement(hash, |shards|, key)
    }

    ghost function Views(): (vs: seq<View>)
      requires Valid()
      reads shards
      ensures |vs| == |shards| && forall i :: 0 <= i < |vs| ==> vs[i] == shards[i].Contents()
    {
      seq(|shards|, i requires 0 <= i < |shards| && shards[i].Valid() reads shards => shards[i].Contents())
    }

    constructor (configured: int, bytes: int, shardCount: int, hash: string -> nat, admission: TinyLfuAdmission?)
      ensures Valid() && fresh(shards) && this.admission == admission
      ensures capacity == (if configured <= 0 then 1024 else configured)
      ensures maxBytes == (if bytes < 0 then 0 else bytes)
      ensures |shards| == ShardCount(capacity, shardCount)
      ensures forall i :: 0 <= i < |shards| ==> shards[i].items == map[]
    {
      var cap := if configured <= 0 then 1024 else configured;
      var max := if bytes < 0 then 0 else bytes;
      var n := ShardCount(cap, shardCount);
      var perShard := (cap + n - 1) / n;
      PerShardHasRoom(cap, max, n);
      var made := NewShards(n, perShard, max / n);
      shards, capacity, maxBytes, this.hash, this.admission := made, cap, max, hash, admission;
    }

    /** Entries sit in the segment of their key, once, at their size, and within the segment's limits. */
    lemma ViewsArePlaced()
      requires Valid()
      ensures Possible(Views(), hash, PerShard(capacity, maxBytes, |shards|))
    {
      forall i | 0 <= i < |shards|
        ensures Distinct(Views()[i])
        ensures forall e :: e in Views()[i] ==> ShardOf(e.item.key) == i && e.size == ItemSize(e.item)
      {
        ViewDistinct(shards[i].items, shards[i].lru);
        forall e | e in Views()[i]
          ensures ShardOf(e.item.key) == i && e.size == ItemSize(e.item)
        {
          var j :| 0 <= j < |Views()[i]| && Views()[i][j] == e;
          assert e == shards[i].items[shards[i].lru[j]] && shards[i].lru[j] in shards[i].items;
        }
      }
    }

    method Set(item: Item, now: int, metrics: A.Metrics) returns (stored: bool)
      requires Valid() && Ready(admission)
      modifies shards[ShardOf(item.key)]
      ensures Valid() && Ready(admission) && RequestsOf(admission) == old(RequestsOf(admission))
      ensures stored == Accepts(old(Views())[ShardOf(item.key)], PerShard(capacity, maxBytes, |shards|), item,
                                metrics, old(PolicyOf(admission)))
      ensures Views() == if stored
                         then old(Views())[ShardOf(item.key) :=
                                Put(old(Views())[ShardOf(item.key)], NewEntry(item, now),
                                    PerShard(capacity, maxBytes, |shards|))]
                         else old(Views())
    {
      var i := ShardOf(item.key);
      ghost var before := Views();
      stored := SetIn(i, item, now, metrics);
      OneSegment(before, Views(), i);
    }

    method SetIn(i: nat, item: Item, now: int, metrics: A.Metrics) returns (stored: bool)
      requires Valid() && i == ShardOf(item.key) && Ready(admission)
      modifies shards[i]
      ensures Valid() && Ready(admission) && RequestsOf(admission) == old(RequestsOf(admission))
      ensures stored == Accepts(old(shards[i].Contents()), shards[i].limits, item, metrics, old(PolicyOf(admission)))
      ensures shards[i].Contents() == if stored
                                      then Put(old(shards[i].Contents()), NewEntry(item, now), shards[i].limits)
                                      else old(shards[i].Contents())
    {
      stored := shards[i].Set(item, now, metrics, admission);
    }

    method Lookup(key: string, now: int) returns (item: A.Option<Item>, isFresh: bool)
      requires Valid()
      modifies shards[ShardOf(key)]
      ensures Valid()
      ensures Views() == old(Views())[ShardOf(key) := Looked(old(Views())[ShardOf(key)], key, now)]
      ensures item.Some? <==>
                Has(old(Views())[ShardOf(key)], key) && !Find(old(Views())[ShardOf(key)], key).item.Expired(now)
      ensures item.Some? ==>
                item.value == Find(old(Views())[ShardOf(key)], key).item && isFresh == item.value.Fresh(now)
    {
      var i := ShardOf(key);
      ghost var before := Views();
      item, isFresh := shards[i].Lookup(key, now);
      assert Views() == before[i := shards[i].Contents()];
    }

    method Delete(key: string)
      requires Valid()
      modifies shards[ShardOf(key)]
      ensures Valid()
      ensures Views() == old(Views())[ShardOf(key) := Without(old(Views())[ShardOf(key)], key)]
    {
      var i := ShardOf(key);
      ghost var before := Views();
      shards[i].Delete(key);
      assert Views() == before[i := shards[i].Contents()];
    }

    /** The key that would go first from the key's segment. */
    method VictimFor(key: string) returns (victim: A.Option<string>)
      requires Valid()
      ensures victim == Back(Views()[ShardOf(key)])
    {
      var s := shards[ShardOf(key)];
      ghost var v := Views()[ShardOf(key)];
      if s.lru == [] {
        return A.None;
      }
      assert v[|v| - 1] == s.items[s.lru[|s.lru| - 1]] && s.lru[|s.lru| - 1] in s.items;
      return A.Some(s.lru[|s.lru| - 1]);
    }

    /** The largest item a segment takes; 0 means no limit. */
    method MaxItemBytes() returns (n: nat)
      requires Valid()
      ensures n == PerShard(capacity, maxBytes, |shards|).maxBytes
      ensures n == 0 || |shards| * n <= maxBytes
    {
      n := shards[0].limits.maxBytes;
      MulDiv(maxBytes, |shards|);
    }

    /** On a cache nobody changes meanwhile: exactly the keys stored with the tag, in any segment. */
    method KeysForTag(tag: string) returns (keys: set<string>)
      requires Valid()
      ensures keys == KeysTagged(Views(), tag)
    {
      keys := {};
      ghost var views := Views();
      for i := 0 to |shards|
        invariant keys == KeysTagged(views[..i], tag)
      {
        var found := shards[i].KeysForTag(tag);
        keys := keys + found;
        KeysTaggedNext(views, i, tag);
      }
      assert views[..|shards|] == views;
    }

    method Size() returns (n: nat)
      requires Valid()
      ensures n == Entries(Views())
      ensures n <= capacity + |shards| - 1
    {
      n := 0;
      ghost var views := Views();
      for i := 0 to |shards|
        invariant n == Entries(views[..i])
      {
        ViewCount(shards[i].items, shards[i].lru);
        n := n + |shards[i].items|;
        assert views[..i + 1][..i] == views[..i];
      }
      assert views[..|shards|] == views;
      SizeWithinRounding(views, capacity, maxBytes, |shards|);
    }

    method Bytes() returns (n: int)
      requires Valid()
      ensures n == AllBytes(Views())
      ensures maxBytes >= |shards| ==> n <= maxBytes
    {
      n := 0;
      ghost var views := Views();
      for i := 0 to |shards|
        invariant n == AllBytes(views[..i])
      {
        n := n + shards[i].bytes;
        assert views[..i + 1][..i] == views[..i];
      }
      assert views[..|shards|] == views;
      if maxBytes >= |shards| {
        PerShardHasRoom(capacity, maxBytes, |shards|);
        MulDiv(maxBytes, |shards|);
        assert AllWithin(views, PerShard(capacity, maxBytes, |shards|));
        EntriesBound(views, PerShard(capacity, maxBytes, |shards|));
      }
    }
  }
}
