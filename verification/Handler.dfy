/** The handler: what one replica does with a response, a request and an invalidation event. */
module Handler {
  import opened Lru
  import opened Events
  import opened Tracker
  import opened Cache
  import opened Policy
  import opened TinyLfu
  import R = Race
  import S = Shards
  import A = Admission

  /** A purge at this version does not spare the item. */
  predicate MustGo(item: Item, version: nat, now: int) {
    item.Expired(now) || version == 0 || item.version == 0 || item.version <= version
  }

  predicate PurgedByTag(item: Item, tag: string, version: nat, now: int) {
    tag != "" && tag in item.tags && MustGo(item, version, now)
  }

  predicate PurgedByTags(item: Item, tags: seq<string>, version: nat, now: int) {
    exists i :: 0 <= i < |tags| && PurgedByTag(item, tags[i], version, now)
  }

  /** The event takes the item out of the cache. */
  predicate PurgedBy(item: Item, e: Event, now: int) {
    PurgedByTags(item, e.tags, e.version, now) || item.key in e.keys
  }

  /** No key of the event names the item, and either no tag of it does or the item is unexpired and newer
      than the event. */
  predicate Spared(item: Item, e: Event, now: int) {
    && item.key !in e.keys
    && ((forall t :: t in e.tags ==> t !in item.tags) || (!item.Expired(now) && 0 < e.version < item.version))
  }

  lemma SparedIsKept(e: Event, now: int)
    ensures forall item: Item :: Spared(item, e, now) ==> !PurgedBy(item, e, now)
    ensures forall item: Item, t :: t in e.tags && t in item.tags && t != "" && !PurgedBy(item, e, now) ==>
              !item.Expired(now) && 0 < e.version < item.version
  {
    forall item: Item, t | t in e.tags && t in item.tags && t != "" && !PurgedBy(item, e, now)
      ensures !item.Expired(now) && 0 < e.version < item.version
    {
      var i :| 0 <= i < |e.tags| && e.tags[i] == t;
      assert !PurgedByTag(item, e.tags[i], e.version, now);
    }
  }

  /** What the event adds to the history: its tags in order, then its keys. */
  function TagRecords(tags: seq<string>, version: nat, now: int): History {
    if tags == [] then []
    else TagRecords(tags[..|tags| - 1], version, now) + [Invalidation(tags[|tags| - 1], version, now)]
  }

  function KeyRecords(keys: seq<string>, now: int): History {
    if keys == [] then [] else KeyRecords(keys[..|keys| - 1], now) + [Invalidation(R.KeyTag(keys[|keys| - 1]), 0, now)]
  }

  // ---- One key of a purge -----------------------------------------------------------

  /** Looking a key up and deleting it unless it is newer takes exactly the doomed entry. */
  lemma OneKeyPurged(views: seq<View>, hash: string -> nat, key: string, version: nat, now: int)
    requires Placed(views, hash)
    ensures var i := Placement(hash, |views|, key);
            var looked := views[i := Looked(views[i], key, now)];
            var after :=
              if R.MustDelete(views[i], key, version, now) then looked[i := Without(looked[i], key)] else looked;
            forall e :: Cached(after, e) <==> Cached(views, e) && !(e.item.key == key && MustGo(e.item, version, now))
  {
    var i := Placement(hash, |views|, key);
    var looked := views[i := Looked(views[i], key, now)];
    var after := if R.MustDelete(views[i], key, version, now) then looked[i := Without(looked[i], key)] else looked;
    LookedElements(views[i], key, now);
    WithoutElements(looked[i], key);
    forall e | e in views[i] && e.item.key == key
      ensures Has(views[i], key) && Find(views[i], key) == e
    {
      FindIs(views[i], e);
    }
    forall e
      ensures Cached(after, e) <==> Cached(views, e) && !(e.item.key == key && MustGo(e.item, version, now))
    {
      OneKeySame(views, hash, after, i, key, e);
    }
  }

  /** Only segment `i` changed, and there only the key's entry can have gone. */
  lemma OneKeySame(views: seq<View>, hash: string -> nat, after: seq<View>, i: nat, key: string, e: Entry)
    requires Placed(views, hash) && i == Placement(hash, |views|, key) && |after| == |views|
    requires forall j :: 0 <= j < |views| && j != i ==> after[j] == views[j]
    requires forall x :: x in after[i] ==> x in views[i]
    requires forall x :: x in views[i] && x.item.key != key ==> x in after[i]
    ensures Cached(after, e) ==> Cached(views, e)
    ensures e.item.key != key && Cached(views, e) ==> Cached(after, e)
    ensures e.item.key == key ==> (Cached(views, e) <==> e in views[i]) && (Cached(after, e) <==> e in after[i])
  {
  }

  lemma OneMoreTag(tags: seq<string>, n: nat, version: nat, now: int)
    requires n < |tags|
    ensures forall item :: PurgedByTags(item, tags[..n + 1], version, now) <==>
              PurgedByTags(item, tags[..n], version, now) || PurgedByTag(item, tags[n], version, now)
  {
  }

  lemma OneKeyDeleted(views: seq<View>, hash: string -> nat, key: string)
    requires Placed(views, hash)
    ensures var i := Placement(hash, |views|, key);
            forall e :: Cached(views[i := Without(views[i], key)], e) <==> Cached(views, e) && e.item.key != key
  {
    var i := Placement(hash, |views|, key);
    WithoutElements(views[i], key);
    forall e
      ensures Cached(views[i := Without(views[i], key)], e) <==> Cached(views, e) && e.item.key != key
    {
      OneKeySame(views, hash, views[i := Without(views[i], key)], i, key, e);
    }
  }

  /** The listed keys are the keys of the tagged entries. */
  lemma TaggedEntries(views: seq<View>, hash: string -> nat, tag: string)
    requires Placed(views, hash)
    ensures forall e :: Cached(views, e) ==> (e.item.key in KeysTagged(views, tag) <==> tag != "" && tag in e.item.tags)
  {
    forall e | Cached(views, e)
      ensures e.item.key in KeysTagged(views, tag) <==> tag != "" && tag in e.item.tags
    {
      TaggedEntry(views, hash, tag, e);
    }
  }

  lemma TaggedEntry(views: seq<View>, hash: string -> nat, tag: string, e: Entry)
    requires Placed(views, hash) && Cached(views, e)
    ensures e.item.key in KeysTagged(views, tag) <==> tag != "" && tag in e.item.tags
  {
    var i :| 0 <= i < |views| && e in views[i];
    FindIs(views[i], e);
    if e.item.key in KeysTagged(views, tag) {
      var j :| 0 <= j < |views| && e.item.key in TaggedKeys(views[j], tag);
      var n :| 0 <= n < |views[j]| && tag != "" && tag in views[j][n].item.tags && views[j][n].item.key == e.item.key;
      assert views[j][n] in views[j];
      FindIs(views[j], views[j][n]);
    }
    if tag != "" && tag in e.item.tags {
      var n :| 0 <= n < |views[i]| && views[i][n] == e;
      assert e.item.key in TaggedKeys(views[i], tag);
    }
  }

  /** The cached entry of a key, if any, is the one its segment finds. */
  lemma OnlyEntryOfKey(views: seq<View>, hash: string -> nat, key: string)
    requires Placed(views, hash)
    ensures var v := views[Placement(hash, |views|, key)];
            && (Has(v, key) ==> Cached(views, Find(v, key)))
            && forall e :: Cached(views, e) && e.item.key == key ==> Has(v, key) && Find(v, key) == e
  {
    var v := views[Placement(hash, |views|, key)];
    forall e | Cached(views, e) && e.item.key == key
      ensures Has(v, key) && Find(v, key) == e
    {
      FindIs(v, e);
    }
  }

  /** The times of every cached item follow the policy. */
  ghost predicate AllBuilt(policy: CachePolicy, parse: seq<Header> -> seq<Directive>, views: seq<View>) {
    forall e :: Cached(views, e) ==> Built(policy, parse, e.item)
  }

  /** The item is the response: its body, headers, status, version and tags, stored now, fresh for `ttl`
      and of use for the longer of the two windows after that. */
  ghost predicate CarriesResponse(item: Item, up: Upstream, ttl: int, windows: Windows, now: int) {
    && item.value == up.body && item.headers == up.headers && item.statusCode == up.status
    && item.version == up.version && item.tags == up.tags
    && item.storedAt == now && item.expiresAt == now + ttl
    && (forall t :: item.Fresh(t) <==> t < now + ttl)
    && (forall t :: item.Expired(t) <==>
                    && t >= now + ttl
                    && t >= now + ttl + windows.whileRevalidate && t >= now + ttl + windows.ifError)
  }

  lemma BuiltCarriesResponse(key: string, up: Upstream, ttl: int, windows: Windows, now: int)
    requires 0 < now && 0 < ttl
    ensures var item := S.NewEntry(BuildItem(key, up, ttl, windows, now), now).item;
            item.key == key && CarriesResponse(item, up, ttl, windows, now)
  {
  }

  datatype Reason = Stored | Rejected | NotAllowed | TooLarge | Invalidated

  method MeasureAgainst(key: string, admission: TinyLfuAdmission?, victim: A.Option<string>) returns (m: A.Metrics)
    requires Ready(admission)
    ensures m == A.Against(PolicyOf(admission), key, victim)
  {
    m := A.Plain;
    if admission != null {
      if admission.filter != null {
        var freq := admission.filter.Estimate(key);
        m := m.(candidateFrequency := if freq == 0 then 1 else freq);
      }
      if victim.Some? {
        var frequency := admission.Frequency(victim.value);
        var score := admission.PollutantScore(key, victim.value);
        m := m.(victimKey := victim.value, victimFrequency := frequency, pollution := score);
      }
    }
  }

  class Handler {
    const invalidations: InvalidationTracker
    const cache: InMemoryCache
    const policy: CachePolicy
    const parse: seq<Header> -> seq<Directive>

    ghost predicate Valid()
      reads invalidations, cache.shards
    {
      invalidations.Valid() && cache.Valid() && AllBuilt(policy, parse, cache.Views())
    }

    ghost function Record(): Requests
      reads Footprint(cache.admission)
    {
      RequestsOf(cache.admission)
    }

    constructor (policy: CachePolicy, parse: seq<Header> -> seq<Directive>, cache: InMemoryCache, ghost now: int)
      requires cache.Valid() && AllBuilt(policy.Normalized(), parse, cache.Views())
      ensures Valid() && this.cache == cache && this.policy == policy.Normalized() && this.parse == parse
      ensures fresh(invalidations) && invalidations.history == [] && invalidations.clock == now
    {
      this.cache, this.policy, this.parse := cache, policy.Normalized(), parse;
      invalidations := new InvalidationTracker(now);
    }

    method RecordPurge(tag: string, version: nat, now: int)
      requires Valid() && invalidations.clock <= now
      modifies invalidations
      ensures Valid() && invalidations.clock == now && cache.Views() == old(cache.Views())
      ensures invalidations.history == old(invalidations.history) + [Invalidation(tag, version, now)]
    {
      invalidations.Invalidate(tag, version, now);
    }

    method PurgeKey(key: string, version: nat, now: int)
      requires Valid()
      modifies cache.shards
      ensures Valid()
      ensures forall e :: Cached(cache.Views(), e) <==>
                old(Cached(cache.Views(), e)) && !(e.item.key == key && MustGo(e.item, version, now))
    {
      cache.ViewsArePlaced();
      OneKeyPurged(cache.Views(), cache.hash, key, version, now);
      var item, isFresh := cache.Lookup(key, now);
      if item.None? || version == 0 || item.value.version == 0 || item.value.version <= version {
        cache.Delete(key);
      }
    }

    /** One purged tag: recorded first; then every entry with the tag goes unless it is newer,
        and no other entry does. */
    method InvalidateResource(tag: string, version: nat, now: int)
      requires Valid() && invalidations.clock <= now
      modifies invalidations, cache.shards
      ensures Valid() && invalidations.clock == now
      ensures invalidations.history == old(invalidations.history) + [Invalidation(tag, version, now)]
      ensures forall e :: Cached(cache.Views(), e) <==>
                old(Cached(cache.Views(), e)) && !PurgedByTag(e.item, tag, version, now)
      ensures forall e :: old(Cached(cache.Views(), e)) && !e.item.Expired(now) && 0 < version < e.item.version ==>
                Cached(cache.Views(), e)
      ensures forall e :: old(Cached(cache.Views(), e)) && tag !in e.item.tags ==> Cached(cache.Views(), e)
      ensures forall e :: Cached(cache.Views(), e) && tag != "" && tag in e.item.tags ==>
                !e.item.Expired(now) && 0 < version < e.item.version
    {
      cache.ViewsArePlaced();
      TaggedEntries(cache.Views(), cache.hash, tag);
      RecordPurge(tag, version, now);
      var keys := cache.KeysForTag(tag);
      PurgeKeys(keys, version, now);
    }

    method PurgeKeys(keys: set<string>, version: nat, now: int)
      requires Valid()
      modifies cache.shards
      ensures Valid()
      ensures forall e :: Cached(cache.Views(), e) <==>
                old(Cached(cache.Views(), e)) && !(e.item.key in keys && MustGo(e.item, version, now))
    {
      var rest := keys;
      while rest != {}
        invariant Valid() && rest <= keys
        invariant forall e :: Cached(cache.Views(), e) <==>
          old(Cached(cache.Views(), e)) && !(e.item.key in keys - rest && MustGo(e.item, version, now))
        decreases rest
      {
        var key :| key in rest;
        PurgeKey(key, version, now);
        rest := rest - {key};
      }
    }

    method InvalidateKey(key: string, now: int)
      requires Valid() && invalidations.clock <= now
      modifies invalidations, cache.shards
      ensures Valid() && invalidations.clock == now
      ensures invalidations.history == old(invalidations.history) + [Invalidation(R.KeyTag(key), 0, now)]
      ensures forall e :: Cached(cache.Views(), e) <==> old(Cached(cache.Views(), e)) && e.item.key != key
    {
      cache.ViewsArePlaced();
      OneKeyDeleted(cache.Views(), cache.hash, key);
      RecordPurge(R.KeyTag(key), 0, now);
      cache.Delete(key);
    }

    method InvalidateTags(tags: seq<string>, version: nat, now: int)
      requires Valid() && invalidations.clock <= now
      modifies invalidations, cache.shards
      ensures Valid() && invalidations.clock <= now
      ensures invalidations.history == old(invalidations.history) + TagRecords(tags, version, now)
      ensures forall e :: Cached(cache.Views(), e) <==>
                old(Cached(cache.Views(), e)) && !PurgedByTags(e.item, tags, version, now)
    {
      for n := 0 to |tags|
        invariant Valid() && invalidations.clock <= now
        invariant invalidations.history == old(invalidations.history) + TagRecords(tags[..n], version, now)
        invariant forall e :: Cached(cache.Views(), e) <==>
          old(Cached(cache.Views(), e)) && !PurgedByTags(e.item, tags[..n], version, now)
      {
        assert tags[..n + 1][..n] == tags[..n];
        InvalidateResource(tags[n], version, now);
        OneMoreTag(tags, n, version, now);
      }
      assert tags[..|tags|] == tags;
    }

    method InvalidateKeys(keys: seq<string>, now: int)
      requires Valid() && invalidations.clock <= now
      modifies invalidations, cache.shards
      ensures Valid()
      ensures invalidations.history == old(invalidations.history) + KeyRecords(keys, now)
      ensures forall e :: Cached(cache.Views(), e) <==> old(Cached(cache.Views(), e)) && e.item.key !in keys
    {
      for n := 0 to |keys|
        invariant Valid() && invalidations.clock <= now
        invariant invalidations.history == old(invalidations.history) + KeyRecords(keys[..n], now)
        invariant forall e :: Cached(cache.Views(), e) <==> old(Cached(cache.Views(), e)) && e.item.key !in keys[..n]
      {
        assert keys[..n + 1] == keys[..n] + [keys[n]] && keys[..n + 1][..n] == keys[..n];
        InvalidateKey(keys[n], now);
      }
      assert keys[..|keys|] == keys;
    }

    /** An event is refused as a whole, or everything it names is recorded and exactly the entries
        it names, unless newer, are gone. */
    method HandleEvent(evt: Raw, letterOrDigit: char -> bool, now: int) returns (ok: bool)
      requires Valid() && invalidations.clock <= now
      modifies invalidations, cache.shards
      ensures Valid() && ok == Normalize(evt, letterOrDigit).Ok?
      ensures !ok ==> cache.Views() == old(cache.Views()) && invalidations.history == old(invalidations.history)
      ensures ok ==> invalidations.history == old(invalidations.history) +
                     TagRecords(Normalize(evt, letterOrDigit).value.tags,
                                Normalize(evt, letterOrDigit).value.version, now) +
                     KeyRecords(Normalize(evt, letterOrDigit).value.keys, now)
      ensures ok ==> forall e :: Cached(cache.Views(), e) <==>
                       old(Cached(cache.Views(), e)) && !PurgedBy(e.item, Normalize(evt, letterOrDigit).value, now)
      ensures ok ==> forall e ::
                       old(Cached(cache.Views(), e)) && Spared(e.item, Normalize(evt, letterOrDigit).value, now) ==>
                         Cached(cache.Views(), e)
      ensures ok ==> forall e :: Cached(cache.Views(), e) ==>
                       var event := Normalize(evt, letterOrDigit).value;
                       && e.item.key !in event.keys
                       && (forall t :: t in event.tags && t in e.item.tags && t != "" ==>
                             !e.item.Expired(now) && 0 < event.version < e.item.version)
    {
      var normalized := Normalize(evt, letterOrDigit);
      if normalized.Err? {
        return false;
      }
      var e := normalized.value;
      SparedIsKept(e, now);
      InvalidateTags(e.tags, e.version, now);
      InvalidateKeys(e.keys, now);
      return true;
    }

    ghost function SegmentLimits(): Limits
      requires 1 <= |cache.shards| <= cache.capacity
    {
      PerShard(cache.capacity, cache.maxBytes, |cache.shards|)
    }

    /** The end of a fetch: without a lifetime nothing is stored, otherwise the item built from the
        response, with times that follow the policy, goes through `StoreBuilt`. */
    method StoreResponse(token: FetchToken, key: string, up: Upstream, cacheable: bool, ttl: A.Option<int>, now: int)
      returns (reason: Reason)
      requires Valid() && Issued(token, invalidations.history, invalidations.clock) && invalidations.clock <= now
      requires Ready(cache.admission) && 0 < now && (ttl.Some? ==> 0 < ttl.value)
      modifies cache.shards, Footprint(cache.admission)
      ensures Valid() && Ready(cache.admission)
      ensures reason == NotAllowed <==> !cacheable || ttl.None?
      ensures reason == NotAllowed ==>
                cache.Views() == old(cache.Views())
      ensures Record() == if reason == NotAllowed || reason == TooLarge then old(Record())
                          else Recorded(old(Record()), key)
      ensures reason != NotAllowed ==>
                var item := BuildItem(key, up, ttl.value, StaleWindows(policy, parse(up.headers)), now);
                Built(policy, parse, item) && Concluded(reason, old(cache.Views()), cache.Views(), token, item, now)
      ensures now - token.started <= 60_000_000_000 && invalidations.seqNo == token.seqNo ==> reason != Invalidated
      ensures reason == Stored ==>
                && (exists e :: Cached(cache.Views(), e) && e.item.key == key)
                && forall e :: Cached(cache.Views(), e) && e.item.key == key ==>
                     CarriesResponse(e.item, up, ttl.value, StaleWindows(policy, parse(up.headers)), now)
    {
      if !cacheable || ttl.None? {
        return NotAllowed;
      }
      var swr, sie := ParseStaleWindows(policy, parse(up.headers));
      var item := BuildItem(key, up, ttl.value, Windows(swr, sie), now);
      BuildItemIsBuilt(policy, parse, key, up, ttl.value, now);
      BuiltCarriesResponse(key, up, ttl.value, Windows(swr, sie), now);
      RefusedIffPurgedSince(invalidations.View(), invalidations.history, invalidations.clock, now, token,
                            R.Carried(item), item.version);
      reason := StoreBuilt(token, item, now);
    }

    /** A response that was stored with a tag is gone after a purge of the tag that is not older. */
    method StoreThenPurge(token: FetchToken, key: string, up: Upstream, ttl: int, now: int, tag: string, version: nat,
                          later: int)
      returns (reason: Reason)
      requires Valid() && Issued(token, invalidations.history, invalidations.clock) && invalidations.clock <= now
      requires Ready(cache.admission) && 0 < now <= later && 0 < ttl
      modifies invalidations, cache.shards, Footprint(cache.admission)
      ensures Valid()
      ensures reason == Stored && tag != "" && tag in up.tags && (version == 0 || up.version <= version) ==>
                forall e :: Cached(cache.Views(), e) ==> e.item.key != key
    {
      AdmissionApart();
      reason := StoreResponse(token, key, up, true, A.Some(ttl), now);
      InvalidateResource(tag, version, later);
    }

    /** The response is cached exactly when it fits a segment, no purge since the token outdates it
        and the segment admits it; otherwise nothing changes. */
    ghost predicate Concluded(reason: Reason, before: seq<View>, after: seq<View>, token: FetchToken, item: Item,
                              now: int)
      requires 1 <= |cache.shards| <= cache.capacity
      reads invalidations
    {
      var fits := SegmentLimits().maxBytes > 0 ==> ItemSize(item) <= SegmentLimits().maxBytes;
      var refused := Refuses(invalidations.View(), token, R.Carried(item), item.version, now);
      && (reason == TooLarge <==> !fits)
      && (reason == Invalidated <==> fits && refused)
      && (reason == Stored || reason == Rejected <==> fits && !refused)
      && (if reason == Stored then Now(before, after, S.NewEntry(item, now)) else after == before)
    }

    /** The frequencies the handler looks up before a store, unless less than half of the cache is used. */
    method ComputeMetrics(key: string) returns (m: A.Metrics)
      requires Valid() && Ready(cache.admission)
      ensures m == Measured(cache.Views(), key, PolicyOf(cache.admission))
    {
      var size := cache.Size();
      if size < cache.capacity / 2 {
        return A.Plain;
      }
      ghost var views := cache.Views();
      var victim := cache.VictimFor(key);
      assert A.Against(PolicyOf(cache.admission), key, victim) == Measured(views, key, PolicyOf(cache.admission));
      m := MeasureAgainst(key, cache.admission, victim);
    }

    ghost function Measured(views: seq<View>, key: string, admission: A.Policy): A.Metrics
      requires 1 <= |cache.shards| == |views|
    {
      A.ComputeMetrics(admission, key, Entries(views), cache.capacity, S.Back(views[cache.ShardOf(key)]))
    }

    ghost predicate Accepted(views: seq<View>, item: Item, admission: A.Policy)
      requires 1 <= |cache.shards| == |views| <= cache.capacity
    {
      S.Accepts(views[cache.ShardOf(item.key)], SegmentLimits(), item, Measured(views, item.key, admission), admission)
    }

    lemma AdmissionApart()
      ensures forall s: S.Shard :: s in cache.shards ==> s !in Footprint(cache.admission)
      ensures invalidations !in Footprint(cache.admission)
    {
    }

    method RecordFrequency(key: string)
      requires Valid() && Ready(cache.admission)
      modifies Footprint(cache.admission)
      ensures Valid() && Ready(cache.admission) && cache.Views() == old(cache.Views())
      ensures unchanged(invalidations)
      ensures Record() == CountedWith(cache.admission, old(Record()), key)
    {
      AdmissionApart();
      if cache.admission != null {
        cache.admission.RecordFrequency(key);
      }
    }

    method TouchWindow(key: string)
      requires Valid() && Ready(cache.admission)
      modifies Footprint(cache.admission)
      ensures Valid() && Ready(cache.admission) && cache.Views() == old(cache.Views())
      ensures unchanged(invalidations)
      ensures Record() == TouchedWith(cache.admission, old(Record()), key)
    {
      AdmissionApart();
      if cache.admission != null {
        cache.admission.TouchWindow(key);
      }
    }

    /** The request has been counted and has touched the window. */
    ghost function Recorded(r: Requests, key: string): Requests {
      TouchedWith(cache.admission, CountedWith(cache.admission, r, key), key)
    }

    /** The policy a store meets: its own request is counted already, but the window is touched only
        afterwards. */
    ghost function Contesting(r: Requests, key: string): A.Policy {
      PolicyAt(cache.admission, CountedWith(cache.admission, r, key))
    }

    /** A response that passes the tracker is stored exactly if its segment accepts it with the
        handler's own measurements; one that was requested before, with few other keys since, is. */
    method StoreBuilt(token: FetchToken, item: Item, now: int) returns (reason: Reason)
      requires Valid() && Issued(token, invalidations.history, invalidations.clock) && invalidations.clock <= now
      requires Built(policy, parse, item) && Ready(cache.admission)
      modifies cache.shards, Footprint(cache.admission)
      ensures Valid() && Ready(cache.admission)
      ensures Concluded(reason, old(cache.Views()), cache.Views(), token, item, now)
      ensures Record() == if reason == TooLarge then old(Record()) else Recorded(old(Record()), item.key)
      ensures reason == Stored || reason == Rejected ==>
                (reason == Stored <==> Accepted(old(cache.Views()), item, Contesting(old(Record()), item.key)))
      ensures InTheWindow(cache.admission, old(Record()), item.key) ==> reason != Rejected
    {
      var limit := cache.MaxItemBytes();
      if limit > 0 && ItemSize(item) > limit {
        return TooLarge;
      }
      AdmissionApart();
      RecordFrequency(item.key);
      reason := StoreMeasured(token, item, now);
      TouchWindow(item.key);
    }

    /** The store itself, under the policy as it is. */
    method StoreMeasured(token: FetchToken, item: Item, now: int) returns (reason: Reason)
      requires Valid() && Issued(token, invalidations.history, invalidations.clock) && invalidations.clock <= now
      requires Built(policy, parse, item) && Ready(cache.admission)
      requires SegmentLimits().maxBytes > 0 ==> ItemSize(item) <= SegmentLimits().maxBytes
      modifies cache.shards
      ensures Valid() && Ready(cache.admission) && Record() == old(Record())
      ensures reason != TooLarge && Concluded(reason, old(cache.Views()), cache.Views(), token, item, now)
      ensures reason == Stored || reason == Rejected ==>
                (reason == Stored <==> Accepted(old(cache.Views()), item, old(PolicyOf(cache.admission))))
      ensures InTheWindow(cache.admission, old(Record()), item.key) ==> reason != Rejected
    {
      ghost var view := cache.Views()[cache.ShardOf(item.key)];
      var metrics := ComputeMetrics(item.key);
      if InTheWindow(cache.admission, Record(), item.key) {
        S.RecentIsAccepted(view, SegmentLimits(), item, metrics, cache.admission, Record());
      }
      reason := StoreIfCurrent(token, item, now, metrics);
    }

    method StoreIfCurrent(token: FetchToken, item: Item, now: int, metrics: A.Metrics) returns (reason: Reason)
      requires Valid() && Issued(token, invalidations.history, invalidations.clock) && invalidations.clock <= now
      requires Built(policy, parse, item) && Ready(cache.admission)
      modifies cache.shards
      ensures Valid() && Ready(cache.admission) && Record() == old(Record())
      ensures reason == Invalidated || reason == Stored || reason == Rejected
      ensures reason == Invalidated <==> Refuses(invalidations.View(), token, R.Carried(item), item.version, now)
      ensures if reason == Stored then Now(old(cache.Views()), cache.Views(), S.NewEntry(item, now))
              else cache.Views() == old(cache.Views())
      ensures reason != Invalidated ==>
                (reason == Stored <==>
                 S.Accepts(old(cache.Views())[cache.ShardOf(item.key)], SegmentLimits(), item, metrics,
                           old(PolicyOf(cache.admission))))
    {
      var refused := invalidations.Outdated(token, R.Carried(item), item.version, now);
      if refused {
        return Invalidated;
      }
      var stored := StoreItem(item, now, metrics);
      reason := if stored then Stored else Rejected;
    }

    /** The callback of the store: the admitted item is in the cache, under its key only it. */
    method StoreItem(item: Item, now: int, metrics: A.Metrics) returns (stored: bool)
      requires Valid() && Built(policy, parse, item) && Ready(cache.admission)
      modifies cache.shards
      ensures Valid() && Ready(cache.admission) && Record() == old(Record())
      ensures stored == S.Accepts(old(cache.Views())[cache.ShardOf(item.key)], SegmentLimits(), item, metrics,
                                  old(PolicyOf(cache.admission)))
      ensures !stored ==> cache.Views() == old(cache.Views())
      ensures stored ==> Now(old(cache.Views()), cache.Views(), S.NewEntry(item, now))
    {
      cache.ViewsArePlaced();
      ghost var views := cache.Views();
      stored := cache.Set(item, now, metrics);
      if stored {
        StoredIsCached(views, cache.hash, S.NewEntry(item, now), SegmentLimits());
      }
    }

    /** The look-up of a request: the unexpired cached item of the key, if there is one. */
    method FindCached(key: string, looked: int) returns (found: A.Option<Item>, isFresh: bool)
      requires Valid() && Ready(cache.admission)
      modifies cache.shards
      ensures Valid() && Ready(cache.admission) && Record() == old(Record())
      ensures cache.Views() ==
              old(cache.Views())[cache.ShardOf(key) := Looked(old(cache.Views())[cache.ShardOf(key)], key, looked)]
      ensures found.None? <==> forall e :: old(Cached(cache.Views(), e)) && e.item.key == key ==> e.item.Expired(looked)
      ensures found.Some? ==>
                && (exists e :: old(Cached(cache.Views(), e)) && e.item == found.value)
                && found.value.key == key && isFresh == found.value.Fresh(looked) && Built(policy, parse, found.value)
    {
      ghost var views := cache.Views();
      cache.ViewsArePlaced();
      OnlyEntryOfKey(views, cache.hash, key);
      LookedIsCached(views, cache.hash, key, looked);
      found, isFresh := cache.Lookup(key, looked);
      if found.Some? {
        ghost var e := Find(views[cache.ShardOf(key)], key);
        assert Cached(views, e);
      }
    }

    /** Every hit is counted and touches the window. */
    method RecordAccess(key: string)
      requires Valid() && Ready(cache.admission)
      modifies Footprint(cache.admission)
      ensures Valid() && Ready(cache.admission) && cache.Views() == old(cache.Views())
      ensures Record() == Recorded(old(Record()), key)
    {
      RecordFrequency(key);
      TouchWindow(key);
    }

    /** A request served from the cache gets a body within its lifetime or an allowed stale window,
        and it is served whenever it is fresh or a window allows it. */
    method ServeFromCache(key: string, looked: int, decided: int, failed: bool)
      returns (answer: Answer, ghost item: A.Option<Item>)
      requires Valid() && Ready(cache.admission) && looked <= decided
      modifies cache.shards, Footprint(cache.admission)
      ensures Valid() && Ready(cache.admission)
      ensures item.None? ==> answer == Forwarded
      ensures Record() == if item.Some? then Recorded(old(Record()), key) else old(Record())
      ensures item.None? <==> forall e :: old(Cached(cache.Views(), e)) && e.item.key == key ==> e.item.Expired(looked)
      ensures item.Some? ==>
                var windows := StaleWindows(policy, parse(item.value.headers));
                && item.value.key == key && (exists e :: old(Cached(cache.Views(), e)) && e.item == item.value)
                && WithinBound(item.value, answer, looked, windows, failed)
                && (answer == Forwarded <==>
                    !item.value.Fresh(looked) && !Allowed(item.value, decided, windows, failed))
                && (NeverStale(parse(item.value.headers)) ==> answer == Hit || answer == Forwarded)
    {
      var found, isFresh := FindCached(key, looked);
      item := found;
      if found.None? {
        return Forwarded, item;
      }
      RecordAccess(key);
      DecisionWithinBound(policy, parse, found.value, looked, decided, failed);
      if isFresh {
        return Hit, item;
      }
      var swr, sie := ParseStaleWindows(policy, parse(found.value.headers));
      if decided < found.value.expiresAt + swr {
        return Revalidating, item;
      }
      if decided < found.value.expiresAt + sie && failed {
        return StaleIfError, item;
      }
      return Forwarded, item;
    }
  }

  /** A look-up brings nothing into the cache. */
  lemma LookedIsCached(views: seq<View>, hash: string -> nat, key: string, now: int)
    requires Placed(views, hash)
    ensures var i := Placement(hash, |views|, key);
            forall e :: Cached(views[i := Looked(views[i], key, now)], e) ==> Cached(views, e)
  {
    var i := Placement(hash, |views|, key);
    LookedElements(views[i], key, now);
    forall e | Cached(views[i := Looked(views[i], key, now)], e)
      ensures Cached(views, e)
    {
      var j :| 0 <= j < |views| && e in views[i := Looked(views[i], key, now)][j];
      assert e in views[j];
    }
  }

  /** The entry is cached; whatever else is was cached before, under another key. */
  ghost predicate Now(before: seq<View>, after: seq<View>, e: Entry) {
    && Cached(after, e)
    && forall x :: Cached(after, x) ==> x == e || (Cached(before, x) && x.item.key != e.item.key)
  }

  lemma StoredIsCached(views: seq<View>, hash: string -> nat, e: Entry, lim: Limits)
    requires Placed(views, hash) && Fits(e, lim)
    ensures var i := Placement(hash, |views|, e.item.key); Now(views, views[i := Put(views[i], e, lim)], e)
  {
    var i := Placement(hash, |views|, e.item.key);
    PutIsLru(views[i], e, lim);
    var after := views[i := Put(views[i], e, lim)];
    assert after[i][0] == e;
    forall x | Cached(after, x)
      ensures x == e || (Cached(views, x) && x.item.key != e.item.key)
    {
      var j :| 0 <= j < |after| && x in after[j];
      if j != i {
        assert x in views[j] && Placement(hash, |views|, x.item.key) == j;
      }
    }
  }
}
