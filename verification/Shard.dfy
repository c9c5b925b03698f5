/**
  One cache segment as the code keeps it: a map of entries, a recency list of keys, an inverted
  tag index and a byte counter, all changed in place and all proved to agree with one `View`.
*/
module Shards {
  import opened Lru
  import opened Recency
  import opened TinyLfu
  import A = Admission

  /** The key occurs in the index under the tag. */
  predicate Member(tags: map<string, set<string>>, tag: string, key: string) {
    tag in tags && key in tags[tag]
  }

  ghost predicate NoEmptySets(tags: map<string, set<string>>) {
    "" !in tags && forall t :: t in tags ==> tags[t] != {}
  }

  /** The index is the inverse of the items' non-empty tags. */
  ghost predicate Inverse(tags: map<string, set<string>>, items: map<string, Entry>) {
    && NoEmptySets(tags)
    && (forall t, k {:trigger Member(tags, t, k)} ::
          Member(tags, t, k) <==> t != "" && k in items && t in items[k].item.tags)
  }

  ghost predicate Listed(items: map<string, Entry>, lru: seq<string>) {
    && NoRepeats(lru)
    && (forall k :: k in lru <==> k in items)
    && (forall k :: k in items ==> items[k].item.key == k && items[k].size == ItemSize(items[k].item))
  }

  function ViewOf(items: map<string, Entry>, lru: seq<string>): (v: View)
    requires forall k :: k in lru ==> k in items
    ensures |v| == |lru| && forall i :: 0 <= i < |v| ==> v[i] == items[lru[i]]
  {
    if lru == [] then [] else [items[lru[0]]] + ViewOf(items, lru[1..])
  }

  lemma {:induction false} ViewOfRemoved(items: map<string, Entry>, lru: seq<string>, key: string,
                                         after: map<string, Entry>)
    requires forall k :: k in lru ==> k in items && items[k].item.key == k
    requires forall k :: k in lru && k != key ==> k in after && after[k] == items[k]
    ensures forall k :: k in Removed(lru, key) ==> k in after
    ensures ViewOf(after, Removed(lru, key)) == Without(ViewOf(items, lru), key)
  {
    RemovedElements(lru, key);
    if lru != [] {
      ViewOfRemoved(items, lru[1..], key, after);
      var v := ViewOf(items, lru);
      assert v[1..] == ViewOf(items, lru[1..]);
      if lru[0] != key {
        assert Removed(lru, key)[1..] == Removed(lru[1..], key);
      }
    }
  }

  lemma ViewDistinct(items: map<string, Entry>, lru: seq<string>)
    requires Listed(items, lru)
    ensures Distinct(ViewOf(items, lru))
  {
  }

  lemma ViewHas(items: map<string, Entry>, lru: seq<string>, key: string)
    requires Listed(items, lru)
    ensures key in items <==> Has(ViewOf(items, lru), key)
    ensures key in items ==> Find(ViewOf(items, lru), key) == items[key]
  {
  }

  lemma {:induction false} DistinctCount(s: seq<string>)
    requires NoRepeats(s)
    ensures |set k | k in s| == |s|
  {
    if s != [] {
      DistinctCount(s[1..]);
      assert (set k | k in s) == {s[0]} + set k | k in s[1..];
    }
  }

  lemma ViewCount(items: map<string, Entry>, lru: seq<string>)
    requires Listed(items, lru)
    ensures |items| == |ViewOf(items, lru)|
  {
    DistinctCount(lru);
    assert items.Keys == set k | k in lru;
  }

  lemma ListedRemoved(items: map<string, Entry>, lru: seq<string>, key: string)
    requires Listed(items, lru)
    ensures Listed(items - {key}, Removed(lru, key))
    ensures ViewOf(items - {key}, Removed(lru, key)) == Without(ViewOf(items, lru), key)
  {
    RemovedElements(lru, key);
    RemovedNoRepeats(lru, key);
    ViewOfRemoved(items, lru, key, items - {key});
  }

  lemma ListedPushed(items: map<string, Entry>, lru: seq<string>, e: Entry)
    requires Listed(items, lru) && e.size == ItemSize(e.item)
    ensures Listed(items[e.item.key := e], [e.item.key] + Removed(lru, e.item.key))
  {
    var key := e.item.key;
    var rest := Removed(lru, key);
    RemovedElements(lru, key);
    RemovedNoRepeats(lru, key);
    FrontedNoRepeats(key, rest);
    forall k
      ensures k in [key] + rest <==> k in items[key := e]
    {
      assert k in [key] + rest <==> k == key || k in rest;
    }
  }

  lemma ViewPushed(items: map<string, Entry>, lru: seq<string>, e: Entry)
    requires Listed(items, lru) && Listed(items[e.item.key := e], [e.item.key] + Removed(lru, e.item.key))
    ensures ViewOf(items[e.item.key := e], [e.item.key] + Removed(lru, e.item.key)) == Pushed(ViewOf(items, lru), e)
  {
    var key := e.item.key;
    ViewOfRemoved(items, lru, key, items[key := e]);
    assert ([key] + Removed(lru, key))[1..] == Removed(lru, key);
  }

  /** The index lost the key under every one of the tags. */
  ghost predicate Untagged(before: map<string, set<string>>, after: map<string, set<string>>, key: string,
                           ts: seq<string>) {
    forall t, k {:trigger Member(after, t, k)} {:trigger Member(before, t, k)} ::
      Member(after, t, k) <==> Member(before, t, k) && !(k == key && t in ts)
  }

  /** The index gained the key under every one of the non-empty tags. */
  ghost predicate Tagged(before: map<string, set<string>>, after: map<string, set<string>>, key: string,
                         ts: seq<string>) {
    forall t, k {:trigger Member(after, t, k)} {:trigger Member(before, t, k)} ::
      Member(after, t, k) <==> Member(before, t, k) || (k == key && t != "" && t in ts)
  }

  lemma InverseUntagged(before: map<string, set<string>>, after: map<string, set<string>>,
                        items: map<string, Entry>, key: string)
    requires Inverse(before, items) && key in items
    requires NoEmptySets(after) && Untagged(before, after, key, items[key].item.tags)
    ensures Inverse(after, items - {key})
  {
  }

  lemma InverseTagged(before: map<string, set<string>>, after: map<string, set<string>>,
                      items: map<string, Entry>, e: Entry)
    requires Inverse(before, items - {e.item.key})
    requires NoEmptySets(after) && Tagged(before, after, e.item.key, e.item.tags)
    ensures Inverse(after, items[e.item.key := e])
  {
  }

  lemma TaggedInView(tags: map<string, set<string>>, items: map<string, Entry>, lru: seq<string>, tag: string)
    requires Listed(items, lru) && Inverse(tags, items)
    ensures (if tag in tags then tags[tag] else {}) == TaggedKeys(ViewOf(items, lru), tag)
  {
    var v := ViewOf(items, lru);
    var keys := if tag in tags then tags[tag] else {};
    forall k
      ensures k in keys <==> k in TaggedKeys(v, tag)
    {
      assert k in keys <==> Member(tags, tag, k);
      if k in items && tag != "" && tag in items[k].item.tags {
        var i :| 0 <= i < |lru| && lru[i] == k;
        assert v[i].item.key == k && tag in v[i].item.tags;
      }
      if k in TaggedKeys(v, tag) {
        var i :| 0 <= i < |v| && tag != "" && tag in v[i].item.tags && v[i].item.key == k;
        assert v[i] == items[lru[i]] && lru[i] in items;
      }
    }
  }

  lemma TotalPushed(v: View, e: Entry)
    requires Distinct(v) && e in v
    ensures Total(Pushed(v, e)) == Total(v) && |Pushed(v, e)| == |v|
  {
    FindIs(v, e);
    WithoutTotals(v, e.item.key);
    assert Pushed(v, e)[1..] == Without(v, e.item.key);
  }

  lemma LookedWithin(v: View, key: string, now: int, lim: Limits)
    requires Distinct(v) && Within(v, lim)
    ensures Within(Looked(v, key, now), lim) && Within(Without(v, key), lim)
  {
    if Has(v, key) {
      WithoutTotals(v, key);
      TotalPushed(v, Find(v, key));
    } else {
      WithoutAbsent(v, key);
    }
  }

  lemma {:induction false} DropLast(v: View)
    requires Distinct(v) && v != []
    ensures Without(v, v[|v| - 1].item.key) == v[..|v| - 1]
  {
    var key := v[|v| - 1].item.key;
    if |v| > 1 {
      assert v[1..][|v| - 2] == v[|v| - 1];
      DropLast(v[1..]);
      assert v[..|v| - 1] == [v[0]] + v[1..][..|v| - 2];
    } else {
      assert Without(v, key) == Without(v[1..], key);
    }
  }

  /** The key at the back of the segment. */
  function Back(v: View): A.Option<string> {
    if v == [] then A.None else A.Some(v[|v| - 1].item.key)
  }

  function Victim(v: View, key: string): A.Option<string> {
    if Back(v) == A.Some(key) then A.None else Back(v)
  }

  /** What the admission policy is shown: the overflow flag and, for a frequency-aware policy,
      the entry that would go first. */
  function Shown(v: View, lim: Limits, key: string, size: nat, m: A.Metrics, p: A.Policy): A.Metrics {
    A.AtSet(p, m, WouldOverflow(v, key, size, lim), Victim(v, key))
  }

  predicate Accepts(v: View, lim: Limits, item: Item, m: A.Metrics, p: A.Policy) {
    && item.key != ""
    && !(lim.maxBytes > 0 && ItemSize(item) > lim.maxBytes)
    && A.ShouldStore(p, item.key, Shown(v, lim, item.key, ItemSize(item), m, p))
  }

  /** An item that needs room is accepted exactly if it wins the contest with the segment's victim,
      with the metrics the handler took when the segment's back was `seen`. */
  lemma AcceptedIffAdmitted(v: View, lim: Limits, item: Item, p: A.Policy, size: nat, capacity: nat,
                            seen: A.Option<string>)
    requires item.key != "" && !(lim.maxBytes > 0 && ItemSize(item) > lim.maxBytes)
    requires WouldOverflow(v, item.key, ItemSize(item), lim)
    ensures Accepts(v, lim, item, A.ComputeMetrics(p, item.key, size, capacity, seen), p) <==>
              A.Contest(item.key, size, capacity, seen, Victim(v, item.key)).Admitted(p)
    ensures A.Contest(item.key, size, capacity, seen, Victim(v, item.key)).Proper()
  {
  }

  /** An item within a segment's budget whose key the window knows is accepted, whatever it pushes out. */
  lemma RecentIsAccepted(v: View, lim: Limits, item: Item, m: A.Metrics, a: TinyLfuAdmission?, r: Requests)
    requires !(lim.maxBytes > 0 && ItemSize(item) > lim.maxBytes) && InTheWindow(a, r, item.key)
    ensures Accepts(v, lim, item, m, PolicyAt(a, r))
  {
  }

  function Stamped(item: Item, now: int): Item {
    if item.storedAt == 0 then item.(storedAt := now) else item
  }

  function NewEntry(item: Item, now: int): Entry {
    Entry(Stamped(item, now), ItemSize(item))
  }

  /** An item that fits without evicting anything is stored whatever the policy's numbers say,
      and storing it evicts nothing. */
  lemma FittingItemIsStored(v: View, lim: Limits, item: Item, now: int, m: A.Metrics, p: A.Policy)
    requires Distinct(v) && lim.capacity >= 1
    requires item.key != "" && !(lim.maxBytes > 0 && ItemSize(item) > lim.maxBytes)
    requires !WouldOverflow(v, item.key, ItemSize(item), lim)
    ensures Accepts(v, lim, item, m, p)
    ensures forall x :: x in v && x.item.key != item.key ==> x in Put(v, NewEntry(item, now), lim)
  {
    var e := NewEntry(item, now);
    OverflowIffEviction(v, e, lim);
    PutIsLru(v, e, lim);
    assert Put(v, e, lim) == Pushed(v, e);
    WithoutElements(v, item.key);
  }

  class Shard {
    var items: map<string, Entry>
    var lru: seq<string>
    var tags: map<string, set<string>>
    var bytes: int
    const limits: Limits

    /** All four structures describe the same entries. */
    ghost predicate Consistent()
      reads this
    {
      && limits.capacity >= 1
      && Listed(items, lru)
      && bytes == Total(ViewOf(items, lru))
      && Inverse(tags, items)
    }

    ghost predicate Valid()
      reads this
    {
      Consistent() && Within(ViewOf(items, lru), limits)
    }

    ghost function Contents(): View
      requires Listed(items, lru)
      reads this
    {
      ViewOf(items, lru)
    }

    constructor (capacity: nat, maxBytes: nat)
      requires capacity >= 1
      ensures Valid() && items == map[] && Contents() == [] && limits == Limits(capacity, maxBytes)
    {
      items, lru, tags, bytes := map[], [], map[], 0;
      limits := Limits(capacity, maxBytes);
    }

    method TagLocked(key: string, ts: seq<string>)
      requires NoEmptySets(tags)
      modifies this`tags
      ensures NoEmptySets(tags) && Tagged(old(tags), tags, key, ts)
    {
      for i := 0 to |ts|
        invariant NoEmptySets(tags) && Tagged(old(tags), tags, key, ts[..i])
      {
        assert ts[..i + 1] == ts[..i] + [ts[i]];
        if ts[i] == "" {
          continue;
        }
        var keys := if ts[i] in tags then tags[ts[i]] else {};
        ghost var before := tags;
        tags := tags[ts[i] := keys + {key}];
        assert Tagged(before, tags, key, [ts[i]]);
      }
      assert ts[..|ts|] == ts;
    }

    method UntagLocked(key: string, ts: seq<string>)
      requires NoEmptySets(tags)
      modifies this`tags
      ensures NoEmptySets(tags) && Untagged(old(tags), tags, key, ts)
    {
      for i := 0 to |ts|
        invariant NoEmptySets(tags) && Untagged(old(tags), tags, key, ts[..i])
      {
        assert ts[..i + 1] == ts[..i] + [ts[i]];
        ghost var before := tags;
        var keys := (if ts[i] in tags then tags[ts[i]] else {}) - {key};
        if keys == {} {
          tags := tags - {ts[i]};
        } else {
          tags := tags[ts[i] := keys];
        }
        forall t, k
          ensures Member(tags, t, k) <==> Member(before, t, k) && !(k == key && t == ts[i])
        {
          if t == ts[i] {
            assert Member(before, t, k) && k != key ==> k in keys;
          } else {
            assert t in tags <==> t in before;
          }
        }
        assert Untagged(before, tags, key, [ts[i]]);
      }
      assert ts[..|ts|] == ts;
    }

    method RemoveLocked(key: string)
      requires Consistent()
      modifies this
      ensures Consistent()
      ensures Contents() == Without(old(Contents()), key)
      ensures items.Keys <= old(items.Keys)
    {
      ViewHas(items, lru, key);
      ViewDistinct(items, lru);
      if key !in items {
        WithoutAbsent(Contents(), key);
        return;
      }
      var e := items[key];
      ListedRemoved(items, lru, key);
      WithoutTotals(Contents(), key);
      UntagLocked(key, e.item.tags);
      InverseUntagged(old(tags), tags, items, key);
      items := items - {key};
      lru := Removed(lru, key);
      bytes := bytes - e.size;
    }

    method Lookup(key: string, now: int) returns (item: A.Option<Item>, isFresh: bool)
      requires Valid()
      modifies this
      ensures Valid() && Contents() == Looked(old(Contents()), key, now)
      ensures item.Some? <==> Has(old(Contents()), key) && !Find(old(Contents()), key).item.Expired(now)
      ensures item.Some? ==> item.value == Find(old(Contents()), key).item && isFresh == item.value.Fresh(now)
      ensures item.None? ==> !isFresh
      ensures items.Keys <= old(items.Keys)
    {
      ViewHas(items, lru, key);
      ViewDistinct(items, lru);
      LookedWithin(Contents(), key, now, limits);
      if key !in items {
        return A.None, false;
      }
      var e := items[key];
      var at := e.item.RemoveAt();
      if at != 0 && now >= at {
        RemoveLocked(key);
        return A.None, false;
      }
      MoveToFront(key);
      item, isFresh := A.Some(e.item), e.item.Fresh(now);
    }

    method MoveToFront(key: string)
      requires Consistent() && key in items
      modifies this`lru
      ensures Consistent() && Contents() == Pushed(old(Contents()), items[key])
    {
      ViewHas(items, lru, key);
      ViewDistinct(items, lru);
      ListedPushed(items, lru, items[key]);
      assert items[key := items[key]] == items;
      ViewPushed(items, lru, items[key]);
      TotalPushed(Contents(), items[key]);
      lru := [key] + Removed(lru, key);
    }

    method Delete(key: string)
      requires Valid()
      modifies this
      ensures Valid() && Contents() == Without(old(Contents()), key)
      ensures items.Keys <= old(items.Keys)
    {
      ViewDistinct(items, lru);
      LookedWithin(Contents(), key, 0, limits);
      RemoveLocked(key);
    }

    /** A timer's callback, for any key and at any moment: it looks again before removing. */
    method ExpirationTimer(key: string, now: int)
      requires Valid()
      modifies this
      ensures Valid() && Contents() == TimerFired(old(Contents()), key, now)
      ensures items.Keys <= old(items.Keys)
    {
      ViewHas(items, lru, key);
      ViewDistinct(items, lru);
      LookedWithin(Contents(), key, now, limits);
      if key in items {
        var removeAt := items[key].item.RemoveAt();
        if removeAt != 0 && now >= removeAt {
          RemoveLocked(key);
        }
      }
    }

    method KeysForTag(tag: string) returns (keys: set<string>)
      requires Valid()
      ensures keys == TaggedKeys(Contents(), tag)
    {
      keys := if tag in tags then tags[tag] else {};
      TaggedInView(tags, items, lru, tag);
    }

    method WouldOverflowLocked(key: string, size: nat) returns (overflow: bool)
      requires Valid()
      ensures overflow == WouldOverflow(Contents(), key, size, limits)
    {
      ViewHas(items, lru, key);
      ViewCount(items, lru);
      var count := |items|;
      var total := bytes + size;
      if key in items {
        total := total - items[key].size;
      } else {
        count := count + 1;
      }
      overflow := count > limits.capacity || (limits.maxBytes > 0 && total > limits.maxBytes);
    }

    /** Takes the replaced entry of the key, if any, out of the index and the byte count. */
    method Release(key: string)
      requires Consistent()
      modifies this`tags, this`bytes
      ensures Inverse(tags, items - {key}) && bytes == Total(Without(Contents(), key))
    {
      ViewHas(items, lru, key);
      ViewDistinct(items, lru);
      if key in items {
        var existing := items[key];
        WithoutTotals(Contents(), key);
        UntagLocked(key, existing.item.tags);
        InverseUntagged(old(tags), tags, items, key);
        bytes := bytes - existing.size;
      } else {
        WithoutAbsent(Contents(), key);
        assert items - {key} == items;
      }
    }

    /** Puts the entry in front, replacing an older one of the same key. */
    method Insert(e: Entry)
      requires Consistent() && e.size == ItemSize(e.item)
      modifies this
      ensures Consistent() && Contents() == Pushed(old(Contents()), e)
      ensures items.Keys == old(items.Keys) + {e.item.key}
    {
      var key := e.item.key;
      ListedPushed(items, lru, e);
      ViewPushed(items, lru, e);
      assert Pushed(Contents(), e)[1..] == Without(Contents(), key);
      Release(key);
      ghost var untagged := tags;
      TagLocked(key, e.item.tags);
      InverseTagged(untagged, tags, items, e);
      items := items[key := e];
      lru := [key] + Removed(lru, key);
      bytes := bytes + e.size;
    }

    /** The eviction loop: the back of the list goes while a limit is exceeded. */
    method Evict(key: string)
      requires Consistent() && lru != [] && lru[0] == key
      requires Fits(Contents()[0], limits)
      modifies this
      ensures Valid() && Contents() == Trim(old(Contents()), limits)
      ensures items.Keys <= old(items.Keys)
    {
      TrimIsLongestPrefix(Contents(), limits);
      var over := OverLimitLocked();
      while over
        invariant Consistent() && lru != [] && lru[0] == key
        invariant over == !Within(Contents(), limits)
        invariant items.Keys <= old(items.Keys)
        invariant Trim(Contents(), limits) == Trim(old(Contents()), limits)
        decreases |lru|
      {
        var k := lru[|lru| - 1];
        if k == key {
          break;
        }
        RemoveBack();
        over := OverLimitLocked();
      }
    }

    method OverLimitLocked() returns (over: bool)
      requires Consistent()
      ensures over == !Within(Contents(), limits)
    {
      ViewCount(items, lru);
      over := |items| > limits.capacity || (limits.maxBytes > 0 && bytes > limits.maxBytes);
    }

    method RemoveBack()
      requires Consistent() && |lru| > 1
      modifies this
      ensures Consistent() && lru != [] && lru[0] == old(lru[0])
      ensures Contents() == old(Contents())[..|old(Contents())| - 1]
      ensures items.Keys <= old(items.Keys)
    {
      ghost var v := Contents();
      ViewDistinct(items, lru);
      DropLast(v);
      assert v[0].item.key == lru[0] && v[|v| - 1].item.key == lru[|lru| - 1];
      RemoveLocked(lru[|lru| - 1]);
      assert Contents()[0] == v[0] == items[lru[0]];
    }

    /** Stores exactly when the item fits a segment on its own and the policy agrees; then the
        segment is the least-recently-used update of what it was, otherwise it is untouched. */
    method Set(item: Item, now: int, metrics: A.Metrics, admission: TinyLfuAdmission?) returns (stored: bool)
      requires Valid() && Ready(admission)
      modifies this
      ensures Valid() && Ready(admission) && RequestsOf(admission) == old(RequestsOf(admission))
      ensures stored == Accepts(old(Contents()), limits, item, metrics, old(PolicyOf(admission)))
      ensures Contents() == if stored then Put(old(Contents()), NewEntry(item, now), limits) else old(Contents())
      ensures items.Keys <= old(items.Keys) + {item.key}
    {
      assert this !in Footprint(admission);
      stored := Admits(item, metrics, admission);
      if stored {
        Insert(Entry(Stamped(item, now), ItemSize(item)));
        Evict(item.key);
      }
    }

    method Admits(item: Item, metrics: A.Metrics, admission: TinyLfuAdmission?) returns (yes: bool)
      requires Valid() && Ready(admission)
      ensures yes == Accepts(Contents(), limits, item, metrics, PolicyOf(admission))
    {
      if item.key == "" {
        return false;
      }
      var size := ItemSize(item);
      if limits.maxBytes > 0 && size > limits.maxBytes {
        return false;
      }
      var m := Consult(item.key, size, metrics, admission);
      if admission == null {
        return true;
      }
      yes := admission.ShouldStore(item.key, m);
    }

    method Consult(key: string, size: nat, metrics: A.Metrics, admission: TinyLfuAdmission?) returns (m: A.Metrics)
      requires Valid() && Ready(admission)
      ensures m == Shown(Contents(), limits, key, size, metrics, PolicyOf(admission))
    {
      var overflow := WouldOverflowLocked(key, size);
      m := metrics.(noEviction := !overflow);
      if overflow && lru != [] {
        var victim := lru[|lru| - 1];
        assert Contents()[|lru| - 1] == items[victim] && victim in items;
        if victim != key && admission != null {
          var frequency := admission.Frequency(victim);
          m := m.(victimKey := victim, victimFrequency := frequency);
        }
      }
    }
  }
}
