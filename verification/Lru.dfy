/**
  A least-recently-used cache segment as a value: entries from the most to the least recently
  used, bounded by a number of entries and by bytes.  The mutable `Shard` is proved against it.
*/
module Lru {

  const ENTRY_OVERHEAD: nat := 128

  datatype Header = Header(name: string, values: seq<string>)

  /** Times are nanoseconds; 0 is the zero time, which an item uses for "never". */
  datatype Item = Item(
    key: string,
    value: seq<bv8>,
    headers: seq<Header>,
    statusCode: nat,
    expiresAt: int,
    staleUntil: int,
    storedAt: int,
    version: nat,
    tags: seq<string>)
  {
    predicate Fresh(now: int) {
      expiresAt == 0 || now < expiresAt
    }

    function RemoveAt(): int {
      if expiresAt == 0 then 0 else if staleUntil > expiresAt then staleUntil else expiresAt
    }

    predicate Expired(now: int) {
      RemoveAt() != 0 && now >= RemoveAt()
    }
  }

  function Lengths(ss: seq<string>): nat {
    if ss == [] then 0 else |ss[0]| + Lengths(ss[1..])
  }

  function HeaderBytes(headers: seq<Header>): nat {
    if headers == [] then 0 else |headers[0].name| + Lengths(headers[0].values) + HeaderBytes(headers[1..])
  }

  function ItemSize(item: Item): (size: nat)
    ensures size >= ENTRY_OVERHEAD + |item.value|
  {
    ENTRY_OVERHEAD + |item.key| + |item.value| + HeaderBytes(item.headers) + Lengths(item.tags)
  }

  datatype Entry = Entry(item: Item, size: nat)

  type View = seq<Entry>

  /** maxBytes 0 means no byte limit. */
  datatype Limits = Limits(capacity: nat, maxBytes: nat)

  // ---- Reading a segment ------------------------------------------------------------

  predicate Has(v: View, key: string) {
    exists i :: 0 <= i < |v| && v[i].item.key == key
  }

  function Find(v: View, key: string): (e: Entry)
    requires Has(v, key)
    ensures e in v && e.item.key == key
  {
    if v[0].item.key == key then v[0] else
      assert Has(v[1..], key) by {
        var i :| 0 <= i < |v| && v[i].item.key == key;
        assert v[1..][i - 1].item.key == key;
      }
      Find(v[1..], key)
  }

  predicate Distinct(v: View) {
    forall i, j :: 0 <= i < j < |v| ==> v[i].item.key != v[j].item.key
  }

  function Total(v: View): nat {
    if v == [] then 0 else v[0].size + Total(v[1..])
  }

  predicate Within(v: View, lim: Limits) {
    |v| <= lim.capacity && (lim.maxBytes > 0 ==> Total(v) <= lim.maxBytes)
  }

  function TaggedKeys(v: View, tag: string): set<string> {
    set i | 0 <= i < |v| && tag != "" && tag in v[i].item.tags :: v[i].item.key
  }

  // ---- Changing a segment -----------------------------------------------------------

  function Without(v: View, key: string): View {
    if v == [] then []
    else if v[0].item.key == key then Without(v[1..], key)
    else [v[0]] + Without(v[1..], key)
  }

  /** Drops entries from the back until the limits hold or only the newest is left. */
  function Trim(v: View, lim: Limits): View {
    if |v| <= 1 || Within(v, lim) then v else Trim(v[..|v| - 1], lim)
  }

  function Pushed(v: View, e: Entry): View {
    [e] + Without(v, e.item.key)
  }

  function Put(v: View, e: Entry, lim: Limits): View {
    Trim(Pushed(v, e), lim)
  }

  function Looked(v: View, key: string, now: int): View {
    if !Has(v, key) then v
    else if Find(v, key).item.Expired(now) then Without(v, key)
    else Pushed(v, Find(v, key))
  }

  function TimerFired(v: View, key: string, now: int): View {
    if Has(v, key) && Find(v, key).item.Expired(now) then Without(v, key) else v
  }

  /** The overflow test of the code: counts and bytes before the item is in. */
  predicate WouldOverflow(v: View, key: string, size: nat, lim: Limits) {
    var count := if Has(v, key) then |v| else |v| + 1;
    var bytes := Total(v) + size - (if Has(v, key) then Find(v, key).size else 0);
    count > lim.capacity || (lim.maxBytes > 0 && bytes > lim.maxBytes)
  }

  // ---- Facts ------------------------------------------------------------------------

  lemma {:induction false} WithoutElements(v: View, key: string)
    ensures forall e :: e in Without(v, key) <==> e in v && e.item.key != key
    ensures Distinct(v) ==> Distinct(Without(v, key))
    ensures |Without(v, key)| <= |v|
  {
    if v != [] {
      WithoutElements(v[1..], key);
      assert v == [v[0]] + v[1..];
      if Distinct(v) && v[0].item.key != key {
        var w := Without(v[1..], key);
        assert Without(v, key) == [v[0]] + w;
        forall i, j | 0 <= i < j < |w| + 1
          ensures ([v[0]] + w)[i].item.key != ([v[0]] + w)[j].item.key
        {
          if i == 0 {
            assert w[j - 1] in v[1..];
            var k :| 0 <= k < |v[1..]| && v[1..][k] == w[j - 1];
            assert v[k + 1] == w[j - 1];
          }
        }
      }
    }
  }

  lemma FindIs(v: View, e: Entry)
    requires Distinct(v) && e in v
    ensures Has(v, e.item.key) && Find(v, e.item.key) == e
  {
  }

  lemma {:induction false} WithoutAbsent(v: View, key: string)
    requires !Has(v, key)
    ensures Without(v, key) == v
  {
    if v != [] {
      assert v[0].item.key != key;
      forall i | 0 <= i < |v[1..]|
        ensures v[1..][i].item.key != key
      {
        assert v[i + 1].item.key != key;
      }
      WithoutAbsent(v[1..], key);
    }
  }

  /** Taking one entry out leaves one entry and its bytes less. */
  lemma {:induction false} WithoutTotals(v: View, key: string)
    requires Distinct(v) && Has(v, key)
    ensures |Without(v, key)| == |v| - 1
    ensures Total(Without(v, key)) == Total(v) - Find(v, key).size
  {
    if v[0].item.key == key {
      assert !Has(v[1..], key) by {
        forall i | 0 <= i < |v[1..]|
          ensures v[1..][i].item.key != key
        {
          assert v[i + 1].item.key != v[0].item.key;
        }
      }
      WithoutAbsent(v[1..], key);
    } else {
      var i :| 0 <= i < |v| && v[i].item.key == key;
      assert v[1..][i - 1].item.key == key;
      assert Distinct(v[1..]);
      WithoutTotals(v[1..], key);
      assert Without(v, key)[1..] == Without(v[1..], key);
    }
  }

  /** Taking the entry at position `i` out leaves the others where they were. */
  lemma {:induction false} WithoutAt(v: View, i: nat)
    requires Distinct(v) && i < |v|
    ensures Without(v, v[i].item.key) == v[..i] + v[i + 1..]
  {
    var key := v[i].item.key;
    if i == 0 {
      assert !Has(v[1..], key) by {
        forall j | 0 <= j < |v[1..]|
          ensures v[1..][j].item.key != key
        {
          assert v[j + 1].item.key != v[0].item.key;
        }
      }
      WithoutAbsent(v[1..], key);
      assert v[..0] + v[1..] == v[1..];
    } else {
      assert Distinct(v[1..]) && v[1..][i - 1] == v[i];
      WithoutAt(v[1..], i - 1);
      assert v[..i] + v[i + 1..] == [v[0]] + (v[1..][..i - 1] + v[1..][i..]);
    }
  }

  /** A look-up in terms of positions: a hit moves to the front and the others keep their order, an
      expired entry goes, and without an entry of the key nothing happens. */
  lemma LookedIsLru(v: View, key: string, now: int)
    requires Distinct(v)
    ensures (forall i :: 0 <= i < |v| ==> v[i].item.key != key) ==> Looked(v, key, now) == v
    ensures forall i :: 0 <= i < |v| && v[i].item.key == key ==>
              Looked(v, key, now) ==
              (if v[i].item.RemoveAt() != 0 && now >= v[i].item.RemoveAt() then [] else [v[i]]) + v[..i] + v[i + 1..]
  {
    forall i | 0 <= i < |v| && v[i].item.key == key
      ensures Looked(v, key, now) ==
              (if v[i].item.RemoveAt() != 0 && now >= v[i].item.RemoveAt() then [] else [v[i]]) + v[..i] + v[i + 1..]
    {
      FindIs(v, v[i]);
      WithoutAt(v, i);
      assert [] + v[..i] + v[i + 1..] == v[..i] + v[i + 1..];
      assert [v[i]] + v[..i] + v[i + 1..] == [v[i]] + (v[..i] + v[i + 1..]);
    }
  }

  lemma HitMovesToFront(v: View, now: int, e: Entry)
    requires Distinct(v) && e in v
    ensures var r := Looked(v, e.item.key, now);
            if e.item.RemoveAt() != 0 && now >= e.item.RemoveAt() then e !in r else r != [] && r[0] == e
  {
    FindIs(v, e);
    WithoutElements(v, e.item.key);
  }

  /** A timer takes out the entry of its key if that has expired, and nothing else. */
  lemma TimerTakesExpired(v: View, key: string, now: int)
    requires Distinct(v)
    ensures forall x :: x in TimerFired(v, key, now) <==>
              x in v && !(x.item.key == key && x.item.RemoveAt() != 0 && now >= x.item.RemoveAt())
    ensures (forall i :: 0 <= i < |v| && v[i].item.key == key ==> !v[i].item.Expired(now)) ==>
              TimerFired(v, key, now) == v
  {
    WithoutElements(v, key);
    forall x | x in v && x.item.key == key
      ensures Has(v, key) && Find(v, key) == x
    {
      FindIs(v, x);
    }
  }

  lemma {:induction false} LengthsAdd(ss: seq<string>, s: string)
    ensures Lengths(ss + [s]) == Lengths(ss) + |s|
  {
    if ss == [] {
      assert ([] + [s])[1..] == [];
    } else {
      LengthsAdd(ss[1..], s);
      assert (ss + [s])[1..] == ss[1..] + [s];
    }
  }

  lemma {:induction false} HeaderBytesAdd(headers: seq<Header>, h: Header)
    ensures HeaderBytes(headers + [h]) == HeaderBytes(headers) + |h.name| + Lengths(h.values)
  {
    if headers == [] {
      assert ([] + [h])[1..] == [];
    } else {
      HeaderBytesAdd(headers[1..], h);
      assert (headers + [h])[1..] == headers[1..] + [h];
    }
  }

  /** An item is charged 128 bytes and every byte of key, body, header names, header values and tags. */
  lemma SizeCountsEverything(item: Item, tag: string, name: string, value: string)
    ensures item.value == [] && item.headers == [] && item.tags == [] ==> ItemSize(item) == 128 + |item.key|
    ensures ItemSize(item) == ItemSize(item.(value := [])) + |item.value|
    ensures ItemSize(item.(tags := item.tags + [tag])) == ItemSize(item) + |tag|
    ensures ItemSize(item.(headers := item.headers + [Header(name, [])])) == ItemSize(item) + |name|
    ensures forall values: seq<string> ::
              ItemSize(item.(headers := item.headers + [Header(name, values + [value])])) ==
              ItemSize(item.(headers := item.headers + [Header(name, values)])) + |value|
  {
    LengthsAdd(item.tags, tag);
    HeaderBytesAdd(item.headers, Header(name, []));
    forall values: seq<string>
      ensures ItemSize(item.(headers := item.headers + [Header(name, values + [value])])) ==
              ItemSize(item.(headers := item.headers + [Header(name, values)])) + |value|
    {
      LengthsAdd(values, value);
      HeaderBytesAdd(item.headers, Header(name, values));
      HeaderBytesAdd(item.headers, Header(name, values + [value]));
    }
  }

  /** The entry itself would fit an empty segment: what the code checks before locking. */
  predicate Fits(e: Entry, lim: Limits) {
    lim.capacity >= 1 && (lim.maxBytes > 0 ==> e.size <= lim.maxBytes)
  }

  /** Eviction takes the shortest tail: the limits hold after it, and with any one of the
      evicted entries kept they would not. */
  lemma {:induction false} TrimIsLongestPrefix(v: View, lim: Limits)
    requires v != [] && Fits(v[0], lim)
    ensures var r := Trim(v, lim);
            && r != [] && r <= v && Within(r, lim)
            && forall n :: |r| < n <= |v| ==> !Within(v[..n], lim)
    decreases |v|
  {
    if |v| == 1 {
      assert Total(v) == v[0].size + Total(v[1..]);
      assert v[1..] == [];
    } else if !Within(v, lim) {
      var front := v[..|v| - 1];
      TrimIsLongestPrefix(front, lim);
      var r := Trim(v, lim);
      forall n | |r| < n <= |v|
        ensures !Within(v[..n], lim)
      {
        if n < |v| {
          assert v[..n] == front[..n];
        } else {
          assert v[..n] == v;
        }
      }
    } else {
      assert forall n :: n == |v| ==> v[..n] == v;
    }
  }

  lemma PushedIsLru(v: View, e: Entry)
    requires Distinct(v)
    ensures (forall i :: 0 <= i < |v| ==> v[i].item.key != e.item.key) ==> Pushed(v, e) == [e] + v
    ensures forall i :: 0 <= i < |v| && v[i].item.key == e.item.key ==> Pushed(v, e) == [e] + (v[..i] + v[i + 1..])
  {
    if !Has(v, e.item.key) {
      WithoutAbsent(v, e.item.key);
    }
    forall i | 0 <= i < |v| && v[i].item.key == e.item.key
      ensures Pushed(v, e) == [e] + (v[..i] + v[i + 1..])
    {
      WithoutAt(v, i);
    }
  }

  /** What a store leaves: the new entry in front, then the other entries in their old order,
      cut to the longest prefix within the limits; nothing else changes. */
  lemma PutIsLru(v: View, e: Entry, lim: Limits)
    requires Distinct(v) && Fits(e, lim)
    ensures var r := Put(v, e, lim);
            && r != [] && r[0] == e
            && Distinct(r) && Within(r, lim)
            && r <= Pushed(v, e)
            && ((forall i :: 0 <= i < |v| ==> v[i].item.key != e.item.key) ==> r <= [e] + v)
            && (forall i :: 0 <= i < |v| && v[i].item.key == e.item.key ==> r <= [e] + (v[..i] + v[i + 1..]))
            && (forall n :: |r| < n <= |Pushed(v, e)| ==> !Within(Pushed(v, e)[..n], lim))
            && (forall x :: x in r ==> x == e || (x in v && x.item.key != e.item.key))
  {
    var p := Pushed(v, e);
    WithoutElements(v, e.item.key);
    TrimIsLongestPrefix(p, lim);
    var r := Put(v, e, lim);
    PushedIsLru(v, e);
    assert Distinct(p) by {
      var w := Without(v, e.item.key);
      forall i, j | 0 <= i < j < |p|
        ensures p[i].item.key != p[j].item.key
      {
        assert p[j] == w[j - 1] && p[j] in w;
      }
    }
    assert forall i :: 0 <= i < |r| ==> r[i] == p[i];
    forall x | x in r
      ensures x == e || (x in v && x.item.key != e.item.key)
    {
      var i :| 0 <= i < |r| && r[i] == x;
      if i > 0 {
        assert x in Without(v, e.item.key);
      }
    }
  }

  /** The overflow test is exactly "the eviction loop will evict something". */
  lemma OverflowIffEviction(v: View, e: Entry, lim: Limits)
    requires Distinct(v) && Fits(e, lim)
    ensures WouldOverflow(v, e.item.key, e.size, lim) <==> |Put(v, e, lim)| < |Pushed(v, e)|
  {
    var p := Pushed(v, e);
    if Has(v, e.item.key) {
      WithoutTotals(v, e.item.key);
    } else {
      WithoutAbsent(v, e.item.key);
    }
    assert p[1..] == Without(v, e.item.key);
    assert Total(p) == e.size + Total(Without(v, e.item.key));
    assert WouldOverflow(v, e.item.key, e.size, lim) <==> !Within(p, lim);
    TrimIsLongestPrefix(p, lim);
    if |Put(v, e, lim)| == |p| {
      assert Put(v, e, lim) == p;
    }
  }

  /** Looking a key up changes recency and may drop the expired entry; nothing else. */
  lemma LookedElements(v: View, key: string, now: int)
    requires Distinct(v)
    ensures Distinct(Looked(v, key, now))
    ensures forall x :: x in Looked(v, key, now) <==> x in v && !(x.item.key == key && x.item.Expired(now))
  {
    WithoutElements(v, key);
    if Has(v, key) {
      var e := Find(v, key);
      forall x | x in v && x.item.key == key
        ensures x == e
      {
        FindIs(v, x);
      }
      var w := Without(v, key);
      if !e.item.Expired(now) {
        var p := Pushed(v, e);
        forall i, j | 0 <= i < j < |p|
          ensures p[i].item.key != p[j].item.key
        {
          assert p[j] == w[j - 1] && p[j] in w;
        }
      }
    }
  }
}
