/** What updates and relays leave behind, and that the outbox can always be drained. */
module Delivery {
  import opened Events
  import opened Outbox
  import opened Paths

  // ---- Single steps -----------------------------------------------------------------

  /** The rows of an update: the book's own tag at its next version, and a purge of the lists if the
      genre changed. */
  lemma UpdateHolds(s: Db, book: string, genreChanged: bool, eventId: string, listEventId: string)
    requires Enabled(s, PutBegin(book, genreChanged, eventId, listEventId))
    ensures var put := Apply(s, PutBegin(book, genreChanged, eventId, listEventId)).puts[book];
            && put.version == s.versions[book] + 1
            && Event(eventId, [book], [], s.versions[book] + 1) in put.rows.Values
            && (genreChanged ==> Event(listEventId, ["list:books"], [], 0) in put.rows.Values)
  {
    var rows := NewRows(s.draws.nextId, book, s.versions[book] + 1, genreChanged, eventId, listEventId);
    assert rows[s.draws.nextId] == Event(eventId, [book], [], s.versions[book] + 1);
    if genreChanged {
      assert rows[s.draws.nextId + 1] == Event(listEventId, ["list:books"], [], 0);
    }
  }

  /** A commit gives the book its new version and makes exactly the update's rows visible. */
  lemma CommitIsVisible(s: Db, book: string)
    requires Enabled(s, PutCommit(book))
    ensures var s' := Apply(s, PutCommit(book));
            && s'.versions == s.versions[book := s.puts[book].version]
            && (forall id :: id in s'.rows <==> id in s.rows || id in s.puts[book].rows)
            && (forall id :: id in s.puts[book].rows ==> s'.rows[id] == s.puts[book].rows[id])
            && (forall id :: id in s.rows && id !in s.puts[book].rows ==> s'.rows[id] == s.rows[id])
  {
  }

  /** An update that is given up leaves nothing behind. */
  lemma AbortLeavesNothing(s: Db, book: string)
    requires Enabled(s, PutAbort(book))
    ensures var s' := Apply(s, PutAbort(book));
            && book !in s'.puts && s'.versions == s.versions && s'.rows == s.rows && s'.committed == s.committed
            && s'.confirmed == s.confirmed && (forall b :: b in s.puts && b != book ==> b in s'.puts)
  {
  }

  /** Whatever happens between the beginning and the commit of an update: with the commit the book has
      its next version, and the invalidations of the update are visible outbox rows. */
  lemma UpdateIsAnnounced(s: Db, book: string, genreChanged: bool, eventId: string, listEventId: string, t: Db)
    requires Enabled(s, PutBegin(book, genreChanged, eventId, listEventId))
    requires Enabled(t, PutCommit(book))
    requires t.puts[book] == Apply(s, PutBegin(book, genreChanged, eventId, listEventId)).puts[book]
    ensures var t' := Apply(t, PutCommit(book));
            && t'.versions[book] == s.versions[book] + 1
            && Event(eventId, [book], [], s.versions[book] + 1) in t'.rows.Values
            && (genreChanged ==> Event(listEventId, ["list:books"], [], 0) in t'.rows.Values)
  {
    UpdateHolds(s, book, genreChanged, eventId, listEventId);
    CommitIsVisible(t, book);
    var rows, rows' := t.puts[book].rows, Apply(t, PutCommit(book)).rows;
    forall e | e in rows.Values
      ensures e in rows'.Values
    {
      var id :| id in rows && rows[id] == e;
      assert rows'[id] == e;
    }
  }

  /** A relay's commit deletes exactly the rows it saw confirmed, and gives its locks back. */
  lemma CommitDeletesConfirmed(s: Db, r: RelayId)
    requires Inv(s) && Enabled(s, RelayCommit(r))
    ensures var s' := Apply(s, RelayCommit(r));
            && (forall id :: id in s'.rows <==>
                  id in s.rows && !(exists i :: 0 <= i < s.relays[r].next && s.relays[r].batch[i] == id))
            && (forall id :: id in s'.rows ==> s'.rows[id] == s.rows[id])
            && r !in s'.relays && forall id :: id in s.relays[r].batch ==> id !in s'.locks
  {
    var tx := s.relays[r];
    assert TxOk(s, r, tx);
    forall id
      ensures id in tx.batch[..tx.next] <==> exists i :: 0 <= i < tx.next && tx.batch[i] == id
    {
      if i :| 0 <= i < tx.next && tx.batch[i] == id {
        assert tx.batch[..tx.next][i] == id;
      }
    }
  }

  /** After a failed publication the relay publishes nothing more in this transaction, but commits what
      was confirmed before. */
  lemma FailureEndsTheBatch(s: Db, r: RelayId)
    requires Inv(s) && Enabled(s, RelayPublish(r, false))
    ensures var s' := Apply(s, RelayPublish(r, false));
            && (forall confirmed :: !Enabled(s', RelayPublish(r, confirmed))) && Enabled(s', RelayCommit(r))
            && s'.relays[r].next == s.relays[r].next && s'.confirmed == s.confirmed
  {
    assert TxOk(s, r, s.relays[r]);
  }

  /** A relay whose session has died holds no lock any more, but it still has its batch. */
  lemma LostSessionReleases(s: Db, r: RelayId)
    requires Enabled(s, SessionLost(r))
    ensures var s' := Apply(s, SessionLost(r));
            && s'.rows == s.rows && s'.committed == s.committed && r !in s'.relays
            && (forall id :: id in s.relays[r].batch ==> id !in s'.locks)
            && r in s'.strays && s'.strays[r] == s.relays[r]
  {
  }

  /** It publishes the next row of its batch, whoever may have locked or deleted it since, until a
      publication fails. */
  lemma StrayGoesOn(s: Db, r: RelayId)
    requires StraysOk(s) && r in s.strays && !s.strays[r].failed && s.strays[r].next < |s.strays[r].batch|
    ensures var id := s.strays[r].batch[s.strays[r].next];
            && id in s.committed && Enabled(s, StrayPublish(r, true)) && Enabled(s, StrayPublish(r, false))
            && Publication(s, StrayPublish(r, true)) == multiset{s.committed[id]}
            && forall confirmed :: !Enabled(Apply(s, StrayPublish(r, false)), StrayPublish(r, confirmed))
  {
    var tx := s.strays[r];
    assert tx.batch[tx.next] in tx.batch;
  }

  // ---- Runs of relay steps ----------------------------------------------------------

  ghost function Relaying(): (Db, Step, Db) -> bool {
    (s: Db, step: Step, s': Db) => Enabled(s, step) && OfRelay(step) && s' == Apply(s, step)
  }

  /** These steps of relays lead from `s` to `s'`. */
  ghost predicate Leads(s: Db, steps: seq<Step>, s': Db) {
    Path(Relaying(), s, steps, s')
  }

  lemma LeadsOn(s: Db, before: seq<Step>, mid: Db, after: seq<Step>, s': Db)
    requires Leads(s, before, mid) && Leads(mid, after, s')
    ensures Leads(s, before + after, s')
  {
    PathOn(Relaying(), s, before, mid, after, s');
  }

  lemma LeadsOneStep(s: Db, step: Step)
    requires Enabled(s, step) && OfRelay(step)
    ensures Leads(s, [step], Apply(s, step))
  {
    PathOne(Relaying(), s, step, Apply(s, step));
  }

  lemma {:induction false} LeadsKeeps(s: Db, steps: seq<Step>, s': Db)
    requires Inv(s) && Leads(s, steps, s')
    ensures Inv(s') && SameUpdates(s, s')
    decreases |steps|
  {
    if steps != [] {
      var mid :| Relaying()(s, steps[0], mid) && Leads(mid, steps[1..], s');
      StepInv(s, steps[0]);
      RelaysOnlyPublish(s, steps[0]);
      LeadsKeeps(mid, steps[1..], s');
    }
  }

  // ---- The outbox can always be drained ---------------------------------------------

  /** No relay transaction is open. */
  ghost predicate Unlocked(s: Db) {
    Inv(s) && s.relays == map[] && s.locks == map[]
  }

  lemma NoLocks(s: Db)
    requires RelaysOk(s) && s.relays == map[]
    ensures s.locks == map[]
  {
    assert forall id :: id in s.locks ==> s.locks[id] in s.relays;
  }

  lemma AbortOne(s: Db, r: RelayId)
    requires Inv(s) && r in s.relays
    ensures Enabled(s, RelayAbort(r)) && Inv(Apply(s, RelayAbort(r)))
    ensures Apply(s, RelayAbort(r)).rows == s.rows && Apply(s, RelayAbort(r)).relays == s.relays - {r}
  {
    StepInv(s, RelayAbort(r));
  }

  /** Whatever transactions are open, they can end without publishing anything more. */
  lemma {:induction false} AbortAll(s: Db) returns (steps: seq<Step>, s': Db)
    requires Inv(s)
    ensures Leads(s, steps, s') && Unlocked(s') && s'.rows == s.rows
    decreases |s.relays|
  {
    if s.relays == map[] {
      NoLocks(s);
      return [], s;
    }
    var r :| r in s.relays;
    AbortOne(s, r);
    LeadsOneStep(s, RelayAbort(r));
    var rest, last := AbortAll(Apply(s, RelayAbort(r)));
    LeadsOn(s, [RelayAbort(r)], Apply(s, RelayAbort(r)), rest, last);
    return [RelayAbort(r)] + rest, last;
  }

  lemma {:induction false} Smallest(ids: set<nat>) returns (m: nat)
    requires ids != {}
    ensures m in ids && forall id :: id in ids ==> m <= id
    decreases |ids|
  {
    var id :| id in ids;
    m := id;
    if ids != {id} {
      var x := Smallest(ids - {id});
      m := if x < id then x else id;
      assert forall k :: k in ids ==> k == id || k in ids - {id};
    }
  }

  /** The `n` smallest, in order. */
  lemma {:induction false} Lowest(ids: set<nat>, n: nat) returns (batch: seq<nat>)
    ensures |batch| <= n && Ascending(batch) && (ids != {} && n > 0 ==> batch != [])
    ensures forall id :: id in batch ==> id in ids
    ensures forall id :: id in ids && id !in batch ==> |batch| == n && forall i :: 0 <= i < |batch| ==> batch[i] < id
    decreases n
  {
    if ids == {} || n == 0 {
      return [];
    }
    var m := Smallest(ids);
    var rest := Lowest(ids - {m}, n - 1);
    forall i | 0 <= i < |rest|
      ensures m < rest[i]
    {
      assert rest[i] in rest;
    }
    batch := [m] + rest;
    forall id | id in ids && id !in batch
      ensures |batch| == n && forall i :: 0 <= i < |batch| ==> batch[i] < id
    {
      assert id != m by {
        assert batch[0] == m;
      }
      assert id !in rest by {
        assert forall x :: x in rest ==> x in batch;
      }
    }
  }

  /** There always is a batch to lock, of at most 100 rows, empty only if there is nothing to publish. */
  lemma NextBatch(s: Db) returns (batch: seq<RowId>)
    requires Unlocked(s)
    ensures IsBatch(s, batch) && |batch| <= 100 && (s.rows != map[] ==> batch != [])
  {
    batch := Lowest(s.rows.Keys, 100);
    if s.rows != map[] {
      var id :| id in s.rows;
    }
  }

  function Publishing(r: RelayId, n: nat): seq<Step> {
    seq(n, _ => RelayPublish(r, true))
  }

  /** Every row of the batch can be published and confirmed, one after the other. */
  lemma {:induction false} SendAll(s: Db, r: RelayId, n: nat)
    requires CanSend(s, r, n)
    ensures Leads(s, Publishing(r, n), Sent(s, r, n))
  {
    if n > 0 {
      SendAll(s, r, n - 1);
      var before := Sent(s, r, n - 1);
      assert Enabled(before, RelayPublish(r, true));
      LeadsOneStep(before, RelayPublish(r, true));
      LeadsOn(s, Publishing(r, n - 1), before, [RelayPublish(r, true)], Sent(s, r, n));
      assert Publishing(r, n) == Publishing(r, n - 1) + [RelayPublish(r, true)];
    }
  }

  lemma {:induction false} NewRelay(s: Db) returns (r: RelayId)
    ensures r !in s.relays && r !in s.strays
  {
    r := Unused(s.relays.Keys + s.strays.Keys);
  }

  lemma {:induction false} Unused(ids: set<nat>) returns (n: nat)
    ensures forall id :: id in ids ==> id < n
    decreases |ids|
  {
    if ids == {} {
      return 0;
    }
    var id :| id in ids;
    var m := Unused(ids - {id});
    n := if m > id then m else id + 1;
    assert forall k :: k in ids ==> k == id || k in ids - {id};
  }

  lemma BatchIsHeld(s: Db, r: RelayId, batch: seq<RowId>)
    requires s.relays == map[] && Enabled(s, RelayBegin(r, batch))
    ensures var locked := Apply(s, RelayBegin(r, batch));
            locked.rows == s.rows && locked.relays == map[r := Tx(batch, 0, false)]
    ensures forall id :: id in batch ==> id in s.rows
  {
  }

  lemma AllSent(locked: Db, r: RelayId, batch: seq<RowId>) returns (sent: Db)
    requires locked.relays == map[r := Tx(batch, 0, false)] && forall id :: id in batch ==> id in locked.rows
    ensures Leads(locked, Publishing(r, |batch|), sent)
    ensures sent.rows == locked.rows && sent.relays == map[r := Tx(batch, |batch|, false)]
  {
    assert CanSend(locked, r, |batch|);
    SendAll(locked, r, |batch|);
    sent := Sent(locked, r, |batch|);
  }

  /** A relay locks the batch and publishes all of it. */
  lemma BeginAndSend(s: Db, r: RelayId, batch: seq<RowId>) returns (sent: Db)
    requires Unlocked(s) && r !in s.strays && IsBatch(s, batch)
    ensures Leads(s, [RelayBegin(r, batch)] + Publishing(r, |batch|), sent)
    ensures sent.rows == s.rows && sent.relays == map[r := Tx(batch, |batch|, false)]
  {
    var locked := Apply(s, RelayBegin(r, batch));
    LeadsOneStep(s, RelayBegin(r, batch));
    BatchIsHeld(s, r, batch);
    sent := AllSent(locked, r, batch);
    LeadsOn(s, [RelayBegin(r, batch)], locked, Publishing(r, |batch|), sent);
  }

  /** The commit of the only open transaction. */
  lemma CommitAlone(s: Db, r: RelayId, batch: seq<RowId>)
    requires Inv(s) && s.relays == map[r := Tx(batch, |batch|, false)]
    ensures Enabled(s, RelayCommit(r)) && Unlocked(Apply(s, RelayCommit(r)))
    ensures forall id :: id in Apply(s, RelayCommit(r)).rows <==> id in s.rows && id !in batch
  {
    StepInv(s, RelayCommit(r));
    CommitDeletesConfirmed(s, r);
    var s' := Apply(s, RelayCommit(r));
    assert s'.relays == map[];
    NoLocks(s');
  }

  /** One relay run without failures: the batch is confirmed and deleted. */
  lemma RelayOnce(s: Db, batch: seq<RowId>) returns (steps: seq<Step>, s': Db)
    requires Unlocked(s) && IsBatch(s, batch)
    ensures Leads(s, steps, s') && Unlocked(s')
    ensures forall id :: id in s'.rows <==> id in s.rows && id !in batch
  {
    var r := NewRelay(s);
    var sent := BeginAndSend(s, r, batch);
    var before := [RelayBegin(r, batch)] + Publishing(r, |batch|);
    LeadsKeeps(s, before, sent);
    CommitAlone(sent, r, batch);
    LeadsOneStep(sent, RelayCommit(r));
    s' := Apply(sent, RelayCommit(r));
    LeadsOn(s, before, sent, [RelayCommit(r)], s');
    steps := before + [RelayCommit(r)];
  }

  lemma {:induction false} DrainUnlocked(s: Db) returns (steps: seq<Step>, s': Db)
    requires Unlocked(s)
    ensures Leads(s, steps, s') && s'.rows == map[]
    decreases |s.rows|
  {
    if s.rows == map[] {
      return [], s;
    }
    var batch := NextBatch(s);
    var first, mid := RelayOnce(s, batch);
    assert mid.rows.Keys < s.rows.Keys by {
      assert batch[0] in batch && batch[0] in s.rows.Keys;
    }
    Fewer(mid.rows, s.rows);
    var rest, last := DrainUnlocked(mid);
    LeadsOn(s, first, mid, rest, last);
    return first + rest, last;
  }

  lemma Fewer(a: map<RowId, Event>, b: map<RowId, Event>)
    requires a.Keys < b.Keys
    ensures |a| < |b|
  {
    SmallerSet(a.Keys, b.Keys);
    assert |a.Keys| == |a| && |b.Keys| == |b|;
  }

  lemma SmallerSet(a: set<RowId>, b: set<RowId>)
    requires a < b
    ensures |a| < |b|
  {
    assert b == a + (b - a) && b - a != {};
    assert |b| == |a| + |b - a|;
  }

  /** From every state the outbox can reach, some steps of relays alone drain it: no visible row is left,
      and versions, updates in progress and the history of commits are what they were. */
  lemma OutboxCanBeDrained(s: Db) returns (steps: seq<Step>, s': Db)
    requires Inv(s)
    ensures Leads(s, steps, s') && s'.rows == map[] && SameUpdates(s, s') && Inv(s')
  {
    var first, mid := AbortAll(s);
    var rest, last := DrainUnlocked(mid);
    LeadsOn(s, first, mid, rest, last);
    LeadsKeeps(s, first + rest, last);
    return first + rest, last;
  }
}
