/**
  The transactional outbox: a book update and its invalidation row commit together; relays publish
  visible rows in id order and delete a row only in the transaction that saw it confirmed.

  A book is named by its tag.  Row ids come from a sequence and are drawn before the commit, so
  rows of different books become visible out of id order; rows of one book do not, because the
  book's row is locked from before the draw until the commit.
*/
module Outbox {
  import opened Events

  const BATCH_SIZE: nat := 100

  type RowId = nat
  type RelayId = nat

  datatype Row = Row(id: RowId, event: Event)

  /** An update in progress: the version it will give the book, the id of the book's own row, and
      its still invisible rows. */
  datatype Put = Put(version: nat, own: RowId, rows: map<RowId, Event>)

  /** A relay's transaction: its locked batch, of which the first `next` were confirmed. */
  datatype Tx = Tx(batch: seq<RowId>, next: nat, failed: bool)

  /** The id sequence with its history: the book whose update drew a row id, the row of an event id. */
  datatype Draws = Draws(nextId: RowId, drawnFor: map<RowId, string>, rowOf: map<string, RowId>)

  /** `locks` are the row locks held by relay transactions.  `strays` are relays whose database session
      has died: their locks are gone, but they go on publishing the batch they hold in memory.
      History: `committed` (every row ever committed) and `confirmed` (every confirmed publication, in
      order). */
  datatype Db = Db(
    initial: map<string, nat>,
    versions: map<string, nat>,
    rows: map<RowId, Event>,
    draws: Draws,
    puts: map<string, Put>,
    relays: map<RelayId, Tx>,
    locks: map<RowId, RelayId>,
    strays: map<RelayId, Tx>,
    committed: map<RowId, Event>,
    confirmed: seq<Row>)

  const LIST_TAG: string := "list:books"

  datatype Step =
    | PutBegin(book: string, genreChanged: bool, eventId: string, listEventId: string)
    | PutCommit(book: string)
    | PutAbort(book: string)
    | RelayBegin(relay: RelayId, batch: seq<RowId>)
    | RelayPublish(relay: RelayId, confirmed: bool)
    | RelayCommit(relay: RelayId)
    | RelayAbort(relay: RelayId)
    | SessionLost(relay: RelayId)
    | StrayPublish(relay: RelayId, confirmed: bool)
    | StrayEnd(relay: RelayId)

  predicate Ascending(batch: seq<RowId>) {
    forall i, j :: 0 <= i < j < |batch| ==> batch[i] < batch[j]
  }

  /** ORDER BY id LIMIT 100 FOR UPDATE SKIP LOCKED. */
  ghost predicate IsBatch(s: Db, batch: seq<RowId>) {
    && |batch| <= BATCH_SIZE && Ascending(batch)
    && (forall id :: id in batch ==> id in s.rows && id !in s.locks)
    && (forall id :: id in s.rows && id !in s.locks && id !in batch ==>
          |batch| == BATCH_SIZE && forall i :: 0 <= i < |batch| ==> batch[i] < id)
  }

  ghost predicate Enabled(s: Db, step: Step) {
    match step
    case PutBegin(book, _, eventId, listEventId) =>
      book in s.versions && book !in s.puts && eventId !in s.draws.rowOf && listEventId !in s.draws.rowOf &&
        eventId != listEventId
    case PutCommit(book) => book in s.puts && book in s.versions
    case PutAbort(book) => book in s.puts
    case RelayBegin(r, batch) => r !in s.relays && r !in s.strays && IsBatch(s, batch)
    case RelayPublish(r, _) =>
      && r in s.relays && !s.relays[r].failed && s.relays[r].next < |s.relays[r].batch|
      && s.relays[r].batch[s.relays[r].next] in s.rows
    case RelayCommit(r) =>
      r in s.relays && s.relays[r].next <= |s.relays[r].batch| &&
        (s.relays[r].failed || s.relays[r].next == |s.relays[r].batch|)
    case RelayAbort(r) => r in s.relays
    case SessionLost(r) => r in s.relays
    case StrayPublish(r, _) =>
      && r in s.strays && !s.strays[r].failed && s.strays[r].next < |s.strays[r].batch|
      && s.strays[r].batch[s.strays[r].next] in s.committed
    case StrayEnd(r) => r in s.strays
  }

  /** The rows an update inserts: the book's own tag at its new version, and an unversioned purge
      of the lists when the genre changed. */
  function NewRows(id: RowId, book: string, version: nat, genreChanged: bool, eventId: string,
                   listEventId: string): map<RowId, Event> {
    var own := map[id := Event(eventId, [book], [], version)];
    if genreChanged then own[id + 1 := Event(listEventId, [LIST_TAG], [], 0)] else own
  }

  /** Two ids are set aside for every update; gaps in the sequence change nothing. */
  function Drawn(d: Draws, book: string, eventId: string, listEventId: string): Draws {
    Draws(d.nextId + 2,
          d.drawnFor[d.nextId := book][d.nextId + 1 := book],
          d.rowOf[eventId := d.nextId][listEventId := d.nextId + 1])
  }

  function Apply(s: Db, step: Step): Db
    requires Enabled(s, step)
  {
    match step
    case PutBegin(book, genreChanged, eventId, listEventId) =>
      var version := s.versions[book] + 1;
      s.(puts := s.puts[book := Put(version, s.draws.nextId,
                                    NewRows(s.draws.nextId, book, version, genreChanged, eventId, listEventId))],
         draws := Drawn(s.draws, book, eventId, listEventId))
    case PutCommit(book) =>
      s.(versions := s.versions[book := s.puts[book].version],
         rows := s.rows + s.puts[book].rows,
         committed := s.committed + s.puts[book].rows,
         puts := s.puts - {book})
    case PutAbort(book) => s.(puts := s.puts - {book})
    case RelayBegin(r, batch) => Locked(s, r, batch)
    case RelayPublish(r, confirmed) => Published(s, r, confirmed)
    case RelayCommit(r) =>
      Released(Deleted(s, set id | id in s.relays[r].batch[..s.relays[r].next]), r)
    case RelayAbort(r) => Released(s, r)
    case SessionLost(r) => Lost(s, r)
    case StrayPublish(r, confirmed) => StrayPublished(s, r, confirmed)
    case StrayEnd(r) => Ended(s, r)
  }

  /** Relays leave versions, updates in progress and the history of commits alone. */
  ghost predicate SameUpdates(s: Db, s': Db) {
    && s'.initial == s.initial && s'.versions == s.versions && s'.draws == s.draws
    && s'.puts == s.puts && s'.committed == s.committed
  }

  function Locked(s: Db, r: RelayId, batch: seq<RowId>): (s': Db)
    ensures SameUpdates(s, s') && s'.confirmed == s.confirmed
  {
    s.(relays := s.relays[r := Tx(batch, 0, false)], locks := s.locks + map id | id in batch :: r)
  }

  function Published(s: Db, r: RelayId, confirmed: bool): (s': Db)
    requires Enabled(s, RelayPublish(r, confirmed))
    ensures SameUpdates(s, s') && (!confirmed ==> s'.confirmed == s.confirmed)
  {
    var tx := s.relays[r];
    var id := tx.batch[tx.next];
    if confirmed
    then s.(relays := s.relays[r := tx.(next := tx.next + 1)], confirmed := s.confirmed + [Row(id, s.rows[id])])
    else s.(relays := s.relays[r := tx.(failed := true)])
  }

  function Deleted(s: Db, ids: set<RowId>): (s': Db)
    ensures SameUpdates(s, s') && s'.confirmed == s.confirmed && s'.relays == s.relays
  {
    s.(rows := s.rows - ids)
  }

  /** The end of a relay's transaction gives its row locks back. */
  function Released(s: Db, r: RelayId): (s': Db)
    requires r in s.relays
    ensures SameUpdates(s, s') && s'.confirmed == s.confirmed
  {
    s.(relays := s.relays - {r}, locks := s.locks - set id | id in s.relays[r].batch)
  }

  /** The database session dies and with it the locks; the relay has not noticed. */
  function Lost(s: Db, r: RelayId): (s': Db)
    requires r in s.relays
    ensures SameUpdates(s, s') && s'.confirmed == s.confirmed
  {
    Released(s, r).(strays := s.strays[r := s.relays[r]])
  }

  function StrayPublished(s: Db, r: RelayId, confirmed: bool): (s': Db)
    requires Enabled(s, StrayPublish(r, confirmed))
    ensures SameUpdates(s, s') && (!confirmed ==> s'.confirmed == s.confirmed)
  {
    var tx := s.strays[r];
    var id := tx.batch[tx.next];
    if confirmed
    then s.(strays := s.strays[r := tx.(next := tx.next + 1)], confirmed := s.confirmed + [Row(id, s.committed[id])])
    else s.(strays := s.strays[r := tx.(failed := true)])
  }

  function Ended(s: Db, r: RelayId): (s': Db)
    ensures SameUpdates(s, s') && s'.confirmed == s.confirmed
  {
    s.(strays := s.strays - {r})
  }

  /** What a relay sends in this step, whether or not it gets a confirm. */
  function Publication(s: Db, step: Step): multiset<Event>
    requires Enabled(s, step)
  {
    match step
    case RelayPublish(r, _) => multiset{s.rows[s.relays[r].batch[s.relays[r].next]]}
    case StrayPublish(r, _) => multiset{s.committed[s.strays[r].batch[s.strays[r].next]]}
    case _ => multiset{}
  }

  ghost predicate Initial(s: Db) {
    && s.versions == s.initial && s.rows == map[] && s.puts == map[] && s.relays == map[] && s.locks == map[]
    && s.strays == map[] && s.draws == Draws(0, map[], map[]) && s.committed == map[] && s.confirmed == []
    && LIST_TAG !in s.versions
  }

  // ---- The invariant ----------------------------------------------------------------

  predicate OfBook(e: Event, book: string) {
    e.version > 0 && e.tags == [book] && e.keys == []
  }

  /** An unversioned event, or the event of one book at a version the book has reached. */
  predicate Legitimate(versions: map<string, nat>, e: Event) {
    || e.version == 0
    || (|e.tags| == 1 && e.keys == [] && e.tags[0] in versions && e.version <= versions[e.tags[0]])
  }

  predicate WasConfirmed(confirmed: seq<Row>, id: RowId) {
    exists p :: 0 <= p < |confirmed| && confirmed[p].id == id
  }

  predicate RowOk(d: Draws, id: RowId, e: Event) {
    && id < d.nextId && e.id in d.rowOf && d.rowOf[e.id] == id && id in d.drawnFor
    && e.tags == [if e.version > 0 then d.drawnFor[id] else LIST_TAG]
  }

  ghost predicate RowsOk(s: Db) {
    && s.versions.Keys == s.initial.Keys && LIST_TAG !in s.versions
    && (forall id :: id in s.rows ==> id in s.committed && s.committed[id] == s.rows[id])
    && (forall id :: id in s.committed ==>
        RowOk(s.draws, id, s.committed[id]) && Legitimate(s.versions, s.committed[id]))
  }

  ghost predicate PutOk(s: Db, book: string, put: Put) {
    && book in s.versions && put.version == s.versions[book] + 1
    && put.own in put.rows
    && (forall id :: id in put.rows ==>
          && RowOk(s.draws, id, put.rows[id]) && s.draws.drawnFor[id] == book && id !in s.committed
          && put.own <= id && put.rows[id].keys == []
          && (id == put.own <==> put.rows[id].version > 0)
          && (id == put.own ==> put.rows[id].version == put.version))
    && (forall id :: id in s.committed && id in s.draws.drawnFor && s.draws.drawnFor[id] == book ==> id < put.own)
  }

  ghost predicate PutsOk(s: Db)
    requires RowsOk(s)
  {
    forall b :: b in s.puts ==> PutOk(s, b, s.puts[b])
  }

  predicate HasRow(committed: map<RowId, Event>, book: string, version: nat) {
    exists id :: id in committed && OfBook(committed[id], book) && committed[id].version == version
  }

  /** The current version of a book came with a row of its own. */
  ghost predicate LatestHasRow(initial: map<string, nat>, versions: map<string, nat>, committed: map<RowId, Event>) {
    forall b :: b in versions && b in initial && versions[b] != initial[b] ==> HasRow(committed, b, versions[b])
  }

  ghost predicate TxOk(s: Db, r: RelayId, tx: Tx) {
    && tx.next <= |tx.batch| && Ascending(tx.batch)
    && (forall id :: id in tx.batch ==> id in s.rows && id in s.locks && s.locks[id] == r)
    && (forall i :: 0 <= i < tx.next ==> WasConfirmed(s.confirmed, tx.batch[i]))
  }

  ghost predicate RelaysOk(s: Db) {
    && (forall r :: r in s.relays ==> TxOk(s, r, s.relays[r]))
    && (forall id :: id in s.locks ==> s.locks[id] in s.relays && id in s.relays[s.locks[id]].batch)
  }

  ghost predicate StraysOk(s: Db) {
    forall r :: r in s.strays ==>
      var tx := s.strays[r];
      && tx.next <= |tx.batch| && (forall id :: id in tx.batch ==> id in s.committed)
      && (forall i :: 0 <= i < tx.next ==> WasConfirmed(s.confirmed, tx.batch[i]))
  }

  /** A row disappears only after it was confirmed. */
  ghost predicate AtLeastOnce(s: Db) {
    && (forall id :: id in s.committed ==> id in s.rows || WasConfirmed(s.confirmed, id))
    && (forall p :: 0 <= p < |s.confirmed| ==>
          s.confirmed[p].id in s.committed && s.committed[s.confirmed[p].id] == s.confirmed[p].event)
  }

  ghost predicate Inv(s: Db) {
    RowsOk(s) && PutsOk(s) && LatestHasRow(s.initial, s.versions, s.committed) && RelaysOk(s) && StraysOk(s) &&
      AtLeastOnce(s)
  }

  lemma InitialInv(s: Db)
    requires Initial(s)
    ensures Inv(s) && InOrder(s)
  {
  }

  /** Two committed rows never share an event id. */
  lemma EventIdsIdentifyRows(s: Db, id: RowId, other: RowId)
    requires Inv(s) && id in s.committed && other in s.committed
    requires s.committed[id].id == s.committed[other].id
    ensures id == other
  {
  }

  lemma DrawnKeepsRows(d: Draws, book: string, eventId: string, listEventId: string, id: RowId, e: Event)
    requires RowOk(d, id, e) && eventId !in d.rowOf && listEventId !in d.rowOf
    ensures var d' := Drawn(d, book, eventId, listEventId);
            RowOk(d', id, e) && d'.drawnFor[id] == d.drawnFor[id]
  {
  }

  lemma PutBeginRows(s: Db, book: string, genreChanged: bool, eventId: string, listEventId: string)
    requires RowsOk(s) && Enabled(s, PutBegin(book, genreChanged, eventId, listEventId))
    ensures RowsOk(Apply(s, PutBegin(book, genreChanged, eventId, listEventId)))
  {
  }

  lemma PutBeginOther(s: Db, book: string, genreChanged: bool, eventId: string, listEventId: string, b: string)
    requires RowsOk(s) && PutsOk(s) && Enabled(s, PutBegin(book, genreChanged, eventId, listEventId)) && b in s.puts
    ensures PutOk(Apply(s, PutBegin(book, genreChanged, eventId, listEventId)), b, s.puts[b])
  {
    var d' := Drawn(s.draws, book, eventId, listEventId);
    assert PutOk(s, b, s.puts[b]);
    forall id | id in s.committed
      ensures id in s.draws.drawnFor && d'.drawnFor[id] == s.draws.drawnFor[id]
    {
      assert RowOk(s.draws, id, s.committed[id]);
    }
    forall id | id in s.puts[b].rows
      ensures RowOk(d', id, s.puts[b].rows[id]) && d'.drawnFor[id] == b
    {
      DrawnKeepsRows(s.draws, book, eventId, listEventId, id, s.puts[b].rows[id]);
    }
  }

  lemma PutBeginOwn(s: Db, book: string, genreChanged: bool, eventId: string, listEventId: string)
    requires RowsOk(s) && Enabled(s, PutBegin(book, genreChanged, eventId, listEventId))
    ensures var s' := Apply(s, PutBegin(book, genreChanged, eventId, listEventId)); PutOk(s', book, s'.puts[book])
  {
    forall id | id in s.committed
      ensures id < s.draws.nextId
    {
      assert RowOk(s.draws, id, s.committed[id]);
    }
  }

  lemma PutBeginInv(s: Db, book: string, genreChanged: bool, eventId: string, listEventId: string)
    requires Inv(s) && Enabled(s, PutBegin(book, genreChanged, eventId, listEventId))
    ensures Inv(Apply(s, PutBegin(book, genreChanged, eventId, listEventId)))
  {
    var s' := Apply(s, PutBegin(book, genreChanged, eventId, listEventId));
    PutBeginRows(s, book, genreChanged, eventId, listEventId);
    forall b | b in s'.puts
      ensures PutOk(s', b, s'.puts[b])
    {
      if b == book {
        PutBeginOwn(s, book, genreChanged, eventId, listEventId);
      } else {
        PutBeginOther(s, book, genreChanged, eventId, listEventId, b);
      }
    }
    RelaysUntouched(s, s');
    StraysStay(s, s');
  }

  lemma RelaysUntouched(s: Db, s': Db)
    requires RelaysOk(s) && s'.relays == s.relays && s'.locks == s.locks
    requires s'.confirmed == s.confirmed && forall id :: id in s.rows ==> id in s'.rows
    ensures RelaysOk(s')
  {
  }

  lemma LegitimateStays(versions: map<string, nat>, book: string, version: nat, e: Event)
    requires Legitimate(versions, e) && book in versions && versions[book] <= version
    ensures Legitimate(versions[book := version], e)
  {
  }

  lemma CommitRowsOk(s: Db, book: string)
    requires RowsOk(s) && PutsOk(s) && book in s.puts
    ensures RowsOk(Apply(s, PutCommit(book)))
  {
    var put := s.puts[book];
    assert PutOk(s, book, put);
    var versions := s.versions[book := put.version];
    forall id | id in s.committed
      ensures Legitimate(versions, s.committed[id])
    {
      LegitimateStays(s.versions, book, put.version, s.committed[id]);
    }
    forall id | id in put.rows
      ensures RowOk(s.draws, id, put.rows[id]) && Legitimate(versions, put.rows[id])
    {
      assert RowOk(s.draws, id, put.rows[id]);
    }
    assert forall id :: id in s.committed ==> RowOk(s.draws, id, s.committed[id]);
    CommittedRows(s, book);
  }

  lemma CommittedRows(s: Db, book: string)
    requires RowsOk(s) && book in s.puts && book in s.versions
    requires forall id :: id in s.committed ==> Legitimate(s.versions[book := s.puts[book].version], s.committed[id])
    requires forall id :: id in s.puts[book].rows ==>
               RowOk(s.draws, id, s.puts[book].rows[id]) &&
                 Legitimate(s.versions[book := s.puts[book].version], s.puts[book].rows[id])
    ensures RowsOk(Apply(s, PutCommit(book)))
  {
  }

  lemma CommitPut(s: Db, book: string, b: string)
    requires RowsOk(s) && PutsOk(s) && book in s.puts && b in s.puts && b != book
    ensures PutOk(Apply(s, PutCommit(book)), b, s.puts[b])
  {
    assert PutOk(s, book, s.puts[book]) && PutOk(s, b, s.puts[b]);
    forall id | id in s.puts[b].rows
      ensures id !in s.puts[book].rows
    {
      assert s.draws.drawnFor[id] == b;
    }
  }

  lemma CommitPutsOk(s: Db, book: string)
    requires RowsOk(s) && PutsOk(s) && book in s.puts
    ensures RowsOk(Apply(s, PutCommit(book))) && PutsOk(Apply(s, PutCommit(book)))
  {
    CommitRowsOk(s, book);
    var s' := Apply(s, PutCommit(book));
    assert PutOk(s, book, s.puts[book]);
    forall b | b in s'.puts
      ensures PutOk(s', b, s'.puts[b])
    {
      CommitPut(s, book, b);
    }
  }

  /** The row an update commits for its book, and every row committed before. */
  lemma CommittedHasRow(s: Db, book: string)
    requires RowsOk(s) && PutsOk(s) && book in s.puts
    ensures HasRow(s.committed + s.puts[book].rows, book, s.puts[book].version)
    ensures forall id :: id in s.committed ==> (s.committed + s.puts[book].rows)[id] == s.committed[id]
  {
    var put := s.puts[book];
    assert PutOk(s, book, put);
    assert RowOk(s.draws, put.own, put.rows[put.own]);
    assert OfBook((s.committed + put.rows)[put.own], book);
  }

  lemma MoreRows(committed: map<RowId, Event>, more: map<RowId, Event>, b: string, version: nat)
    requires HasRow(committed, b, version) && forall id :: id in committed ==> id in more && more[id] == committed[id]
    ensures HasRow(more, b, version)
  {
  }

  lemma CommitLatest(s: Db, book: string)
    requires RowsOk(s) && PutsOk(s) && LatestHasRow(s.initial, s.versions, s.committed) && book in s.puts
    ensures LatestHasRow(s.initial, s.versions[book := s.puts[book].version], s.committed + s.puts[book].rows)
  {
    CommittedHasRow(s, book);
    var versions, committed := s.versions[book := s.puts[book].version], s.committed + s.puts[book].rows;
    forall b | b in versions && b in s.initial && versions[b] != s.initial[b]
      ensures HasRow(committed, b, versions[b])
    {
      if b != book {
        MoreRows(s.committed, committed, b, s.versions[b]);
      }
    }
  }

  lemma PutCommitInv(s: Db, book: string)
    requires Inv(s) && Enabled(s, PutCommit(book))
    ensures Inv(Apply(s, PutCommit(book)))
  {
    var s' := Apply(s, PutCommit(book));
    assert PutOk(s, book, s.puts[book]);
    CommitPutsOk(s, book);
    CommitLatest(s, book);
    RelaysUntouched(s, s');
    StraysStay(s, s');
  }

  predicate OfRelay(step: Step) {
    !step.PutBegin? && !step.PutCommit? && !step.PutAbort?
  }

  /** Relays leave versions, updates in progress and the history of commits alone. */
  lemma RelaysOnlyPublish(s: Db, step: Step)
    requires Enabled(s, step) && OfRelay(step)
    ensures SameUpdates(s, Apply(s, step))
  {
  }

  /** The only confirmation of a step is that of what it sends. */
  lemma ConfirmsWhatItSends(s: Db, step: Step)
    requires Enabled(s, step)
    ensures var confirmed := Apply(s, step).confirmed;
            || confirmed == s.confirmed
            || (&& (step.RelayPublish? || step.StrayPublish?) && step.confirmed
                && |confirmed| == |s.confirmed| + 1 && confirmed[..|s.confirmed|] == s.confirmed
                && confirmed[|s.confirmed|].event in Publication(s, step))
  {
  }

  /** The update side of the invariant does not look at relays, confirmations or visible rows. */
  lemma UpdatesUntouched(s: Db, s': Db)
    requires RowsOk(s) && PutsOk(s) && LatestHasRow(s.initial, s.versions, s.committed)
    requires s' == s.(rows := s'.rows, puts := s'.puts, relays := s'.relays, locks := s'.locks,
                      strays := s'.strays, confirmed := s'.confirmed)
    requires forall id :: id in s'.rows ==> id in s.rows && s'.rows[id] == s.rows[id]
    requires forall b :: b in s'.puts ==> b in s.puts && s'.puts[b] == s.puts[b]
    ensures RowsOk(s') && PutsOk(s') && LatestHasRow(s'.initial, s'.versions, s'.committed)
  {
    forall id | id in s'.committed
      ensures RowOk(s'.draws, id, s'.committed[id])
    {
      assert RowOk(s.draws, id, s.committed[id]);
    }
    forall b | b in s'.puts
      ensures PutOk(s', b, s'.puts[b])
    {
      assert PutOk(s, b, s.puts[b]);
      assert forall id :: id in s.puts[b].rows ==> RowOk(s.draws, id, s.puts[b].rows[id]);
    }
  }

  lemma PutAbortInv(s: Db, book: string)
    requires Inv(s) && Enabled(s, PutAbort(book))
    ensures Inv(Apply(s, PutAbort(book)))
  {
    var s' := Apply(s, PutAbort(book));
    UpdatesUntouched(s, s');
    RelaysUntouched(s, s');
  }

  lemma ConfirmedGrows(confirmed: seq<Row>, row: Row)
    ensures forall id :: WasConfirmed(confirmed + [row], id) <==> WasConfirmed(confirmed, id) || id == row.id
  {
    var more := confirmed + [row];
    assert more[|confirmed|] == row;
    forall id
      ensures WasConfirmed(more, id) <==> WasConfirmed(confirmed, id) || id == row.id
    {
      if WasConfirmed(confirmed, id) {
        var p :| 0 <= p < |confirmed| && confirmed[p].id == id;
        assert more[p].id == id;
      }
      if WasConfirmed(more, id) && id != row.id {
        var p :| 0 <= p < |more| && more[p].id == id;
        assert confirmed[p].id == id;
      }
    }
  }

  lemma BatchLocked(s: Db, r: RelayId, batch: seq<RowId>, q: RelayId)
    requires RelaysOk(s) && Enabled(s, RelayBegin(r, batch)) && q in Apply(s, RelayBegin(r, batch)).relays
    ensures var s' := Apply(s, RelayBegin(r, batch)); TxOk(s', q, s'.relays[q])
  {
    if q != r {
      assert TxOk(s, q, s.relays[q]);
    }
  }

  lemma RelayBeginRelays(s: Db, r: RelayId, batch: seq<RowId>)
    requires RelaysOk(s) && Enabled(s, RelayBegin(r, batch))
    ensures RelaysOk(Apply(s, RelayBegin(r, batch)))
  {
    var s' := Apply(s, RelayBegin(r, batch));
    forall q | q in s'.relays
      ensures TxOk(s', q, s'.relays[q])
    {
      BatchLocked(s, r, batch, q);
    }
    LocksBegin(s, r, batch);
  }

  lemma RelayBeginInv(s: Db, r: RelayId, batch: seq<RowId>)
    requires Inv(s) && Enabled(s, RelayBegin(r, batch))
    ensures Inv(Apply(s, RelayBegin(r, batch)))
  {
    UpdatesUntouched(s, Apply(s, RelayBegin(r, batch)));
    RelayBeginRelays(s, r, batch);
  }

  lemma LocksBegin(s: Db, r: RelayId, batch: seq<RowId>)
    requires RelaysOk(s) && Enabled(s, RelayBegin(r, batch))
    ensures var s' := Apply(s, RelayBegin(r, batch));
            forall id :: id in s'.locks ==> s'.locks[id] in s'.relays && id in s'.relays[s'.locks[id]].batch
  {
  }

  lemma PublishRelays(s: Db, r: RelayId, confirmed: bool)
    requires RelaysOk(s) && Enabled(s, RelayPublish(r, confirmed))
    ensures RelaysOk(Apply(s, RelayPublish(r, confirmed)))
  {
    var s' := Apply(s, RelayPublish(r, confirmed));
    forall q | q in s.relays
      ensures TxOk(s', q, s'.relays[q])
    {
      PublishTx(s, r, confirmed, q);
    }
  }

  lemma RelayPublishInv(s: Db, r: RelayId, confirmed: bool)
    requires Inv(s) && Enabled(s, RelayPublish(r, confirmed))
    ensures Inv(Apply(s, RelayPublish(r, confirmed)))
  {
    var s' := Apply(s, RelayPublish(r, confirmed));
    UpdatesUntouched(s, s');
    PublishRelays(s, r, confirmed);
    if confirmed {
      var tx := s.relays[r];
      ConfirmedGrows(s.confirmed, Row(tx.batch[tx.next], s.rows[tx.batch[tx.next]]));
      RelayConfirms(s, s', tx.batch[tx.next]);
    }
    StraysStay(s, s');
  }

  lemma StraysStay(s: Db, s': Db)
    requires StraysOk(s) && s'.strays == s.strays
    requires forall id :: id in s.committed ==> id in s'.committed
    requires forall id :: WasConfirmed(s.confirmed, id) ==> WasConfirmed(s'.confirmed, id)
    ensures StraysOk(s')
  {
  }

  lemma PublishTx(s: Db, r: RelayId, confirmed: bool, q: RelayId)
    requires RelaysOk(s) && Enabled(s, RelayPublish(r, confirmed)) && q in s.relays
    ensures var s' := Apply(s, RelayPublish(r, confirmed)); TxOk(s', q, s'.relays[q])
  {
    var tx := s.relays[r];
    assert TxOk(s, r, tx) && TxOk(s, q, s.relays[q]);
    ConfirmedGrows(s.confirmed, Row(tx.batch[tx.next], s.rows[tx.batch[tx.next]]));
  }

  /** One more confirmation of a committed row. */
  lemma RelayConfirms(s: Db, s': Db, id: RowId)
    requires AtLeastOnce(s) && id in s.committed
    requires s'.rows == s.rows && s'.committed == s.committed
    requires s'.confirmed == s.confirmed + [Row(id, s.committed[id])]
    ensures AtLeastOnce(s')
  {
    ConfirmedGrows(s.confirmed, Row(id, s.committed[id]));
  }

  lemma SessionLostStrays(s: Db, r: RelayId)
    requires RowsOk(s) && StraysOk(s) && Enabled(s, SessionLost(r)) && TxOk(s, r, s.relays[r])
    ensures StraysOk(Apply(s, SessionLost(r)))
  {
  }

  lemma SessionLostRelays(s: Db, r: RelayId)
    requires RelaysOk(s) && Enabled(s, SessionLost(r))
    ensures RelaysOk(Apply(s, SessionLost(r)))
  {
    assert Deleted(s, {}) == s;
    ReleasedRelays(s, r, {});
    RelaysUntouched(Released(s, r), Apply(s, SessionLost(r)));
  }

  lemma SessionLostInv(s: Db, r: RelayId)
    requires Inv(s) && Enabled(s, SessionLost(r))
    ensures Inv(Apply(s, SessionLost(r)))
  {
    UpdatesUntouched(s, Apply(s, SessionLost(r)));
    SessionLostRelays(s, r);
    assert TxOk(s, r, s.relays[r]);
    SessionLostStrays(s, r);
  }

  lemma StrayPublishRelays(s: Db, r: RelayId, confirmed: bool)
    requires RelaysOk(s) && StraysOk(s) && Enabled(s, StrayPublish(r, confirmed))
    ensures RelaysOk(Apply(s, StrayPublish(r, confirmed))) && StraysOk(Apply(s, StrayPublish(r, confirmed)))
  {
    var s', tx := Apply(s, StrayPublish(r, confirmed)), s.strays[r];
    ConfirmedGrows(s.confirmed, Row(tx.batch[tx.next], s.committed[tx.batch[tx.next]]));
    forall q | q in s'.relays
      ensures TxOk(s', q, s'.relays[q])
    {
      assert TxOk(s, q, s.relays[q]);
    }
  }

  lemma StrayPublishInv(s: Db, r: RelayId, confirmed: bool)
    requires Inv(s) && Enabled(s, StrayPublish(r, confirmed))
    ensures Inv(Apply(s, StrayPublish(r, confirmed)))
  {
    var s', tx := Apply(s, StrayPublish(r, confirmed)), s.strays[r];
    UpdatesUntouched(s, s');
    StrayPublishRelays(s, r, confirmed);
    if confirmed {
      RelayConfirms(s, s', tx.batch[tx.next]);
    }
  }

  lemma StrayEndInv(s: Db, r: RelayId)
    requires Inv(s) && Enabled(s, StrayEnd(r))
    ensures Inv(Apply(s, StrayEnd(r)))
  {
    var s' := Apply(s, StrayEnd(r));
    UpdatesUntouched(s, s');
    RelaysUntouched(s, s');
  }

  lemma ReleasedInv(s: Db, r: RelayId, gone: set<RowId>)
    requires Inv(s) && r in s.relays
    requires forall id :: id in gone ==> id in s.relays[r].batch && WasConfirmed(s.confirmed, id)
    ensures Inv(Released(Deleted(s, gone), r))
  {
    UpdatesUntouched(s, Released(Deleted(s, gone), r));
    ReleasedRelays(s, r, gone);
    StraysStay(s, Released(Deleted(s, gone), r));
  }

  lemma ReleasedRelays(s: Db, r: RelayId, gone: set<RowId>)
    requires RelaysOk(s) && r in s.relays
    requires forall id :: id in gone ==> id in s.relays[r].batch
    ensures RelaysOk(Released(Deleted(s, gone), r))
  {
    var s' := Released(Deleted(s, gone), r);
    forall q | q in s'.relays
      ensures TxOk(s', q, s'.relays[q])
    {
      ReleasedTx(s, r, gone, q);
    }
  }

  lemma ReleasedTx(s: Db, r: RelayId, gone: set<RowId>, q: RelayId)
    requires RelaysOk(s) && r in s.relays && q in s.relays && q != r
    requires forall id :: id in gone ==> id in s.relays[r].batch
    ensures TxOk(Released(Deleted(s, gone), r), q, s.relays[q])
  {
  }

  lemma RelayCommitInv(s: Db, r: RelayId)
    requires Inv(s) && Enabled(s, RelayCommit(r))
    ensures Inv(Apply(s, RelayCommit(r)))
  {
    var tx := s.relays[r];
    var gone := set id | id in tx.batch[..tx.next];
    assert TxOk(s, r, tx);
    forall id | id in gone
      ensures id in tx.batch && WasConfirmed(s.confirmed, id)
    {
      var i :| 0 <= i < tx.next && tx.batch[i] == id;
    }
    ReleasedInv(s, r, gone);
  }

  lemma RelayAbortInv(s: Db, r: RelayId)
    requires Inv(s) && Enabled(s, RelayAbort(r))
    ensures Inv(Apply(s, RelayAbort(r)))
  {
    ReleasedInv(s, r, {});
    assert Deleted(s, {}) == s;
  }

  /** Every step of updates and relays — failures, crashes, aborted commits and relays that publish
      after their database session has died included — keeps the outbox sound: in particular no
      committed row vanishes unconfirmed. */
  lemma StepInv(s: Db, step: Step)
    requires Inv(s) && Enabled(s, step)
    ensures Inv(Apply(s, step))
  {
    match step
    case PutBegin(book, genreChanged, eventId, listEventId) => PutBeginInv(s, book, genreChanged, eventId, listEventId);
    case PutCommit(book) => PutCommitInv(s, book);
    case PutAbort(book) => PutAbortInv(s, book);
    case RelayBegin(r, batch) => RelayBeginInv(s, r, batch);
    case RelayPublish(r, confirmed) => RelayPublishInv(s, r, confirmed);
    case RelayCommit(r) => RelayCommitInv(s, r);
    case RelayAbort(r) => RelayAbortInv(s, r);
    case SessionLost(r) => SessionLostInv(s, r);
    case StrayPublish(r, confirmed) => StrayPublishInv(s, r, confirmed);
    case StrayEnd(r) => StrayEndInv(s, r);
  }

  // ---- Order ------------------------------------------------------------------------

  predicate EarlierOfBook(e: Event, f: Event) {
    e.version > 0 && e.tags == f.tags && e.keys == f.keys && e.version < f.version
  }

  /** Rows of one book were drawn in version order. */
  ghost predicate DrawnInOrder(s: Db) {
    forall id, other ::
      id in s.committed && other in s.committed && EarlierOfBook(s.committed[id], s.committed[other]) ==> id < other
  }

  /** Before row `i` of the batch, every earlier row of its book is in the batch or confirmed. */
  ghost predicate TxOrdered(s: Db, tx: Tx) {
    forall i, id :: 0 <= i < |tx.batch| && id in s.committed && tx.batch[i] in s.committed &&
                    EarlierOfBook(s.committed[id], s.committed[tx.batch[i]]) ==>
      id in tx.batch[..i] || WasConfirmed(s.confirmed, id)
  }

  /** Whenever a version of a book is confirmed, all its earlier versions have been before. */
  ghost predicate ConfirmedInOrder(s: Db) {
    forall p, id ::
      0 <= p < |s.confirmed| && id in s.committed && EarlierOfBook(s.committed[id], s.confirmed[p].event) ==>
        WasConfirmed(s.confirmed[..p], id)
  }

  ghost predicate InOrder(s: Db) {
    && DrawnInOrder(s) && ConfirmedInOrder(s)
    && (forall r :: r in s.relays ==> TxOrdered(s, s.relays[r]))
    && (forall r :: r in s.strays ==> TxOrdered(s, s.strays[r]))
  }

  /** SKIP LOCKED leaves out a row that is not confirmed yet and is an earlier version of a book
      whose later version is in the batch. */
  ghost predicate Overtakes(s: Db, batch: seq<RowId>) {
    exists id, i ::
      && id in s.rows && id in s.locks && !WasConfirmed(s.confirmed, id)
      && 0 <= i < |batch| && batch[i] in s.rows && EarlierOfBook(s.rows[id], s.rows[batch[i]])
  }

  /** A newly committed version of a book follows all its earlier ones. */
  lemma NewIsLatest(s: Db, book: string, id: RowId, other: RowId)
    requires Inv(s) && DrawnInOrder(s) && Enabled(s, PutCommit(book))
    requires var s' := Apply(s, PutCommit(book));
             id in s'.committed && other in s'.committed && EarlierOfBook(s'.committed[id], s'.committed[other])
    ensures id < other
    ensures other in s.committed ==> id in s.committed
  {
    var put := s.puts[book];
    assert PutOk(s, book, put);
    if other in put.rows {
      assert other == put.own;
      assert id !in put.rows;
      assert RowOk(s.draws, id, s.committed[id]) && RowOk(s.draws, other, put.rows[other]);
      assert s.committed[id].tags[0] == put.rows[other].tags[0];
    } else {
      assert RowOk(s.draws, other, s.committed[other]) && Legitimate(s.versions, s.committed[other]);
      assert id in put.rows ==> RowOk(s.draws, id, put.rows[id]);
      assert id !in put.rows;
    }
  }

  lemma PutCommitDrawn(s: Db, book: string)
    requires Inv(s) && DrawnInOrder(s) && Enabled(s, PutCommit(book))
    ensures DrawnInOrder(Apply(s, PutCommit(book)))
  {
    var s' := Apply(s, PutCommit(book));
    forall id, other | id in s'.committed && other in s'.committed &&
      EarlierOfBook(s'.committed[id], s'.committed[other])
      ensures id < other
    {
      NewIsLatest(s, book, id, other);
    }
  }

  lemma PutCommitInOrder(s: Db, book: string)
    requires Inv(s) && InOrder(s) && Enabled(s, PutCommit(book))
    ensures InOrder(Apply(s, PutCommit(book)))
  {
    var s' := Apply(s, PutCommit(book));
    PutCommitDrawn(s, book);
    forall r | r in s'.relays
      ensures TxOrdered(s', s'.relays[r])
    {
      assert TxOk(s, r, s.relays[r]);
      PutCommitTxOrdered(s, book, s.relays[r]);
    }
    forall r | r in s'.strays
      ensures TxOrdered(s', s'.strays[r])
    {
      PutCommitTxOrdered(s, book, s.strays[r]);
    }
    PutCommitConfirmed(s, book);
  }

  lemma Unaffected(s: Db, book: string)
    requires Inv(s) && Enabled(s, PutCommit(book))
    ensures forall id :: id in s.committed ==> id !in s.puts[book].rows
  {
  }

  lemma PutCommitTxOrdered(s: Db, book: string, tx: Tx)
    requires Inv(s) && DrawnInOrder(s) && Enabled(s, PutCommit(book)) && TxOrdered(s, tx)
    requires forall id :: id in tx.batch ==> id in s.committed
    ensures TxOrdered(Apply(s, PutCommit(book)), tx)
  {
    var s' := Apply(s, PutCommit(book));
    Unaffected(s, book);
    forall i, id | 0 <= i < |tx.batch| && id in s'.committed && tx.batch[i] in s'.committed &&
                   EarlierOfBook(s'.committed[id], s'.committed[tx.batch[i]])
      ensures id in tx.batch[..i] || WasConfirmed(s.confirmed, id)
    {
      assert tx.batch[i] in s.committed;
      NewIsLatest(s, book, id, tx.batch[i]);
    }
  }

  lemma PutCommitConfirmed(s: Db, book: string)
    requires Inv(s) && DrawnInOrder(s) && Enabled(s, PutCommit(book)) && ConfirmedInOrder(s)
    ensures ConfirmedInOrder(Apply(s, PutCommit(book)))
  {
  }

  /** A freshly locked batch is in order exactly if it overtakes no locked row. */
  lemma BatchOrderedIff(s: Db, batch: seq<RowId>)
    requires Inv(s) && DrawnInOrder(s) && IsBatch(s, batch)
    ensures TxOrdered(s, Tx(batch, 0, false)) <==> !Overtakes(s, batch)
  {
    if Overtakes(s, batch) {
      var id, i :|
        && id in s.rows && id in s.locks && !WasConfirmed(s.confirmed, id)
        && 0 <= i < |batch| && batch[i] in s.rows && EarlierOfBook(s.rows[id], s.rows[batch[i]]);
      assert id !in batch[..i];
    } else {
      forall i, id | 0 <= i < |batch| && id in s.committed && batch[i] in s.committed &&
                     EarlierOfBook(s.committed[id], s.committed[batch[i]])
        ensures id in batch[..i] || WasConfirmed(s.confirmed, id)
      {
        if id in s.rows && id !in s.locks {
          assert id < batch[i];
          assert id in batch;
          var j :| 0 <= j < |batch| && batch[j] == id;
          assert batch[..i][j] == id;
        }
      }
    }
  }

  lemma RelayBeginInOrder(s: Db, r: RelayId, batch: seq<RowId>)
    requires Inv(s) && InOrder(s) && Enabled(s, RelayBegin(r, batch)) && !Overtakes(s, batch)
    ensures InOrder(Apply(s, RelayBegin(r, batch)))
  {
    var s' := Apply(s, RelayBegin(r, batch));
    BatchOrderedIff(s, batch);
    forall q | q in s'.relays
      ensures TxOrdered(s', s'.relays[q])
    {
      assert TxOrdered(s, s'.relays[q]);
    }
  }

  /** The next row of an ordered batch is confirmed, whether or not its relay still holds the locks. */
  ghost predicate ConfirmsNext(s: Db, s': Db, tx: Tx) {
    && tx.next < |tx.batch| && tx.batch[tx.next] in s.committed
    && (forall i :: 0 <= i < tx.next ==> WasConfirmed(s.confirmed, tx.batch[i]))
    && s'.committed == s.committed
    && s'.confirmed == s.confirmed + [Row(tx.batch[tx.next], s.committed[tx.batch[tx.next]])]
  }

  lemma ConfirmKeepsOrder(s: Db, s': Db, tx: Tx)
    requires ConfirmedInOrder(s) && TxOrdered(s, tx) && ConfirmsNext(s, s', tx)
    ensures ConfirmedInOrder(s')
  {
    var confirmed := s'.confirmed;
    forall p, id | 0 <= p < |confirmed| && id in s.committed && EarlierOfBook(s.committed[id], confirmed[p].event)
      ensures WasConfirmed(confirmed[..p], id)
    {
      if p < |s.confirmed| {
        assert confirmed[..p] == s.confirmed[..p] && confirmed[p] == s.confirmed[p];
      } else {
        assert confirmed[..p] == s.confirmed;
        if id in tx.batch[..tx.next] {
          var j :| 0 <= j < tx.next && tx.batch[j] == id;
          assert WasConfirmed(s.confirmed, tx.batch[j]);
        }
      }
    }
  }

  lemma NextConfirmed(s: Db, s': Db, tx: Tx)
    requires ConfirmedInOrder(s) && TxOrdered(s, tx) && ConfirmsNext(s, s', tx)
    ensures ConfirmedInOrder(s') && forall id :: WasConfirmed(s.confirmed, id) ==> WasConfirmed(s'.confirmed, id)
  {
    ConfirmKeepsOrder(s, s', tx);
    ConfirmedGrows(s.confirmed, Row(tx.batch[tx.next], s.committed[tx.batch[tx.next]]));
  }

  /** More confirmations leave an ordered batch in order. */
  lemma TxStaysOrdered(s: Db, s': Db, tx: Tx, tx': Tx)
    requires TxOrdered(s, tx) && tx'.batch == tx.batch && s'.committed == s.committed
    requires forall id :: WasConfirmed(s.confirmed, id) ==> WasConfirmed(s'.confirmed, id)
    ensures TxOrdered(s', tx')
  {
  }

  /** Publishing changes no batch and takes no confirmation back. */
  lemma PublishedInOrder(s: Db, s': Db)
    requires InOrder(s) && ConfirmedInOrder(s') && s'.committed == s.committed
    requires forall id :: WasConfirmed(s.confirmed, id) ==> WasConfirmed(s'.confirmed, id)
    requires forall r :: r in s'.relays ==> r in s.relays && s'.relays[r].batch == s.relays[r].batch
    requires forall r :: r in s'.strays ==> r in s.strays && s'.strays[r].batch == s.strays[r].batch
    ensures InOrder(s')
  {
    forall r | r in s'.relays
      ensures TxOrdered(s', s'.relays[r])
    {
      TxStaysOrdered(s, s', s.relays[r], s'.relays[r]);
    }
    forall r | r in s'.strays
      ensures TxOrdered(s', s'.strays[r])
    {
      TxStaysOrdered(s, s', s.strays[r], s'.strays[r]);
    }
  }

  lemma RelayConfirmsNext(s: Db, r: RelayId)
    requires RowsOk(s) && RelaysOk(s) && Enabled(s, RelayPublish(r, true))
    ensures ConfirmsNext(s, Apply(s, RelayPublish(r, true)), s.relays[r])
  {
    assert TxOk(s, r, s.relays[r]);
  }

  lemma PublishingKeepsBatches(s: Db, r: RelayId, confirmed: bool)
    requires Enabled(s, RelayPublish(r, confirmed))
    ensures var s' := Apply(s, RelayPublish(r, confirmed));
            && s'.strays == s.strays && s'.relays.Keys == s.relays.Keys
            && forall q :: q in s.relays ==> s'.relays[q].batch == s.relays[q].batch
  {
  }

  lemma RelayPublishInOrder(s: Db, r: RelayId, confirmed: bool)
    requires RowsOk(s) && RelaysOk(s) && InOrder(s) && Enabled(s, RelayPublish(r, confirmed))
    ensures InOrder(Apply(s, RelayPublish(r, confirmed)))
  {
    var s', tx := Apply(s, RelayPublish(r, confirmed)), s.relays[r];
    if confirmed {
      RelayConfirmsNext(s, r);
      NextConfirmed(s, s', tx);
    }
    PublishingKeepsBatches(s, r, confirmed);
    PublishedInOrder(s, s');
  }

  lemma StrayPublishInOrder(s: Db, r: RelayId, confirmed: bool)
    requires StraysOk(s) && InOrder(s) && Enabled(s, StrayPublish(r, confirmed))
    ensures InOrder(Apply(s, StrayPublish(r, confirmed)))
  {
    var s', tx := Apply(s, StrayPublish(r, confirmed)), s.strays[r];
    if confirmed {
      NextConfirmed(s, s', tx);
    }
    PublishedInOrder(s, s');
  }

  /** Order looks only at committed and confirmed rows and at the batches in progress. */
  lemma OrderKept(s: Db, s': Db)
    requires InOrder(s) && s'.committed == s.committed && s'.confirmed == s.confirmed
    requires forall r :: r in s'.relays ==> r in s.relays && s'.relays[r] == s.relays[r]
    requires forall r :: r in s'.strays ==>
               (r in s.strays && s'.strays[r] == s.strays[r]) || (r in s.relays && s'.strays[r] == s.relays[r])
    ensures InOrder(s')
  {
  }

  /** Steps that commit, lock and confirm nothing. */
  lemma QuietInOrder(s: Db, step: Step)
    requires InOrder(s) && Enabled(s, step)
    requires !step.PutCommit? && !step.RelayBegin? && !step.RelayPublish? && !step.StrayPublish?
    ensures InOrder(Apply(s, step))
  {
    OrderKept(s, Apply(s, step));
  }

  /** Rows of a book are drawn in version order whatever the relays do. */
  lemma StepDrawn(s: Db, step: Step)
    requires Inv(s) && DrawnInOrder(s) && Enabled(s, step)
    ensures DrawnInOrder(Apply(s, step))
  {
    if OfRelay(step) {
      RelaysOnlyPublish(s, step);
    } else if step.PutCommit? {
      PutCommitDrawn(s, step.book);
    }
  }

  /** Every step of any number of relays keeps the order, as long as no batch overtakes.  A relay that
      publishes on after its session has died does no harm to it. */
  lemma StepInOrder(s: Db, step: Step)
    requires Inv(s) && InOrder(s) && Enabled(s, step)
    requires step.RelayBegin? ==> !Overtakes(s, step.batch)
    ensures InOrder(Apply(s, step))
  {
    match step
    case PutCommit(book) => PutCommitInOrder(s, book);
    case RelayBegin(r, batch) => RelayBeginInOrder(s, r, batch);
    case RelayPublish(r, confirmed) => RelayPublishInOrder(s, r, confirmed);
    case StrayPublish(r, confirmed) => StrayPublishInOrder(s, r, confirmed);
    case _ => QuietInOrder(s, step);
  }

  // ---- Exactly when a batch keeps the order -----------------------------------------

  /** The relay can go on publishing `n` rows of its batch. */
  predicate CanSend(s: Db, r: RelayId, n: nat) {
    && r in s.relays && !s.relays[r].failed && s.relays[r].next + n <= |s.relays[r].batch|
    && (forall id :: id in s.relays[r].batch ==> id in s.rows)
  }

  function RowsOf(rows: map<RowId, Event>, ids: seq<RowId>): (r: seq<Row>)
    requires forall id :: id in ids ==> id in rows
    ensures |r| == |ids| && forall i :: 0 <= i < |ids| ==> r[i] == Row(ids[i], rows[ids[i]])
  {
    seq(|ids|, i requires 0 <= i < |ids| => Row(ids[i], rows[ids[i]]))
  }

  /** The state after the next `n` rows of the relay's batch have been confirmed. */
  function Sent(s: Db, r: RelayId, n: nat): (s': Db)
    requires CanSend(s, r, n)
    ensures s'.relays == s.relays[r := s.relays[r].(next := s.relays[r].next + n)]
    ensures s'.rows == s.rows && s'.committed == s.committed
    ensures s'.confirmed == s.confirmed + RowsOf(s.rows, s.relays[r].batch[s.relays[r].next..s.relays[r].next + n])
  {
    if n == 0 then
      assert s.relays[r := s.relays[r].(next := s.relays[r].next)] == s.relays;
      s
    else Apply(Sent(s, r, n - 1), RelayPublish(r, true))
  }

  lemma {:induction false} SentInOrder(s: Db, r: RelayId, n: nat)
    requires Inv(s) && InOrder(s) && CanSend(s, r, n)
    ensures Inv(Sent(s, r, n)) && InOrder(Sent(s, r, n))
  {
    if n > 0 {
      SentInOrder(s, r, n - 1);
      StepInv(Sent(s, r, n - 1), RelayPublish(r, true));
      StepInOrder(Sent(s, r, n - 1), RelayPublish(r, true));
    }
  }

  lemma NotAmong(confirmed: seq<Row>, rows: map<RowId, Event>, ids: seq<RowId>, id: RowId)
    requires (forall x :: x in ids ==> x in rows) && id !in ids && !WasConfirmed(confirmed, id)
    ensures !WasConfirmed(confirmed + RowsOf(rows, ids), id)
  {
    forall q | 0 <= q < |confirmed| + |ids|
      ensures (confirmed + RowsOf(rows, ids))[q].id != id
    {
      if q < |confirmed| {
        assert confirmed[q].id != id;
      } else {
        assert RowsOf(rows, ids)[q - |confirmed|].id == ids[q - |confirmed|];
      }
    }
  }

  /** When row `i` of a batch is confirmed, a row outside the batch is as unconfirmed as before. */
  lemma MissingBefore(confirmed: seq<Row>, rows: map<RowId, Event>, batch: seq<RowId>, i: nat, id: RowId)
    requires (forall x :: x in batch ==> x in rows) && id !in batch && !WasConfirmed(confirmed, id) && i < |batch|
    ensures var c, p := confirmed + RowsOf(rows, batch[..i + 1]), |confirmed| + i;
            p < |c| && c[p] == Row(batch[i], rows[batch[i]]) && !WasConfirmed(c[..p], id)
  {
    NotAmong(confirmed, rows, batch[..i], id);
    var c, p := confirmed + RowsOf(rows, batch[..i + 1]), |confirmed| + i;
    assert c[..p] == confirmed + RowsOf(rows, batch[..i]);
  }

  /** The overtaken version is missing when the overtaking one is confirmed. */
  lemma OvertakingBreaksOrder(s: Db, r: RelayId, batch: seq<RowId>, id: RowId, i: nat)
    requires RowsOk(s) && Enabled(s, RelayBegin(r, batch))
    requires id in s.rows && id in s.locks && !WasConfirmed(s.confirmed, id)
    requires i < |batch| && EarlierOfBook(s.rows[id], s.rows[batch[i]])
    ensures CanSend(Apply(s, RelayBegin(r, batch)), r, i + 1)
    ensures !ConfirmedInOrder(Sent(Apply(s, RelayBegin(r, batch)), r, i + 1))
  {
    var locked := Apply(s, RelayBegin(r, batch));
    var s' := Sent(locked, r, i + 1);
    assert locked.relays[r].batch[0..i + 1] == batch[..i + 1];
    MissingBefore(s.confirmed, s.rows, batch, i, id);
    assert EarlierOfBook(s'.committed[id], s'.confirmed[|s.confirmed| + i].event);
  }

  /** In a state that is in order, publishing a batch keeps the order, however far it gets, if and
      only if the batch overtakes nothing when it is locked.  The relay can tell at its query. */
  lemma BatchKeepsOrderIff(s: Db, r: RelayId, batch: seq<RowId>)
    requires Inv(s) && InOrder(s) && Enabled(s, RelayBegin(r, batch))
    ensures var locked := Apply(s, RelayBegin(r, batch));
            && (forall n: nat :: n <= |batch| ==> CanSend(locked, r, n))
            && ((forall n: nat :: n <= |batch| ==> ConfirmedInOrder(Sent(locked, r, n))) <==> !Overtakes(s, batch))
  {
    var locked := Apply(s, RelayBegin(r, batch));
    if Overtakes(s, batch) {
      var id, i: nat :|
        && id in s.rows && id in s.locks && !WasConfirmed(s.confirmed, id)
        && i < |batch| && batch[i] in s.rows && EarlierOfBook(s.rows[id], s.rows[batch[i]]);
      OvertakingBreaksOrder(s, r, batch, id, i);
    } else {
      StepInv(s, RelayBegin(r, batch));
      RelayBeginInOrder(s, r, batch);
      forall n: nat | n <= |batch|
        ensures ConfirmedInOrder(Sent(locked, r, n))
      {
        SentInOrder(locked, r, n);
      }
    }
  }

  // ---- Whole runs -------------------------------------------------------------------

  ghost predicate Behaviour(states: seq<Db>, steps: seq<Step>) {
    && |states| == |steps| + 1 && Initial(states[0])
    && (forall i {:trigger steps[i]} :: 0 <= i < |steps| ==>
          Enabled(states[i], steps[i]) && states[i + 1] == Apply(states[i], steps[i]))
  }

  lemma {:induction false} BehaviourInv(states: seq<Db>, steps: seq<Step>, j: nat)
    requires Behaviour(states, steps) && j < |states|
    ensures Inv(states[j]) && DrawnInOrder(states[j])
  {
    if j == 0 {
      InitialInv(states[0]);
    } else {
      BehaviourInv(states, steps, j - 1);
      assert steps[j - 1] == steps[j - 1];
      StepInv(states[j - 1], steps[j - 1]);
      StepDrawn(states[j - 1], steps[j - 1]);
    }
  }

  /** Up to state `j` no batch overtook a locked row. */
  ghost predicate NothingOvertaken(states: seq<Db>, steps: seq<Step>, j: nat)
    requires j < |states| == |steps| + 1
  {
    forall i :: 0 <= i < j && steps[i].RelayBegin? ==> !Overtakes(states[i], steps[i].batch)
  }

  lemma {:induction false} RunInOrder(states: seq<Db>, steps: seq<Step>, j: nat)
    requires Behaviour(states, steps) && j < |states| && NothingOvertaken(states, steps, j)
    ensures InOrder(states[j])
  {
    if j == 0 {
      InitialInv(states[0]);
    } else {
      RunInOrder(states, steps, j - 1);
      BehaviourInv(states, steps, j - 1);
      assert steps[j - 1] == steps[j - 1];
      StepInOrder(states[j - 1], steps[j - 1]);
    }
  }

  /** In every reachable state a committed row is still in the table or its own event has been
      confirmed.  With any number of relays, as long as no batch overtook a locked row, the first
      confirmed publications of every book come in increasing version order. */
  lemma OutboxDelivers(states: seq<Db>, steps: seq<Step>, j: nat)
    requires Behaviour(states, steps) && j < |states|
    ensures var s := states[j];
            && (forall id :: id in s.committed && id !in s.rows ==>
                  exists p :: 0 <= p < |s.confirmed| && s.confirmed[p] == Row(id, s.committed[id]))
            && (NothingOvertaken(states, steps, j) ==> ConfirmedInOrder(s))
  {
    BehaviourInv(states, steps, j);
    var s := states[j];
    forall id | id in s.committed && id !in s.rows
      ensures exists p :: 0 <= p < |s.confirmed| && s.confirmed[p] == Row(id, s.committed[id])
    {
      var p :| 0 <= p < |s.confirmed| && s.confirmed[p].id == id;
      assert s.confirmed[p] == Row(id, s.committed[id]);
    }
    if NothingOvertaken(states, steps, j) {
      RunInOrder(states, steps, j);
    }
  }

  lemma AloneOvertakesNothing(s: Db, batch: seq<RowId>)
    requires Inv(s) && s.relays == map[]
    ensures !Overtakes(s, batch)
  {
    assert forall id :: id in s.locks ==> s.locks[id] in s.relays;
  }

  /** One relay transaction at a time, of whichever relay, always keeps the order. */
  lemma OneAtATimeKeepsOrder(states: seq<Db>, steps: seq<Step>, j: nat)
    requires Behaviour(states, steps) && j < |states|
    requires forall i :: 0 <= i < j && steps[i].RelayBegin? ==> states[i].relays == map[]
    ensures ConfirmedInOrder(states[j])
  {
    forall i | 0 <= i < j && steps[i].RelayBegin?
      ensures !Overtakes(states[i], steps[i].batch)
    {
      BehaviourInv(states, steps, i);
      AloneOvertakesNothing(states[i], steps[i].batch);
    }
    OutboxDelivers(states, steps, j);
  }

  // ---- Two relays ------------------------------------------------------------------

  const TWO_RELAYS: seq<Step> := [
    PutBegin("book:1", false, "a", "b"), PutCommit("book:1"), RelayBegin(0, [0]),
    PutBegin("book:1", false, "c", "d"), PutCommit("book:1"), RelayBegin(1, [2]), RelayPublish(1, true)]

  function OneBook(): Db {
    Db(map["book:1" := 0], map["book:1" := 0], map[], Draws(0, map[], map[]), map[], map[], map[], map[],
       map[], [])
  }

  lemma NotTheListTag()
    ensures "book:1" != LIST_TAG
  {
  }

  /** Version 1 is committed and locked by the first relay. */
  lemma FirstRelayLocksVersionOne() returns (states: seq<Db>)
    ensures |states| == 4 && states[0] == OneBook() && Initial(states[0])
    ensures forall i {:trigger TWO_RELAYS[i]} :: 0 <= i < 3 ==>
              Enabled(states[i], TWO_RELAYS[i]) && states[i + 1] == Apply(states[i], TWO_RELAYS[i])
    ensures var row := map[0 := Event("a", ["book:1"], [], 1)];
            states[3] == Db(map["book:1" := 0], map["book:1" := 1], row,
                            Draws(2, map[0 := "book:1", 1 := "book:1"], map["a" := 0, "b" := 1]),
                            map[], map[0 := Tx([0], 0, false)], map[0 := 0], map[], row, [])
  {
    NotTheListTag();
    var s0 := OneBook();
    var s1 := Apply(s0, PutBegin("book:1", false, "a", "b"));
    var s2 := Apply(s1, PutCommit("book:1"));
    assert s2.rows == map[0 := Event("a", ["book:1"], [], 1)];
    assert IsBatch(s2, [0]);
    var s3 := Apply(s2, RelayBegin(0, [0]));
    assert s3.locks == map[0 := 0];
    states := [s0, s1, s2, s3];
  }

  /** Version 2 becomes visible while the first relay holds version 1. */
  lemma VersionTwoIsFree() returns (states: seq<Db>)
    ensures |states| == 6 && states[0] == OneBook() && Initial(states[0])
    ensures forall i {:trigger TWO_RELAYS[i]} :: 0 <= i < 5 ==>
              Enabled(states[i], TWO_RELAYS[i]) && states[i + 1] == Apply(states[i], TWO_RELAYS[i])
    ensures var s := states[5];
            && s.rows == map[0 := Event("a", ["book:1"], [], 1), 2 := Event("c", ["book:1"], [], 2)]
            && s.committed == s.rows && s.locks == map[0 := 0] && s.relays == map[0 := Tx([0], 0, false)] &&
               s.strays == map[] && s.confirmed == []
  {
    var first := FirstRelayLocksVersionOne();
    assert "c" != "a" && "c" != "b" && "d" != "a" && "d" != "b" && "c" != "d";
    var s4 := Apply(first[3], PutBegin("book:1", false, "c", "d"));
    var s5 := Apply(s4, PutCommit("book:1"));
    states := first + [s4, s5];
    assert forall i :: 0 <= i < 4 ==> states[i] == first[i];
  }

  /** The second relay skips the locked row and publishes version 2. */
  lemma VersionTwoFirst(s: Db)
    requires s.rows == map[0 := Event("a", ["book:1"], [], 1), 2 := Event("c", ["book:1"], [], 2)]
    requires s.locks == map[0 := 0] && s.relays == map[0 := Tx([0], 0, false)] && s.strays == map[]
    requires s.committed == s.rows && s.confirmed == []
    ensures Enabled(s, RelayBegin(1, [2])) && Overtakes(s, [2])
    ensures var locked := Apply(s, RelayBegin(1, [2]));
            Enabled(locked, RelayPublish(1, true)) && !ConfirmedInOrder(Apply(locked, RelayPublish(1, true)))
  {
    assert IsBatch(s, [2]);
    assert Overtakes(s, [2]) by {
      assert 0 in s.rows && EarlierOfBook(s.rows[0], s.rows[[2][0]]);
    }
    var s' := Apply(Apply(s, RelayBegin(1, [2])), RelayPublish(1, true));
    assert s'.confirmed == [Row(2, Event("c", ["book:1"], [], 2))];
    assert EarlierOfBook(s'.committed[0], s'.confirmed[0].event);
    assert s'.confirmed[..0] == [] && !WasConfirmed(s'.confirmed[..0], 0);
  }

  /** With two relays order is lost although each stops at its first failure: the second relay skips
      the row the first one has locked and publishes version 2 of the book before version 1. */
  lemma TwoRelaysReorder()
    ensures exists states: seq<Db> ::
              && Behaviour(states, TWO_RELAYS)
              && Overtakes(states[5], TWO_RELAYS[5].batch) && !ConfirmedInOrder(states[7])
  {
    var first := VersionTwoIsFree();
    VersionTwoFirst(first[5]);
    var steps := TWO_RELAYS;
    assert steps[5] == RelayBegin(1, [2]) && steps[6] == RelayPublish(1, true);
    var states := OneMoreState(first, steps);
    states := OneMoreState(states, steps);
    assert Behaviour(states, steps);
  }

  /** The states so far follow the first steps. */
  ghost predicate Follows(states: seq<Db>, steps: seq<Step>) {
    && 1 <= |states| <= |steps| + 1
    && (forall i {:trigger steps[i]} :: 0 <= i < |states| - 1 ==>
          Enabled(states[i], steps[i]) && states[i + 1] == Apply(states[i], steps[i]))
  }

  lemma OneMoreState(states: seq<Db>, steps: seq<Step>) returns (more: seq<Db>)
    requires Follows(states, steps) && |states| <= |steps| && Enabled(states[|states| - 1], steps[|states| - 1])
    ensures |more| == |states| + 1 && more[..|states|] == states && Follows(more, steps)
    ensures more[|states|] == Apply(states[|states| - 1], steps[|states| - 1])
  {
    more := states + [Apply(states[|states| - 1], steps[|states| - 1])];
  }
}
