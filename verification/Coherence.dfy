/**
  The whole path of an update: database and outbox, relays, one durable queue per replica and its
  event log, the replica's filter, its consumer running purges, and client fetches racing with all of it.
  The replicas may crash and restart at any time; messages may be duplicated and reordered.

  A book is named by its tag.  Ghost data of a replica: for every fetch the versions all books had
  when its token was taken and when the upstream was read (`readings`), and per book a version
  (`floor`) below which nothing cached has been read.
*/
module Coherence {
  import opened Events
  import opened Dedup
  import L = EventLog
  import O = Outbox
  import R = Race
  import A = Admission
  import opened Lru
  import T = Tracker

  type Versions = map<string, nat>

  datatype Reading = Reading(atToken: Versions, seen: Versions)

  /** The consumer handles one event at a time, target after target; `done` are the finished purges. */
  datatype Consumer =
    | Idle
    | Handling(event: Event, done: seq<R.PurgeId>, current: A.Option<R.PurgeId>)

  datatype Replica = Replica(
    race: R.State,
    queue: multiset<Event>,
    log: multiset<Event>,
    consumer: Consumer,
    mem: Filter,
    disk: Filter,
    readings: map<R.FetchId, Reading>,
    floor: Versions)

  datatype System = System(db: O.Db, replicas: seq<Replica>, purgeIds: set<string>)

  function TagTargets(tags: seq<string>, version: nat): seq<R.Target> {
    seq(|tags|, i requires 0 <= i < |tags| => R.TagTarget(tags[i], version))
  }

  function KeyTargets(keys: seq<string>): seq<R.Target> {
    seq(|keys|, i requires 0 <= i < |keys| => R.KeyTarget(keys[i]))
  }

  function Targets(e: Event): seq<R.Target> {
    TagTargets(e.tags, e.version) + KeyTargets(e.keys)
  }

  // ---- Steps ------------------------------------------------------------------------

  datatype ReplicaStep =
    | Fetching(step: R.Step)
    | Deliver(event: Event, removed: bool)
    | StartTarget(p: R.PurgeId, now: int)
    | Purging(step: R.Step)
    | FinishTarget
    | MarkProcessed(saved: bool, removed: bool)
    | Compact(kept: multiset<Event>)
    | Restart(race: R.State, loaded: Versions)

  datatype Step =
    | Database(step: O.Step, arrived: set<nat>)
    | PurgeRequest(event: Event, arrived: set<nat>, logged: set<nat>)
    | AtReplica(i: nat, local: ReplicaStep)

  /** A response carries no version, or the version of every book it is tagged with. */
  predicate ConsistentResponse(item: Item, versions: Versions) {
    item.version > 0 ==> forall t :: t in item.tags && t in versions ==> item.version == versions[t]
  }

  /** Steps of fetches, clients and timers; what a fetch reads is the committed database. */
  ghost predicate FetchStep(versions: Versions, step: R.Step) {
    match step
    case Begin(_, _, _) => true
    case Respond(_, item) => ConsistentResponse(item, versions)
    case Abandon(_) => true
    case Store(_, _, _) => true
    case ClientLookup(_, _) => true
    case TimerFires(_, _) => true
    case _ => false
  }

  predicate StepOf(step: R.Step, p: R.PurgeId) {
    match step
    case List(q, _) => q == p
    case LookUp(q, _) => q == p
    case Delete(q) => q == p
    case _ => false
  }

  ghost predicate ReplicaEnabled(cfg: R.Config, versions: Versions, r: Replica, step: ReplicaStep)
    requires cfg.Ok() && |r.race.segments| == cfg.shards
  {
    match step
    case Fetching(s) =>
      R.Enabled(cfg, r.race, s) && FetchStep(versions, s) && (s.Respond? ==> s.f in r.readings)
    case Deliver(e, removed) =>
      r.consumer.Idle? && (e in r.queue || e in r.log) && (removed ==> AlreadyApplied(r.mem, e))
    case StartTarget(p, now) =>
      && r.consumer.Handling? && r.consumer.current.None? && |r.consumer.done| < |Targets(r.consumer.event)|
      && R.Enabled(cfg, r.race, R.RecordPurge(p, Targets(r.consumer.event)[|r.consumer.done|], now))
    case Purging(s) =>
      r.consumer.Handling? && r.consumer.current.Some? && StepOf(s, r.consumer.current.value) &&
        R.Enabled(cfg, r.race, s)
    case FinishTarget =>
      && r.consumer.Handling? && r.consumer.current.Some?
      && r.consumer.current.value in r.race.purges && R.Finished(cfg, r.race.purges[r.consumer.current.value])
    case MarkProcessed(_, _) =>
      r.consumer.Handling? && r.consumer.current.None? && |r.consumer.done| == |Targets(r.consumer.event)|
    case Compact(kept) => kept <= r.log
    case Restart(race, loaded) => R.Initial(cfg, race) && L.Migrates(r.disk.maxVersion, r.disk.maxVersion.Keys, loaded)
  }

  function Noted(versions: Versions, readings: map<R.FetchId, Reading>, step: R.Step): map<R.FetchId, Reading>
    requires step.Respond? ==> step.f in readings
  {
    match step
    case Begin(f, _, _) => readings[f := Reading(versions, map[])]
    case Respond(f, _) => readings[f := readings[f].(seen := versions)]
    case _ => readings
  }

  /** Once an event has been handled nothing cached was read below its version. */
  function Lifted(floor: Versions, e: Event): Versions {
    if e.version > 0 && |e.tags| == 1 && e.tags[0] in floor && floor[e.tags[0]] < e.version
    then floor[e.tags[0] := e.version] else floor
  }

  function ReplicaApply(cfg: R.Config, versions: Versions, r: Replica, step: ReplicaStep): Replica
    requires cfg.Ok() && |r.race.segments| == cfg.shards && ReplicaEnabled(cfg, versions, r, step)
  {
    match step
    case Fetching(s) => r.(race := R.Apply(cfg, r.race, s), readings := Noted(versions, r.readings, s))
    case Deliver(e, removed) =>
      if AlreadyApplied(r.mem, e)
      then (if removed then r.(queue := r.queue - multiset{e}) else r)
      else r.(consumer := Handling(e, [], A.None))
    case StartTarget(p, now) =>
      r.(race := R.Apply(cfg, r.race, R.RecordPurge(p, Targets(r.consumer.event)[|r.consumer.done|], now)),
         consumer := r.consumer.(current := A.Some(p)))
    case Purging(s) => r.(race := R.Apply(cfg, r.race, s))
    case FinishTarget =>
      r.(consumer := Handling(r.consumer.event, r.consumer.done + [r.consumer.current.value], A.None))
    case MarkProcessed(saved, removed) =>
      var e := r.consumer.event;
      var mem := Marked(r.mem, e);
      r.(mem := mem, disk := if saved then mem else r.disk, floor := Lifted(r.floor, e),
         queue := if removed then r.queue - multiset{e} else r.queue, consumer := Idle)
    case Compact(kept) => r.(log := kept)
    case Restart(race, loaded) =>
      r.(race := race, consumer := Idle, mem := Filter(loaded, r.disk.order), readings := map[], floor := versions)
  }

  /** A confirmed publication is in every replica's queue; a failed one may have reached some. */
  function Received(s: System, step: Step, i: nat): multiset<Event>
    requires step.Database? ==> O.Enabled(s.db, step.step)
  {
    match step
    case Database(dbStep, arrived) =>
      if (dbStep.RelayPublish? || dbStep.StrayPublish?) && (dbStep.confirmed || i in arrived)
      then O.Publication(s.db, dbStep) else multiset{}
    case PurgeRequest(e, arrived, _) => if i in arrived then multiset{e} else multiset{}
    case AtReplica(_, _) => multiset{}
  }

  ghost predicate Enabled(cfg: R.Config, s: System, step: Step)
    requires cfg.Ok() && forall i :: 0 <= i < |s.replicas| ==> |s.replicas[i].race.segments| == cfg.shards
  {
    match step
    case Database(dbStep, _) =>
      && O.Enabled(s.db, dbStep)
      && (dbStep.PutBegin? ==> dbStep.eventId !in s.purgeIds && dbStep.listEventId !in s.purgeIds)
    case PurgeRequest(e, _, _) =>
      e.version == 0 && e.id !in s.db.draws.rowOf && forall t :: t in e.tags ==> t != ""
    case AtReplica(i, step) => i < |s.replicas| && ReplicaEnabled(cfg, s.db.versions, s.replicas[i], step)
  }

  function Apply(cfg: R.Config, s: System, step: Step): System
    requires cfg.Ok() && forall i :: 0 <= i < |s.replicas| ==> |s.replicas[i].race.segments| == cfg.shards
    requires Enabled(cfg, s, step)
  {
    match step
    case Database(dbStep, _) =>
      s.(db := O.Apply(s.db, dbStep),
         replicas := seq(|s.replicas|, i requires 0 <= i < |s.replicas| =>
           s.replicas[i].(queue := s.replicas[i].queue + Received(s, step, i))))
    case PurgeRequest(e, _, logged) =>
      s.(purgeIds := s.purgeIds + {e.id},
         replicas := seq(|s.replicas|, i requires 0 <= i < |s.replicas| =>
           s.replicas[i].(queue := s.replicas[i].queue + Received(s, step, i),
                          log := s.replicas[i].log + if i in logged then multiset{e} else multiset{})))
    case AtReplica(i, rstep) =>
      s.(replicas := s.replicas[i := ReplicaApply(cfg, s.db.versions, s.replicas[i], rstep)])
  }

  ghost predicate Initial(cfg: R.Config, s: System) {
    && cfg.Ok() && O.Initial(s.db) && s.purgeIds == {}
    && (forall b :: b in s.db.versions ==> L.HasColon(b))
    && (forall i :: 0 <= i < |s.replicas| ==>
          s.replicas[i] == Replica(s.replicas[i].race, multiset{}, multiset{}, Idle, Nothing, Nothing, map[],
                                   s.db.versions)
          && R.Initial(cfg, s.replicas[i].race))
  }

  // ---- The invariant, for the database and one replica -------------------------------

  /** An event is a committed row's, or an unversioned purge request (`ids` are the ids of those). */
  ghost predicate Known(db: O.Db, ids: set<string>, e: Event) {
    && (forall t :: t in e.tags ==> t != "")
    && (|| (e.id in db.draws.rowOf && db.draws.rowOf[e.id] in db.committed && db.committed[db.draws.rowOf[e.id]] == e)
        || (e.id in ids && e.version == 0))
  }

  ghost predicate FloorOk(db: O.Db, floor: Versions) {
    && floor.Keys == db.versions.Keys == db.initial.Keys
    && forall b :: b in floor ==> db.initial[b] <= floor[b] <= db.versions[b]
  }

  /** Nothing read below the event's version is cached any more. */
  predicate Past(floor: Versions, e: Event) {
    e.version > 0 && |e.tags| == 1 && e.tags[0] in floor ==> e.version <= floor[e.tags[0]]
  }

  /** The filter remembers nothing above the floor. */
  ghost predicate FilterOk(db: O.Db, ids: set<string>, floor: Versions, f: Filter) {
    && (forall t :: Version(f.maxVersion, t) > 0 ==> t in floor && Version(f.maxVersion, t) <= floor[t])
    && (forall id :: id in f.order ==>
          id in ids || (id in db.draws.rowOf && db.draws.rowOf[id] in db.committed &&
                        Past(floor, db.committed[db.draws.rowOf[id]])))
  }

  ghost predicate QueueOk(db: O.Db, ids: set<string>, queue: multiset<Event>) {
    forall e :: e in queue ==> Known(db, ids, e)
  }

  predicate ReadingOk(versions: Versions, f: R.Fetch, r: Reading) {
    && r.atToken.Keys == versions.Keys && (forall b :: b in versions ==> r.atToken[b] <= versions[b])
    && (f.response.Some? ==>
          && r.seen.Keys == versions.Keys
          && (forall b :: b in versions ==> r.atToken[b] <= r.seen[b] <= versions[b])
          && ConsistentResponse(f.response.value, r.seen))
  }

  ghost predicate ReadingsOk(versions: Versions, fetches: map<R.FetchId, R.Fetch>, readings: map<R.FetchId, Reading>) {
    forall f :: f in fetches ==> f in readings && ReadingOk(versions, fetches[f], readings[f])
  }

  predicate RecordedSince(h: T.History, from: nat, book: string, version: nat) {
    exists k: nat :: from <= k < |h| && h[k].tag == book && h[k].version >= version
  }

  /** A fetch whose token is too old for the floor will meet the purge that lifted it. */
  predicate TokenOk(h: T.History, token: T.FetchToken, r: Reading, floor: Versions) {
    forall b :: b in floor && b in r.atToken && r.atToken[b] < floor[b] ==> RecordedSince(h, token.seqNo, b, floor[b])
  }

  ghost predicate TokensOk(h: T.History, fetches: map<R.FetchId, R.Fetch>, readings: map<R.FetchId, Reading>,
                           floor: Versions) {
    forall f :: f in fetches && f in readings ==> TokenOk(h, fetches[f].token, readings[f], floor)
  }

  predicate SawPurge(r: Reading, purge: T.Invalidation) {
    purge.tag in r.atToken ==> purge.version <= r.atToken[purge.tag]
  }

  /** Tokens taken after a purge of a book read the book at the purge's version or later. */
  ghost predicate HistoryOk(versions: Versions, h: T.History, fetches: map<R.FetchId, R.Fetch>,
                            readings: map<R.FetchId, Reading>) {
    && (forall k :: 0 <= k < |h| && h[k].tag in versions ==> h[k].version <= versions[h[k].tag])
    && (forall k, f :: 0 <= k < |h| && f in fetches && f in readings && fetches[f].token.seqNo > k ==>
          SawPurge(readings[f], h[k]))
  }

  /** Recorded versions of a book are at most what the filter has, or the event being handled. */
  predicate Accounted(mem: Filter, consumer: Consumer, tag: string, version: nat) {
    || version <= Version(mem.maxVersion, tag)
    || (consumer.Handling? && O.OfBook(consumer.event, tag) && version <= consumer.event.version)
  }

  ghost predicate RecordedOk(versions: Versions, h: T.History, mem: Filter, consumer: Consumer) {
    && (forall k :: 0 <= k < |h| && h[k].tag in versions ==> Accounted(mem, consumer, h[k].tag, h[k].version))
    && (forall b :: b in versions ==> T.NonDecreasing(h, b))
  }

  ghost predicate EntryOk(origin: map<string, R.FetchId>, readings: map<R.FetchId, Reading>, floor: Versions,
                          e: Entry) {
    && e.item.key in origin && origin[e.item.key] in readings
    && forall b :: b in e.item.tags && b in floor ==>
         b in readings[origin[e.item.key]].seen && floor[b] <= readings[origin[e.item.key]].seen[b]
  }

  ghost predicate CachedOk(race: R.State, readings: map<R.FetchId, Reading>, floor: Versions) {
    forall i, e :: 0 <= i < |race.segments| && e in race.segments[i] ==> EntryOk(race.origin, readings, floor, e)
  }

  ghost predicate ConsumerOk(cfg: R.Config, db: O.Db, ids: set<string>, race: R.State, mem: Filter,
                             consumer: Consumer) {
    consumer.Handling? ==>
      && Known(db, ids, consumer.event)
      && (forall b :: O.OfBook(consumer.event, b) ==> consumer.event.version > Version(mem.maxVersion, b))
      && |consumer.done| <= |Targets(consumer.event)|
      && (forall i :: 0 <= i < |consumer.done| ==>
            && consumer.done[i] in race.purges && R.Finished(cfg, race.purges[consumer.done[i]])
            && race.purges[consumer.done[i]].target == Targets(consumer.event)[i])
      && (consumer.current.Some? ==>
            && |consumer.done| < |Targets(consumer.event)|
            && consumer.current.value in race.purges
            && race.purges[consumer.current.value].target == Targets(consumer.event)[|consumer.done|])
  }

  /** A confirmed event is still in the queue, or past. */
  ghost predicate DeliveredOk(confirmed: seq<O.Row>, queue: multiset<Event>, floor: Versions) {
    forall p :: 0 <= p < |confirmed| ==> confirmed[p].event in queue || Past(floor, confirmed[p].event)
  }

  ghost predicate ReplicaInv(cfg: R.Config, db: O.Db, ids: set<string>, r: Replica) {
    && R.Inv(cfg, r.race)
    && FloorOk(db, r.floor)
    && FilterOk(db, ids, r.floor, r.mem) && FilterOk(db, ids, r.floor, r.disk)
    && QueueOk(db, ids, r.queue) && QueueOk(db, ids, r.log)
    && ReadingsOk(db.versions, r.race.fetches, r.readings)
    && TokensOk(r.race.history, r.race.fetches, r.readings, r.floor)
    && HistoryOk(db.versions, r.race.history, r.race.fetches, r.readings)
    && RecordedOk(db.versions, r.race.history, r.mem, r.consumer)
    && CachedOk(r.race, r.readings, r.floor)
    && ConsumerOk(cfg, db, ids, r.race, r.mem, r.consumer)
    && DeliveredOk(db.confirmed, r.queue, r.floor)
  }

  ghost predicate DbOk(db: O.Db, ids: set<string>) {
    && O.Inv(db)
    && (forall b :: b in db.versions ==> L.HasColon(b))
    && (forall id :: id in ids ==> id !in db.draws.rowOf)
  }

  // ---- The database moves -----------------------------------------------------------

  ghost predicate Grows(db: O.Db, db': O.Db) {
    && db'.initial == db.initial && db'.versions.Keys == db.versions.Keys
    && (forall b :: b in db.versions ==> db.versions[b] <= db'.versions[b])
    && (forall id :: id in db.committed ==> id in db'.committed && db'.committed[id] == db.committed[id])
    && (forall id :: id in db.draws.rowOf ==> id in db'.draws.rowOf && db'.draws.rowOf[id] == db.draws.rowOf[id])
  }

  lemma CommitGrows(db: O.Db, book: string)
    requires O.RowsOk(db) && O.PutsOk(db) && O.Enabled(db, O.PutCommit(book))
    ensures Grows(db, O.Apply(db, O.PutCommit(book)))
  {
    assert O.PutOk(db, book, db.puts[book]);
  }

  lemma BeginGrows(db: O.Db, step: O.Step)
    requires O.Enabled(db, step) && step.PutBegin? && db.initial.Keys == db.versions.Keys
    ensures Grows(db, O.Apply(db, step))
  {
  }

  lemma DbGrows(db: O.Db, step: O.Step)
    requires O.RowsOk(db) && O.PutsOk(db) && O.Enabled(db, step)
    ensures Grows(db, O.Apply(db, step))
  {
    match step
    case PutCommit(book) => CommitGrows(db, book);
    case PutBegin(_, _, _, _) => BeginGrows(db, step);
    case PutAbort(_) =>
    case _ => O.RelaysOnlyPublish(db, step);
  }

  lemma KnownStays(db: O.Db, db': O.Db, ids: set<string>, ids': set<string>, e: Event)
    requires Grows(db, db') && ids <= ids' && Known(db, ids, e)
    ensures Known(db', ids', e)
  {
  }

  lemma FilterStays(db: O.Db, db': O.Db, ids: set<string>, ids': set<string>, floor: Versions, f: Filter)
    requires Grows(db, db') && ids <= ids' && FilterOk(db, ids, floor, f)
    ensures FilterOk(db', ids', floor, f)
  {
  }

  lemma ReadingsStay(versions: Versions, versions': Versions, fetches: map<R.FetchId, R.Fetch>,
                     readings: map<R.FetchId, Reading>)
    requires ReadingsOk(versions, fetches, readings)
    requires versions'.Keys == versions.Keys && forall b :: b in versions ==> versions[b] <= versions'[b]
    ensures ReadingsOk(versions', fetches, readings)
  {
  }

  lemma QueueGrows(db: O.Db, db': O.Db, ids: set<string>, ids': set<string>, queue: multiset<Event>,
                   more: multiset<Event>)
    requires Grows(db, db') && ids <= ids' && QueueOk(db, ids, queue) && QueueOk(db', ids', more)
    ensures QueueOk(db', ids', queue + more)
  {
  }

  /** A replica that only receives events keeps its invariant while the database moves on. */
  lemma ReplicaSeesGrowth(cfg: R.Config, db: O.Db, db': O.Db, ids: set<string>, ids': set<string>, r: Replica,
                          received: multiset<Event>, logged: multiset<Event>)
    requires ReplicaInv(cfg, db, ids, r) && Grows(db, db') && ids <= ids'
    requires QueueOk(db', ids', received) && QueueOk(db', ids', logged)
    requires forall p :: 0 <= p < |db'.confirmed| ==>
               (p < |db.confirmed| && db'.confirmed[p] == db.confirmed[p]) || db'.confirmed[p].event in received
    ensures ReplicaInv(cfg, db', ids', r.(queue := r.queue + received, log := r.log + logged))
  {
    var r' := r.(queue := r.queue + received, log := r.log + logged);
    FilterStays(db, db', ids, ids', r.floor, r.mem);
    FilterStays(db, db', ids, ids', r.floor, r.disk);
    QueueGrows(db, db', ids, ids', r.queue, received);
    QueueGrows(db, db', ids, ids', r.log, logged);
    ReadingsStay(db.versions, db'.versions, r.race.fetches, r.readings);
    assert HistoryOk(db'.versions, r.race.history, r.race.fetches, r.readings);
    assert RecordedOk(db'.versions, r.race.history, r.mem, r.consumer);
    if r.consumer.Handling? {
      KnownStays(db, db', ids, ids', r.consumer.event);
    }
    assert DeliveredOk(db'.confirmed, r'.queue, r'.floor);
  }

  lemma RowIsKnown(db: O.Db, ids: set<string>, id: O.RowId)
    requires DbOk(db, ids) && id in db.committed
    ensures Known(db, ids, db.committed[id])
  {
  }

  lemma PublicationIsKnown(db: O.Db, ids: set<string>, dbStep: O.Step)
    requires DbOk(db, ids) && O.Enabled(db, dbStep)
    ensures forall e :: e in O.Publication(db, dbStep) ==> Known(db, ids, e)
  {
    match dbStep
    case RelayPublish(r, _) => RowIsKnown(db, ids, db.relays[r].batch[db.relays[r].next]);
    case StrayPublish(r, _) => RowIsKnown(db, ids, db.strays[r].batch[db.strays[r].next]);
    case _ =>
  }

  /** Everything a replica receives in a database step is a committed row; every new confirmation is
      among what it receives. */
  lemma ReceivedRows(s: System, dbStep: O.Step, arrived: set<nat>, i: nat)
    requires DbOk(s.db, s.purgeIds) && O.Enabled(s.db, dbStep)
    ensures var received := Received(s, Database(dbStep, arrived), i);
            && (forall e :: e in received ==> Known(s.db, s.purgeIds, e))
            && var confirmed := O.Apply(s.db, dbStep).confirmed;
               forall p :: 0 <= p < |confirmed| ==>
                 (p < |s.db.confirmed| && confirmed[p] == s.db.confirmed[p]) || confirmed[p].event in received
  {
    PublicationIsKnown(s.db, s.purgeIds, dbStep);
    O.ConfirmsWhatItSends(s.db, dbStep);
  }

  lemma DatabaseStep(cfg: R.Config, s: System, dbStep: O.Step, arrived: set<nat>, i: nat)
    requires DbOk(s.db, s.purgeIds) && O.Enabled(s.db, dbStep)
    requires i < |s.replicas| && ReplicaInv(cfg, s.db, s.purgeIds, s.replicas[i])
    ensures var r := s.replicas[i];
            ReplicaInv(cfg, O.Apply(s.db, dbStep), s.purgeIds,
                       r.(queue := r.queue + Received(s, Database(dbStep, arrived), i)))
  {
    var db' := O.Apply(s.db, dbStep);
    var received := Received(s, Database(dbStep, arrived), i);
    DbGrows(s.db, dbStep);
    ReceivedRows(s, dbStep, arrived, i);
    QueueGrows(s.db, db', s.purgeIds, s.purgeIds, received, multiset{});
    assert received + multiset{} == received && s.replicas[i].log + multiset{} == s.replicas[i].log;
    ReplicaSeesGrowth(cfg, s.db, db', s.purgeIds, s.purgeIds, s.replicas[i], received, multiset{});
  }

  lemma FreshIdsStayFresh(db: O.Db, dbStep: O.Step, ids: set<string>)
    requires O.Enabled(db, dbStep) && forall id :: id in ids ==> id !in db.draws.rowOf
    requires dbStep.PutBegin? ==> dbStep.eventId !in ids && dbStep.listEventId !in ids
    ensures forall id :: id in ids ==> id !in O.Apply(db, dbStep).draws.rowOf
  {
    if O.OfRelay(dbStep) {
      O.RelaysOnlyPublish(db, dbStep);
    }
  }

  lemma DatabaseKeepsDb(s: System, dbStep: O.Step)
    requires DbOk(s.db, s.purgeIds) && O.Enabled(s.db, dbStep)
    requires dbStep.PutBegin? ==> dbStep.eventId !in s.purgeIds && dbStep.listEventId !in s.purgeIds
    ensures DbOk(O.Apply(s.db, dbStep), s.purgeIds)
  {
    O.StepInv(s.db, dbStep);
    FreshIdsStayFresh(s.db, dbStep, s.purgeIds);
    DbGrows(s.db, dbStep);
  }

  lemma PurgeRequestStep(cfg: R.Config, s: System, e: Event, arrived: set<nat>, logged: set<nat>, i: nat)
    requires i < |s.replicas| && ReplicaInv(cfg, s.db, s.purgeIds, s.replicas[i])
    requires e.version == 0 && forall t :: t in e.tags ==> t != ""
    ensures var r := s.replicas[i];
            ReplicaInv(cfg, s.db, s.purgeIds + {e.id},
                       r.(queue := r.queue + Received(s, PurgeRequest(e, arrived, logged), i),
                          log := r.log + if i in logged then multiset{e} else multiset{}))
  {
  }

  // ---- Fetches ----------------------------------------------------------------------

  /** A new fetch takes its token after everything recorded so far and notes the books as they are. */
  lemma BeginTokens(db: O.Db, r: Replica, f: R.FetchId, fetch: R.Fetch)
    requires FloorOk(db, r.floor) && TokensOk(r.race.history, r.race.fetches, r.readings, r.floor)
    ensures TokensOk(r.race.history, r.race.fetches[f := fetch], r.readings[f := Reading(db.versions, map[])], r.floor)
  {
  }

  lemma BeginHistory(versions: Versions, h: T.History, fetches: map<R.FetchId, R.Fetch>,
                     readings: map<R.FetchId, Reading>, f: R.FetchId, fetch: R.Fetch)
    requires HistoryOk(versions, h, fetches, readings)
    ensures HistoryOk(versions, h, fetches[f := fetch], readings[f := Reading(versions, map[])])
  {
  }

  lemma BeginStep(cfg: R.Config, db: O.Db, ids: set<string>, r: Replica, f: R.FetchId, key: string, now: int)
    requires ReplicaInv(cfg, db, ids, r) && R.Enabled(cfg, r.race, R.Begin(f, key, now))
    ensures ReplicaInv(cfg, db, ids, ReplicaApply(cfg, db.versions, r, Fetching(R.Begin(f, key, now))))
  {
    var r' := ReplicaApply(cfg, db.versions, r, Fetching(R.Begin(f, key, now)));
    R.StepInv(cfg, r.race, R.Begin(f, key, now));
    FetchReadings(db.versions, r, r', f);
    BeginTokens(db, r, f, r'.race.fetches[f]);
    BeginHistory(db.versions, r.race.history, r.race.fetches, r.readings, f, r'.race.fetches[f]);
    SameEntries(cfg, r, r', f);
  }

  /** Only the reading of fetch `f` changed. */
  lemma FetchReadings(versions: Versions, r: Replica, r': Replica, f: R.FetchId)
    requires ReadingsOk(versions, r.race.fetches, r.readings)
    requires f in r'.race.fetches && r'.race.fetches == r.race.fetches[f := r'.race.fetches[f]]
    requires f in r'.readings && r'.readings == r.readings[f := r'.readings[f]]
    requires ReadingOk(versions, r'.race.fetches[f], r'.readings[f])
    ensures ReadingsOk(versions, r'.race.fetches, r'.readings)
  {
  }

  /** The fetch whose reading changed has stored nothing yet. */
  lemma SameEntries(cfg: R.Config, r: Replica, r': Replica, f: R.FetchId)
    requires R.Sourced(r.race) && CachedOk(r.race, r.readings, r.floor)
    requires r'.race.segments == r.race.segments && r'.race.origin == r.race.origin && r'.floor == r.floor
    requires f in r.race.fetches ==> !r.race.fetches[f].done
    requires f in r'.readings && r'.readings == r.readings[f := r'.readings[f]]
    ensures CachedOk(r'.race, r'.readings, r'.floor)
  {
    forall i, e: Entry | 0 <= i < |r'.race.segments| && e in r'.race.segments[i]
      ensures EntryOk(r'.race.origin, r'.readings, r'.floor, e)
    {
      assert EntryOk(r.race.origin, r.readings, r.floor, e);
      assert R.FromFetch(r.race.origin, r.race.fetches, e);
    }
  }

  /** A fetch goes on with its old token; its reading keeps what it was at the token. */
  predicate Continues(r: Replica, r': Replica, f: R.FetchId) {
    && f in r.race.fetches && f in r.readings && R.FetchAdvances(r.race.fetches, r'.race.fetches, f)
    && f in r'.readings && r'.readings == r.readings[f := r'.readings[f]]
    && r'.readings[f].atToken == r.readings[f].atToken
    && r'.race.history == r.race.history && r'.floor == r.floor
  }

  lemma ContinuingTokens(r: Replica, r': Replica, f: R.FetchId)
    requires Continues(r, r', f) && TokensOk(r.race.history, r.race.fetches, r.readings, r.floor)
    ensures TokensOk(r'.race.history, r'.race.fetches, r'.readings, r'.floor)
  {
  }

  lemma ContinuingHistory(versions: Versions, r: Replica, r': Replica, f: R.FetchId)
    requires Continues(r, r', f) && HistoryOk(versions, r.race.history, r.race.fetches, r.readings)
    ensures HistoryOk(versions, r'.race.history, r'.race.fetches, r'.readings)
  {
  }

  lemma Continuing(cfg: R.Config, db: O.Db, ids: set<string>, r: Replica, r': Replica, f: R.FetchId)
    requires ReplicaInv(cfg, db, ids, r) && Continues(r, r', f) && R.Inv(cfg, r'.race)
    requires r' == r.(race := r'.race, readings := r'.readings) && r'.race.purges == r.race.purges
    requires ReadingOk(db.versions, r'.race.fetches[f], r'.readings[f])
    requires CachedOk(r'.race, r'.readings, r'.floor)
    ensures ReplicaInv(cfg, db, ids, r')
  {
    FetchReadings(db.versions, r, r', f);
    ContinuingTokens(r, r', f);
    ContinuingHistory(db.versions, r, r', f);
  }

  lemma RespondStep(cfg: R.Config, db: O.Db, ids: set<string>, r: Replica, f: R.FetchId, item: Item)
    requires ReplicaInv(cfg, db, ids, r) && R.Enabled(cfg, r.race, R.Respond(f, item))
    requires ConsistentResponse(item, db.versions) && f in r.readings
    ensures ReplicaInv(cfg, db, ids, ReplicaApply(cfg, db.versions, r, Fetching(R.Respond(f, item))))
  {
    var r' := ReplicaApply(cfg, db.versions, r, Fetching(R.Respond(f, item)));
    R.StepInv(cfg, r.race, R.Respond(f, item));
    assert ReadingOk(db.versions, r.race.fetches[f], r.readings[f]);
    SameEntries(cfg, r, r', f);
    Continuing(cfg, db, ids, r, r', f);
  }

  lemma AbandonContinues(cfg: R.Config, r: Replica, f: R.FetchId)
    requires R.Inv(cfg, r.race) && R.Enabled(cfg, r.race, R.Abandon(f)) && f in r.readings
    ensures var race' := R.Apply(cfg, r.race, R.Abandon(f));
            && Continues(r, r.(race := race'), f) && race' == r.race.(fetches := race'.fetches)
            && race'.fetches[f] == r.race.fetches[f].(done := true)
  {
  }

  lemma AbandonStep(cfg: R.Config, db: O.Db, ids: set<string>, r: Replica, f: R.FetchId)
    requires ReplicaInv(cfg, db, ids, r) && R.Enabled(cfg, r.race, R.Abandon(f))
    ensures ReplicaInv(cfg, db, ids, r.(race := R.Apply(cfg, r.race, R.Abandon(f))))
  {
    R.StepInv(cfg, r.race, R.Abandon(f));
    assert ReadingOk(db.versions, r.race.fetches[f], r.readings[f]);
    AbandonContinues(cfg, r, f);
    Continuing(cfg, db, ids, r, r.(race := R.Apply(cfg, r.race, R.Abandon(f))), f);
  }

  /** A response that is older than a purge of its book recorded since its token is refused. */
  lemma OldResponseIsRefused(race: R.State, token: T.FetchToken, item: Item, now: int, b: string, version: nat)
    requires T.Represents(race.tracker, race.history, race.clock) && T.Issued(token, race.history, race.clock)
    requires race.clock <= now && T.NonDecreasing(race.history, b) &&
             RecordedSince(race.history, token.seqNo, b, version)
    requires b in item.tags && item.version <= version
    ensures T.Refuses(race.tracker, token, R.Carried(item), item.version, now)
  {
    var k: nat :| token.seqNo <= k < |race.history| && race.history[k].tag == b && race.history[k].version >= version;
    T.NonDecreasingIsNotUndercut(race.history, b, k);
    BookIsBlocked(race, token, item, now, b, k);
  }

  /** What the tracker lets in was read at or above the floor of every book it is tagged with. */
  lemma LetInIsAboveFloor(versions: Versions, r: Replica, f: R.FetchId, now: int, b: string)
    requires R.Tracked(r.race) && f in r.race.fetches && f in r.readings && r.race.fetches[f].response.Some?
    requires ReadingOk(versions, r.race.fetches[f], r.readings[f]) && r.floor.Keys == versions.Keys
    requires TokenOk(r.race.history, r.race.fetches[f].token, r.readings[f], r.floor)
    requires T.NonDecreasing(r.race.history, b)
    requires r.race.clock <= now && R.LetIn(r.race, f, now, true)
    requires b in r.race.fetches[f].response.value.tags && b in r.floor
    ensures b in r.readings[f].seen && r.floor[b] <= r.readings[f].seen[b]
  {
    var fetch := r.race.fetches[f];
    if r.readings[f].seen[b] < r.floor[b] {
      assert RecordedSince(r.race.history, fetch.token.seqNo, b, r.floor[b]);
      OldResponseIsRefused(r.race, fetch.token, fetch.response.value, now, b, r.floor[b]);
    }
  }

  lemma BookIsBlocked(race: R.State, token: T.FetchToken, item: Item, now: int, b: string, k: nat)
    requires T.Represents(race.tracker, race.history, race.clock) && T.Issued(token, race.history, race.clock)
    requires race.clock <= now && token.seqNo <= k < |race.history| && race.history[k].tag == b
    requires T.NotUndercut(race.history, k + 1, b, race.history[k].version)
    requires b in item.tags && (item.version == 0 || item.version <= race.history[k].version)
    ensures T.Refuses(race.tracker, token, R.Carried(item), item.version, now)
  {
    if !T.Stale(token, now) {
      assert T.Outdates(race.history, k, token, b, item.version);
      T.NotUndercutKeepsUp(race.history, b, k);
      T.OutdatedIsBlocked(race.tracker, race.history, race.clock, now, token, b, item.version, k);
      var i :| 0 <= i < |item.tags| && item.tags[i] == b;
      assert R.Carried(item)[i] == b;
    }
  }

  lemma NewEntryOk(db: O.Db, r: Replica, f: R.FetchId, now: int, e: Entry, origin: map<string, R.FetchId>)
    requires R.Tracked(r.race) && ReadingsOk(db.versions, r.race.fetches, r.readings) && FloorOk(db, r.floor)
    requires TokensOk(r.race.history, r.race.fetches, r.readings, r.floor)
    requires forall b :: b in db.versions ==> T.NonDecreasing(r.race.history, b)
    requires f in r.race.fetches && r.race.fetches[f].response.Some? && r.race.clock <= now &&
             R.LetIn(r.race, f, now, true)
    requires e.item.tags == r.race.fetches[f].response.value.tags && e.item.key in origin && origin[e.item.key] == f
    ensures EntryOk(origin, r.readings, r.floor, e)
  {
    assert ReadingOk(db.versions, r.race.fetches[f], r.readings[f]);
    forall b | b in e.item.tags && b in r.floor
      ensures b in r.readings[f].seen && r.floor[b] <= r.readings[f].seen[b]
    {
      assert TokenOk(r.race.history, r.race.fetches[f].token, r.readings[f], r.floor);
      LetInIsAboveFloor(db.versions, r, f, now, b);
    }
  }

  lemma StoredEntries(cfg: R.Config, db: O.Db, ids: set<string>, r: Replica, step: R.Step)
    requires ReplicaInv(cfg, db, ids, r) && step.Store? && R.Enabled(cfg, r.race, step)
    ensures CachedOk(R.Apply(cfg, r.race, step), r.readings, r.floor)
  {
    var race' := R.Apply(cfg, r.race, step);
    forall i, e: Entry | 0 <= i < |race'.segments| && e in race'.segments[i]
      ensures EntryOk(race'.origin, r.readings, r.floor, e)
    {
      R.EntriesAfter(cfg, r.race, step, i, e);
      if R.WasCached(r.race, race', i, e) {
        assert EntryOk(r.race.origin, r.readings, r.floor, e);
      } else {
        NewEntryOk(db, r, step.f, step.now, e, race'.origin);
      }
    }
  }

  lemma StoreContinues(cfg: R.Config, r: Replica, f: R.FetchId, now: int, admitted: bool)
    requires R.Inv(cfg, r.race) && R.Enabled(cfg, r.race, R.Store(f, now, admitted)) && f in r.readings
    ensures var race' := R.Apply(cfg, r.race, R.Store(f, now, admitted));
            && Continues(r, r.(race := race'), f) && race'.purges == r.race.purges
            && race'.fetches[f] == r.race.fetches[f].(done := true)
  {
    assert r.readings == r.readings[f := r.readings[f]];
  }

  lemma StoreStep(cfg: R.Config, db: O.Db, ids: set<string>, r: Replica, f: R.FetchId, now: int, admitted: bool)
    requires ReplicaInv(cfg, db, ids, r) && R.Enabled(cfg, r.race, R.Store(f, now, admitted))
    ensures ReplicaInv(cfg, db, ids, r.(race := R.Apply(cfg, r.race, R.Store(f, now, admitted))))
  {
    var step := R.Store(f, now, admitted);
    R.StepInv(cfg, r.race, step);
    assert ReadingOk(db.versions, r.race.fetches[f], r.readings[f]);
    StoreContinues(cfg, r, f, now, admitted);
    StoredEntries(cfg, db, ids, r, step);
    Continuing(cfg, db, ids, r, r.(race := R.Apply(cfg, r.race, step)), f);
  }

  /** Steps that only shrink or reorder segments or work off purges. */
  lemma QuietStep(cfg: R.Config, db: O.Db, ids: set<string>, r: Replica, step: R.Step)
    requires ReplicaInv(cfg, db, ids, r) && R.Enabled(cfg, r.race, step)
    requires step.ClientLookup? || step.TimerFires? || step.List? || step.LookUp? || step.Delete?
    ensures ReplicaInv(cfg, db, ids, r.(race := R.Apply(cfg, r.race, step)))
  {
    var race' := R.Apply(cfg, r.race, step);
    R.StepInv(cfg, r.race, step);
    forall i, e: Entry | 0 <= i < |race'.segments| && e in race'.segments[i]
      ensures EntryOk(race'.origin, r.readings, r.floor, e)
    {
      R.EntriesAfter(cfg, r.race, step, i, e);
      assert EntryOk(r.race.origin, r.readings, r.floor, e);
    }
    PurgesWorkedOff(cfg, db, ids, r, step);
  }

  lemma PurgesWorkedOff(cfg: R.Config, db: O.Db, ids: set<string>, r: Replica, step: R.Step)
    requires cfg.Ok() && |r.race.segments| == cfg.shards && R.Enabled(cfg, r.race, step)
    requires ConsumerOk(cfg, db, ids, r.race, r.mem, r.consumer)
    requires step.ClientLookup? || step.TimerFires? || step.List? || step.LookUp? || step.Delete?
    ensures ConsumerOk(cfg, db, ids, R.Apply(cfg, r.race, step), r.mem, r.consumer)
  {
    forall p | p in r.race.purges && R.Finished(cfg, r.race.purges[p])
      ensures var race' := R.Apply(cfg, r.race, step); p in race'.purges && race'.purges[p] == r.race.purges[p]
    {
      R.FinishedStepStays(cfg, r.race, step, p);
    }
  }

  // ---- The consumer -----------------------------------------------------------------

  /** An event the filter suppresses is past: nothing older than it is cached. */
  lemma SuppressedIsPast(db: O.Db, ids: set<string>, floor: Versions, f: Filter, e: Event)
    requires FilterOk(db, ids, floor, f) && Known(db, ids, e) && AlreadyApplied(f, e)
    requires forall id :: id in ids ==> id !in db.draws.rowOf
    ensures Past(floor, e)
  {
  }

  /** Taking a past event out of the queue loses nothing. */
  lemma RemovalKeepsDelivered(confirmed: seq<O.Row>, queue: multiset<Event>, floor: Versions, e: Event)
    requires DeliveredOk(confirmed, queue, floor) && Past(floor, e)
    ensures DeliveredOk(confirmed, queue - multiset{e}, floor)
  {
  }

  /** An event that goes to the handler is newer than anything handled for its book. */
  lemma DeliveredIsNewer(f: Filter, e: Event)
    requires !AlreadyApplied(f, e)
    ensures forall b :: O.OfBook(e, b) ==> e.version > Version(f.maxVersion, b)
  {
  }

  lemma HandlingRecorded(versions: Versions, h: T.History, mem: Filter, e: Event)
    requires RecordedOk(versions, h, mem, Idle)
    ensures RecordedOk(versions, h, mem, Handling(e, [], A.None))
  {
  }

  lemma DeliverStep(cfg: R.Config, db: O.Db, ids: set<string>, r: Replica, e: Event, removed: bool)
    requires (forall id :: id in ids ==> id !in db.draws.rowOf) && ReplicaInv(cfg, db, ids, r)
    requires r.consumer.Idle? && (e in r.queue || e in r.log) && (removed ==> AlreadyApplied(r.mem, e))
    ensures ReplicaInv(cfg, db, ids, r.(queue := r.queue - multiset{e})) || !removed
    ensures !AlreadyApplied(r.mem, e) ==> ReplicaInv(cfg, db, ids, r.(consumer := Handling(e, [], A.None)))
  {
    if removed {
      SuppressedIsPast(db, ids, r.floor, r.mem, e);
      RemovalKeepsDelivered(db.confirmed, r.queue, r.floor, e);
    }
    if !AlreadyApplied(r.mem, e) {
      DeliveredIsNewer(r.mem, e);
      HandlingRecorded(db.versions, r.race.history, r.mem, e);
    }
  }

  /** What a purge of the handled event records about a book is its version, or 0. */
  lemma RecordedVersionOfBook(db: O.Db, ids: set<string>, e: Event, n: nat, b: string)
    requires O.RowsOk(db) && Known(db, ids, e) && n < |Targets(e)| && b in db.versions
    requires R.RecordedTag(Targets(e)[n]) == b
    ensures var v := R.RecordedVersion(Targets(e)[n]);
            v == 0 || (O.OfBook(e, b) && v == e.version && v <= db.versions[b])
  {
  }

  lemma StartHistory(db: O.Db, r: Replica, purge: T.Invalidation)
    requires HistoryOk(db.versions, r.race.history, r.race.fetches, r.readings)
    requires R.Tracked(r.race)
    requires purge.tag in db.versions ==> purge.version <= db.versions[purge.tag]
    ensures HistoryOk(db.versions, r.race.history + [purge], r.race.fetches, r.readings)
  {
  }

  lemma StartTokens(r: Replica, purge: T.Invalidation)
    requires TokensOk(r.race.history, r.race.fetches, r.readings, r.floor)
    ensures TokensOk(r.race.history + [purge], r.race.fetches, r.readings, r.floor)
  {
    var h' := r.race.history + [purge];
    forall f, b | f in r.race.fetches && f in r.readings && b in r.floor && b in r.readings[f].atToken &&
                  r.readings[f].atToken[b] < r.floor[b]
      ensures RecordedSince(h', r.race.fetches[f].token.seqNo, b, r.floor[b])
    {
      assert TokenOk(r.race.history, r.race.fetches[f].token, r.readings[f], r.floor);
      var k: nat :| r.race.fetches[f].token.seqNo <= k < |r.race.history| && r.race.history[k].tag == b &&
                    r.race.history[k].version >= r.floor[b];
      assert h'[k] == r.race.history[k];
    }
  }

  lemma StartRecorded(db: O.Db, r: Replica, purge: T.Invalidation)
    requires r.consumer.Handling? && RecordedOk(db.versions, r.race.history, r.mem, r.consumer)
    requires forall b :: O.OfBook(r.consumer.event, b) ==> r.consumer.event.version > Version(r.mem.maxVersion, b)
    requires purge.tag in db.versions ==>
               purge.version == 0 || (O.OfBook(r.consumer.event, purge.tag) &&
                                      purge.version == r.consumer.event.version)
    ensures RecordedOk(db.versions, r.race.history + [purge], r.mem, r.consumer)
  {
  }

  /** The consumer's purges so far are untouched when the next one starts. */
  lemma StartConsumer(cfg: R.Config, db: O.Db, ids: set<string>, race: R.State, mem: Filter, consumer: Consumer,
                      p: R.PurgeId, target: R.Target, now: int)
    requires cfg.Ok() && |race.segments| == cfg.shards && R.Enabled(cfg, race, R.RecordPurge(p, target, now))
    requires ConsumerOk(cfg, db, ids, race, mem, consumer) && consumer.Handling?
    requires |consumer.done| < |Targets(consumer.event)| && target == Targets(consumer.event)[|consumer.done|]
    ensures ConsumerOk(cfg, db, ids, R.Apply(cfg, race, R.RecordPurge(p, target, now)), mem,
                       consumer.(current := A.Some(p)))
  {
  }

  /** What the next purge of the consumer records. */
  function NextPurge(consumer: Consumer, now: int): T.Invalidation
    requires consumer.Handling? && |consumer.done| < |Targets(consumer.event)|
  {
    var target := Targets(consumer.event)[|consumer.done|];
    T.Invalidation(R.RecordedTag(target), R.RecordedVersion(target), now)
  }

  lemma StartParts(db: O.Db, ids: set<string>, r: Replica, now: int)
    requires O.RowsOk(db) && r.consumer.Handling? && |r.consumer.done| < |Targets(r.consumer.event)|
    requires Known(db, ids, r.consumer.event)
    requires forall b :: O.OfBook(r.consumer.event, b) ==> r.consumer.event.version > Version(r.mem.maxVersion, b)
    requires R.Tracked(r.race)
    requires HistoryOk(db.versions, r.race.history, r.race.fetches, r.readings)
    requires TokensOk(r.race.history, r.race.fetches, r.readings, r.floor)
    requires RecordedOk(db.versions, r.race.history, r.mem, r.consumer)
    ensures var h' := r.race.history + [NextPurge(r.consumer, now)];
            && HistoryOk(db.versions, h', r.race.fetches, r.readings)
            && TokensOk(h', r.race.fetches, r.readings, r.floor)
            && RecordedOk(db.versions, h', r.mem, r.consumer)
  {
    var purge := NextPurge(r.consumer, now);
    if purge.tag in db.versions {
      RecordedVersionOfBook(db, ids, r.consumer.event, |r.consumer.done|, purge.tag);
    }
    StartHistory(db, r, purge);
    StartTokens(r, purge);
    StartRecorded(db, r, purge);
  }

  /** Recording a purge touches nothing but the history, the tracker and the purge itself. */
  lemma RecordedRace(cfg: R.Config, race: R.State, p: R.PurgeId, target: R.Target, now: int)
    requires cfg.Ok() && |race.segments| == cfg.shards && R.Enabled(cfg, race, R.RecordPurge(p, target, now))
    ensures var race' := R.Apply(cfg, race, R.RecordPurge(p, target, now));
            && race'.history == race.history + [T.Invalidation(R.RecordedTag(target), R.RecordedVersion(target), now)]
            && race'.fetches == race.fetches && race'.segments == race.segments && race'.origin == race.origin
  {
  }

  lemma SameCache(race: R.State, race': R.State, readings: map<R.FetchId, Reading>, floor: Versions)
    requires CachedOk(race, readings, floor) && race'.segments == race.segments && race'.origin == race.origin
    ensures CachedOk(race', readings, floor)
  {
  }

  lemma StartStep(cfg: R.Config, db: O.Db, ids: set<string>, r: Replica, p: R.PurgeId, target: R.Target, now: int)
    requires O.RowsOk(db) && ReplicaInv(cfg, db, ids, r)
    requires r.consumer.Handling? && |r.consumer.done| < |Targets(r.consumer.event)|
    requires target == Targets(r.consumer.event)[|r.consumer.done|] &&
             R.Enabled(cfg, r.race, R.RecordPurge(p, target, now))
    ensures ReplicaInv(cfg, db, ids, r.(race := R.Apply(cfg, r.race, R.RecordPurge(p, target, now)),
                                        consumer := r.consumer.(current := A.Some(p))))
  {
    var race' := R.Apply(cfg, r.race, R.RecordPurge(p, target, now));
    R.StepInv(cfg, r.race, R.RecordPurge(p, target, now));
    RecordedRace(cfg, r.race, p, target, now);
    StartParts(db, ids, r, now);
    SameEventRecorded(db.versions, race'.history, r.mem, r.consumer, r.consumer.(current := A.Some(p)));
    StartConsumer(cfg, db, ids, r.race, r.mem, r.consumer, p, target, now);
    SameCache(r.race, race', r.readings, r.floor);
    Restarted(cfg, db, ids, r, r.(race := race', consumer := r.consumer.(current := A.Some(p))));
  }

  /** The parts of the invariant that mention neither history nor purges carry over. */
  lemma Restarted(cfg: R.Config, db: O.Db, ids: set<string>, r: Replica, r': Replica)
    requires r' == r.(race := r'.race, consumer := r'.consumer) && r'.race.fetches == r.race.fetches
    requires FloorOk(db, r.floor) && FilterOk(db, ids, r.floor, r.mem) && FilterOk(db, ids, r.floor, r.disk)
    requires QueueOk(db, ids, r.queue) && QueueOk(db, ids, r.log) && DeliveredOk(db.confirmed, r.queue, r.floor)
    requires ReadingsOk(db.versions, r.race.fetches, r.readings)
    requires R.Inv(cfg, r'.race)
    requires HistoryOk(db.versions, r'.race.history, r.race.fetches, r.readings)
    requires TokensOk(r'.race.history, r.race.fetches, r.readings, r.floor)
    requires RecordedOk(db.versions, r'.race.history, r.mem, r'.consumer)
    requires CachedOk(r'.race, r.readings, r.floor)
    requires ConsumerOk(cfg, db, ids, r'.race, r.mem, r'.consumer)
    ensures ReplicaInv(cfg, db, ids, r')
  {
  }

  lemma FinishConsumer(cfg: R.Config, db: O.Db, ids: set<string>, race: R.State, mem: Filter, consumer: Consumer)
    requires ConsumerOk(cfg, db, ids, race, mem, consumer) && consumer.Handling? && consumer.current.Some?
    requires consumer.current.value in race.purges && R.Finished(cfg, race.purges[consumer.current.value])
    ensures ConsumerOk(cfg, db, ids, race, mem,
                       Handling(consumer.event, consumer.done + [consumer.current.value], A.None))
  {
  }

  lemma SameEventRecorded(versions: Versions, h: T.History, mem: Filter, before: Consumer, after: Consumer)
    requires RecordedOk(versions, h, mem, before) && before.Handling? && after.Handling? && after.event == before.event
    ensures RecordedOk(versions, h, mem, after)
  {
  }

  lemma FinishStep(cfg: R.Config, db: O.Db, ids: set<string>, r: Replica)
    requires ReplicaInv(cfg, db, ids, r) && ReplicaEnabled(cfg, db.versions, r, FinishTarget)
    ensures ReplicaInv(cfg, db, ids, ReplicaApply(cfg, db.versions, r, FinishTarget))
  {
    FinishConsumer(cfg, db, ids, r.race, r.mem, r.consumer);
    SameEventRecorded(db.versions, r.race.history, r.mem, r.consumer,
                      ReplicaApply(cfg, db.versions, r, FinishTarget).consumer);
  }

  // ---- Marking an event as handled --------------------------------------------------

  /** What the record of a purge of book `b` at version `v` says about the history. */
  predicate PurgeOf(h: T.History, purge: R.Purge, b: string, v: nat) {
    && purge.target == R.TagTarget(b, v) && 0 < purge.recorded <= |h|
    && h[purge.recorded - 1].tag == b && h[purge.recorded - 1].version == v
  }

  lemma PurgeIsRecorded(cfg: R.Config, race: R.State, q: R.PurgeId, b: string, v: nat)
    requires R.Purging(cfg, race) && q in race.purges && race.purges[q].target == R.TagTarget(b, v)
    ensures PurgeOf(race.history, race.purges[q], b, v)
  {
  }

  /** What a finished purge left in the cache was fetched after it or carries a newer version. */
  lemma SurvivorOfPurge(cfg: R.Config, race: R.State, q: R.PurgeId, b: string, v: nat, i: nat, e: Entry)
    requires |race.segments| == cfg.shards && R.Covered(race) && R.Sourced(race)
    requires T.NonDecreasing(race.history, b) && v > 0
    requires q in race.purges && R.Finished(cfg, race.purges[q]) && PurgeOf(race.history, race.purges[q], b, v)
    requires i < |race.segments| && e in race.segments[i] && b in e.item.tags
    ensures R.FromFetch(race.origin, race.fetches, e)
    ensures race.fetches[race.origin[e.item.key]].token.seqNo >= race.purges[q].recorded || e.item.version > v
  {
    T.NonDecreasingIsNotUndercut(race.history, b, race.purges[q].recorded - 1);
    R.FinishedLeavesNothing(cfg, race, q, i, e);
  }

  lemma SawPurgedVersion(versions: Versions, fetch: R.Fetch, reading: Reading, purge: T.Invalidation)
    requires ReadingOk(versions, fetch, reading) && fetch.response.Some? && purge.tag in versions
    requires SawPurge(reading, purge) ||
             (fetch.response.value.version > purge.version && purge.tag in fetch.response.value.tags)
    ensures purge.tag in reading.seen && purge.version <= reading.seen[purge.tag]
  {
  }

  /** When the purge of book `b` at version `v` is finished, everything cached under the book was
      read at `v` or later. */
  lemma PurgedIsAbove(cfg: R.Config, versions: Versions, r: Replica, q: R.PurgeId, b: string, v: nat, i: nat, e: Entry)
    requires |r.race.segments| == cfg.shards && R.Covered(r.race) && R.Sourced(r.race) && R.Purging(cfg, r.race)
    requires T.NonDecreasing(r.race.history, b) && b in versions && v > 0
    requires ReadingsOk(versions, r.race.fetches, r.readings)
    requires HistoryOk(versions, r.race.history, r.race.fetches, r.readings)
    requires q in r.race.purges && R.Finished(cfg, r.race.purges[q]) && r.race.purges[q].target == R.TagTarget(b, v)
    requires i < |r.race.segments| && e in r.race.segments[i] && b in e.item.tags
    ensures e.item.key in r.race.origin && r.race.origin[e.item.key] in r.readings
    ensures var seen := r.readings[r.race.origin[e.item.key]].seen; b in seen && v <= seen[b]
  {
    PurgeIsRecorded(cfg, r.race, q, b, v);
    SurvivorOfPurge(cfg, r.race, q, b, v, i, e);
    var f := r.race.origin[e.item.key];
    var k := r.race.purges[q].recorded - 1;
    ReadingIsOk(versions, r.race.fetches, r.readings, f);
    PurgeWasSeen(versions, r.race.history, r.race.fetches, r.readings, k, f);
    SawPurgedVersion(versions, r.race.fetches[f], r.readings[f], r.race.history[k]);
  }

  lemma ReadingIsOk(versions: Versions, fetches: map<R.FetchId, R.Fetch>, readings: map<R.FetchId, Reading>,
                    f: R.FetchId)
    requires ReadingsOk(versions, fetches, readings) && f in fetches
    ensures f in readings && ReadingOk(versions, fetches[f], readings[f])
  {
  }

  lemma PurgeWasSeen(versions: Versions, h: T.History, fetches: map<R.FetchId, R.Fetch>,
                     readings: map<R.FetchId, Reading>, k: nat, f: R.FetchId)
    requires HistoryOk(versions, h, fetches, readings) && k < |h| && f in fetches && f in readings
    ensures fetches[f].token.seqNo > k ==> SawPurge(readings[f], h[k])
  {
  }

  lemma LiftedEntry(origin: map<string, R.FetchId>, readings: map<R.FetchId, Reading>, floor: Versions, e: Event,
                    b: string, x: Entry)
    requires EntryOk(origin, readings, floor, x) && O.OfBook(e, b)
    requires b in x.item.tags ==>
               b in readings[origin[x.item.key]].seen && e.version <= readings[origin[x.item.key]].seen[b]
    ensures EntryOk(origin, readings, Lifted(floor, e), x)
  {
  }

  lemma LiftedCached(cfg: R.Config, versions: Versions, r: Replica, q: R.PurgeId, e: Event, b: string)
    requires R.Inv(cfg, r.race) && T.NonDecreasing(r.race.history, b) && b in versions && O.OfBook(e, b)
    requires ReadingsOk(versions, r.race.fetches, r.readings)
    requires HistoryOk(versions, r.race.history, r.race.fetches, r.readings)
    requires CachedOk(r.race, r.readings, r.floor)
    requires q in r.race.purges && R.Finished(cfg, r.race.purges[q]) &&
             r.race.purges[q].target == R.TagTarget(b, e.version)
    ensures CachedOk(r.race, r.readings, Lifted(r.floor, e))
  {
    forall i, x: Entry | 0 <= i < |r.race.segments| && x in r.race.segments[i]
      ensures EntryOk(r.race.origin, r.readings, Lifted(r.floor, e), x)
    {
      assert EntryOk(r.race.origin, r.readings, r.floor, x);
      if b in x.item.tags {
        PurgedIsAbove(cfg, versions, r, q, b, e.version, i, x);
      }
      LiftedEntry(r.race.origin, r.readings, r.floor, e, b, x);
    }
  }

  lemma LiftedTokens(cfg: R.Config, versions: Versions, r: Replica, q: R.PurgeId, e: Event, b: string)
    requires R.Purging(cfg, r.race) && O.OfBook(e, b)
    requires HistoryOk(versions, r.race.history, r.race.fetches, r.readings)
    requires TokensOk(r.race.history, r.race.fetches, r.readings, r.floor)
    requires q in r.race.purges && r.race.purges[q].target == R.TagTarget(b, e.version)
    ensures TokensOk(r.race.history, r.race.fetches, r.readings, Lifted(r.floor, e))
  {
  }

  lemma LiftedAbove(floor: Versions, e: Event)
    ensures Lifted(floor, e).Keys == floor.Keys
    ensures forall b :: b in floor ==> floor[b] <= Lifted(floor, e)[b]
    ensures Past(Lifted(floor, e), e)
  {
  }

  lemma FilterBelowHigher(db: O.Db, ids: set<string>, floor: Versions, higher: Versions, f: Filter)
    requires FilterOk(db, ids, floor, f) && higher.Keys == floor.Keys &&
             forall b :: b in floor ==> floor[b] <= higher[b]
    ensures FilterOk(db, ids, higher, f)
  {
  }

  lemma MarkedFilter(db: O.Db, ids: set<string>, floor: Versions, f: Filter, e: Event)
    requires FilterOk(db, ids, floor, f) && Known(db, ids, e) && Past(floor, e)
    requires e.version > 0 ==> |e.tags| == 1 && e.tags[0] in floor
    ensures FilterOk(db, ids, floor, Marked(f, e))
  {
    RememberedIds(f.order, e.id);
    forall t
      ensures Version(Marked(f, e).maxVersion, t) > 0 ==> t in floor && Version(Marked(f, e).maxVersion, t) <= floor[t]
    {
      CommittedVersion(f.maxVersion, e, t);
    }
  }

  lemma MarkedRecorded(versions: Versions, h: T.History, f: Filter, consumer: Consumer)
    requires consumer.Handling? && RecordedOk(versions, h, f, consumer)
    ensures RecordedOk(versions, h, Marked(f, consumer.event), Idle)
  {
    var e := consumer.event;
    forall k | 0 <= k < |h| && h[k].tag in versions
      ensures Accounted(Marked(f, e), Idle, h[k].tag, h[k].version)
    {
      assert Accounted(f, consumer, h[k].tag, h[k].version);
      CommittedVersion(f.maxVersion, e, h[k].tag);
    }
  }

  /** A versioned event names exactly one book. */
  lemma VersionedIsOfBook(db: O.Db, ids: set<string>, e: Event)
    requires O.RowsOk(db) && Known(db, ids, e) && e.version > 0
    ensures |e.tags| == 1 && O.OfBook(e, e.tags[0]) && e.tags[0] in db.versions && e.version <= db.versions[e.tags[0]]
  {
  }

  lemma LiftedFloor(db: O.Db, floor: Versions, e: Event)
    requires FloorOk(db, floor) &&
             (e.version > 0 ==> |e.tags| == 1 && e.tags[0] in db.versions && e.version <= db.versions[e.tags[0]])
    ensures FloorOk(db, Lifted(floor, e))
  {
  }

  /** The first finished purge of a handled versioned event was the one of its book. */
  lemma FirstPurge(cfg: R.Config, db: O.Db, ids: set<string>, r: Replica)
    requires O.RowsOk(db) && r.consumer.Handling? && r.consumer.event.version > 0
    requires ConsumerOk(cfg, db, ids, r.race, r.mem, r.consumer) && |r.consumer.done| == |Targets(r.consumer.event)|
    ensures var e := r.consumer.event;
            && |e.tags| == 1 && O.OfBook(e, e.tags[0]) && e.tags[0] in db.versions &&
               e.version <= db.versions[e.tags[0]]
            && |r.consumer.done| > 0 && r.consumer.done[0] in r.race.purges
            && R.Finished(cfg, r.race.purges[r.consumer.done[0]])
            && r.race.purges[r.consumer.done[0]].target == R.TagTarget(e.tags[0], e.version)
  {
  }

  lemma HandledLifts(cfg: R.Config, db: O.Db, ids: set<string>, r: Replica)
    requires O.RowsOk(db) && r.consumer.Handling? && |r.consumer.done| == |Targets(r.consumer.event)|
    requires R.Inv(cfg, r.race) && FloorOk(db, r.floor) && ConsumerOk(cfg, db, ids, r.race, r.mem, r.consumer)
    requires ReadingsOk(db.versions, r.race.fetches, r.readings)
    requires HistoryOk(db.versions, r.race.history, r.race.fetches, r.readings)
    requires TokensOk(r.race.history, r.race.fetches, r.readings, r.floor)
    requires CachedOk(r.race, r.readings, r.floor)
    requires forall b :: b in db.versions ==> T.NonDecreasing(r.race.history, b)
    ensures var floor := Lifted(r.floor, r.consumer.event);
            && FloorOk(db, floor) && CachedOk(r.race, r.readings, floor)
            && TokensOk(r.race.history, r.race.fetches, r.readings, floor)
  {
    var e := r.consumer.event;
    if e.version > 0 {
      FirstPurge(cfg, db, ids, r);
      LiftedCached(cfg, db.versions, r, r.consumer.done[0], e, e.tags[0]);
      LiftedTokens(cfg, db.versions, r, r.consumer.done[0], e, e.tags[0]);
    }
    LiftedFloor(db, r.floor, e);
  }

  lemma HandledFilters(db: O.Db, ids: set<string>, r: Replica, saved: bool)
    requires O.RowsOk(db) && r.consumer.Handling? && Known(db, ids, r.consumer.event) && FloorOk(db, r.floor)
    requires FilterOk(db, ids, r.floor, r.mem) && FilterOk(db, ids, r.floor, r.disk)
    ensures var floor := Lifted(r.floor, r.consumer.event);
            && FilterOk(db, ids, floor, Marked(r.mem, r.consumer.event)) && FilterOk(db, ids, floor, r.disk)
  {
    var e := r.consumer.event;
    var floor := Lifted(r.floor, e);
    LiftedAbove(r.floor, e);
    FilterBelowHigher(db, ids, r.floor, floor, r.mem);
    FilterBelowHigher(db, ids, r.floor, floor, r.disk);
    if e.version > 0 {
      VersionedIsOfBook(db, ids, e);
    }
    MarkedFilter(db, ids, floor, r.mem, e);
  }

  lemma HandledDelivered(confirmed: seq<O.Row>, queue: multiset<Event>, floor: Versions, e: Event)
    requires DeliveredOk(confirmed, queue, floor)
    ensures DeliveredOk(confirmed, queue, Lifted(floor, e))
    ensures DeliveredOk(confirmed, queue - multiset{e}, Lifted(floor, e))
  {
  }

  lemma MarkStep(cfg: R.Config, db: O.Db, ids: set<string>, r: Replica, saved: bool, removed: bool)
    requires DbOk(db, ids) && ReplicaInv(cfg, db, ids, r) &&
             ReplicaEnabled(cfg, db.versions, r, MarkProcessed(saved, removed))
    ensures ReplicaInv(cfg, db, ids, ReplicaApply(cfg, db.versions, r, MarkProcessed(saved, removed)))
  {
    HandledLifts(cfg, db, ids, r);
    HandledFilters(db, ids, r, saved);
    HandledDelivered(db.confirmed, r.queue, r.floor, r.consumer.event);
    MarkedRecorded(db.versions, r.race.history, r.mem, r.consumer);
  }

  lemma CompactStep(cfg: R.Config, db: O.Db, ids: set<string>, r: Replica, kept: multiset<Event>)
    requires ReplicaInv(cfg, db, ids, r) && kept <= r.log
    ensures ReplicaInv(cfg, db, ids, r.(log := kept))
  {
  }

  // ---- Restart ----------------------------------------------------------------------

  lemma LoadedFilter(db: O.Db, ids: set<string>, floor: Versions, disk: Filter, loaded: Versions)
    requires DbOk(db, ids) && FloorOk(db, floor) && FilterOk(db, ids, floor, disk)
    requires L.Migrates(disk.maxVersion, disk.maxVersion.Keys, loaded)
    ensures FilterOk(db, ids, db.versions, disk) && FilterOk(db, ids, db.versions, Filter(loaded, disk.order))
  {
    FilterBelowHigher(db, ids, floor, db.versions, disk);
    forall t | Version(loaded, t) > 0
      ensures t in db.versions && Version(loaded, t) <= db.versions[t]
    {
      var k :| k in disk.maxVersion && L.Renamed(k) == t && disk.maxVersion[k] == Version(loaded, t);
      assert Version(disk.maxVersion, k) > 0;
      assert L.HasColon(k);
    }
  }

  /** A restart loses the cache, so nothing cached is older than the database. */
  lemma RestartDelivered(db: O.Db, ids: set<string>, queue: multiset<Event>)
    requires DbOk(db, ids)
    ensures DeliveredOk(db.confirmed, queue, db.versions)
  {
  }

  lemma RestartStep(cfg: R.Config, db: O.Db, ids: set<string>, r: Replica, race: R.State, loaded: Versions)
    requires DbOk(db, ids) && ReplicaInv(cfg, db, ids, r) && ReplicaEnabled(cfg, db.versions, r, Restart(race, loaded))
    ensures ReplicaInv(cfg, db, ids, ReplicaApply(cfg, db.versions, r, Restart(race, loaded)))
  {
    R.InitialInv(cfg, race);
    LoadedFilter(db, ids, r.floor, r.disk, loaded);
    RestartDelivered(db, ids, r.queue);
  }

  // ---- Whole runs -------------------------------------------------------------------

  lemma FetchingStep(cfg: R.Config, db: O.Db, ids: set<string>, r: Replica, step: R.Step)
    requires ReplicaInv(cfg, db, ids, r) && ReplicaEnabled(cfg, db.versions, r, Fetching(step))
    ensures ReplicaInv(cfg, db, ids, ReplicaApply(cfg, db.versions, r, Fetching(step)))
  {
    match step
    case Begin(f, key, now) => BeginStep(cfg, db, ids, r, f, key, now);
    case Respond(f, item) => RespondStep(cfg, db, ids, r, f, item);
    case Abandon(f) => AbandonStep(cfg, db, ids, r, f);
    case Store(f, now, admitted) => StoreStep(cfg, db, ids, r, f, now, admitted);
    case ClientLookup(_, _) => QuietStep(cfg, db, ids, r, step);
    case TimerFires(_, _) => QuietStep(cfg, db, ids, r, step);
  }

  lemma ReplicaStepInv(cfg: R.Config, db: O.Db, ids: set<string>, r: Replica, step: ReplicaStep)
    requires DbOk(db, ids) && ReplicaInv(cfg, db, ids, r) && ReplicaEnabled(cfg, db.versions, r, step)
    ensures ReplicaInv(cfg, db, ids, ReplicaApply(cfg, db.versions, r, step))
  {
    match step
    case Fetching(s) => FetchingStep(cfg, db, ids, r, s);
    case Deliver(e, removed) => DeliverStep(cfg, db, ids, r, e, removed);
    case StartTarget(p, now) => StartStep(cfg, db, ids, r, p, Targets(r.consumer.event)[|r.consumer.done|], now);
    case Purging(s) => QuietStep(cfg, db, ids, r, s);
    case FinishTarget => FinishStep(cfg, db, ids, r);
    case MarkProcessed(saved, removed) => MarkStep(cfg, db, ids, r, saved, removed);
    case Compact(kept) => CompactStep(cfg, db, ids, r, kept);
    case Restart(race, loaded) => RestartStep(cfg, db, ids, r, race, loaded);
  }

  ghost predicate Inv(cfg: R.Config, s: System) {
    && cfg.Ok() && DbOk(s.db, s.purgeIds)
    && forall i :: 0 <= i < |s.replicas| ==> ReplicaInv(cfg, s.db, s.purgeIds, s.replicas[i])
  }

  lemma FreshReplica(cfg: R.Config, db: O.Db, r: Replica)
    requires cfg.Ok() && O.Initial(db) && R.Initial(cfg, r.race)
    requires r == Replica(r.race, multiset{}, multiset{}, Idle, Nothing, Nothing, map[], db.versions)
    ensures ReplicaInv(cfg, db, {}, r)
  {
  }

  lemma InitialInv(cfg: R.Config, s: System)
    requires Initial(cfg, s)
    ensures Inv(cfg, s)
  {
    O.InitialInv(s.db);
    forall i | 0 <= i < |s.replicas|
      ensures ReplicaInv(cfg, s.db, {}, s.replicas[i])
    {
      FreshReplica(cfg, s.db, s.replicas[i]);
    }
  }

  lemma ReplicaAfter(cfg: R.Config, s: System, step: Step, i: nat)
    requires cfg.Ok() && DbOk(s.db, s.purgeIds) && i < |s.replicas| && ReplicaInv(cfg, s.db, s.purgeIds, s.replicas[i])
    requires (forall j :: 0 <= j < |s.replicas| ==> |s.replicas[j].race.segments| == cfg.shards) &&
             Enabled(cfg, s, step)
    ensures var s' := Apply(cfg, s, step); ReplicaInv(cfg, s'.db, s'.purgeIds, s'.replicas[i])
  {
    match step
    case Database(dbStep, arrived) => DatabaseStep(cfg, s, dbStep, arrived, i);
    case PurgeRequest(e, arrived, logged) => PurgeRequestStep(cfg, s, e, arrived, logged, i);
    case AtReplica(j, local) =>
      if i == j {
        ReplicaStepInv(cfg, s.db, s.purgeIds, s.replicas[i], local);
      }
  }

  lemma StepInv(cfg: R.Config, s: System, step: Step)
    requires Inv(cfg, s)
    requires (forall i :: 0 <= i < |s.replicas| ==> |s.replicas[i].race.segments| == cfg.shards) &&
             Enabled(cfg, s, step)
    ensures Inv(cfg, Apply(cfg, s, step))
  {
    var s' := Apply(cfg, s, step);
    if step.Database? {
      DatabaseKeepsDb(s, step.step);
    }
    forall i | 0 <= i < |s'.replicas|
      ensures ReplicaInv(cfg, s'.db, s'.purgeIds, s'.replicas[i])
    {
      ReplicaAfter(cfg, s, step, i);
    }
  }

  ghost predicate Behaviour(cfg: R.Config, states: seq<System>, steps: seq<Step>) {
    && |states| == |steps| + 1 && Initial(cfg, states[0])
    && (forall n {:trigger steps[n]} :: 0 <= n < |steps| ==>
          && (forall i :: 0 <= i < |states[n].replicas| ==> |states[n].replicas[i].race.segments| == cfg.shards)
          && Enabled(cfg, states[n], steps[n])
          && states[n + 1] == Apply(cfg, states[n], steps[n]))
  }

  lemma {:induction false} BehaviourInv(cfg: R.Config, states: seq<System>, steps: seq<Step>, n: nat)
    requires Behaviour(cfg, states, steps) && n < |states|
    ensures Inv(cfg, states[n])
  {
    if n == 0 {
      InitialInv(cfg, states[0]);
    } else {
      BehaviourInv(cfg, states, steps, n - 1);
      assert steps[n - 1] == steps[n - 1];
      StepInv(cfg, states[n - 1], steps[n - 1]);
    }
  }

  /** The invalidation of the book's current version is a visible outbox row. */
  predicate InOutbox(db: O.Db, b: string)
    requires b in db.versions
  {
    exists id :: id in db.rows && O.OfBook(db.rows[id], b) && db.rows[id].version == db.versions[b]
  }

  /** ... or an unacknowledged message of the replica's queue. */
  predicate InQueue(db: O.Db, queue: multiset<Event>, b: string)
    requires b in db.versions
  {
    exists e :: e in queue && O.OfBook(e, b) && e.version == db.versions[b]
  }

  /** A floor below the database means the latest invalidation is still on its way. */
  lemma BehindIsPending(db: O.Db, ids: set<string>, r: Replica, b: string)
    requires DbOk(db, ids) && FloorOk(db, r.floor) && DeliveredOk(db.confirmed, r.queue, r.floor)
    requires b in db.versions && r.floor[b] < db.versions[b]
    ensures InOutbox(db, b) || InQueue(db, r.queue, b)
  {
  }

  /** The versions the books had when the cached response was read upstream. */
  function SeenBy(r: Replica, e: Entry): Versions
    requires e.item.key in r.race.origin && r.race.origin[e.item.key] in r.readings
  {
    r.readings[r.race.origin[e.item.key]].seen
  }

  /**
    End-to-end coherence.  In every reachable state, on every replica, a cached response tagged with
    a book that it read at a version below the database's has the invalidation of the book's current
    version still in the outbox or unacknowledged in that replica's queue.
  */
  lemma StaleIsPending(cfg: R.Config, states: seq<System>, steps: seq<Step>, n: nat, i: nat, k: nat, e: Entry,
                       b: string)
    requires Behaviour(cfg, states, steps) && n < |states| && i < |states[n].replicas|
    requires k < |states[n].replicas[i].race.segments| && e in states[n].replicas[i].race.segments[k]
    requires b in e.item.tags && b in states[n].db.versions
    ensures var r, db := states[n].replicas[i], states[n].db;
            && e.item.key in r.race.origin && r.race.origin[e.item.key] in r.readings
            && b in SeenBy(r, e) && SeenBy(r, e)[b] <= db.versions[b]
            && (e.item.version > 0 ==> e.item.version == SeenBy(r, e)[b])
            && (SeenBy(r, e)[b] < db.versions[b] ==> InOutbox(db, b) || InQueue(db, r.queue, b))
  {
    BehaviourInv(cfg, states, steps, n);
    var r, db := states[n].replicas[i], states[n].db;
    assert ReplicaInv(cfg, db, states[n].purgeIds, r);
    StaleEntryIsPending(cfg, db, states[n].purgeIds, r, k, e, b);
  }

  /** A cached response was read at or above the floor, not above the database, and its version, if
      it has one, is that of its books. */
  lemma SeenBetween(versions: Versions, r: Replica, k: nat, e: Entry, b: string)
    requires R.Sourced(r.race) && ReadingsOk(versions, r.race.fetches, r.readings) &&
             CachedOk(r.race, r.readings, r.floor)
    requires k < |r.race.segments| && e in r.race.segments[k] && b in e.item.tags && b in versions && b in r.floor
    ensures e.item.key in r.race.origin && r.race.origin[e.item.key] in r.readings
    ensures b in SeenBy(r, e) && r.floor[b] <= SeenBy(r, e)[b] <= versions[b]
    ensures e.item.version > 0 ==> e.item.version == SeenBy(r, e)[b]
  {
    assert EntryOk(r.race.origin, r.readings, r.floor, e);
    assert R.FromFetch(r.race.origin, r.race.fetches, e);
    ReadingIsOk(versions, r.race.fetches, r.readings, r.race.origin[e.item.key]);
  }

  lemma StaleEntryIsPending(cfg: R.Config, db: O.Db, ids: set<string>, r: Replica, k: nat, e: Entry, b: string)
    requires DbOk(db, ids) && ReplicaInv(cfg, db, ids, r)
    requires k < |r.race.segments| && e in r.race.segments[k] && b in e.item.tags && b in db.versions
    ensures e.item.key in r.race.origin && r.race.origin[e.item.key] in r.readings
    ensures b in SeenBy(r, e) && SeenBy(r, e)[b] <= db.versions[b]
    ensures e.item.version > 0 ==> e.item.version == SeenBy(r, e)[b]
    ensures SeenBy(r, e)[b] < db.versions[b] ==> InOutbox(db, b) || InQueue(db, r.queue, b)
  {
    SeenBetween(db.versions, r, k, e, b);
    if r.floor[b] < db.versions[b] {
      BehindIsPending(db, ids, r, b);
    }
  }

  /** Once the outbox and a replica's queue are drained, nothing the replica caches is stale: every
      cached response was read at the current version of each of its books, and says so. */
  lemma DrainedIsCoherent(cfg: R.Config, states: seq<System>, steps: seq<Step>, n: nat, i: nat, k: nat, e: Entry,
                          b: string)
    requires Behaviour(cfg, states, steps) && n < |states| && i < |states[n].replicas|
    requires states[n].db.rows == map[] && states[n].replicas[i].queue == multiset{}
    requires k < |states[n].replicas[i].race.segments| && e in states[n].replicas[i].race.segments[k]
    requires b in e.item.tags && b in states[n].db.versions
    ensures var r := states[n].replicas[i];
            && e.item.key in r.race.origin && r.race.origin[e.item.key] in r.readings
            && b in SeenBy(r, e) && SeenBy(r, e)[b] == states[n].db.versions[b]
            && (e.item.version > 0 ==> e.item.version == states[n].db.versions[b])
  {
    StaleIsPending(cfg, states, steps, n, i, k, e, b);
  }
}
