/** The brokers: the filter, the durable log and the saved state as objects changed in place. */
module Broker {
  import opened Events
  import opened Dedup
  import opened EventLog

  /** The subscribed handler; the environment decides which calls succeed, and everything it was
      given is on record. */
  class EventHandler {
    ghost var delivered: seq<Event>
    ghost var handled: seq<Event>

    constructor ()
      ensures delivered == [] && handled == []
    {
      delivered, handled := [], [];
    }

    method Handle(e: Event, succeeds: bool)
      modifies this
      ensures delivered == old(delivered) + [e]
      ensures handled == if succeeds then old(handled) + [e] else old(handled)
    {
      delivered := delivered + [e];
      if succeeds {
        handled := handled + [e];
      }
    }
  }

  method SupersededLocked(maxVersion: map<string, nat>, e: Event) returns (yes: bool)
    ensures yes == Superseded(maxVersion, e)
  {
    if e.version == 0 || |e.tags| == 0 || |e.keys| > 0 {
      return false;
    }
    for i := 0 to |e.tags|
      invariant forall j :: 0 <= j < i ==> e.version <= Version(maxVersion, e.tags[j])
    {
      if e.version > Version(maxVersion, e.tags[i]) {
        return false;
      }
    }
    return true;
  }

  method CommitVersionLocked(maxVersion: map<string, nat>, e: Event) returns (m: map<string, nat>)
    ensures m == Committed(maxVersion, e)
  {
    m := maxVersion;
    if e.version == 0 {
      return;
    }
    for i := 0 to |e.tags|
      invariant m == Raise(maxVersion, e.tags[..i], e.version)
    {
      assert e.tags[..i + 1][..i] == e.tags[..i];
      if e.version > Version(m, e.tags[i]) {
        m := m[e.tags[i] := e.version];
      }
    }
    assert e.tags[..|e.tags|] == e.tags;
  }

  /** Handled before, or a versioned event without keys whose every tag was handled at its version
      or later. */
  ghost predicate Suppressed(es: seq<Event>, e: Event) {
    HandledId(es, e.id) || (e.version > 0 && e.keys == [] && e.tags != [] && Dominated(es, e))
  }

  /** The broker used without RabbitMQ; it never forgets an id.  `accepted` lists the events a handler
      dealt with and those published while none was subscribed. */
  class InMemoryBroker {
    var handler: EventHandler?
    var maxVersion: map<string, nat>
    var processed: set<string>
    ghost var accepted: seq<Event>

    ghost predicate Valid()
      reads this
    {
      && (forall t :: Version(maxVersion, t) == MaxHandled(accepted, t))
      && (forall id :: id in processed <==> HandledId(accepted, id))
    }

    constructor ()
      ensures Valid() && handler == null && accepted == []
    {
      handler, maxVersion, processed, accepted := null, map[], {}, [];
    }

    method Subscribe(h: EventHandler)
      modifies this`handler
      ensures handler == h
    {
      handler := h;
    }

    method Stop()
      modifies this`handler
      ensures handler == null
    {
      handler := null;
    }

    /** The subscribed handler sees the event unless it is suppressed.  With no handler subscribed
        it counts as handled all the same. */
    method Publish(e: Event, succeeds: bool) returns (ok: bool)
      requires Valid()
      modifies this, handler
      ensures Valid() && handler == old(handler)
      ensures ok <==> Suppressed(old(accepted), e) || handler == null || succeeds
      ensures accepted == if ok && !Suppressed(old(accepted), e) then old(accepted) + [e] else old(accepted)
      ensures handler != null ==>
                if Suppressed(old(accepted), e)
                then handler.delivered == old(handler.delivered) && handler.handled == old(handler.handled)
                else handler.delivered == old(handler.delivered) + [e] &&
                     handler.handled == if ok then old(handler.handled) + [e] else old(handler.handled)
    {
      DominatedIffSuperseded(accepted, maxVersion, e);
      if e.id in processed {
        return true;
      }
      var superseded := SupersededLocked(maxVersion, e);
      if superseded {
        return true;
      }
      if handler != null {
        handler.Handle(e, succeeds);
        if !succeeds {
          return false;
        }
      }
      ok := true;
      HandledOneMore(accepted, maxVersion, e);
      processed := processed + {e.id};
      maxVersion := CommitVersionLocked(maxVersion, e);
      accepted := accepted + [e];
    }

    /** An event published while no handler is subscribed reaches no later one, however often it is
        published again. */
    method LateSubscriberMissesIt(e: Event, h: EventHandler, again: nat)
      requires Valid() && handler == null
      modifies this, h
      ensures Valid() && Suppressed(accepted, e)
      ensures h.delivered == old(h.delivered)
    {
      var ok := Publish(e, true);
      if !Suppressed(old(accepted), e) {
        assert accepted[|old(accepted)|].id == e.id;
      }
      Subscribe(h);
      for i := 0 to again
        invariant Valid() && handler == h && Suppressed(accepted, e) && h.delivered == old(h.delivered)
      {
        ok := Publish(e, true);
      }
    }
  }

  lemma DominatedIffSuperseded(es: seq<Event>, maxVersion: map<string, nat>, e: Event)
    requires forall t :: Version(maxVersion, t) == MaxHandled(es, t)
    ensures e.version > 0 && e.keys == [] && e.tags != [] ==> (Superseded(maxVersion, e) <==> Dominated(es, e))
  {
    forall t | t in e.tags
      ensures e.version > 0 ==>
                (e.version <= Version(maxVersion, t) <==>
                 exists i :: 0 <= i < |es| && t in es[i].tags && es[i].version >= e.version)
    {
      MaxHandledWitness(es, t);
    }
    if e.version > 0 && Dominated(es, e) {
      forall i | 0 <= i < |e.tags|
        ensures e.version <= Version(maxVersion, e.tags[i])
      {
        assert e.tags[i] in e.tags;
      }
    }
  }

  lemma HandledOneMore(es: seq<Event>, maxVersion: map<string, nat>, e: Event)
    requires forall t :: Version(maxVersion, t) == MaxHandled(es, t)
    ensures forall t :: Version(Committed(maxVersion, e), t) == MaxHandled(es + [e], t)
    ensures forall id :: HandledId(es + [e], id) <==> HandledId(es, id) || id == e.id
  {
    var more := es + [e];
    assert more[..|more| - 1] == es;
    forall t
      ensures Version(Committed(maxVersion, e), t) == MaxHandled(more, t)
    {
      CommittedVersion(maxVersion, e, t);
    }
    forall id
      ensures HandledId(more, id) <==> HandledId(es, id) || id == e.id
    {
      assert more[|es|].id == e.id;
      if HandledId(es, id) {
        var i :| 0 <= i < |es| && es[i].id == id;
        assert more[i].id == id;
      }
      if HandledId(more, id) && id != e.id {
        var i :| 0 <= i < |more| && more[i].id == id;
        assert es[i].id == id;
      }
    }
  }

  const HANDLER_ATTEMPTS: nat := 3
  const COMPACT_EVERY: nat := 1000

  /** What survives a restart: the saved filter and the event log.  `appended` lists every event
      whose append was reported as successful, `full` is the log as it would be without compaction,
      `known` what the filter knew that compacted it last. */
  class Disk {
    var saved: Filter
    var log: seq<Event>
    ghost var appended: seq<Event>
    ghost var full: seq<Event>
    ghost var known: Filter

    constructor ()
      ensures saved == Nothing && log == [] && appended == [] && Restartable()
    {
      saved, log, appended, full, known := Nothing, [], [], [], Nothing;
    }

    /** The saved filter knows what the log was compacted with, so a restart will not notice. */
    ghost predicate Restartable()
      reads this
    {
      Below(known, saved) && Equivalent(log, full, known)
    }
  }

  predicate Colons(f: Filter) {
    forall k :: k in f.maxVersion && f.maxVersion[k] > 0 ==> HasColon(k)
  }

  function Copies(e: Event, n: nat): seq<Event> {
    seq(n, _ => e)
  }

  /** A list of ids as the broker keeps it: no repetitions, bounded. */
  predicate Remembers(order: seq<string>) {
    && |order| <= MAX_PROCESSED
    && forall i, j :: 0 <= i < j < |order| ==> order[i] != order[j]
  }

  lemma ReplayNext(f: Filter, log: seq<Event>, i: nat, es: seq<Event>)
    requires i < |log|
    ensures var before, after := Replay(f, log[..i]), Replay(f, log[..i + 1]);
            && after.filter ==
               (if AlreadyApplied(before.filter, log[i]) then before.filter else Marked(before.filter, log[i]))
            && es + after.delivered ==
               es + before.delivered + if AlreadyApplied(before.filter, log[i]) then [] else [log[i]]
  {
    assert log[..i + 1][..i] == log[..i];
  }

  datatype Disposition = Acked | DeadLettered

  /** How the handling of one event goes: which attempts succeed, after which failed attempts the
      wait is cancelled, and whether the state can be saved. */
  datatype Conditions = Conditions(succeeds: nat -> bool, canceled: nat -> bool, saves: bool)
  {
    /** The number of the last attempt, from attempt `i` on. */
    function Last(i: nat): (n: nat)
      requires i < HANDLER_ATTEMPTS
      ensures i <= n < HANDLER_ATTEMPTS && forall k :: i <= k < n ==> !succeeds(k) && !canceled(k)
      ensures succeeds(n) || n == HANDLER_ATTEMPTS - 1 || canceled(n)
      decreases HANDLER_ATTEMPTS - i
    {
      if succeeds(i) || i == HANDLER_ATTEMPTS - 1 || canceled(i) then i else Last(i + 1)
    }

    predicate Handled() {
      succeeds(Last(0))
    }

    lemma LastDecides()
      ensures Handled() <==>
                exists n :: 0 <= n < 3 && succeeds(n) && forall k :: 0 <= k < n ==> !succeeds(k) && !canceled(k)
    {
      if n :| 0 <= n < 3 && succeeds(n) && forall k :: 0 <= k < n ==> !succeeds(k) && !canceled(k) {
        assert Last(0) >= n;
      }
    }
  }

  class RabbitBroker {
    const handler: EventHandler
    const disk: Disk
    var maxVersion: map<string, nat>
    var processed: set<string>
    var processedOrder: seq<string>
    var appendedSinceCompact: nat

    ghost predicate Valid()
      reads this
    {
      processed == (set id | id in processedOrder) && Remembers(processedOrder)
    }

    ghost function View(): Filter
      reads this
    {
      Filter(maxVersion, processedOrder)
    }

    /** Memory and disk claim nothing that was not handled, and no appended event is lost. */
    ghost predicate Sound()
      reads this, handler, disk
    {
      && Reflects(View(), handler.handled)
      && Reflects(disk.saved, handler.handled)
      && Conserved(disk.appended, disk.log, handler.handled)
    }

    /** Memory knows what the log was compacted with. */
    ghost predicate Traceable()
      reads this, disk
    {
      Below(disk.known, View()) && Equivalent(disk.log, disk.full, disk.known)
    }

    /** A (re)start: the saved state is read back, tags without a colon renamed. */
    constructor (disk: Disk, handler: EventHandler)
      requires Reflects(disk.saved, handler.handled)
      requires Conserved(disk.appended, disk.log, handler.handled)
      ensures this.disk == disk && this.handler == handler && Valid()
      ensures Migrates(disk.saved.maxVersion, disk.saved.maxVersion.Keys, maxVersion)
      ensures forall id :: id in processedOrder ==> id in disk.saved.order
      ensures Remembers(disk.saved.order) ==> processedOrder == disk.saved.order
      ensures Colons(disk.saved) ==> Sound()
      ensures Colons(disk.saved) && Remembers(disk.saved.order) && disk.Restartable() ==> Traceable()
    {
      this.disk, this.handler := disk, handler;
      processed, processedOrder, appendedSinceCompact := {}, [], 0;
      var versions := MigrateVersionKeys(disk.saved.maxVersion);
      maxVersion := versions;
      new;
      for i := 0 to |disk.saved.order|
        invariant Valid() && maxVersion == versions
        invariant forall id :: id in processedOrder ==> id in disk.saved.order
        invariant Remembers(disk.saved.order) ==> processedOrder == disk.saved.order[..i]
      {
        RememberedIds(processedOrder, disk.saved.order[i]);
        RememberLocked(disk.saved.order[i]);
      }
      RestartKeepsVersionsIffColons(disk.saved.maxVersion, versions);
    }

    method RememberLocked(id: string)
      requires Valid()
      modifies this`processed, this`processedOrder
      ensures Valid() && processedOrder == Remembered(old(processedOrder), id)
    {
      if id in processed {
        return;
      }
      processed := processed + {id};
      processedOrder := processedOrder + [id];
      var order := processedOrder;
      if |order| > MAX_PROCESSED {
        var over := |order| - MAX_PROCESSED;
        for i := 0 to over
          invariant processed == set x | x in order[i..]
        {
          assert order[i..] == [order[i]] + order[i + 1..];
          assert order[i] !in order[i + 1..] by {
            forall j | i + 1 <= j < |order|
              ensures order[j] != order[i]
            {
            }
          }
          processed := processed - {order[i]};
        }
        processedOrder := order[over..];
      }
    }

    method AlreadyAppliedNow(e: Event) returns (yes: bool)
      requires Valid()
      ensures yes == AlreadyApplied(View(), e)
    {
      if e.id in processed {
        return true;
      }
      yes := SupersededLocked(maxVersion, e);
    }

    /** Memory is updated even when saving fails. */
    method MarkProcessed(e: Event, saves: bool)
      requires Valid()
      modifies this, disk`saved
      ensures Valid() && View() == Marked(old(View()), e)
      ensures disk.saved == if saves then View() else old(disk.saved)
      ensures appendedSinceCompact == old(appendedSinceCompact)
      ensures old(Traceable()) && |old(processedOrder)| < MAX_PROCESSED ==>
              Traceable() && (saves ==> disk.Restartable())
    {
      if |processedOrder| < MAX_PROCESSED && Below(disk.known, View()) {
        MarkedIsAbove(disk.known, View(), e);
      }
      RememberLocked(e.id);
      maxVersion := CommitVersionLocked(maxVersion, e);
      if saves {
        disk.saved := Filter(maxVersion, processedOrder);
      }
    }

    /** Attempts until one succeeds, the third failed, or the wait is cancelled; only the last one
        can have succeeded. */
    method ProcessWithRetry(e: Event, c: Conditions) returns (ok: bool)
      modifies handler
      ensures ok == c.Handled()
      ensures ok <==>
                exists n :: 0 <= n < 3 && c.succeeds(n) && forall k :: 0 <= k < n ==> !c.succeeds(k) && !c.canceled(k)
      ensures |old(handler.delivered)| < |handler.delivered| <= |old(handler.delivered)| + 3
      ensures handler.handled == if ok then old(handler.handled) + [e] else old(handler.handled)
      ensures handler.delivered == old(handler.delivered) + Copies(e, c.Last(0) + 1)
    {
      c.LastDecides();
      var attempt := 0;
      while attempt < HANDLER_ATTEMPTS
        invariant attempt < HANDLER_ATTEMPTS && c.Last(attempt) == c.Last(0)
        invariant handler.handled == old(handler.handled)
        invariant handler.delivered == old(handler.delivered) + Copies(e, attempt)
        decreases HANDLER_ATTEMPTS - attempt
      {
        handler.Handle(e, c.succeeds(attempt));
        assert handler.delivered == old(handler.delivered) + Copies(e, attempt + 1);
        if c.succeeds(attempt) {
          return true;
        }
        if attempt == HANDLER_ATTEMPTS - 1 {
          break;
        }
        if c.canceled(attempt) {
          return false;
        }
        attempt := attempt + 1;
      }
      return false;
    }

    /** The log becomes exactly its compaction under the current filter, or cannot be replaced. */
    method Compact(renamed: bool)
      requires Valid()
      modifies this`appendedSinceCompact, disk`log, disk`known
      ensures disk.log == if renamed then Compacted(View(), old(disk.log)) else old(disk.log)
      ensures disk.known == if renamed then View() else old(disk.known)
      ensures old(Traceable()) ==> Traceable() && (disk.saved == View() ==> disk.Restartable())
      ensures appendedSinceCompact == if renamed then 0 else old(appendedSinceCompact)
    {
      var logged := disk.log;
      ghost var f := View();
      var kept: seq<Event> := [];
      for i := 0 to |logged|
        invariant disk.log == logged && disk.known == old(disk.known) && kept == Compacted(f, logged[..i])
        invariant appendedSinceCompact == old(appendedSinceCompact)
      {
        assert logged[..i + 1][..i] == logged[..i];
        var applied := AlreadyAppliedNow(logged[i]);
        if !applied {
          kept := kept + [logged[i]];
        }
      }
      assert logged[..|logged|] == logged;
      if renamed {
        if old(Traceable()) {
          CompactingStaysEquivalent(disk.log, disk.full, disk.known, f);
        }
        disk.log, disk.known := kept, f;
        appendedSinceCompact := 0;
      }
      assert View() == f;
    }

    /** The event is written at the end of the log; every thousandth append compacts.  After a
        reported success the event is in the log unless it is already settled. */
    method AppendEvent(e: Event, written: bool, synced: bool, renamed: bool) returns (ok: bool)
      requires Valid() && Sound()
      modifies this`appendedSinceCompact, disk`log, disk`appended, disk`full, disk`known
      ensures Valid() && Sound() && ok == (written && synced)
      ensures disk.full == if written then old(disk.full) + [e] else old(disk.full)
      ensures old(Traceable()) ==> Traceable()
      ensures disk.appended == if ok then old(disk.appended) + [e] else old(disk.appended)
      ensures ok ==> e in disk.log || Settled(handler.handled, e)
      ensures ok && old(appendedSinceCompact) + 1 >= 1000 && renamed ==>
                disk.log == Compacted(View(), old(disk.log) + [e]) && appendedSinceCompact == 0
      ensures !(ok && old(appendedSinceCompact) + 1 >= 1000 && renamed) ==>
                disk.log == if written then old(disk.log) + [e] else old(disk.log)
    {
      ghost var before := disk.log;
      if written {
        if Traceable() {
          AppendingStaysEquivalent(disk.log, disk.full, disk.known, e);
        }
        disk.log, disk.full := disk.log + [e], disk.full + [e];
      }
      assert forall x :: x in before ==> x in disk.log;
      if !written || !synced {
        return false;
      }
      ok := true;
      disk.appended := disk.appended + [e];
      assert Conserved(disk.appended, disk.log, handler.handled);
      appendedSinceCompact := appendedSinceCompact + 1;
      if appendedSinceCompact >= COMPACT_EVERY {
        CompactionConserves(View(), disk.appended, disk.log, handler.handled);
        Compact(renamed);
      }
      assert disk.appended[|disk.appended| - 1] == e;
    }

    /** Handles one event and records it; what was settled stays settled. */
    method ProcessAndMark(e: Event, c: Conditions) returns (ok: bool)
      requires Valid() && Sound()
      modifies this, handler, disk`saved
      ensures Valid() && Sound() && ok == (c.Handled() && c.saves)
      ensures handler.handled == if c.Handled() then old(handler.handled) + [e] else old(handler.handled)
      ensures handler.delivered == old(handler.delivered) + Copies(e, c.Last(0) + 1)
      ensures View() == if c.Handled() then Marked(old(View()), e) else old(View())
      ensures disk.saved == if ok then View() else old(disk.saved)
      ensures old(Traceable()) && |old(processedOrder)| < MAX_PROCESSED ==> Traceable() && (ok ==> disk.Restartable())
    {
      ghost var es := handler.handled;
      ok := ProcessWithRetry(e, c);
      if ok {
        HandlingKeeps(View(), es, e);
        HandlingKeeps(disk.saved, es, e);
        HandlingConserves(disk.appended, disk.log, es, e);
        MarkProcessed(e, c.saves);
        ok := c.saves;
      }
    }

    /** One message from the queue.  An event the filter knows is acknowledged untouched; any other
        one is handled, recorded, and acknowledged exactly if both went well. */
    method Consume(e: Event, c: Conditions) returns (d: Disposition)
      requires Valid() && Sound()
      modifies this, handler, disk`saved
      ensures Valid() && Sound()
      ensures d == Acked <==> AlreadyApplied(old(View()), e) || (c.Handled() && c.saves)
      ensures d == Acked ==> AlreadyApplied(View(), e)
      ensures AlreadyApplied(old(View()), e) ==>
                View() == old(View()) && handler.delivered == old(handler.delivered) &&
                  handler.handled == old(handler.handled)
      ensures !AlreadyApplied(old(View()), e) ==>
                && handler.delivered == old(handler.delivered) + Copies(e, c.Last(0) + 1)
                && handler.handled == (if c.Handled() then old(handler.handled) + [e] else old(handler.handled))
                && View() == if c.Handled() then Marked(old(View()), e) else old(View())
      ensures old(Traceable()) && |old(processedOrder)| < MAX_PROCESSED ==>
                Traceable() && (!AlreadyApplied(old(View()), e) && d == Acked ==> disk.Restartable())
    {
      RememberedIds(processedOrder, e.id);
      var applied := AlreadyAppliedNow(e);
      if applied {
        return Acked;
      }
      var ok := ProcessAndMark(e, c);
      d := if ok then Acked else DeadLettered;
    }

    /** One logged event: skipped if the filter knows it, otherwise handled and recorded. */
    method ReplayOne(e: Event, c: Conditions) returns (ok: bool)
      requires Valid() && Sound()
      modifies this, handler, disk`saved
      ensures Valid() && Sound()
      ensures ok ==> View() == (if AlreadyApplied(old(View()), e) then old(View()) else Marked(old(View()), e))
      ensures ok ==> handler.handled == old(handler.handled) + if AlreadyApplied(old(View()), e) then [] else [e]
      ensures ok <==> AlreadyApplied(old(View()), e) || (c.Handled() && c.saves)
    {
      var applied := AlreadyAppliedNow(e);
      if applied {
        return true;
      }
      ok := ProcessAndMark(e, c);
    }

    /** Exactly the events the filter does not know are handled, in log order, until one fails. */
    method ReplayLog(conditions: nat -> Conditions) returns (ok: bool)
      requires Valid() && Sound()
      modifies this, handler, disk`saved
      ensures Valid() && Sound()
      ensures ok ==> View() == Replay(old(View()), disk.log).filter
      ensures ok ==> handler.handled == old(handler.handled) + Replay(old(View()), disk.log).delivered
      ensures (forall i :: conditions(i).Handled() && conditions(i).saves) ==> ok
    {
      ghost var f, es := View(), handler.handled;
      for i := 0 to |disk.log|
        invariant Valid() && Sound()
        invariant View() == Replay(f, disk.log[..i]).filter
        invariant handler.handled == es + Replay(f, disk.log[..i]).delivered
      {
        ReplayNext(f, disk.log, i, es);
        ok := ReplayOne(disk.log[i], conditions(i));
        if !ok {
          return false;
        }
      }
      assert disk.log[..|disk.log|] == disk.log;
      ok := true;
    }

    /** Subscribing replays the log; after a successful replay it is compacted if it can be replaced.
        If memory knows what the log was compacted with, this is the replay of the log that was never
        compacted. */
    method Subscribe(conditions: nat -> Conditions, renamed: bool) returns (ok: bool)
      requires Valid() && Sound()
      modifies this, handler, disk`saved, disk`log, disk`known
      ensures Valid() && Sound()
      ensures ok ==> View() == Replay(old(View()), old(disk.log)).filter
      ensures ok ==> handler.handled == old(handler.handled) + Replay(old(View()), old(disk.log)).delivered
      ensures disk.log == if ok && renamed then Compacted(View(), old(disk.log)) else old(disk.log)
      ensures (forall i :: conditions(i).Handled() && conditions(i).saves) ==> ok
      ensures ok && old(Traceable()) && Room(old(View()), disk.full) ==>
                && View() == Replay(old(View()), disk.full).filter
                && handler.handled == old(handler.handled) + Replay(old(View()), disk.full).delivered
                && Traceable()
    {
      ghost var before := View();
      ok := ReplayLog(conditions);
      if ok {
        if old(Traceable()) && Room(before, disk.full) {
          ReplayGrows(disk.known, before, disk.log);
        }
        CompactionConserves(View(), disk.appended, disk.log, handler.handled);
        Compact(renamed);
      }
    }
  }
}
