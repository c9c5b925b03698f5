/** The durable event log: replay, compaction, and what a restart makes of the saved versions. */
module EventLog {
  import opened Events
  import opened Dedup

  /** Keeps the records whose replay would still deliver something. */
  function Compacted(f: Filter, log: seq<Event>): seq<Event> {
    if log == [] then []
    else Compacted(f, log[..|log| - 1]) + (if AlreadyApplied(f, log[|log| - 1]) then [] else [log[|log| - 1]])
  }

  datatype Replayed = Replayed(filter: Filter, delivered: seq<Event>)

  /** Replaying a log with handlers that succeed. */
  function Replay(f: Filter, log: seq<Event>): Replayed {
    if log == [] then Replayed(f, [])
    else
      var r := Replay(f, log[..|log| - 1]);
      var e := log[|log| - 1];
      if AlreadyApplied(r.filter, e) then r else Replayed(Marked(r.filter, e), r.delivered + [e])
  }

  /** Replaying the log evicts no remembered id. */
  predicate Room(g: Filter, log: seq<Event>) {
    |g.order| + |Replay(g, log).delivered| <= MAX_PROCESSED
  }

  lemma {:induction false} ReplayGrows(f: Filter, g: Filter, log: seq<Event>)
    requires Below(f, g) && Room(g, log)
    ensures Below(f, Replay(g, log).filter)
    ensures |Replay(g, log).filter.order| == |g.order| + |Replay(g, log).delivered|
  {
    if log != [] {
      var init, e := log[..|log| - 1], log[|log| - 1];
      var r := Replay(g, init);
      ReplayGrows(f, g, init);
      if !AlreadyApplied(r.filter, e) {
        MarkedIsAbove(f, r.filter, e);
      }
    }
  }

  /** As long as no remembered id is evicted and the replaying filter knows what the compacting one
      knew, the compacted log replays exactly like the full one: same deliveries, same order, same
      filter. */
  lemma {:induction false} CompactionIsInvisible(f: Filter, g: Filter, log: seq<Event>)
    requires Below(f, g) && Room(g, log)
    ensures Replay(g, Compacted(f, log)) == Replay(g, log)
  {
    if log != [] {
      var init, e := log[..|log| - 1], log[|log| - 1];
      CompactionIsInvisible(f, g, init);
      ReplayGrows(f, g, init);
      var c := Compacted(f, init);
      if AlreadyApplied(f, e) {
        AppliedStaysApplied(f, Replay(g, init).filter, e);
        assert Compacted(f, log) == c;
      } else {
        assert Compacted(f, log)[..|c|] == c;
      }
    }
  }

  /** A filter that is full cannot take anything in, so it sees no difference at all. */
  lemma {:induction false} NothingDelivered(f: Filter, g: Filter, log: seq<Event>)
    requires Replay(g, log).delivered == []
    ensures Replay(g, log).filter == g && Replay(g, Compacted(f, log)) == Replay(g, log)
  {
    if log != [] {
      var init, e := log[..|log| - 1], log[|log| - 1];
      NothingDelivered(f, g, init);
      var c := Compacted(f, init);
      if !AlreadyApplied(f, e) {
        assert Compacted(f, log)[..|c|] == c;
      } else {
        assert Compacted(f, log) == c;
      }
    }
  }

  ghost predicate AlwaysInvisible(f: Filter, g: Filter) {
    forall log :: Room(g, log) ==> Replay(g, Compacted(f, log)) == Replay(g, log)
  }

  /** A one-record log that the compacting filter drops and the replaying one would deliver. */
  lemma DroppedIsMissed(f: Filter, g: Filter, e: Event)
    requires AlreadyApplied(f, e) && !AlreadyApplied(g, e)
    ensures Replay(g, [e]).delivered == [e] && Replay(g, Compacted(f, [e])).delivered == []
  {
    assert [e][..0] == [];
    assert Compacted(f, [e]) == [];
    assert Replay(g, [e]) == Replayed(Marked(g, e), [] + [e]);
  }

  function Longest(ids: seq<string>): (n: nat)
    ensures forall i :: 0 <= i < |ids| ==> |ids[i]| <= n
  {
    if ids == [] then 0
    else
      var n, last := Longest(ids[..|ids| - 1]), |ids[|ids| - 1]|;
      if last > n then last else n
  }

  function UnusedId(ids: seq<string>): (id: string)
    ensures id !in ids
  {
    seq(Longest(ids) + 1, _ => 'x')
  }

  /** What `f` knows and `g` does not is an event that `f` drops and `g` would deliver. */
  lemma UnknownToReplay(f: Filter, g: Filter) returns (e: Event)
    requires !Below(f, g)
    ensures AlreadyApplied(f, e) && !AlreadyApplied(g, e)
  {
    if t :| Version(f.maxVersion, t) > Version(g.maxVersion, t) {
      e := Event(UnusedId(g.order), [t], [], Version(f.maxVersion, t));
      assert e.tags[0] == t;
    } else {
      var id :| id in f.order && id !in g.order;
      e := Event(id, ["t"], [], 0);
    }
  }

  /** Compaction is invisible to every replay that evicts nothing if and only if the replaying filter
      knows at least what the compacting one knew, or has no room for anything new anyway. */
  lemma CompactionIsInvisibleIff(f: Filter, g: Filter)
    ensures AlwaysInvisible(f, g) <==> Below(f, g) || |g.order| >= MAX_PROCESSED
  {
    if Below(f, g) || |g.order| >= MAX_PROCESSED {
      forall log | Room(g, log)
        ensures Replay(g, Compacted(f, log)) == Replay(g, log)
      {
        if Below(f, g) {
          CompactionIsInvisible(f, g, log);
        } else {
          NothingDelivered(f, g, log);
        }
      }
    } else {
      var e := UnknownToReplay(f, g);
      DroppedIsMissed(f, g, e);
      assert Room(g, [e]);
    }
  }

  /** A failed save and a restart: memory knew the event when it compacted the log, the saved filter
      does not.  The full log would deliver the event again, the compacted one does not. */
  lemma FailedSaveMakesCompactionVisible(saved: Filter, e: Event)
    requires !AlreadyApplied(saved, e)
    ensures var memory := Marked(saved, e);
            && Replay(saved, [e]).delivered == [e] && Replay(saved, Compacted(memory, [e])).delivered == []
  {
    RememberedIds(saved.order, e.id);
    DroppedIsMissed(Marked(saved, e), saved, e);
  }

  /** The log, compacted last by a filter that knew `known`, replays like the full one for every filter
      that knows as much. */
  ghost predicate Equivalent(log: seq<Event>, full: seq<Event>, known: Filter) {
    forall g :: Below(known, g) && Room(g, full) ==> Replay(g, log) == Replay(g, full)
  }

  lemma CompactingStaysEquivalent(log: seq<Event>, full: seq<Event>, known: Filter, f: Filter)
    requires Equivalent(log, full, known) && Below(known, f)
    ensures Equivalent(Compacted(f, log), full, f)
  {
    forall g | Below(f, g) && Room(g, full)
      ensures Replay(g, Compacted(f, log)) == Replay(g, full)
    {
      assert Below(known, g);
      CompactionIsInvisible(f, g, log);
    }
  }

  lemma AppendingStaysEquivalent(log: seq<Event>, full: seq<Event>, known: Filter, e: Event)
    requires Equivalent(log, full, known)
    ensures Equivalent(log + [e], full + [e], known)
  {
    assert (log + [e])[..|log|] == log && (full + [e])[..|full|] == full;
    forall g | Below(known, g) && Room(g, full + [e])
      ensures Replay(g, log + [e]) == Replay(g, full + [e])
    {
      assert Room(g, full);
    }
  }

  lemma {:induction false} CompactedElements(f: Filter, log: seq<Event>)
    ensures forall e :: e in Compacted(f, log) <==> e in log && !AlreadyApplied(f, e)
  {
    if log != [] {
      CompactedElements(f, log[..|log| - 1]);
      assert log == log[..|log| - 1] + [log[|log| - 1]];
    }
  }

  // ---- Conservation -----------------------------------------------------------------

  /** The filter claims nothing that was not handled. */
  ghost predicate Reflects(f: Filter, handled: seq<Event>) {
    && (forall id :: id in f.order ==> HandledId(handled, id))
    && (forall t :: Version(f.maxVersion, t) > 0 ==> HandledAt(handled, t, Version(f.maxVersion, t)))
  }

  predicate HandledAt(handled: seq<Event>, tag: string, version: nat) {
    exists i :: 0 <= i < |handled| && tag in handled[i].tags && handled[i].version >= version
  }

  /** The event was handled by id, or every one of its tags at its version or later. */
  predicate Settled(handled: seq<Event>, e: Event) {
    || HandledId(handled, e.id)
    || (e.version > 0 && e.keys == [] && e.tags != [] &&
        forall i :: 0 <= i < |e.tags| ==> HandledAt(handled, e.tags[i], e.version))
  }

  /** No appended event is lost: it is in the log or settled. */
  ghost predicate Conserved(appended: seq<Event>, log: seq<Event>, handled: seq<Event>) {
    forall i :: 0 <= i < |appended| ==> appended[i] in log || Settled(handled, appended[i])
  }

  lemma AppliedIsSettled(f: Filter, handled: seq<Event>, e: Event)
    requires Reflects(f, handled) && AlreadyApplied(f, e)
    ensures Settled(handled, e)
  {
  }

  lemma CompactionConserves(f: Filter, appended: seq<Event>, log: seq<Event>, handled: seq<Event>)
    requires Reflects(f, handled) && Conserved(appended, log, handled)
    ensures Conserved(appended, Compacted(f, log), handled)
  {
    CompactedElements(f, log);
    forall i | 0 <= i < |appended|
      ensures appended[i] in Compacted(f, log) || Settled(handled, appended[i])
    {
      if appended[i] in log && AlreadyApplied(f, appended[i]) {
        AppliedIsSettled(f, handled, appended[i]);
      }
    }
  }

  lemma HandlingKeeps(f: Filter, handled: seq<Event>, e: Event)
    requires Reflects(f, handled)
    ensures Reflects(f, handled + [e]) && Reflects(Marked(f, e), handled + [e])
  {
    var more := handled + [e];
    RememberedIds(f.order, e.id);
    assert more[|handled|] == e;
    forall id | HandledId(handled, id)
      ensures HandledId(more, id)
    {
      var i :| 0 <= i < |handled| && handled[i].id == id;
      assert more[i].id == id;
    }
    assert HandledId(more, e.id);
    forall t, v: nat | HandledAt(handled, t, v)
      ensures HandledAt(more, t, v)
    {
      var i :| 0 <= i < |handled| && t in handled[i].tags && handled[i].version >= v;
      assert more[i] == handled[i];
    }
    forall t | Version(Marked(f, e).maxVersion, t) > 0
      ensures HandledAt(more, t, Version(Marked(f, e).maxVersion, t))
    {
      CommittedVersion(f.maxVersion, e, t);
    }
  }

  lemma SettledStays(handled: seq<Event>, e: Event, x: Event)
    requires Settled(handled, x)
    ensures Settled(handled + [e], x)
  {
    var more := handled + [e];
    if HandledId(handled, x.id) {
      var i :| 0 <= i < |handled| && handled[i].id == x.id;
      assert more[i].id == x.id;
    } else {
      forall i | 0 <= i < |x.tags|
        ensures HandledAt(more, x.tags[i], x.version)
      {
        var j :| 0 <= j < |handled| && x.tags[i] in handled[j].tags && handled[j].version >= x.version;
        assert more[j] == handled[j];
      }
    }
  }

  lemma HandlingConserves(appended: seq<Event>, log: seq<Event>, handled: seq<Event>, e: Event)
    requires Conserved(appended, log, handled)
    ensures Conserved(appended, log, handled + [e])
  {
    forall i | 0 <= i < |appended|
      ensures appended[i] in log || Settled(handled + [e], appended[i])
    {
      if appended[i] !in log {
        SettledStays(handled, e, appended[i]);
      }
    }
  }

  // ---- Loading saved versions -------------------------------------------------------

  predicate HasColon(s: string) {
    exists i :: 0 <= i < |s| && s[i] == ':'
  }

  /** A saved tag without a colon dates from when versions were kept per book id. */
  function Renamed(key: string): string {
    if HasColon(key) then key else "book:" + key
  }

  lemma RenamedHasColon(key: string)
    ensures HasColon(Renamed(key))
  {
    if !HasColon(key) {
      assert Renamed(key)[4] == ':';
    }
  }

  predicate SavedAs(versions: map<string, nat>, names: set<string>, tag: string, version: nat) {
    exists k :: k in names && k in versions && Renamed(k) == tag && versions[k] == version
  }

  /** `out` holds, per renamed tag, the largest version saved under any old name. */
  ghost predicate Migrates(versions: map<string, nat>, names: set<string>, out: map<string, nat>) {
    && (forall k :: k in names && k in versions ==> versions[k] <= Version(out, Renamed(k)))
    && (forall t :: Version(out, t) > 0 ==> SavedAs(versions, names, t, Version(out, t)))
  }

  function Raised(out: map<string, nat>, tag: string, version: nat): map<string, nat> {
    if version > Version(out, tag) then out[tag := version] else out
  }

  lemma MigratesOneMore(versions: map<string, nat>, done: set<string>, out: map<string, nat>, name: string)
    requires Migrates(versions, done, out) && name in versions
    ensures Migrates(versions, done + {name}, Raised(out, Renamed(name), versions[name]))
  {
    var out' := Raised(out, Renamed(name), versions[name]);
    forall t | Version(out', t) > 0
      ensures SavedAs(versions, done + {name}, t, Version(out', t))
    {
      if t == Renamed(name) && Version(out', t) == versions[name] {
        assert SavedAs(versions, {name}, t, versions[name]);
      } else {
        assert SavedAs(versions, done, t, Version(out, t));
      }
    }
  }

  /** No saved version is lost: it is found under its tag, or under the tag of the book it names. */
  lemma MigrationLosesNothing(versions: map<string, nat>, out: map<string, nat>, key: string)
    requires Migrates(versions, versions.Keys, out) && key in versions
    ensures Version(out, if ':' in key then key else "book:" + key) >= versions[key]
  {
    assert ':' in key <==> HasColon(key);
    assert versions[key] <= Version(out, Renamed(key));
  }

  method MigrateVersionKeys(versions: map<string, nat>) returns (out: map<string, nat>)
    ensures Migrates(versions, versions.Keys, out)
  {
    out := map[];
    var names := versions.Keys;
    ghost var done: set<string> := {};
    while names != {}
      invariant done + names == versions.Keys
      invariant Migrates(versions, done, out)
      decreases names
    {
      var name :| name in names;
      names := names - {name};
      MigratesOneMore(versions, done, out, name);
      var key := if HasColon(name) then name else "book:" + name;
      if versions[name] > Version(out, key) {
        out := out[key := versions[name]];
      }
      done := done + {name};
    }
    assert done == versions.Keys;
  }

  /** A restart keeps every version exactly when every tag with a saved version has a colon;
      otherwise the version is moved to a tag that may never have been handled. */
  lemma RestartKeepsVersionsIffColons(versions: map<string, nat>, out: map<string, nat>)
    requires Migrates(versions, versions.Keys, out)
    ensures (forall t :: Version(out, t) == Version(versions, t)) <==>
            (forall k :: k in versions && versions[k] > 0 ==> HasColon(k))
  {
    if forall k :: k in versions && versions[k] > 0 ==> HasColon(k) {
      forall t
        ensures Version(out, t) == Version(versions, t)
      {
        if Version(out, t) > 0 {
          var k :| k in versions && Renamed(k) == t && versions[k] == Version(out, t);
          assert k == t;
        }
        if Version(versions, t) > 0 {
          assert Renamed(t) == t;
        }
      }
    } else {
      var k :| k in versions && versions[k] > 0 && !HasColon(k);
      if Version(out, k) > 0 {
        var other :| other in versions && Renamed(other) == k && versions[other] == Version(out, k);
        RenamedHasColon(other);
      }
      assert Version(out, k) != Version(versions, k);
    }
  }
}
