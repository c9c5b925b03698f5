/**
  The deduplication filter in front of the handler: which events are still worth delivering.
  It remembers the largest handled version per tag and a bounded list of handled event ids.
*/
module Dedup {
  import opened Events

  const MAX_PROCESSED: nat := 10_000

  datatype Filter = Filter(maxVersion: map<string, nat>, order: seq<string>)

  const Nothing := Filter(map[], [])

  function Version(maxVersion: map<string, nat>, tag: string): nat {
    if tag in maxVersion then maxVersion[tag] else 0
  }

  /** Every tag of a versioned event without keys has been handled at this version or later. */
  predicate Superseded(maxVersion: map<string, nat>, e: Event) {
    && e.version > 0 && e.tags != [] && e.keys == []
    && forall i :: 0 <= i < |e.tags| ==> e.version <= Version(maxVersion, e.tags[i])
  }

  predicate AlreadyApplied(f: Filter, e: Event) {
    e.id in f.order || Superseded(f.maxVersion, e)
  }

  function Raise(maxVersion: map<string, nat>, tags: seq<string>, version: nat): map<string, nat> {
    if tags == [] then maxVersion
    else
      var m := Raise(maxVersion, tags[..|tags| - 1], version);
      var t := tags[|tags| - 1];
      if version > Version(m, t) then m[t := version] else m
  }

  function Committed(maxVersion: map<string, nat>, e: Event): map<string, nat> {
    if e.version == 0 then maxVersion else Raise(maxVersion, e.tags, e.version)
  }

  function Remembered(order: seq<string>, id: string): seq<string> {
    if id in order then order
    else if |order| + 1 > MAX_PROCESSED then (order + [id])[|order| + 1 - MAX_PROCESSED..]
    else order + [id]
  }

  /** The filter after the event was handled. */
  function Marked(f: Filter, e: Event): Filter {
    Filter(Committed(f.maxVersion, e), Remembered(f.order, e.id))
  }

  // ---- Runs -------------------------------------------------------------------------

  /** One delivery attempt: the event and whether its handler would succeed. */
  datatype Offer = Offer(event: Event, ok: bool)

  function Offered(f: Filter, o: Offer): Filter {
    if AlreadyApplied(f, o.event) || !o.ok then f else Marked(f, o.event)
  }

  function After(f: Filter, run: seq<Offer>): Filter {
    if run == [] then f else Offered(After(f, run[..|run| - 1]), run[|run| - 1])
  }

  /** The events that were delivered and handled, in order. */
  function Handled(f: Filter, run: seq<Offer>): seq<Event> {
    if run == [] then []
    else
      var before := run[..|run| - 1];
      var o := run[|run| - 1];
      if AlreadyApplied(After(f, before), o.event) || !o.ok then Handled(f, before)
      else Handled(f, before) + [o.event]
  }

  /** The largest version among handled events naming the tag; 0 if there is none. */
  function MaxHandled(es: seq<Event>, tag: string): nat {
    if es == [] then 0
    else
      var m := MaxHandled(es[..|es| - 1], tag);
      var e := es[|es| - 1];
      if tag in e.tags && e.version > m then e.version else m
  }

  predicate HandledId(es: seq<Event>, id: string) {
    exists i :: 0 <= i < |es| && es[i].id == id
  }

  lemma {:induction false} RaiseVersion(maxVersion: map<string, nat>, tags: seq<string>, version: nat, tag: string)
    ensures Version(Raise(maxVersion, tags, version), tag) ==
              if tag in tags && version > Version(maxVersion, tag) then version else Version(maxVersion, tag)
  {
    if tags != [] {
      RaiseVersion(maxVersion, tags[..|tags| - 1], version, tag);
      assert tags == tags[..|tags| - 1] + [tags[|tags| - 1]];
    }
  }

  lemma CommittedVersion(maxVersion: map<string, nat>, e: Event, tag: string)
    ensures Version(Committed(maxVersion, e), tag) ==
              if tag in e.tags && e.version > Version(maxVersion, tag) then e.version else Version(maxVersion, tag)
  {
    RaiseVersion(maxVersion, e.tags, e.version, tag);
  }

  lemma RememberedIds(order: seq<string>, id: string)
    ensures forall x :: x in Remembered(order, id) ==> x in order || x == id
    ensures id in Remembered(order, id)
    ensures |order| < MAX_PROCESSED ==> forall x :: x in order ==> x in Remembered(order, id)
    ensures |order| <= MAX_PROCESSED ==> |Remembered(order, id)| <= MAX_PROCESSED
  {
    if id !in order {
      var r := Remembered(order, id);
      assert r[|r| - 1] == id;
      forall x | x in order && |order| < MAX_PROCESSED
        ensures x in r
      {
        var i :| 0 <= i < |order| && order[i] == x;
        assert r[i] == x;
      }
    }
  }

  lemma {:induction false} MaxHandledWitness(es: seq<Event>, tag: string)
    ensures forall i :: 0 <= i < |es| && tag in es[i].tags ==> es[i].version <= MaxHandled(es, tag)
    ensures MaxHandled(es, tag) > 0 ==>
              exists i :: 0 <= i < |es| && tag in es[i].tags && es[i].version == MaxHandled(es, tag)
  {
    if es != [] {
      var init := es[..|es| - 1];
      MaxHandledWitness(init, tag);
      forall i | 0 <= i < |es| && tag in es[i].tags
        ensures es[i].version <= MaxHandled(es, tag)
      {
        assert i < |init| ==> es[i] == init[i];
      }
      if MaxHandled(es, tag) == MaxHandled(init, tag) && MaxHandled(es, tag) > 0 {
        var i :| 0 <= i < |init| && tag in init[i].tags && init[i].version == MaxHandled(init, tag);
        assert es[i] == init[i];
      }
    }
  }

  function Ids(es: seq<Event>): (ids: seq<string>)
    ensures |ids| == |es| && forall i :: 0 <= i < |es| ==> ids[i] == es[i].id
  {
    if es == [] then [] else Ids(es[..|es| - 1]) + [es[|es| - 1].id]
  }

  function Newest(ids: seq<string>): seq<string> {
    if |ids| <= 10_000 then ids else ids[|ids| - 10_000..]
  }

  /** The list is full with 10000 ids, and then it is always the oldest that goes: after any run it holds
      exactly the ids of the events handled last, in order. */
  lemma {:induction false} RemembersTheNewest(run: seq<Offer>)
    ensures After(Nothing, run).order == Newest(Ids(Handled(Nothing, run)))
  {
    if run != [] {
      var before, o := run[..|run| - 1], run[|run| - 1];
      RemembersTheNewest(before);
      var f, es := After(Nothing, before), Handled(Nothing, before);
      if !AlreadyApplied(f, o.event) && o.ok {
        assert (es + [o.event])[..|es|] == es;
        NewestOneMore(Ids(es), o.event.id);
      }
    }
  }

  lemma NewestOneMore(ids: seq<string>, id: string)
    requires id !in Newest(ids)
    ensures Remembered(Newest(ids), id) == Newest(ids + [id])
  {
    if |ids| >= 10_000 {
      var order := Newest(ids);
      assert order == ids[|ids| - 10_000..];
      assert (ids + [id])[|ids| + 1 - 10_000..] == (order + [id])[1..];
    }
  }

  /** The filter's state is a function of what was handled: per tag the largest handled version,
      and only ids that were handled — all of them until the list is full. */
  lemma {:induction false} FilterReflectsHandled(run: seq<Offer>)
    ensures var f, es := After(Nothing, run), Handled(Nothing, run);
            && (forall t :: Version(f.maxVersion, t) == MaxHandled(es, t))
            && (forall id :: id in f.order ==> HandledId(es, id))
            && |f.order| <= MAX_PROCESSED && |f.order| <= |es|
            && (|es| <= MAX_PROCESSED ==> forall id :: HandledId(es, id) ==> id in f.order)
  {
    if run != [] {
      var before, o := run[..|run| - 1], run[|run| - 1];
      FilterReflectsHandled(before);
      var f, es := After(Nothing, before), Handled(Nothing, before);
      if !AlreadyApplied(f, o.event) && o.ok {
        HandledExtends(f, es, o.event);
      }
    }
  }

  lemma HandledExtends(f: Filter, es: seq<Event>, e: Event)
    requires forall t :: Version(f.maxVersion, t) == MaxHandled(es, t)
    requires forall id :: id in f.order ==> HandledId(es, id)
    requires |f.order| <= MAX_PROCESSED && |f.order| <= |es|
    requires |es| <= MAX_PROCESSED ==> forall id :: HandledId(es, id) ==> id in f.order
    ensures var f', es' := Marked(f, e), es + [e];
            && (forall t :: Version(f'.maxVersion, t) == MaxHandled(es', t))
            && (forall id :: id in f'.order ==> HandledId(es', id))
            && |f'.order| <= MAX_PROCESSED && |f'.order| <= |es'|
            && (|es'| <= MAX_PROCESSED ==> forall id :: HandledId(es', id) ==> id in f'.order)
  {
    var f', es' := Marked(f, e), es + [e];
    assert es'[..|es'| - 1] == es;
    forall t
      ensures Version(f'.maxVersion, t) == MaxHandled(es', t)
    {
      CommittedVersion(f.maxVersion, e, t);
    }
    RememberedIds(f.order, e.id);
    forall id
      ensures id in f'.order ==> HandledId(es', id)
      ensures |es'| <= MAX_PROCESSED && HandledId(es', id) ==> id in f'.order
    {
      if id in f.order {
        var i :| 0 <= i < |es| && es[i].id == id;
        assert es'[i].id == id;
      }
      assert es'[|es|].id == e.id;
      if HandledId(es', id) && id != e.id {
        var i :| 0 <= i < |es'| && es'[i].id == id;
        assert es[i].id == id;
      }
    }
  }

  /** The event has every one of its tags handled at its version or later. */
  predicate Dominated(es: seq<Event>, e: Event) {
    forall t :: t in e.tags ==> exists i :: 0 <= i < |es| && t in es[i].tags && es[i].version >= e.version
  }

  /** The exact decision after any run with failing handlers and redelivery. */
  lemma SuppressedExactly(run: seq<Offer>, e: Event)
    ensures var f, es := After(Nothing, run), Handled(Nothing, run);
            && (AlreadyApplied(f, e) ==> HandledId(es, e.id) || (e.version > 0 && e.keys == [] && Dominated(es, e)))
            && (e.version == 0 || e.keys != [] ==> (AlreadyApplied(f, e) <==> e.id in f.order))
            && (e.version > 0 && e.keys == [] && e.tags != [] && Dominated(es, e) ==> AlreadyApplied(f, e))
            && (|es| <= MAX_PROCESSED && HandledId(es, e.id) ==> AlreadyApplied(f, e))
  {
    FilterReflectsHandled(run);
    var f, es := After(Nothing, run), Handled(Nothing, run);
    forall t | t in e.tags
      ensures e.version > 0 ==>
                (e.version <= Version(f.maxVersion, t) <==>
                 exists i :: 0 <= i < |es| && t in es[i].tags && es[i].version >= e.version)
    {
      MaxHandledWitness(es, t);
    }
    if e.version > 0 && e.keys == [] && e.tags != [] && Dominated(es, e) {
      forall i | 0 <= i < |e.tags|
        ensures e.version <= Version(f.maxVersion, e.tags[i])
      {
        assert e.tags[i] in e.tags;
      }
    }
  }

  /** A versioned event without keys gets through only if it is newer, on at least one of its
      tags, than everything handled so far. */
  lemma DeliveredIsNews(run: seq<Offer>, e: Event)
    requires e.version > 0 && e.keys == [] && e.tags != []
    requires !AlreadyApplied(After(Nothing, run), e)
    ensures exists t :: t in e.tags &&
              forall i :: 0 <= i < |Handled(Nothing, run)| && t in Handled(Nothing, run)[i].tags ==>
                Handled(Nothing, run)[i].version < e.version
  {
    FilterReflectsHandled(run);
    var f, es := After(Nothing, run), Handled(Nothing, run);
    var i :| 0 <= i < |e.tags| && e.version > Version(f.maxVersion, e.tags[i]);
    MaxHandledWitness(es, e.tags[i]);
    assert e.tags[i] in e.tags;
  }

  // ---- Order between filters --------------------------------------------------------

  /** `g` knows at least what `f` knows. */
  ghost predicate Below(f: Filter, g: Filter) {
    && (forall t :: Version(f.maxVersion, t) <= Version(g.maxVersion, t))
    && (forall id :: id in f.order ==> id in g.order)
  }

  lemma AppliedStaysApplied(f: Filter, g: Filter, e: Event)
    requires Below(f, g) && AlreadyApplied(f, e)
    ensures AlreadyApplied(g, e)
  {
  }

  lemma MarkedIsAbove(f: Filter, g: Filter, e: Event)
    requires Below(f, g) && |g.order| < MAX_PROCESSED
    ensures Below(f, Marked(g, e))
  {
    RememberedIds(g.order, e.id);
    forall t
      ensures Version(f.maxVersion, t) <= Version(Marked(g, e).maxVersion, t)
    {
      CommittedVersion(g.maxVersion, e, t);
    }
  }
}
