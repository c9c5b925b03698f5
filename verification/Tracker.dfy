/**
  The invalidation tracker: a per-tag summary of the purges seen so far, consulted
  before a response that was fetched earlier may enter the cache.

  `State`, `Record` and `Refuses` are the tracker as the code keeps it (three fields
  per tag, old entries pruned).  `History` is the list of all purges ever recorded and
  `HistoryRefuses` is what the tracker is for, stated on that list.
*/
module Tracker {

  /** One minute, in nanoseconds. */
  const RETENTION: int := 60_000_000_000
  const PRUNE_SIZE: nat := 4096

  datatype TagInvalidation = TagInvalidation(seqNo: nat, version: nat, unconditionalSeq: nat, at: int)

  datatype State = State(seqNo: nat, tags: map<string, TagInvalidation>)

  /** Taken before going upstream. */
  datatype FetchToken = FetchToken(seqNo: nat, started: int)

  /** One recorded purge; version 0 is an unversioned purge. */
  datatype Invalidation = Invalidation(tag: string, version: nat, at: int)

  type History = seq<Invalidation>

  const Empty := State(0, map[])

  // ---- What the code decides --------------------------------------------------------

  predicate Stale(token: FetchToken, now: int) {
    now - token.started > RETENTION
  }

  predicate Blocks(tags: map<string, TagInvalidation>, token: FetchToken, tag: string, version: nat) {
    tag in tags &&
    var e := tags[tag];
    e.seqNo > token.seqNo && (e.unconditionalSeq > token.seqNo || version == 0 || version <= e.version)
  }

  predicate Refuses(st: State, token: FetchToken, carried: seq<string>, version: nat, now: int) {
    || Stale(token, now)
    || (st.seqNo != token.seqNo && exists i :: 0 <= i < |carried| && Blocks(st.tags, token, carried[i], version))
  }

  function Updated(st: State, tag: string, version: nat, now: int): map<string, TagInvalidation> {
    var seqNo := st.seqNo + 1;
    var unconditional :=
      if version == 0 then seqNo else if tag in st.tags then st.tags[tag].unconditionalSeq else 0;
    st.tags[tag := TagInvalidation(seqNo, version, unconditional, now)]
  }

  function Recent(tags: map<string, TagInvalidation>, now: int): map<string, TagInvalidation> {
    map t | t in tags && now - tags[t].at <= RETENTION :: tags[t]
  }

  function Record(st: State, tag: string, version: nat, now: int): State {
    var tags := Updated(st, tag, version, now);
    State(st.seqNo + 1, if |tags| > PRUNE_SIZE then Recent(tags, now) else tags)
  }

  // ---- What it should decide --------------------------------------------------------

  /** Purge `k` came after the token, names `tag`, and the response is not newer than it. */
  predicate Outdates(h: History, k: nat, token: FetchToken, tag: string, version: nat)
    requires k < |h|
  {
    token.seqNo <= k && h[k].tag == tag && (h[k].version == 0 || version == 0 || version <= h[k].version)
  }

  predicate HistoryBlocks(h: History, token: FetchToken, tag: string, version: nat) {
    exists k: nat :: k < |h| && Outdates(h, k, token, tag, version)
  }

  /** The response is older than a minute, or a purge recorded since it was begun outdates it. */
  ghost predicate HistoryRefuses(h: History, token: FetchToken, carried: seq<string>, version: nat, now: int) {
    || now - token.started > 60_000_000_000
    || exists i :: 0 <= i < |carried| && HistoryBlocks(h, token, carried[i], version)
  }

  // ---- How the summary represents the history ---------------------------------------

  ghost predicate Timed(h: History, clock: int) {
    && (forall i, j :: 0 <= i < j < |h| ==> h[i].at <= h[j].at)
    && (forall i :: 0 <= i < |h| ==> h[i].at <= clock)
  }

  /** No purge at position `from` or later satisfies the retention window. */
  ghost predicate Forgotten(h: History, tag: string, from: nat, clock: int) {
    forall k :: from <= k < |h| && h[k].tag == tag && h[k].version == 0 ==> clock - h[k].at > RETENTION
  }

  ghost predicate Summarises(e: TagInvalidation, tag: string, h: History, clock: int) {
    && 0 < e.seqNo <= |h|
    && h[e.seqNo - 1] == Invalidation(tag, e.version, e.at)
    && (forall k :: e.seqNo <= k < |h| ==> h[k].tag != tag)
    && e.unconditionalSeq <= e.seqNo
    && (e.unconditionalSeq > 0 ==> h[e.unconditionalSeq - 1].tag == tag && h[e.unconditionalSeq - 1].version == 0)
    && Forgotten(h, tag, e.unconditionalSeq, clock)
  }

  ghost predicate Represents(st: State, h: History, clock: int) {
    && st.seqNo == |h|
    && Timed(h, clock)
    && (forall t :: t in st.tags ==> Summarises(st.tags[t], t, h, clock))
    && (forall k :: 0 <= k < |h| && h[k].tag !in st.tags ==> clock - h[k].at > RETENTION)
  }

  /** The token was handed out after the first `token.seqNo` purges and before the others. */
  ghost predicate Issued(token: FetchToken, h: History, clock: int) {
    && token.seqNo <= |h|
    && token.started <= clock
    && (forall k :: 0 <= k < token.seqNo ==> h[k].at <= token.started)
    && (forall k :: token.seqNo <= k < |h| ==> token.started <= h[k].at)
  }

  ghost predicate VersionedFrom(h: History, tag: string, from: nat) {
    forall j :: from <= j < |h| && h[j].tag == tag ==> h[j].version > 0
  }

  ghost predicate LastAt(h: History, tag: string, last: nat) {
    last < |h| && h[last].tag == tag && forall j :: last < j < |h| ==> h[j].tag != tag
  }

  /** Every versioned purge of `tag` still within retention and not followed by an unversioned
      one is no newer than the last purge of `tag`: a roll-back of versions has not happened. */
  ghost predicate NoRollback(h: History, tag: string, now: int) {
    forall k: nat, last: nat {:trigger VersionedFrom(h, tag, k), LastAt(h, tag, last)} ::
      && k <= last && LastAt(h, tag, last) && h[k].tag == tag
      && now - h[k].at <= RETENTION && VersionedFrom(h, tag, k)
      ==> h[k].version <= h[last].version
  }

  /** Versioned purges of `tag` never go back: the condition the event filter establishes. */
  ghost predicate NonDecreasing(h: History, tag: string) {
    forall i, j :: 0 <= i < j < |h| && h[i].tag == tag && h[j].tag == tag && h[j].version > 0
      ==> h[i].version <= h[j].version
  }

  /** Purge `k` is not undercut by the tag's last purge, unless an unversioned one came in between. */
  ghost predicate KeepsUp(h: History, tag: string, k: nat)
    requires k < |h|
  {
    forall last: nat {:trigger LastAt(h, tag, last)} ::
      k <= last && LastAt(h, tag, last) && VersionedFrom(h, tag, k) ==> h[k].version <= h[last].version
  }

  /** No purge of the tag from position `from` on has a positive version below this one. */
  ghost predicate NotUndercut(h: History, from: nat, tag: string, version: nat) {
    forall j :: from <= j < |h| && h[j].tag == tag && h[j].version > 0 ==> version <= h[j].version
  }

  lemma NotUndercutKeepsUp(h: History, tag: string, k: nat)
    requires k < |h| && h[k].tag == tag && NotUndercut(h, k + 1, tag, h[k].version)
    ensures KeepsUp(h, tag, k)
  {
  }

  lemma NonDecreasingIsNotUndercut(h: History, tag: string, k: nat)
    requires k < |h| && h[k].tag == tag && NonDecreasing(h, tag)
    ensures NotUndercut(h, k + 1, tag, h[k].version)
  {
  }

  // ---- The summary is kept by every operation ---------------------------------------

  lemma EmptyRepresents(clock: int)
    ensures Represents(Empty, [], clock)
  {
  }

  lemma TimePasses(st: State, h: History, clock: int, now: int)
    requires Represents(st, h, clock) && clock <= now
    ensures Represents(st, h, now)
  {
  }

  lemma IssuedStays(token: FetchToken, h: History, clock: int, tag: string, version: nat, now: int)
    requires Issued(token, h, clock) && clock <= now
    ensures Issued(token, h, now)
    ensures Issued(token, h + [Invalidation(tag, version, now)], now)
  {
  }

  lemma BeginIssues(st: State, h: History, clock: int, now: int)
    requires Represents(st, h, clock) && clock <= now
    ensures Issued(FetchToken(st.seqNo, now), h, now)
  {
  }

  lemma UpdatedEntry(st: State, h: History, clock: int, tag: string, version: nat, now: int, t: string)
    requires Represents(st, h, clock) && clock <= now
    requires t in Updated(st, tag, version, now)
    ensures Summarises(Updated(st, tag, version, now)[t], t, h + [Invalidation(tag, version, now)], now)
  {
  }

  lemma TimedGrows(h: History, clock: int, p: Invalidation)
    requires Timed(h, clock) && clock <= p.at
    ensures Timed(h + [p], p.at)
  {
  }

  lemma RecordedIsNewest(e: TagInvalidation, tag: string, h: History, clock: int, k: nat)
    requires Timed(h, clock) && Summarises(e, tag, h, clock) && k < |h| && h[k].tag == tag
    ensures h[k].at <= e.at
  {
    assert k <= e.seqNo - 1;
  }

  /** An entry is pruned only when the newest purge of its tag is past retention, and so are all others. */
  lemma UnlistedIsOld(st: State, h: History, clock: int, tag: string, version: nat, now: int, h': History, k: nat)
    requires Represents(st, h, clock) && clock <= now
    requires h' == h + [Invalidation(tag, version, now)] && Timed(h', now)
    requires k < |h'| && h'[k].tag !in Record(st, tag, version, now).tags
    ensures now - h'[k].at > RETENTION
  {
    var t, tags := h'[k].tag, Updated(st, tag, version, now);
    if t in tags {
      UpdatedEntry(st, h, clock, tag, version, now, t);
      RecordedIsNewest(tags[t], t, h', now, k);
    } else {
      assert k < |h| && h[k] == h'[k];
    }
  }

  /** Recording a purge, pruning included, leaves a summary of the longer history. */
  lemma RecordRepresents(st: State, h: History, clock: int, tag: string, version: nat, now: int)
    requires Represents(st, h, clock) && clock <= now
    ensures Represents(Record(st, tag, version, now), h + [Invalidation(tag, version, now)], now)
  {
    var h' := h + [Invalidation(tag, version, now)];
    var st' := Record(st, tag, version, now);
    TimedGrows(h, clock, Invalidation(tag, version, now));
    forall t | t in st'.tags
      ensures Summarises(st'.tags[t], t, h', now)
    {
      UpdatedEntry(st, h, clock, tag, version, now, t);
    }
    forall k | 0 <= k < |h'| && h'[k].tag !in st'.tags
      ensures now - h'[k].at > RETENTION
    {
      UnlistedIsOld(st, h, clock, tag, version, now, h', k);
    }
  }

  // ---- The decision is the one of the full history ----------------------------------

  lemma AfterUnconditional(e: TagInvalidation, h: History, clock: int, now: int, token: FetchToken, tag: string, k: nat)
    requires Summarises(e, tag, h, clock) && Issued(token, h, clock) && clock <= now
    requires !Stale(token, now)
    requires e.unconditionalSeq <= token.seqNo <= k
    ensures VersionedFrom(h, tag, k)
  {
  }

  /** A purge that outdates the response is never overlooked, as long as the tag's last purge does
      not undercut it (an unversioned purge is never overlooked at all). */
  lemma OutdatedIsBlocked(st: State, h: History, clock: int, now: int,
                          token: FetchToken, tag: string, version: nat, k: nat)
    requires Represents(st, h, clock) && Issued(token, h, clock) && clock <= now
    requires !Stale(token, now)
    requires k < |h| && Outdates(h, k, token, tag, version)
    requires h[k].version == 0 || KeepsUp(h, tag, k)
    ensures Blocks(st.tags, token, tag, version)
  {
    assert now - h[k].at <= RETENTION;
    assert tag in st.tags;
    var e := st.tags[tag];
    assert Summarises(e, tag, h, clock);
    assert k < e.seqNo;
    if e.unconditionalSeq <= token.seqNo {
      AfterUnconditional(e, h, clock, now, token, tag, k);
      assert LastAt(h, tag, e.seqNo - 1);
    }
  }

  lemma BlockedIsOutdated(st: State, h: History, clock: int, token: FetchToken, tag: string, version: nat)
    requires Represents(st, h, clock)
    requires Blocks(st.tags, token, tag, version)
    ensures HistoryBlocks(h, token, tag, version)
  {
    var e := st.tags[tag];
    assert Summarises(e, tag, h, clock);
    if e.unconditionalSeq > token.seqNo {
      assert Outdates(h, e.unconditionalSeq - 1, token, tag, version);
    } else {
      assert Outdates(h, e.seqNo - 1, token, tag, version);
    }
  }

  /** The pruned three-field summary decides exactly as the full history. */
  lemma DecidesAsHistory(st: State, h: History, clock: int, now: int,
                         token: FetchToken, carried: seq<string>, version: nat)
    requires Represents(st, h, clock) && Issued(token, h, clock) && clock <= now
    requires forall i :: 0 <= i < |carried| ==> NoRollback(h, carried[i], now)
    ensures Refuses(st, token, carried, version, now) <==> HistoryRefuses(h, token, carried, version, now)
  {
    if Stale(token, now) {
      return;
    }
    if Refuses(st, token, carried, version, now) {
      var i :| 0 <= i < |carried| && Blocks(st.tags, token, carried[i], version);
      BlockedIsOutdated(st, h, clock, token, carried[i], version);
    }
    if HistoryRefuses(h, token, carried, version, now) {
      var i :| 0 <= i < |carried| && HistoryBlocks(h, token, carried[i], version);
      var k: nat :| k < |h| && Outdates(h, k, token, carried[i], version);
      assert now - h[k].at <= RETENTION && KeepsUp(h, carried[i], k);
      OutdatedIsBlocked(st, h, clock, now, token, carried[i], version, k);
    }
  }

  /** Some purge recorded since the token names a tag of the response and is not older than it. */
  ghost predicate PurgedSince(h: History, token: FetchToken, carried: seq<string>, version: nat) {
    exists i, k: nat ::
      && 0 <= i < |carried| && token.seqNo <= k < |h| && h[k].tag == carried[i]
      && (h[k].version == 0 || version == 0 || version <= h[k].version)
  }

  /** What a fetch can rely on: for a minute its response is refused exactly if it was purged since,
      and never if nothing was purged at all; after that it always is. */
  lemma RefusedIffPurgedSince(st: State, h: History, clock: int, now: int,
                              token: FetchToken, carried: seq<string>, version: nat)
    requires Represents(st, h, clock) && Issued(token, h, clock) && clock <= now
    ensures now - token.started > 60_000_000_000 ==> Refuses(st, token, carried, version, now)
    ensures now - token.started <= 60_000_000_000 && Refuses(st, token, carried, version, now) ==>
              PurgedSince(h, token, carried, version)
    ensures now - token.started <= 60_000_000_000 && st.seqNo == token.seqNo ==>
              !Refuses(st, token, carried, version, now)
    ensures (forall i :: 0 <= i < |carried| ==> NoRollback(h, carried[i], now)) ==>
              now - token.started <= 60_000_000_000 ==>
                (Refuses(st, token, carried, version, now) <==> PurgedSince(h, token, carried, version))
  {
    if now - token.started <= 60_000_000_000 && Refuses(st, token, carried, version, now) {
      var i :| 0 <= i < |carried| && Blocks(st.tags, token, carried[i], version);
      BlockedIsOutdated(st, h, clock, token, carried[i], version);
      var k: nat :| k < |h| && Outdates(h, k, token, carried[i], version);
      assert token.seqNo <= k < |h| && h[k].tag == carried[i];
    }
    if (forall i :: 0 <= i < |carried| ==> NoRollback(h, carried[i], now)) && PurgedSince(h, token, carried, version) {
      var i, k: nat :|
        && 0 <= i < |carried| && token.seqNo <= k < |h| && h[k].tag == carried[i]
        && (h[k].version == 0 || version == 0 || version <= h[k].version);
      assert Outdates(h, k, token, carried[i], version);
      DecidesAsHistory(st, h, clock, now, token, carried, version);
    }
  }

  /** Beyond 4096 tags only those purged within the last minute are kept. */
  lemma SummaryStaysSmall(st: State, tag: string, version: nat, now: int, t: string)
    requires t in Record(st, tag, version, now).tags
    ensures |Record(st, tag, version, now).tags| <= 4096 ||
            now - Record(st, tag, version, now).tags[t].at <= 60_000_000_000
  {
  }

  ghost predicate AlwaysDecidesAsHistory(st: State, h: History, clock: int, now: int, tag: string) {
    forall token, version: nat {:trigger Refuses(st, token, [tag], version, now)} :: Issued(token, h, clock) ==>
      (Refuses(st, token, [tag], version, now) <==> HistoryRefuses(h, token, [tag], version, now))
  }

  /** After a roll-back from version h[k].version, the response of exactly that version, fetched
      just before purge k, is let through. */
  lemma RollbackIsMissed(st: State, h: History, clock: int, now: int, tag: string, k: nat, last: nat)
    requires Represents(st, h, clock) && clock <= now
    requires k <= last && LastAt(h, tag, last) && h[k].tag == tag
    requires now - h[k].at <= RETENTION && VersionedFrom(h, tag, k)
    requires h[k].version > h[last].version
    ensures var token := FetchToken(k, h[k].at);
            && Issued(token, h, clock)
            && HistoryRefuses(h, token, [tag], h[k].version, now)
            && !Refuses(st, token, [tag], h[k].version, now)
  {
    var token := FetchToken(k, h[k].at);
    assert Outdates(h, k, token, tag, h[k].version);
    assert HistoryBlocks(h, token, [tag][0], h[k].version);
    if tag in st.tags {
      var e := st.tags[tag];
      assert Summarises(e, tag, h, clock);
      assert e.seqNo - 1 == last;
      assert e.unconditionalSeq <= k;
    }
    assert !Blocks(st.tags, token, tag, h[k].version);
  }

  /** The version of a tag's entry is overwritten, not maximised.  For one tag the summary is
      faithful for every token and response exactly when the recorded versions did not roll back. */
  lemma FaithfulIffNoRollback(st: State, h: History, clock: int, now: int, tag: string)
    requires Represents(st, h, clock) && clock <= now
    ensures AlwaysDecidesAsHistory(st, h, clock, now, tag) <==> NoRollback(h, tag, now)
  {
    if NoRollback(h, tag, now) {
      forall token, version: nat | Issued(token, h, clock)
        ensures Refuses(st, token, [tag], version, now) <==> HistoryRefuses(h, token, [tag], version, now)
      {
        DecidesAsHistory(st, h, clock, now, token, [tag], version);
      }
    } else {
      var k: nat, last: nat :|
        && k <= last && LastAt(h, tag, last) && h[k].tag == tag
        && now - h[k].at <= RETENTION && VersionedFrom(h, tag, k)
        && h[k].version > h[last].version;
      RollbackIsMissed(st, h, clock, now, tag, k, last);
      assert !AlwaysDecidesAsHistory(st, h, clock, now, tag);
    }
  }

  /** A caller that checks the new version against the versions it recorded within the last
      minute keeps the summary faithful. */
  lemma RecordKeepsNoRollback(h: History, tag: string, version: nat, now: int, t: string)
    requires NoRollback(h, t, now)
    requires t == tag && version > 0 ==>
               forall k :: 0 <= k < |h| && h[k].tag == tag && now - h[k].at <= RETENTION ==> h[k].version <= version
    ensures NoRollback(h + [Invalidation(tag, version, now)], t, now)
  {
    var h' := h + [Invalidation(tag, version, now)];
    forall k: nat, last: nat |
      && k <= last && LastAt(h', t, last) && h'[k].tag == t
      && now - h'[k].at <= RETENTION && VersionedFrom(h', t, k)
      ensures h'[k].version <= h'[last].version
    {
      assert VersionedFrom(h, t, k) by {
        assert forall j :: 0 <= j < |h| ==> h[j] == h'[j];
      }
      if last < |h| {
        assert LastAt(h, t, last) by {
          assert forall j :: 0 <= j < |h| ==> h[j] == h'[j];
        }
        assert h[k] == h'[k] && h[last] == h'[last];
      }
    }
  }

  function Two(tag: string, high: nat, low: nat): History {
    [Invalidation(tag, high, 1)] + [Invalidation(tag, low, 2)]
  }

  lemma TwoRepresents(tag: string, high: nat, low: nat)
    ensures Represents(Record(Record(Empty, tag, high, 1), tag, low, 2), Two(tag, high, low), 2)
  {
    var first := [Invalidation(tag, high, 1)];
    EmptyRepresents(1);
    RecordRepresents(Empty, [], 1, tag, high, 1);
    assert [] + first == first;
    RecordRepresents(Record(Empty, tag, high, 1), first, 1, tag, low, 2);
  }

  /** The roll-back in the open: after purges at 7 and then at 5, the tracker lets a response at
      version 7 through that was fetched before both, although the purge at 7 outdates it. */
  lemma RollbackLetsStaleResponseThrough(tag: string)
    ensures var st := Record(Record(Empty, tag, 7, 1), tag, 5, 2);
            && HistoryRefuses(Two(tag, 7, 5), FetchToken(0, 1), [tag], 7, 2)
            && !Refuses(st, FetchToken(0, 1), [tag], 7, 2)
  {
    TwoRepresents(tag, 7, 5);
    var h := Two(tag, 7, 5);
    assert LastAt(h, tag, 1) && VersionedFrom(h, tag, 0);
    RollbackIsMissed(Record(Record(Empty, tag, 7, 1), tag, 5, 2), h, 2, 2, tag, 0, 1);
  }

  // ---- The tracker itself -----------------------------------------------------------

  /** The store callback: what it will answer is fixed, whether it ran is observable. */
  class StoreCallback {
    const answer: bool
    var calls: nat

    constructor (answer: bool)
      ensures this.answer == answer && calls == 0
    {
      this.answer := answer;
      calls := 0;
    }

    method Call() returns (stored: bool)
      modifies this
      ensures stored == answer && calls == old(calls) + 1
    {
      calls := calls + 1;
      stored := answer;
    }
  }

  class InvalidationTracker {
    var seqNo: nat
    var tags: map<string, TagInvalidation>
    ghost var history: History
    ghost var clock: int

    ghost predicate Valid()
      reads this
    {
      Represents(View(), history, clock)
    }

    ghost function View(): State
      reads this
    {
      State(seqNo, tags)
    }

    constructor (ghost now: int)
      ensures Valid() && history == [] && clock == now && View() == Empty
    {
      seqNo, tags, history, clock := 0, map[], [], now;
    }

    method Begin(now: int) returns (token: FetchToken)
      requires Valid() && clock <= now
      modifies this`clock
      ensures Valid() && clock == now && token == FetchToken(seqNo, now)
      ensures Issued(token, history, clock)
    {
      token := FetchToken(seqNo, now);
      clock := now;
    }

    /** Adds one purge to the history; entries past retention go once there are too many. */
    method Invalidate(tag: string, version: nat, now: int)
      requires Valid() && clock <= now
      modifies this
      ensures Valid() && clock == now
      ensures history == old(history) + [Invalidation(tag, version, now)]
      ensures View() == Record(old(View()), tag, version, now)
    {
      ghost var before := View();
      RecordRepresents(before, history, clock, tag, version, now);
      seqNo := seqNo + 1;
      var entry := if tag in tags then tags[tag] else TagInvalidation(0, 0, 0, 0);
      entry := entry.(seqNo := seqNo, version := version, at := now);
      if version == 0 {
        entry := entry.(unconditionalSeq := seqNo);
      }
      tags := tags[tag := entry];
      if |tags| > PRUNE_SIZE {
        Prune(now);
      }
      history := history + [Invalidation(tag, version, now)];
      clock := now;
    }

    method Prune(now: int)
      modifies this`tags
      ensures tags == Recent(old(tags), now)
    {
      var names := tags.Keys;
      while names != {}
        invariant tags.Keys <= old(tags).Keys && names <= old(tags).Keys
        invariant forall t :: t in tags ==> tags[t] == old(tags)[t]
        invariant forall t :: t in old(tags) ==>
          (t in tags <==> t in names || now - old(tags)[t].at <= RETENTION)
        decreases names
      {
        var name :| name in names;
        names := names - {name};
        if now - tags[name].at > RETENTION {
          tags := tags - {name};
        }
      }
    }

    /** What `storeIfCurrent` decides before it runs its callback. */
    method Outdated(token: FetchToken, carried: seq<string>, version: nat, now: int) returns (yes: bool)
      requires Valid() && Issued(token, history, clock) && clock <= now
      ensures yes == Refuses(View(), token, carried, version, now)
      ensures now - token.started > 60_000_000_000 ==> yes
      ensures now - token.started <= 60_000_000_000 ==> yes ==> PurgedSince(history, token, carried, version)
      ensures (forall i :: 0 <= i < |carried| ==> NoRollback(history, carried[i], now)) ==>
                yes == HistoryRefuses(history, token, carried, version, now)
    {
      RefusedIffPurgedSince(View(), history, clock, now, token, carried, version);
      if forall i :: 0 <= i < |carried| ==> NoRollback(history, carried[i], now) {
        DecidesAsHistory(View(), history, clock, now, token, carried, version);
      }
      yes := Blocked(token, carried, version, now);
    }

    method Blocked(token: FetchToken, carried: seq<string>, version: nat, now: int) returns (yes: bool)
      ensures yes == Refuses(View(), token, carried, version, now)
    {
      if now - token.started > RETENTION {
        return true;
      }
      if seqNo != token.seqNo {
        for i := 0 to |carried|
          invariant forall j :: 0 <= j < i ==> !Blocks(tags, token, carried[j], version)
        {
          if carried[i] !in tags || tags[carried[i]].seqNo <= token.seqNo {
            continue;
          }
          var e := tags[carried[i]];
          if e.unconditionalSeq > token.seqNo || version == 0 || version <= e.version {
            return true;
          }
        }
      }
      return false;
    }

    /** Runs the callback exactly when the full history has nothing against the response. */
    method StoreIfCurrent(token: FetchToken, carried: seq<string>, version: nat, now: int, store: StoreCallback)
      returns (stored: bool, invalidated: bool)
      requires Valid() && Issued(token, history, clock) && clock <= now
      modifies store
      ensures invalidated == Refuses(View(), token, carried, version, now)
      ensures now - token.started > 60_000_000_000 ==> invalidated
      ensures now - token.started <= 60_000_000_000 ==> invalidated ==> PurgedSince(history, token, carried, version)
      ensures (forall i :: 0 <= i < |carried| ==> NoRollback(history, carried[i], now)) ==>
                invalidated == HistoryRefuses(history, token, carried, version, now)
      ensures store.calls == old(store.calls) + (if invalidated then 0 else 1)
      ensures stored == (!invalidated && store.answer)
    {
      invalidated := Outdated(token, carried, version, now);
      stored := false;
      if !invalidated {
        stored := store.Call();
      }
    }
  }
}
