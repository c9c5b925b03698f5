/**
  Fetches and purges racing on one replica.

  Every mutex-protected body is one step; any number of fetches and purges are in flight and
  their steps interleave freely.  A purge records itself in the tracker, lists the tagged keys
  segment by segment, and then looks up and deletes each listed key in two more steps.
*/
module Race {
  import opened Lru
  import opened Tracker
  import S = Shards
  import A = Admission

  type FetchId = nat
  type PurgeId = nat

  datatype Config = Config(limits: Limits, shards: nat, hash: string -> nat)
  {
    predicate Ok() {
      shards >= 1 && limits.capacity >= 1
    }

    function ShardOf(key: string): (i: nat)
      requires Ok()
      ensures i < shards
    {
      hash(key) % shards
    }
  }

  datatype Fetch = Fetch(key: string, token: FetchToken, response: A.Option<Item>, done: bool)

  datatype Target = TagTarget(tag: string, version: nat) | KeyTarget(key: string)

  /** `recorded` is the purge's sequence number, `listed` the number of segments listed so far,
      `pending` the listed keys still to be handled; `deleting` is set between the look-up of the
      first pending key and its deletion. */
  datatype Purge = Purge(target: Target, recorded: nat, listed: nat, pending: seq<string>, deleting: bool)

  datatype State = State(
    clock: int,
    tracker: Tracker.State,
    history: History,
    segments: seq<View>,
    origin: map<string, FetchId>,
    fetches: map<FetchId, Fetch>,
    purges: map<PurgeId, Purge>)

  /** The private tag every response carries for its own key. */
  function KeyTag(key: string): string {
    "\0key:" + key
  }

  function RecordedTag(target: Target): string {
    match target
    case TagTarget(tag, _) => tag
    case KeyTarget(key) => KeyTag(key)
  }

  function RecordedVersion(target: Target): nat {
    match target
    case TagTarget(_, version) => version
    case KeyTarget(_) => 0
  }

  function Carried(item: Item): seq<string> {
    item.tags + [KeyTag(item.key)]
  }

  predicate Finished(cfg: Config, p: Purge) {
    p.listed == cfg.shards && p.pending == []
  }

  ghost predicate Initial(cfg: Config, s: State) {
    && s.tracker == Empty && s.history == []
    && s.segments == seq(cfg.shards, i => [])
    && s.origin == map[] && s.fetches == map[] && s.purges == map[]
  }

  // ---- Steps ------------------------------------------------------------------------

  datatype Step =
    | Begin(f: FetchId, key: string, now: int)
    | Respond(f: FetchId, item: Item)
    | Abandon(f: FetchId)
    | Store(f: FetchId, now: int, admitted: bool)
    | RecordPurge(p: PurgeId, target: Target, now: int)
    | List(p: PurgeId, keys: seq<string>)
    | LookUp(p: PurgeId, now: int)
    | Delete(p: PurgeId)
    | ClientLookup(key: string, now: int)
    | TimerFires(key: string, now: int)

  ghost predicate Enabled(cfg: Config, s: State, step: Step)
    requires cfg.Ok() && |s.segments| == cfg.shards
  {
    match step
    case Begin(f, key, now) => f !in s.fetches && s.clock <= now
    case Respond(f, item) =>
      f in s.fetches && !s.fetches[f].done && s.fetches[f].response.None? && item.key == s.fetches[f].key
    case Abandon(f) => f in s.fetches && !s.fetches[f].done
    case Store(f, now, admitted) =>
      && f in s.fetches && !s.fetches[f].done && s.fetches[f].response.Some? && s.clock <= now
      && (admitted ==> s.fetches[f].key != "" && Fits(S.NewEntry(s.fetches[f].response.value, now), cfg.limits))
    case RecordPurge(p, target, now) =>
      p !in s.purges && s.clock <= now && (target.TagTarget? ==> target.tag != "")
    case List(p, keys) =>
      && p in s.purges && s.purges[p].listed < cfg.shards && s.purges[p].target.TagTarget?
      && (set k | k in keys) == TaggedKeys(s.segments[s.purges[p].listed], s.purges[p].target.tag)
    case LookUp(p, now) =>
      && p in s.purges && s.purges[p].listed == cfg.shards && s.purges[p].pending != [] && !s.purges[p].deleting
      && s.clock <= now
    case Delete(p) => p in s.purges && s.purges[p].pending != [] && s.purges[p].deleting
    case ClientLookup(key, now) => s.clock <= now
    case TimerFires(key, now) => s.clock <= now
  }

  /** The test of the purge loop: keep the entry only if it is there and newer than the purge. */
  predicate MustDelete(v: View, key: string, version: nat, now: int) {
    || !Has(v, key) || Find(v, key).item.Expired(now)
    || version == 0 || Find(v, key).item.version == 0 || Find(v, key).item.version <= version
  }

  function Apply(cfg: Config, s: State, step: Step): State
    requires cfg.Ok() && |s.segments| == cfg.shards && Enabled(cfg, s, step)
  {
    match step
    case Begin(f, key, now) =>
      s.(clock := now, fetches := s.fetches[f := Fetch(key, FetchToken(s.tracker.seqNo, now), A.None, false)])
    case Respond(f, item) => s.(fetches := s.fetches[f := s.fetches[f].(response := A.Some(item))])
    case Abandon(f) => s.(fetches := s.fetches[f := s.fetches[f].(done := true)])
    case Store(f, now, admitted) => Stored(cfg, s, f, now, admitted)
    case RecordPurge(p, target, now) =>
      var purge := match target
        case TagTarget(_, _) => Purge(target, s.tracker.seqNo + 1, 0, [], false)
        case KeyTarget(key) => Purge(target, s.tracker.seqNo + 1, cfg.shards, [key], true);
      s.(clock := now,
         tracker := Record(s.tracker, RecordedTag(target), RecordedVersion(target), now),
         history := s.history + [Invalidation(RecordedTag(target), RecordedVersion(target), now)],
         purges := s.purges[p := purge])
    case List(p, keys) =>
      var purge := s.purges[p];
      s.(purges := s.purges[p := purge.(listed := purge.listed + 1, pending := purge.pending + keys)])
    case LookUp(p, now) =>
      var purge := s.purges[p];
      var key := purge.pending[0];
      var i := cfg.ShardOf(key);
      var v := s.segments[i];
      s.(clock := now,
         segments := s.segments[i := Looked(v, key, now)],
         purges := s.purges[p := if MustDelete(v, key, RecordedVersion(purge.target), now)
                                 then purge.(deleting := true)
                                 else purge.(pending := purge.pending[1..])])
    case Delete(p) =>
      var purge := s.purges[p];
      var key := purge.pending[0];
      var i := cfg.ShardOf(key);
      s.(segments := s.segments[i := Without(s.segments[i], key)],
         purges := s.purges[p := purge.(pending := purge.pending[1..], deleting := false)])
    case ClientLookup(key, now) =>
      var i := cfg.ShardOf(key);
      s.(clock := now, segments := s.segments[i := Looked(s.segments[i], key, now)])
    case TimerFires(key, now) =>
      var i := cfg.ShardOf(key);
      s.(clock := now, segments := s.segments[i := TimerFired(s.segments[i], key, now)])
  }

  /** Checking the tracker and storing happen under the tracker's lock, in one step. */
  predicate LetIn(s: State, f: FetchId, now: int, admitted: bool)
    requires f in s.fetches && s.fetches[f].response.Some?
  {
    var item := s.fetches[f].response.value;
    !Refuses(s.tracker, s.fetches[f].token, Carried(item), item.version, now) && admitted
  }

  function Stored(cfg: Config, s: State, f: FetchId, now: int, admitted: bool): State
    requires cfg.Ok() && |s.segments| == cfg.shards && f in s.fetches && s.fetches[f].response.Some?
  {
    var item := s.fetches[f].response.value;
    var s1 := s.(clock := now, fetches := s.fetches[f := s.fetches[f].(done := true)]);
    if LetIn(s, f, now, admitted) then
      var i := cfg.ShardOf(item.key);
      s1.(segments := s.segments[i := Put(s.segments[i], S.NewEntry(item, now), cfg.limits)],
          origin := s.origin[item.key := f])
    else s1
  }

  /** The entry was cached before, fetched by the same fetch. */
  predicate WasCached(s: State, s': State, i: nat, e: Entry)
    requires i < |s.segments|
  {
    && e in s.segments[i] && e.item.key in s.origin && e.item.key in s'.origin
    && s'.origin[e.item.key] == s.origin[e.item.key]
  }

  /** The entry is the one the step stores. */
  predicate JustStored(s: State, step: Step, s': State, e: Entry) {
    && step.Store? && step.f in s.fetches && s.fetches[step.f].response.Some? &&
       LetIn(s, step.f, step.now, step.admitted)
    && e == S.NewEntry(s.fetches[step.f].response.value, step.now)
    && e.item.key in s'.origin && s'.origin[e.item.key] == step.f
  }

  lemma EntriesAfterStore(cfg: Config, s: State, f: FetchId, now: int, admitted: bool, i: nat, e: Entry)
    requires Shaped(cfg, s.segments) && Sourced(s) && Enabled(cfg, s, Store(f, now, admitted)) && i < cfg.shards
    requires e in Stored(cfg, s, f, now, admitted).segments[i]
    ensures WasCached(s, Stored(cfg, s, f, now, admitted), i, e) ||
            JustStored(s, Store(f, now, admitted), Stored(cfg, s, f, now, admitted), e)
  {
    assert e in s.segments[i] ==> FromFetch(s.origin, s.fetches, e);
    if LetIn(s, f, now, admitted) {
      PutShaped(cfg, s, S.NewEntry(s.fetches[f].response.value, now));
    }
  }

  lemma EntriesAfterOther(cfg: Config, s: State, step: Step, i: nat, e: Entry)
    requires Shaped(cfg, s.segments) && Sourced(s) && Enabled(cfg, s, step) && i < cfg.shards && !step.Store?
    requires e in Apply(cfg, s, step).segments[i]
    ensures WasCached(s, Apply(cfg, s, step), i, e)
  {
    assert e in s.segments[i] ==> FromFetch(s.origin, s.fetches, e);
    match step
    case LookUp(p, now) =>
      var key := s.purges[p].pending[0];
      LookedElements(s.segments[cfg.ShardOf(key)], key, now);
    case Delete(p) =>
      var key := s.purges[p].pending[0];
      WithoutElements(s.segments[cfg.ShardOf(key)], key);
    case ClientLookup(key, now) =>
      LookedElements(s.segments[cfg.ShardOf(key)], key, now);
    case TimerFires(key, now) =>
      WithoutElements(s.segments[cfg.ShardOf(key)], key);
    case _ =>
  }

  /** After any step an entry was there before, with the same origin, or is the one just stored. */
  lemma EntriesAfter(cfg: Config, s: State, step: Step, i: nat, e: Entry)
    requires Shaped(cfg, s.segments) && Sourced(s) && Enabled(cfg, s, step) && i < cfg.shards
    requires e in Apply(cfg, s, step).segments[i]
    ensures WasCached(s, Apply(cfg, s, step), i, e) || JustStored(s, step, Apply(cfg, s, step), e)
  {
    if step.Store? {
      EntriesAfterStore(cfg, s, step.f, step.now, step.admitted, i, e);
    } else {
      EntriesAfterOther(cfg, s, step, i, e);
    }
  }

  ghost predicate Behaviour(cfg: Config, states: seq<State>, steps: seq<Step>) {
    && cfg.Ok()
    && |states| == |steps| + 1
    && Initial(cfg, states[0])
    && (forall i {:trigger steps[i]} :: 0 <= i < |steps| ==>
          && |states[i].segments| == cfg.shards
          && Enabled(cfg, states[i], steps[i])
          && states[i + 1] == Apply(cfg, states[i], steps[i]))
  }

  // ---- The invariant ----------------------------------------------------------------

  ghost predicate Shaped(cfg: Config, segments: seq<View>) {
    && cfg.Ok() && |segments| == cfg.shards
    && (forall i :: 0 <= i < |segments| ==> Distinct(segments[i]))
    && (forall i, e :: 0 <= i < |segments| && e in segments[i] ==> cfg.ShardOf(e.item.key) == i)
  }

  /** The entry is what some fetch brought. */
  predicate FromFetch(origin: map<string, FetchId>, fetches: map<FetchId, Fetch>, e: Entry) {
    && e.item.key in origin && origin[e.item.key] in fetches
    && var f := fetches[origin[e.item.key]];
    && f.response.Some? && f.done
    && f.response.value.key == e.item.key
    && f.response.value.tags == e.item.tags
    && f.response.value.version == e.item.version
  }

  ghost predicate Sourced(s: State) {
    && (forall i, e :: 0 <= i < |s.segments| && e in s.segments[i] ==> FromFetch(s.origin, s.fetches, e))
    && (forall f :: f in s.fetches && s.fetches[f].response.Some? ==>
        s.fetches[f].response.value.key == s.fetches[f].key)
  }

  ghost predicate Tracked(s: State) {
    && Represents(s.tracker, s.history, s.clock)
    && (forall f :: f in s.fetches ==> Issued(s.fetches[f].token, s.history, s.clock))
  }

  predicate WellPurged(cfg: Config, h: History, p: Purge) {
    && 0 < p.recorded <= |h|
    && h[p.recorded - 1].tag == RecordedTag(p.target)
    && h[p.recorded - 1].version == RecordedVersion(p.target)
    && p.listed <= cfg.shards
    && (p.target.KeyTarget? ==> p.listed == cfg.shards)
    && (p.target.TagTarget? ==> p.target.tag != "")
    && (p.deleting ==> p.listed == cfg.shards && p.pending != [])
  }

  predicate Targeted(target: Target, item: Item) {
    match target
    case TagTarget(tag, _) => tag in item.tags
    case KeyTarget(key) => item.key == key
  }

  /** The entry cached under the key came from a fetch with a token older than purge number `n`. */
  predicate FetchedBefore(origin: map<string, FetchId>, fetches: map<FetchId, Fetch>, key: string, n: nat) {
    key in origin && origin[key] in fetches && fetches[origin[key]].token.seqNo < n
  }

  /** The purge is directed at the item and the item is not newer than it. */
  predicate Hits(target: Target, item: Item) {
    Targeted(target, item) && !(RecordedVersion(target) > 0 && item.version > RecordedVersion(target))
  }

  /** The entry should be gone once the purge is over. */
  predicate Outlived(origin: map<string, FetchId>, fetches: map<FetchId, Fetch>, p: Purge, e: Entry) {
    Hits(p.target, e.item) && FetchedBefore(origin, fetches, e.item.key, p.recorded)
  }

  /** No purge of the tag recorded after this one has a positive version below its own. */
  ghost predicate Trusted(h: History, p: Purge) {
    NotUndercut(h, p.recorded, RecordedTag(p.target), RecordedVersion(p.target))
  }

  ghost predicate CoveredBy(segments: seq<View>, origin: map<string, FetchId>, fetches: map<FetchId, Fetch>, p: Purge) {
    forall i, e :: 0 <= i < |segments| && e in segments[i] && Outlived(origin, fetches, p, e) ==>
      p.listed <= i || e.item.key in p.pending
  }

  ghost predicate Covered(s: State) {
    forall p :: p in s.purges && Trusted(s.history, s.purges[p]) ==>
      CoveredBy(s.segments, s.origin, s.fetches, s.purges[p])
  }

  ghost predicate Purging(cfg: Config, s: State) {
    forall p :: p in s.purges ==> WellPurged(cfg, s.history, s.purges[p])
  }

  ghost predicate Inv(cfg: Config, s: State) {
    Shaped(cfg, s.segments) && Sourced(s) && Tracked(s) && Purging(cfg, s) && Covered(s)
  }

  // ---- Preservation -----------------------------------------------------------------

  lemma InitialInv(cfg: Config, s: State)
    requires cfg.Ok() && Initial(cfg, s)
    ensures Inv(cfg, s)
  {
  }

  lemma TrustedEarlier(h: History, next: Invalidation, p: Purge)
    requires Trusted(h + [next], p)
    ensures Trusted(h, p)
  {
    var h' := h + [next];
    assert forall i :: 0 <= i < |h| ==> h[i] == h'[i];
  }

  /** Segments that only lose or reorder entries keep the invariant. */
  lemma SegmentsShrink(cfg: Config, s: State, s': State)
    requires Inv(cfg, s)
    requires s' == s.(clock := s'.clock, segments := s'.segments) && s'.clock >= s.clock
    requires Shaped(cfg, s'.segments)
    requires forall i, e :: 0 <= i < |s.segments| && e in s'.segments[i] ==> e in s.segments[i]
    ensures Inv(cfg, s')
  {
  }

  /** One segment replaced by one with fewer entries. */
  lemma OneSegment(cfg: Config, s: State, i: nat, v: View)
    requires Shaped(cfg, s.segments) && i < cfg.shards && Distinct(v)
    requires forall e :: e in v ==> e in s.segments[i]
    ensures Shaped(cfg, s.segments[i := v])
    ensures forall j, e :: 0 <= j < |s.segments| && e in s.segments[i := v][j] ==> e in s.segments[j]
  {
  }

  predicate FetchAdvances(before: map<FetchId, Fetch>, after: map<FetchId, Fetch>, f: FetchId) {
    && f in after && after == before[f := after[f]]
    && (f in before ==>
          && after[f].token == before[f].token
          && (before[f].done ==> after[f] == before[f]))
  }

  lemma FetchAdvancesSource(before: map<FetchId, Fetch>, after: map<FetchId, Fetch>, f: FetchId,
                            origin: map<string, FetchId>, e: Entry)
    requires FetchAdvances(before, after, f) && FromFetch(origin, before, e)
    ensures FromFetch(origin, after, e)
    ensures forall n: nat :: FetchedBefore(origin, after, e.item.key, n) <==>
              FetchedBefore(origin, before, e.item.key, n)
  {
  }

  lemma CoverAdvances(s: State, s': State, f: FetchId, p: Purge)
    requires Sourced(s) && FetchAdvances(s.fetches, s'.fetches, f)
    requires CoveredBy(s.segments, s.origin, s.fetches, p)
    ensures CoveredBy(s.segments, s.origin, s'.fetches, p)
  {
    forall i, e: Entry | 0 <= i < |s.segments| && e in s.segments[i] && Outlived(s.origin, s'.fetches, p, e)
      ensures p.listed <= i || e.item.key in p.pending
    {
      FetchAdvancesSource(s.fetches, s'.fetches, f, s.origin, e);
    }
  }

  lemma FetchesChange(cfg: Config, s: State, s': State, f: FetchId)
    requires Inv(cfg, s)
    requires s' == s.(clock := s'.clock, fetches := s'.fetches) && s'.clock >= s.clock
    requires FetchAdvances(s.fetches, s'.fetches, f)
    requires Issued(s'.fetches[f].token, s.history, s'.clock)
    requires s'.fetches[f].response.Some? ==> s'.fetches[f].response.value.key == s'.fetches[f].key
    ensures Inv(cfg, s')
  {
    TimePasses(s.tracker, s.history, s.clock, s'.clock);
    forall i, e: Entry | 0 <= i < |s.segments| && e in s.segments[i]
      ensures FromFetch(s'.origin, s'.fetches, e)
    {
      FetchAdvancesSource(s.fetches, s'.fetches, f, s.origin, e);
    }
    forall p | p in s'.purges && Trusted(s'.history, s'.purges[p])
      ensures CoveredBy(s'.segments, s'.origin, s'.fetches, s'.purges[p])
    {
      CoverAdvances(s, s', f, s.purges[p]);
    }
  }

  lemma RecordInv(cfg: Config, s: State, p: PurgeId, target: Target, now: int)
    requires Inv(cfg, s) && Enabled(cfg, s, RecordPurge(p, target, now))
    ensures Inv(cfg, Apply(cfg, s, RecordPurge(p, target, now)))
  {
    var s' := Apply(cfg, s, RecordPurge(p, target, now));
    var tag, version := RecordedTag(target), RecordedVersion(target);
    RecordRepresents(s.tracker, s.history, s.clock, tag, version, now);
    forall f | f in s'.fetches
      ensures Issued(s'.fetches[f].token, s'.history, now)
    {
      IssuedStays(s.fetches[f].token, s.history, s.clock, tag, version, now);
    }
    assert Purging(cfg, s') by {
      forall q | q in s'.purges
        ensures WellPurged(cfg, s'.history, s'.purges[q])
      {
        assert q != p ==> WellPurged(cfg, s.history, s.purges[q]);
      }
    }
    forall q | q in s'.purges && Trusted(s'.history, s'.purges[q])
      ensures CoveredBy(s'.segments, s'.origin, s'.fetches, s'.purges[q])
    {
      if q != p {
        TrustedEarlier(s.history, s'.history[|s.history|], s.purges[q]);
      } else {
        FreshPurgeCovered(s', s'.purges[p]);
      }
    }
  }

  lemma FreshPurgeCovered(s: State, p: Purge)
    requires match p.target
             case TagTarget(_, _) => p.listed == 0
             case KeyTarget(key) => p.pending == [key]
    ensures CoveredBy(s.segments, s.origin, s.fetches, p)
  {
  }

  /** Only the record of one purge changes, in a way that keeps it well-formed and covering. */
  lemma PurgeChanges(cfg: Config, s: State, p: PurgeId, purge: Purge)
    requires Inv(cfg, s) && p in s.purges && purge.target == s.purges[p].target &&
             purge.recorded == s.purges[p].recorded
    requires WellPurged(cfg, s.history, purge)
    requires CoveredBy(s.segments, s.origin, s.fetches, s.purges[p]) ==>
             CoveredBy(s.segments, s.origin, s.fetches, purge)
    ensures Inv(cfg, s.(purges := s.purges[p := purge]))
  {
  }

  lemma ListInv(cfg: Config, s: State, p: PurgeId, keys: seq<string>)
    requires Inv(cfg, s) && Enabled(cfg, s, List(p, keys))
    ensures Inv(cfg, Apply(cfg, s, List(p, keys)))
  {
    var purge := s.purges[p];
    assert WellPurged(cfg, s.history, purge);
    var purge' := purge.(listed := purge.listed + 1, pending := purge.pending + keys);
    if CoveredBy(s.segments, s.origin, s.fetches, purge) {
      ListCovers(s, purge, keys);
    }
    PurgeChanges(cfg, s, p, purge');
  }

  lemma ListCovers(s: State, purge: Purge, keys: seq<string>)
    requires purge.target.TagTarget? && purge.target.tag != ""
    requires purge.listed < |s.segments| &&
             (set k | k in keys) == TaggedKeys(s.segments[purge.listed], purge.target.tag)
    requires CoveredBy(s.segments, s.origin, s.fetches, purge)
    ensures CoveredBy(s.segments, s.origin, s.fetches,
                      purge.(listed := purge.listed + 1, pending := purge.pending + keys))
  {
    var purge' := purge.(listed := purge.listed + 1, pending := purge.pending + keys);
    forall i, e: Entry | 0 <= i < |s.segments| && e in s.segments[i] && Outlived(s.origin, s.fetches, purge', e)
      ensures purge'.listed <= i || e.item.key in purge'.pending
    {
      assert Outlived(s.origin, s.fetches, purge, e);
      if i == purge.listed {
        var j :| 0 <= j < |s.segments[i]| && s.segments[i][j] == e;
        assert e.item.key in TaggedKeys(s.segments[i], purge.target.tag);
        assert e.item.key in keys;
      }
    }
  }

  /** An entry the purge loop decides to keep is newer than the purge. */
  lemma KeptIsNewer(cfg: Config, s: State, target: Target, key: string, now: int, i: nat, e: Entry)
    requires Shaped(cfg, s.segments) && i < |s.segments| && e in s.segments[i] && e.item.key == key
    requires !MustDelete(s.segments[cfg.ShardOf(key)], key, RecordedVersion(target), now)
    ensures !Hits(target, e.item)
  {
  }

  lemma PendingCovers(segments: seq<View>, origin: map<string, FetchId>, fetches: map<FetchId, Fetch>, purge: Purge)
    requires purge.pending != [] && CoveredBy(segments, origin, fetches, purge)
    requires forall i, e :: 0 <= i < |segments| && e in segments[i] && e.item.key == purge.pending[0] ==>
               !Hits(purge.target, e.item)
    ensures CoveredBy(segments, origin, fetches, purge.(pending := purge.pending[1..], deleting := false))
  {
  }

  /** A key leaves the pending list only when its entry is newer than the purge, or gone. */
  lemma PendingShortens(cfg: Config, s: State, p: PurgeId)
    requires Inv(cfg, s) && p in s.purges && s.purges[p].pending != [] && s.purges[p].listed == cfg.shards
    requires forall i, e :: 0 <= i < |s.segments| && e in s.segments[i] && e.item.key == s.purges[p].pending[0] ==>
               !Hits(s.purges[p].target, e.item)
    ensures Inv(cfg, s.(purges := s.purges[p := s.purges[p].(pending := s.purges[p].pending[1..], deleting := false)]))
  {
    var purge := s.purges[p];
    assert WellPurged(cfg, s.history, purge);
    if CoveredBy(s.segments, s.origin, s.fetches, purge) {
      PendingCovers(s.segments, s.origin, s.fetches, purge);
    }
    PurgeChanges(cfg, s, p, purge.(pending := purge.pending[1..], deleting := false));
  }

  lemma LookUpInv(cfg: Config, s: State, p: PurgeId, now: int)
    requires Inv(cfg, s) && Enabled(cfg, s, LookUp(p, now))
    ensures Inv(cfg, Apply(cfg, s, LookUp(p, now)))
  {
    var s' := Apply(cfg, s, LookUp(p, now));
    var purge := s.purges[p];
    var key := purge.pending[0];
    var i := cfg.ShardOf(key);
    var v := s.segments[i];
    LookedElements(v, key, now);
    OneSegment(cfg, s, i, Looked(v, key, now));
    var mid := s.(clock := now, segments := s'.segments);
    SegmentsShrink(cfg, s, mid);
    if MustDelete(v, key, RecordedVersion(purge.target), now) {
      assert WellPurged(cfg, s.history, purge);
      PurgeChanges(cfg, mid, p, purge.(deleting := true));
    } else {
      forall j, e: Entry | 0 <= j < |mid.segments| && e in mid.segments[j] && e.item.key == key
        ensures !Hits(purge.target, e.item)
      {
        KeptIsNewer(cfg, s, purge.target, key, now, j, e);
      }
      PendingShortens(cfg, mid, p);
      assert purge.(pending := purge.pending[1..]) == purge.(pending := purge.pending[1..], deleting := false);
    }
  }

  lemma DeleteInv(cfg: Config, s: State, p: PurgeId)
    requires Inv(cfg, s) && Enabled(cfg, s, Delete(p))
    ensures Inv(cfg, Apply(cfg, s, Delete(p)))
  {
    var purge := s.purges[p];
    assert WellPurged(cfg, s.history, purge);
    var key := purge.pending[0];
    var i := cfg.ShardOf(key);
    var v := Without(s.segments[i], key);
    WithoutElements(s.segments[i], key);
    OneSegment(cfg, s, i, v);
    var mid := s.(segments := s.segments[i := v]);
    SegmentsShrink(cfg, s, mid);
    forall j, e: Entry | 0 <= j < |mid.segments| && e in mid.segments[j]
      ensures e.item.key != key
    {
      assert e in s.segments[j] && cfg.ShardOf(e.item.key) == j;
    }
    PendingShortens(cfg, mid, p);
  }

  /** A response that a recorded purge hits, fetched with an older token, is refused. */
  lemma HitIsRefused(cfg: Config, s: State, f: FetchId, now: int, p: PurgeId)
    requires Tracked(s) && Purging(cfg, s) && f in s.fetches && s.fetches[f].response.Some? && s.clock <= now
    requires p in s.purges && Trusted(s.history, s.purges[p])
    requires Hits(s.purges[p].target, s.fetches[f].response.value)
    requires s.fetches[f].token.seqNo < s.purges[p].recorded
    ensures var item := s.fetches[f].response.value;
            Refuses(s.tracker, s.fetches[f].token, Carried(item), item.version, now)
  {
    var item := s.fetches[f].response.value;
    var token := s.fetches[f].token;
    var purge := s.purges[p];
    var tag := RecordedTag(purge.target);
    if !Stale(token, now) {
      assert WellPurged(cfg, s.history, purge);
      var k := purge.recorded - 1;
      assert Outdates(s.history, k, token, tag, item.version);
      NotUndercutKeepsUp(s.history, tag, k);
      OutdatedIsBlocked(s.tracker, s.history, s.clock, now, token, tag, item.version, k);
      CarriesTag(purge.target, item);
      var i :| 0 <= i < |Carried(item)| && Carried(item)[i] == tag;
      assert Blocks(s.tracker.tags, token, Carried(item)[i], item.version);
    }
  }

  lemma CarriesTag(target: Target, item: Item)
    requires Targeted(target, item)
    ensures RecordedTag(target) in Carried(item)
  {
  }

  /** Whatever is in a segment now is the new entry, or was there under another key. */
  ghost predicate OnlyAdds(segments: seq<View>, segments': seq<View>, e: Entry) {
    && |segments'| == |segments|
    && forall j, x :: 0 <= j < |segments'| && x in segments'[j] ==>
         x == e || (x in segments[j] && x.item.key != e.item.key)
  }

  lemma PutShaped(cfg: Config, s: State, e: Entry)
    requires Shaped(cfg, s.segments) && Fits(e, cfg.limits)
    ensures var i := cfg.ShardOf(e.item.key);
            var segments := s.segments[i := Put(s.segments[i], e, cfg.limits)];
            Shaped(cfg, segments) && OnlyAdds(s.segments, segments, e)
  {
    var i := cfg.ShardOf(e.item.key);
    PutIsLru(s.segments[i], e, cfg.limits);
    var segments := s.segments[i := Put(s.segments[i], e, cfg.limits)];
    forall j, x: Entry | 0 <= j < |segments| && x in segments[j]
      ensures cfg.ShardOf(x.item.key) == j
      ensures x == e || (x in s.segments[j] && x.item.key != e.item.key)
    {
      if j != i {
        assert x in s.segments[j];
      }
    }
  }

  lemma StoreInv(cfg: Config, s: State, f: FetchId, now: int, admitted: bool)
    requires Inv(cfg, s) && Enabled(cfg, s, Store(f, now, admitted))
    ensures Inv(cfg, Apply(cfg, s, Store(f, now, admitted)))
  {
    var s' := Stored(cfg, s, f, now, admitted);
    var item := s.fetches[f].response.value;
    var mid := s.(clock := now, fetches := s'.fetches);
    IssuedLater(s.fetches[f].token, s.history, s.clock, now);
    FetchesChange(cfg, s, mid, f);
    if LetIn(s, f, now, admitted) {
      StoredInv(cfg, s, mid, s', f, now);
    }
  }

  lemma IssuedLater(token: FetchToken, h: History, clock: int, now: int)
    requires Issued(token, h, clock) && clock <= now
    ensures Issued(token, h, now)
  {
  }

  lemma StoredSources(mid: State, s': State, f: FetchId, e: Entry)
    requires Sourced(mid) && FromFetch(s'.origin, s'.fetches, e)
    requires s'.fetches == mid.fetches && s'.origin == mid.origin[e.item.key := f]
    requires OnlyAdds(mid.segments, s'.segments, e)
    ensures Sourced(s')
  {
    forall j, x: Entry | 0 <= j < |s'.segments| && x in s'.segments[j]
      ensures FromFetch(s'.origin, s'.fetches, x)
    {
      assert x != e ==> x in mid.segments[j] && FromFetch(mid.origin, mid.fetches, x);
    }
  }

  lemma StoredCovered(cfg: Config, s: State, mid: State, s': State, f: FetchId, e: Entry, now: int)
    requires Tracked(s) && Purging(cfg, s) && s.clock <= now && Covered(mid)
    requires f in s.fetches && s.fetches[f].response.Some? && LetIn(s, f, now, true)
    requires e == S.NewEntry(s.fetches[f].response.value, now)
    requires mid == s.(clock := now, fetches := s.fetches[f := s.fetches[f].(done := true)])
    requires s' == mid.(segments := s'.segments, origin := mid.origin[e.item.key := f])
    requires OnlyAdds(mid.segments, s'.segments, e)
    ensures Covered(s')
  {
    forall p | p in s'.purges && Trusted(s'.history, s'.purges[p])
      ensures CoveredBy(s'.segments, s'.origin, s'.fetches, s'.purges[p])
    {
      if Hits(s.purges[p].target, s.fetches[f].response.value) && s.fetches[f].token.seqNo < s.purges[p].recorded {
        HitIsRefused(cfg, s, f, now, p);
      }
      StoreCovers(mid, s', f, e, s.purges[p]);
    }
  }

  lemma StoredInv(cfg: Config, s: State, mid: State, s': State, f: FetchId, now: int)
    requires Inv(cfg, s) && Inv(cfg, mid) && s.clock <= now
    requires f in s.fetches && s.fetches[f].response.Some? && LetIn(s, f, now, true)
    requires mid == s.(clock := now, fetches := s.fetches[f := s.fetches[f].(done := true)])
    requires Fits(S.NewEntry(s.fetches[f].response.value, now), cfg.limits)
    requires s' == Stored(cfg, s, f, now, true)
    ensures Inv(cfg, s')
  {
    var e := S.NewEntry(s.fetches[f].response.value, now);
    PutShaped(cfg, s, e);
    StoredSources(mid, s', f, e);
    StoredCovered(cfg, s, mid, s', f, e, now);
  }

  lemma StoreCovers(mid: State, s': State, f: FetchId, e: Entry, p: Purge)
    requires CoveredBy(mid.segments, mid.origin, mid.fetches, p)
    requires s'.fetches == mid.fetches && s'.origin == mid.origin[e.item.key := f]
    requires OnlyAdds(mid.segments, s'.segments, e)
    requires f in mid.fetches && !(Hits(p.target, e.item) && mid.fetches[f].token.seqNo < p.recorded)
    ensures CoveredBy(s'.segments, s'.origin, s'.fetches, p)
  {
  }

  /** Every step keeps the invariant. */
  lemma StepInv(cfg: Config, s: State, step: Step)
    requires Inv(cfg, s) && Enabled(cfg, s, step)
    ensures Inv(cfg, Apply(cfg, s, step))
  {
    var s' := Apply(cfg, s, step);
    match step
    case Begin(f, key, now) =>
      BeginIssues(s.tracker, s.history, s.clock, now);
      FetchesChange(cfg, s, s', f);
    case Respond(f, item) =>
      FetchesChange(cfg, s, s', f);
    case Abandon(f) =>
      FetchesChange(cfg, s, s', f);
    case Store(f, now, admitted) =>
      StoreInv(cfg, s, f, now, admitted);
    case RecordPurge(p, target, now) =>
      RecordInv(cfg, s, p, target, now);
    case List(p, keys) =>
      ListInv(cfg, s, p, keys);
    case LookUp(p, now) =>
      LookUpInv(cfg, s, p, now);
    case Delete(p) =>
      DeleteInv(cfg, s, p);
    case ClientLookup(key, now) =>
      var i := cfg.ShardOf(key);
      LookedElements(s.segments[i], key, now);
      OneSegment(cfg, s, i, Looked(s.segments[i], key, now));
      SegmentsShrink(cfg, s, s');
    case TimerFires(key, now) =>
      var i := cfg.ShardOf(key);
      WithoutElements(s.segments[i], key);
      OneSegment(cfg, s, i, TimerFired(s.segments[i], key, now));
      SegmentsShrink(cfg, s, s');
  }

  lemma {:induction false} BehaviourInv(cfg: Config, states: seq<State>, steps: seq<Step>, j: nat)
    requires Behaviour(cfg, states, steps) && j < |states|
    ensures Inv(cfg, states[j])
  {
    if j == 0 {
      InitialInv(cfg, states[0]);
    } else {
      BehaviourInv(cfg, states, steps, j - 1);
      assert steps[j - 1] == steps[j - 1];
      StepInv(cfg, states[j - 1], steps[j - 1]);
    }
  }

  lemma FinishedStepStays(cfg: Config, s: State, step: Step, p: PurgeId)
    requires cfg.Ok() && |s.segments| == cfg.shards && Enabled(cfg, s, step)
    requires p in s.purges && Finished(cfg, s.purges[p])
    ensures var s' := Apply(cfg, s, step); p in s'.purges && s'.purges[p] == s.purges[p]
  {
  }

  lemma {:induction false} FinishedStays(cfg: Config, states: seq<State>, steps: seq<Step>, i: nat, j: nat, p: PurgeId)
    requires Behaviour(cfg, states, steps) && i <= j < |states|
    requires p in states[i].purges && Finished(cfg, states[i].purges[p])
    ensures p in states[j].purges && states[j].purges[p] == states[i].purges[p]
  {
    if i < j {
      FinishedStays(cfg, states, steps, i, j - 1, p);
      BehaviourInv(cfg, states, steps, j - 1);
      assert steps[j - 1] == steps[j - 1];
      FinishedStepStays(cfg, states[j - 1], steps[j - 1], p);
    }
  }

  /** A finished purge leaves nothing behind: no cached entry is outlived by it. */
  lemma FinishedLeavesNothing(cfg: Config, s: State, p: PurgeId, i: nat, e: Entry)
    requires |s.segments| == cfg.shards && Covered(s)
    requires p in s.purges && Finished(cfg, s.purges[p]) && Trusted(s.history, s.purges[p])
    requires i < |s.segments| && e in s.segments[i]
    ensures !Outlived(s.origin, s.fetches, s.purges[p], e)
  {
  }

  /**
    Once a purge has completed, then in that state and in every later one, under any interleaving
    with fetches, other purges, expiry and eviction, every cached entry with the purged tag (or
    key) comes from a fetch that took its token after the purge was recorded, or carries a version
    newer than the purge.  For a versioned purge this needs that no purge of the tag recorded later
    has a positive version below it; an unversioned or key purge needs nothing.
  */
  lemma PurgeIsNeverLost(cfg: Config, states: seq<State>, steps: seq<Step>, i: nat, j: nat, p: PurgeId, k: nat,
                         e: Entry)
    requires Behaviour(cfg, states, steps) && i <= j < |states|
    requires p in states[i].purges && Finished(cfg, states[i].purges[p])
    requires Trusted(states[j].history, states[i].purges[p])
    requires k < |states[j].segments| && e in states[j].segments[k] && Targeted(states[i].purges[p].target, e.item)
    ensures FromFetch(states[j].origin, states[j].fetches, e)
    ensures var purge := states[i].purges[p];
            || !FetchedBefore(states[j].origin, states[j].fetches, e.item.key, purge.recorded)
            || (RecordedVersion(purge.target) > 0 && e.item.version > RecordedVersion(purge.target))
  {
    BehaviourInv(cfg, states, steps, j);
    FinishedStays(cfg, states, steps, i, j, p);
    FinishedLeavesNothing(cfg, states[j], p, k, e);
  }

  // ---- Where cached items come from -------------------------------------------------

  /** Some step before `n` brought this item as the response of fetch `f`. */
  predicate Brought(steps: seq<Step>, n: nat, f: FetchId, item: Item) {
    exists m :: 0 <= m < n && m < |steps| && steps[m] == Respond(f, item)
  }

  lemma ResponseAfter(cfg: Config, s: State, step: Step, f: FetchId)
    requires cfg.Ok() && |s.segments| == cfg.shards && Enabled(cfg, s, step)
    requires f in Apply(cfg, s, step).fetches && Apply(cfg, s, step).fetches[f].response.Some?
    ensures var item := Apply(cfg, s, step).fetches[f].response.value;
            step == Respond(f, item) || (f in s.fetches && s.fetches[f].response == A.Some(item))
  {
  }

  lemma {:induction false} ResponseWasBrought(cfg: Config, states: seq<State>, steps: seq<Step>, n: nat, f: FetchId)
    requires Behaviour(cfg, states, steps) && n < |states|
    requires f in states[n].fetches && states[n].fetches[f].response.Some?
    ensures Brought(steps, n, f, states[n].fetches[f].response.value)
  {
    assert n > 0;
    var s, step, item := states[n - 1], steps[n - 1], states[n].fetches[f].response.value;
    assert states[n] == Apply(cfg, s, step);
    ResponseAfter(cfg, s, step, f);
    if step != Respond(f, item) {
      ResponseWasBrought(cfg, states, steps, n - 1, f);
    }
  }

  /** What is cached is what some fetch brought, down to body, headers, status, times, version and tags;
      only a missing storing time is filled in. */
  lemma {:induction false} CachedWasBrought(cfg: Config, states: seq<State>, steps: seq<Step>, n: nat, i: nat, e: Entry)
    requires Behaviour(cfg, states, steps) && n < |states| && i < |states[n].segments| && e in states[n].segments[i]
    ensures e.item.key in states[n].origin
    ensures exists item: Item ::
              && Brought(steps, n, states[n].origin[e.item.key], item)
              && e.item == item.(storedAt := e.item.storedAt)
              && (item.storedAt != 0 ==> e.item.storedAt == item.storedAt)
  {
    assert n > 0;
    var s, step := states[n - 1], steps[n - 1];
    BehaviourInv(cfg, states, steps, n - 1);
    assert states[n] == Apply(cfg, s, step);
    SegmentsStay(cfg, s, step);
    EntriesAfter(cfg, s, step, i, e);
    if WasCached(s, states[n], i, e) {
      CachedWasBrought(cfg, states, steps, n - 1, i, e);
    } else {
      ResponseWasBrought(cfg, states, steps, n - 1, step.f);
    }
  }

  lemma SegmentsStay(cfg: Config, s: State, step: Step)
    requires cfg.Ok() && |s.segments| == cfg.shards && Enabled(cfg, s, step)
    ensures |Apply(cfg, s, step).segments| == cfg.shards
  {
  }

  /** A client's look-up moves what it hits to the front of its segment and takes an expired entry out. */
  lemma LookUpRefreshes(cfg: Config, s: State, now: int, e: Entry)
    requires Shaped(cfg, s.segments) && s.clock <= now && e in s.segments[cfg.ShardOf(e.item.key)]
    ensures var looked := Apply(cfg, s, ClientLookup(e.item.key, now)).segments[cfg.ShardOf(e.item.key)];
            if e.item.RemoveAt() != 0 && now >= e.item.RemoveAt() then e !in looked else looked != [] && looked[0] == e
  {
    HitMovesToFront(s.segments[cfg.ShardOf(e.item.key)], now, e);
  }

  /** A timer takes an expired entry out and leaves any other. */
  lemma TimerExpires(cfg: Config, s: State, now: int, e: Entry)
    requires Shaped(cfg, s.segments) && s.clock <= now && e in s.segments[cfg.ShardOf(e.item.key)]
    ensures var left := Apply(cfg, s, TimerFires(e.item.key, now)).segments[cfg.ShardOf(e.item.key)];
            e in left <==> !(e.item.RemoveAt() != 0 && now >= e.item.RemoveAt())
  {
    TimerTakesExpired(s.segments[cfg.ShardOf(e.item.key)], e.item.key, now);
  }

  // ---- A versioned purge spares what is newer ---------------------------------------

  /** Every entry of the key has expired, carries no version, or is not newer than `version`. */
  predicate NothingNewer(v: View, key: string, version: nat, now: int) {
    forall e :: e in v && e.item.key == key ==> e.item.Expired(now) || e.item.version == 0 || e.item.version <= version
  }

  /** Purge `p`, which is about to delete, was looked up by step `m`, which found nothing newer. */
  ghost predicate LookedUpBy(cfg: Config, states: seq<State>, steps: seq<Step>, m: nat, p: PurgeId, purge: Purge)
    requires cfg.Ok() && |states| == |steps| + 1
  {
    && m < |steps| && steps[m].LookUp? && steps[m].p == p && purge.pending != [] && |states[m].segments| == cfg.shards
    && NothingNewer(states[m].segments[cfg.ShardOf(purge.pending[0])], purge.pending[0], RecordedVersion(purge.target),
                    steps[m].now)
  }

  lemma LookUpFindsNothingNewer(cfg: Config, s: State, p: PurgeId, now: int)
    requires Shaped(cfg, s.segments) && Enabled(cfg, s, LookUp(p, now)) && RecordedVersion(s.purges[p].target) > 0
    requires Apply(cfg, s, LookUp(p, now)).purges[p].deleting
    ensures var purge := s.purges[p];
            && Apply(cfg, s, LookUp(p, now)).purges[p].pending == purge.pending
            && NothingNewer(s.segments[cfg.ShardOf(purge.pending[0])], purge.pending[0],
                            RecordedVersion(purge.target), now)
  {
    var key := s.purges[p].pending[0];
    forall e | e in s.segments[cfg.ShardOf(key)] && e.item.key == key
      ensures Find(s.segments[cfg.ShardOf(key)], key) == e && Has(s.segments[cfg.ShardOf(key)], key)
    {
      FindIs(s.segments[cfg.ShardOf(key)], e);
    }
  }

  /** Only a look-up makes a purge of a tag ready to delete. */
  lemma OnlyLookUpsMarkForDeletion(cfg: Config, s: State, step: Step, p: PurgeId)
    requires Inv(cfg, s) && Enabled(cfg, s, step) && !(step.LookUp? && step.p == p)
    requires p in Apply(cfg, s, step).purges && Apply(cfg, s, step).purges[p].deleting
    requires Apply(cfg, s, step).purges[p].target.TagTarget?
    ensures p in s.purges && s.purges[p] == Apply(cfg, s, step).purges[p]
  {
    assert p in s.purges ==> WellPurged(cfg, s.history, s.purges[p]);
  }

  lemma {:induction false} MarkedByLookUp(cfg: Config, states: seq<State>, steps: seq<Step>, n: nat, p: PurgeId)
    returns (m: nat)
    requires Behaviour(cfg, states, steps) && n < |states| && p in states[n].purges && states[n].purges[p].deleting
    requires states[n].purges[p].target.TagTarget? && RecordedVersion(states[n].purges[p].target) > 0
    ensures m < n && LookedUpBy(cfg, states, steps, m, p, states[n].purges[p])
  {
    assert n > 0;
    m := n - 1;
    BehaviourInv(cfg, states, steps, m);
    assert states[n] == Apply(cfg, states[m], steps[m]);
    if steps[m].LookUp? && steps[m].p == p {
      LookUpFindsNothingNewer(cfg, states[m], p, steps[m].now);
    } else {
      OnlyLookUpsMarkForDeletion(cfg, states[m], steps[m], p);
      m := MarkedByLookUp(cfg, states, steps, m, p);
    }
  }

  /** A purge of a tag at a version deletes a key only after a look-up of that key which found no
      unexpired entry newer than the version: a newer entry goes only if it was stored since. */
  lemma NewerIsSpared(cfg: Config, states: seq<State>, steps: seq<Step>, n: nat, tag: string, version: nat)
    requires Behaviour(cfg, states, steps) && n < |steps| && steps[n].Delete?
    requires steps[n].p in states[n].purges && states[n].purges[steps[n].p].target == TagTarget(tag, version)
    requires version > 0
    ensures states[n].purges[steps[n].p].pending != []
    ensures var key := states[n].purges[steps[n].p].pending[0];
            exists m :: 0 <= m < n && steps[m].LookUp? && steps[m].p == steps[n].p &&
              |states[m].segments| == cfg.shards &&
              forall e :: e in states[m].segments[cfg.ShardOf(key)] && e.item.key == key ==>
                e.item.Expired(steps[m].now) || e.item.version == 0 || e.item.version <= version
  {
    var p := steps[n].p;
    assert Enabled(cfg, states[n], steps[n]);
    var m := MarkedByLookUp(cfg, states, steps, n, p);
    assert NothingNewer(states[m].segments[cfg.ShardOf(states[n].purges[p].pending[0])], states[n].purges[p].pending[0],
                        version, steps[m].now);
  }

  /** A fetch that has not ended yet is the origin of nothing cached. */
  lemma UnfinishedIsNoOrigin(s: State, f: FetchId, i: nat, e: Entry)
    requires Sourced(s) && f in s.fetches && !s.fetches[f].done && i < |s.segments| && e in s.segments[i]
    ensures e.item.key in s.origin && s.origin[e.item.key] != f
  {
    assert FromFetch(s.origin, s.fetches, e);
  }

  /** A response that fits and is admitted is cached exactly when the full history has nothing
      against it: no purge since its token names one of its tags without being older than it. */
  lemma StoredIffCurrent(cfg: Config, states: seq<State>, steps: seq<Step>, n: nat, i: nat)
    requires Behaviour(cfg, states, steps) && n < |steps| && steps[n].Store? && steps[n].admitted
    requires steps[n].f in states[n].fetches && states[n].fetches[steps[n].f].response.Some?
    requires var item := states[n].fetches[steps[n].f].response.value;
             && i == cfg.ShardOf(item.key)
             && forall j :: 0 <= j < |Carried(item)| ==> NoRollback(states[n].history, Carried(item)[j], steps[n].now)
    ensures |states[n + 1].segments| == cfg.shards
    ensures var f := steps[n].f;
            var fetch := states[n].fetches[f];
            var item := fetch.response.value;
            var e := S.NewEntry(item, steps[n].now);
            !HistoryRefuses(states[n].history, fetch.token, Carried(item), item.version, steps[n].now) <==>
              e in states[n + 1].segments[i] && item.key in states[n + 1].origin && states[n + 1].origin[item.key] == f
  {
    BehaviourInv(cfg, states, steps, n);
    var s, step := states[n], steps[n];
    assert step == Store(step.f, step.now, true) && states[n + 1] == Apply(cfg, s, step);
    StoreDecides(cfg, s, step.f, step.now);
  }

  lemma StoreDecides(cfg: Config, s: State, f: FetchId, now: int)
    requires Inv(cfg, s) && Enabled(cfg, s, Store(f, now, true))
    requires var item := s.fetches[f].response.value;
             forall j :: 0 <= j < |Carried(item)| ==> NoRollback(s.history, Carried(item)[j], now)
    ensures var item := s.fetches[f].response.value;
            var s' := Stored(cfg, s, f, now, true);
            !HistoryRefuses(s.history, s.fetches[f].token, Carried(item), item.version, now) <==>
              S.NewEntry(item, now) in s'.segments[cfg.ShardOf(item.key)] && item.key in s'.origin &&
                s'.origin[item.key] == f
  {
    var item := s.fetches[f].response.value;
    var e, i := S.NewEntry(item, now), cfg.ShardOf(item.key);
    DecidesAsHistory(s.tracker, s.history, s.clock, now, s.fetches[f].token, Carried(item), item.version);
    if LetIn(s, f, now, true) {
      PutIsLru(s.segments[i], e, cfg.limits);
      assert Put(s.segments[i], e, cfg.limits)[0] == e;
    } else if e in s.segments[i] {
      UnfinishedIsNoOrigin(s, f, i, e);
    }
  }
}
