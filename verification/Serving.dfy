/**
  Staleness over whole runs: whatever fetches, purges, look-ups and timers do, a body served from
  the cache is within its lifetime or within the stale window that allows it.
*/
module Serving {
  import opened Lru
  import opened Policy
  import R = Race
  import S = Shards
  import A = Admission

  datatype Headers = Headers(policy: CachePolicy, parse: seq<Header> -> seq<Directive>)
  {
    function WindowsOf(item: Item): Windows {
      StaleWindows(policy, parse(item.headers))
    }

    predicate Fetched(item: Item) {
      Built(policy, parse, item)
    }
  }

  /** Fetches bring only items whose times follow the policy. */
  predicate FetchesBuild(h: Headers, steps: seq<R.Step>) {
    forall n :: 0 <= n < |steps| && steps[n].Respond? ==> h.Fetched(steps[n].item)
  }

  ghost predicate FetchesBuilt(h: Headers, fetches: map<R.FetchId, R.Fetch>) {
    forall f :: f in fetches && fetches[f].response.Some? ==> h.Fetched(fetches[f].response.value)
  }

  ghost predicate EntriesBuilt(h: Headers, segments: seq<View>) {
    forall i, e :: 0 <= i < |segments| && e in segments[i] ==> h.Fetched(e.item)
  }

  ghost predicate AllBuilt(h: Headers, s: R.State) {
    FetchesBuilt(h, s.fetches) && EntriesBuilt(h, s.segments)
  }

  lemma EntryStaysBuilt(cfg: R.Config, h: Headers, s: R.State, step: R.Step, i: nat, e: Entry)
    requires R.Shaped(cfg, s.segments) && R.Sourced(s) && R.Enabled(cfg, s, step) && AllBuilt(h, s)
    requires i < cfg.shards && e in R.Apply(cfg, s, step).segments[i]
    ensures h.Fetched(e.item)
  {
    R.EntriesAfter(cfg, s, step, i, e);
    if R.JustStored(s, step, R.Apply(cfg, s, step), e) {
      assert h.Fetched(s.fetches[step.f].response.value);
    }
  }

  lemma FetchesStayBuilt(cfg: R.Config, h: Headers, s: R.State, step: R.Step)
    requires cfg.Ok() && |s.segments| == cfg.shards && R.Enabled(cfg, s, step) && FetchesBuilt(h, s.fetches)
    requires step.Respond? ==> h.Fetched(step.item)
    ensures FetchesBuilt(h, R.Apply(cfg, s, step).fetches) && |R.Apply(cfg, s, step).segments| == cfg.shards
  {
  }

  lemma StepKeepsBuilt(cfg: R.Config, h: Headers, s: R.State, step: R.Step)
    requires R.Shaped(cfg, s.segments) && R.Sourced(s) && R.Enabled(cfg, s, step) && AllBuilt(h, s)
    requires step.Respond? ==> h.Fetched(step.item)
    ensures AllBuilt(h, R.Apply(cfg, s, step))
  {
    var segments' := R.Apply(cfg, s, step).segments;
    FetchesStayBuilt(cfg, h, s, step);
    forall i, e: Entry | 0 <= i < |segments'| && e in segments'[i]
      ensures h.Fetched(e.item)
    {
      EntryStaysBuilt(cfg, h, s, step, i, e);
    }
  }

  lemma {:induction false} RunsKeepBuilt(cfg: R.Config, h: Headers, states: seq<R.State>, steps: seq<R.Step>, n: nat)
    requires R.Behaviour(cfg, states, steps) && FetchesBuild(h, steps) && n < |states|
    ensures AllBuilt(h, states[n])
  {
    if n > 0 {
      RunsKeepBuilt(cfg, h, states, steps, n - 1);
      R.BehaviourInv(cfg, states, steps, n - 1);
      assert steps[n - 1] == steps[n - 1];
      StepKeepsBuilt(cfg, h, states[n - 1], steps[n - 1]);
    }
  }

  /** What a look-up at this moment finds. */
  predicate Finds(v: View, key: string, looked: int) {
    Has(v, key) && !Find(v, key).item.Expired(looked)
  }

  /**
    In every reachable state: a look-up finds a cached item exactly until the longer of its stale
    windows has passed, and the request that looked it up serves it fresh, or within the
    stale-while-revalidate window, or, when the upstream failed, within the stale-if-error window;
    an item that must be revalidated is served only while fresh.
  */
  lemma ServedWithinBound(cfg: R.Config, h: Headers, states: seq<R.State>, steps: seq<R.Step>, n: nat,
                          key: string, looked: int, decided: int, failed: bool)
    requires R.Behaviour(cfg, states, steps) && FetchesBuild(h, steps) && n < |states| && looked <= decided
    requires |states[n].segments| == cfg.shards && Has(states[n].segments[cfg.ShardOf(key)], key)
    ensures var v := states[n].segments[cfg.ShardOf(key)];
            var item := Find(v, key).item;
            var windows := h.WindowsOf(item);
            && (Finds(v, key, looked) <==> looked < item.expiresAt + windows.Longer())
            && var answer := Decide(item, item.Fresh(looked), decided, windows, failed);
            && WithinBound(item, answer, looked, windows, failed)
            && (NeverStale(h.parse(item.headers)) ==> answer == Hit || answer == Forwarded)
  {
    RunsKeepBuilt(cfg, h, states, steps, n);
    var item := Find(states[n].segments[cfg.ShardOf(key)], key).item;
    assert h.Fetched(item);
    DecisionWithinBound(h.policy, h.parse, item, looked, decided, failed);
  }

  /** Storing a response makes room at the cost of the entry. */
  predicate PushedOut(cfg: R.Config, s: R.State, step: R.Step, i: nat, e: Entry)
    requires cfg.Ok() && i < |s.segments|
  {
    && step.Store? && step.f in s.fetches && s.fetches[step.f].response.Some?
    && var item := s.fetches[step.f].response.value;
    && cfg.ShardOf(item.key) == i
    && (item.key == e.item.key || WouldOverflow(s.segments[i], item.key, ItemSize(item), cfg.limits))
  }

  /** The step deletes the entry's key for a purge. */
  predicate PurgedAway(s: R.State, step: R.Step, e: Entry) {
    step.Delete? && step.p in s.purges && s.purges[step.p].pending != [] && s.purges[step.p].pending[0] == e.item.key
  }

  /** The step looks at the entry when the longer window has passed. */
  predicate TimedOut(h: Headers, s: R.State, step: R.Step, e: Entry) {
    var end := e.item.expiresAt + h.WindowsOf(e.item).Longer();
    match step
    case ClientLookup(key, now) => key == e.item.key && now >= end
    case TimerFires(key, now) => key == e.item.key && now >= end
    case LookUp(p, now) =>
      p in s.purges && s.purges[p].pending != [] && s.purges[p].pending[0] == e.item.key && now >= end
    case _ => false
  }

  lemma StoreKeeps(cfg: R.Config, s: R.State, f: R.FetchId, now: int, admitted: bool, i: nat, e: Entry)
    requires R.Shaped(cfg, s.segments) && R.Enabled(cfg, s, R.Store(f, now, admitted))
    requires i < cfg.shards && e in s.segments[i] && !PushedOut(cfg, s, R.Store(f, now, admitted), i, e)
    ensures e in R.Stored(cfg, s, f, now, admitted).segments[i]
  {
    var item := s.fetches[f].response.value;
    if R.LetIn(s, f, now, admitted) && cfg.ShardOf(item.key) == i {
      var x := S.NewEntry(item, now);
      OverflowIffEviction(s.segments[i], x, cfg.limits);
      PutIsLru(s.segments[i], x, cfg.limits);
      assert Put(s.segments[i], x, cfg.limits) == Pushed(s.segments[i], x);
      WithoutElements(s.segments[i], item.key);
    }
  }

  lemma OtherStepKeeps(cfg: R.Config, h: Headers, s: R.State, step: R.Step, i: nat, e: Entry)
    requires R.Shaped(cfg, s.segments) && R.Enabled(cfg, s, step) && h.Fetched(e.item) && !step.Store?
    requires i < cfg.shards && e in s.segments[i]
    requires !PurgedAway(s, step, e) && !TimedOut(h, s, step, e)
    ensures e in R.Apply(cfg, s, step).segments[i]
  {
    match step
    case LookUp(p, now) =>
      LookedElements(s.segments[cfg.ShardOf(s.purges[p].pending[0])], s.purges[p].pending[0], now);
    case Delete(p) =>
      WithoutElements(s.segments[cfg.ShardOf(s.purges[p].pending[0])], s.purges[p].pending[0]);
    case ClientLookup(key, now) =>
      LookedElements(s.segments[cfg.ShardOf(key)], key, now);
    case TimerFires(key, now) =>
      FindIs(s.segments[i], e);
      WithoutElements(s.segments[cfg.ShardOf(key)], key);
    case _ =>
  }

  /** An entry leaves the cache only by a purge of its key, by being replaced or evicted for
      another response, or once the longer of its stale windows has passed. */
  lemma KeptUntilWindowEnds(cfg: R.Config, h: Headers, states: seq<R.State>, steps: seq<R.Step>, n: nat, i: nat,
                            e: Entry)
    requires R.Behaviour(cfg, states, steps) && FetchesBuild(h, steps) && n < |steps|
    requires i < |states[n].segments| && e in states[n].segments[i]
    ensures |states[n + 1].segments| == |states[n].segments| == cfg.shards
    ensures || e in states[n + 1].segments[i]
            || PurgedAway(states[n], steps[n], e) || PushedOut(cfg, states[n], steps[n], i, e)
            || TimedOut(h, states[n], steps[n], e)
  {
    RunsKeepBuilt(cfg, h, states, steps, n);
    R.BehaviourInv(cfg, states, steps, n);
    R.BehaviourInv(cfg, states, steps, n + 1);
    var s, step := states[n], steps[n];
    assert states[n + 1] == R.Apply(cfg, s, step);
    if step.Store? {
      if !PushedOut(cfg, s, step, i, e) {
        StoreKeeps(cfg, s, step.f, step.now, step.admitted, i, e);
      }
    } else if !PurgedAway(s, step, e) && !TimedOut(h, s, step, e) {
      OtherStepKeeps(cfg, h, s, step, i, e);
    }
  }
}
