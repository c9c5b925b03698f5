/**
  What the whole system gets done: every handled event has purged all it names, for good, and from
  every reachable state outbox and queues can be drained, after which nothing stale is cached.
*/
module Convergence {
  import opened Events
  import opened Dedup
  import opened Lru
  import opened Coherence
  import A = Admission
  import D = Delivery
  import L = EventLog
  import O = Outbox
  import R = Race
  import T = Tracker

  // ---- A handled event has purged everything it names -------------------------------

  /** A finished purge of the target. */
  predicate Purged(cfg: R.Config, race: R.State, target: R.Target) {
    exists p :: p in race.purges && race.purges[p].target == target && R.Finished(cfg, race.purges[p])
  }

  lemma TargetAt(e: Event, i: nat)
    ensures i < |e.tags| ==> i < |Targets(e)| && Targets(e)[i] == R.TagTarget(e.tags[i], e.version)
    ensures i < |e.keys| ==> |e.tags| + i < |Targets(e)| && Targets(e)[|e.tags| + i] == R.KeyTarget(e.keys[i])
  {
  }

  /** When an event can be marked as handled, every one of its tags has been purged at its version and
      every one of its keys has been purged, whether or not it carries a version. */
  lemma HandledIsPurged(cfg: R.Config, db: O.Db, ids: set<string>, r: Replica, saved: bool, removed: bool)
    requires cfg.Ok() && |r.race.segments| == cfg.shards && ConsumerOk(cfg, db, ids, r.race, r.mem, r.consumer)
    requires ReplicaEnabled(cfg, db.versions, r, MarkProcessed(saved, removed))
    ensures forall t :: t in r.consumer.event.tags ==> Purged(cfg, r.race, R.TagTarget(t, r.consumer.event.version))
    ensures forall key :: key in r.consumer.event.keys ==> Purged(cfg, r.race, R.KeyTarget(key))
  {
    var e := r.consumer.event;
    forall t | t in e.tags
      ensures Purged(cfg, r.race, R.TagTarget(t, e.version))
    {
      var i :| 0 <= i < |e.tags| && e.tags[i] == t;
      TargetAt(e, i);
      assert r.race.purges[r.consumer.done[i]].target == Targets(e)[i];
    }
    forall key | key in e.keys
      ensures Purged(cfg, r.race, R.KeyTarget(key))
    {
      var i :| 0 <= i < |e.keys| && e.keys[i] == key;
      TargetAt(e, i);
      assert r.race.purges[r.consumer.done[|e.tags| + i]].target == Targets(e)[|e.tags| + i];
    }
  }

  /** A mark that was saved survives a restart, one that was not is forgotten with memory. */
  lemma OnlySavedMarksSurvive(cfg: R.Config, versions: Versions, r: Replica, saved: bool, removed: bool,
                              race: R.State, loaded: Versions)
    requires cfg.Ok() && |r.race.segments| == cfg.shards
    requires ReplicaEnabled(cfg, versions, r, MarkProcessed(saved, removed))
    requires var r1 := ReplicaApply(cfg, versions, r, MarkProcessed(saved, removed));
             ReplicaEnabled(cfg, versions, r1, Restart(race, loaded))
    ensures var r1 := ReplicaApply(cfg, versions, r, MarkProcessed(saved, removed));
            var r2 := ReplicaApply(cfg, versions, r1, Restart(race, loaded));
            && AlreadyApplied(r1.mem, r.consumer.event)
            && (saved ==> AlreadyApplied(r2.mem, r.consumer.event))
            && (!saved ==> r2.mem.order == r.disk.order)
  {
    RememberedIds(r.mem.order, r.consumer.event.id);
  }

  // ---- ... and since the event was delivered ----------------------------------------

  predicate RecordedAfter(race: R.State, p: R.PurgeId, n: nat) {
    p in race.purges && race.purges[p].recorded > n
  }

  /** Every purge of the event being handled was recorded after the first `n` purges. */
  predicate AllAfter(r: Replica, n: nat) {
    r.consumer.Handling? ==>
      && n <= |r.race.history|
      && (forall j :: 0 <= j < |r.consumer.done| ==> RecordedAfter(r.race, r.consumer.done[j], n))
      && (r.consumer.current.Some? ==> RecordedAfter(r.race, r.consumer.current.value, n))
  }

  lemma RaceKeepsRecorded(cfg: R.Config, s: R.State, step: R.Step)
    requires cfg.Ok() && |s.segments| == cfg.shards && R.Enabled(cfg, s, step)
    ensures |R.Apply(cfg, s, step).history| >= |s.history|
    ensures forall p :: p in s.purges ==>
              p in R.Apply(cfg, s, step).purges && R.Apply(cfg, s, step).purges[p].recorded == s.purges[p].recorded
  {
  }

  /** Handling an event only records purges that are new. */
  lemma HandlingStays(cfg: R.Config, versions: Versions, r: Replica, step: ReplicaStep, n: nat)
    requires R.Inv(cfg, r.race) && ReplicaEnabled(cfg, versions, r, step) && AllAfter(r, n) && r.consumer.Handling?
    requires var r' := ReplicaApply(cfg, versions, r, step); r'.consumer.Handling?
    ensures var r' := ReplicaApply(cfg, versions, r, step);
            AllAfter(r', n)
  {
    match step
    case Fetching(s) => RaceKeepsRecorded(cfg, r.race, s);
    case StartTarget(p, now) =>
      RaceKeepsRecorded(cfg, r.race, R.RecordPurge(p, Targets(r.consumer.event)[|r.consumer.done|], now));
    case Purging(s) => RaceKeepsRecorded(cfg, r.race, s);
    case _ =>
  }

  /** The delivery that began the handling of the event: step `d`, since when `n` purges were known. */
  ghost predicate Delivered(states: seq<System>, steps: seq<Step>, d: nat, i: nat, e: Event, n: nat)
    requires |states| == |steps| + 1
  {
    && d < |steps| && i < |states[d].replicas| && n == |states[d].replicas[i].race.history|
    && steps[d].AtReplica? && steps[d].i == i && steps[d].local.Deliver? && steps[d].local.event == e
  }

  /** Only a delivery to the idle consumer begins handling. */
  lemma HandlingBegins(cfg: R.Config, versions: Versions, r: Replica, step: ReplicaStep)
    requires cfg.Ok() && |r.race.segments| == cfg.shards && ReplicaEnabled(cfg, versions, r, step)
    requires r.consumer.Idle? && ReplicaApply(cfg, versions, r, step).consumer.Handling?
    ensures step.Deliver?
    ensures ReplicaApply(cfg, versions, r, step) == r.(consumer := Handling(step.event, [], A.None))
  {
  }

  lemma OtherReplicaStays(cfg: R.Config, s: System, step: Step, i: nat)
    requires cfg.Ok() && (forall j :: 0 <= j < |s.replicas| ==> |s.replicas[j].race.segments| == cfg.shards)
    requires Enabled(cfg, s, step) && i < |s.replicas| && !(step.AtReplica? && step.i == i)
    ensures |Apply(cfg, s, step).replicas| == |s.replicas|
    ensures Apply(cfg, s, step).replicas[i].race == s.replicas[i].race
    ensures Apply(cfg, s, step).replicas[i].consumer == s.replicas[i].consumer
  {
  }

  lemma {:induction false} DeliveredBefore(cfg: R.Config, states: seq<System>, steps: seq<Step>, m: nat, i: nat)
    returns (d: nat, n: nat)
    requires Behaviour(cfg, states, steps) && m < |states| && i < |states[m].replicas|
    requires states[m].replicas[i].consumer.Handling?
    ensures d < m && Delivered(states, steps, d, i, states[m].replicas[i].consumer.event, n)
    ensures AllAfter(states[m].replicas[i], n)
  {
    assert m > 0;
    var s, step := states[m - 1], steps[m - 1];
    BehaviourInv(cfg, states, steps, m - 1);
    assert states[m] == Apply(cfg, s, step);
    SameReplicas(cfg, s, step);
    HandlingStep(cfg, s, step, i);
    if s.replicas[i].consumer.Idle? {
      d, n := m - 1, |s.replicas[i].race.history|;
    } else {
      d, n := DeliveredBefore(cfg, states, steps, m - 1, i);
    }
  }

  /** A replica that handles an event after a step either began to with it or goes on. */
  lemma HandlingStep(cfg: R.Config, s: System, step: Step, i: nat)
    requires Inv(cfg, s) && (forall j :: 0 <= j < |s.replicas| ==> |s.replicas[j].race.segments| == cfg.shards)
    requires Enabled(cfg, s, step) && i < |s.replicas| == |Apply(cfg, s, step).replicas|
    requires Apply(cfg, s, step).replicas[i].consumer.Handling?
    ensures var r, r' := s.replicas[i], Apply(cfg, s, step).replicas[i];
            && (r.consumer.Idle? ==>
                  && step.AtReplica? && step.i == i && step.local.Deliver? && step.local.event == r'.consumer.event
                  && AllAfter(r', |r.race.history|))
            && (r.consumer.Handling? ==>
                  r'.consumer.event == r.consumer.event && forall n: nat :: AllAfter(r, n) ==> AllAfter(r', n))
  {
    if step.AtReplica? && step.i == i {
      assert ReplicaInv(cfg, s.db, s.purgeIds, s.replicas[i]);
      LocalHandlingStep(cfg, s.db.versions, s.replicas[i], step.local);
    } else {
      OtherReplicaStays(cfg, s, step, i);
    }
  }

  lemma LocalHandlingStep(cfg: R.Config, versions: Versions, r: Replica, step: ReplicaStep)
    requires R.Inv(cfg, r.race) && ReplicaEnabled(cfg, versions, r, step)
    requires ReplicaApply(cfg, versions, r, step).consumer.Handling?
    ensures var r' := ReplicaApply(cfg, versions, r, step);
            && (r.consumer.Idle? ==> step.Deliver? && step.event == r'.consumer.event && AllAfter(r', |r.race.history|))
            && (r.consumer.Handling? ==>
                  r'.consumer.event == r.consumer.event && forall n: nat :: AllAfter(r, n) ==> AllAfter(r', n))
  {
    if r.consumer.Idle? {
      HandlingBegins(cfg, versions, r, step);
    } else {
      SameEvent(cfg, versions, r, step);
      forall n: nat | AllAfter(r, n)
        ensures AllAfter(ReplicaApply(cfg, versions, r, step), n)
      {
        HandlingStays(cfg, versions, r, step, n);
      }
    }
  }

  lemma SameEvent(cfg: R.Config, versions: Versions, r: Replica, step: ReplicaStep)
    requires cfg.Ok() && |r.race.segments| == cfg.shards && ReplicaEnabled(cfg, versions, r, step)
    requires r.consumer.Handling? && ReplicaApply(cfg, versions, r, step).consumer.Handling?
    ensures ReplicaApply(cfg, versions, r, step).consumer.event == r.consumer.event
  {
  }

  lemma SameReplicas(cfg: R.Config, s: System, step: Step)
    requires cfg.Ok() && (forall j :: 0 <= j < |s.replicas| ==> |s.replicas[j].race.segments| == cfg.shards)
    requires Enabled(cfg, s, step)
    ensures |Apply(cfg, s, step).replicas| == |s.replicas|
  {
  }

  // ---- ... and it stays so until a restart ------------------------------------------

  ghost predicate NoRestart(steps: seq<Step>, i: nat, from: nat, to: nat)
    requires from <= to <= |steps|
  {
    forall j :: from <= j < to && steps[j].AtReplica? && steps[j].i == i ==> !steps[j].local.Restart?
  }

  predicate Keeps(race: R.State, race': R.State, p: R.PurgeId) {
    p in race.purges && p in race'.purges && race'.purges[p] == race.purges[p]
  }

  lemma FinishedStaysAtReplica(cfg: R.Config, versions: Versions, r: Replica, step: ReplicaStep, p: R.PurgeId)
    requires cfg.Ok() && |r.race.segments| == cfg.shards && ReplicaEnabled(cfg, versions, r, step) && !step.Restart?
    requires p in r.race.purges && R.Finished(cfg, r.race.purges[p])
    ensures Keeps(r.race, ReplicaApply(cfg, versions, r, step).race, p)
  {
    match step
    case Fetching(s) => R.FinishedStepStays(cfg, r.race, s, p);
    case StartTarget(q, now) =>
      R.FinishedStepStays(cfg, r.race, R.RecordPurge(q, Targets(r.consumer.event)[|r.consumer.done|], now), p);
    case Purging(s) => R.FinishedStepStays(cfg, r.race, s, p);
    case _ =>
  }

  lemma FinishedStaysInStep(cfg: R.Config, s: System, step: Step, i: nat, p: R.PurgeId)
    requires cfg.Ok() && (forall j :: 0 <= j < |s.replicas| ==> |s.replicas[j].race.segments| == cfg.shards)
    requires Enabled(cfg, s, step) && i < |s.replicas| && (step.AtReplica? && step.i == i ==> !step.local.Restart?)
    requires p in s.replicas[i].race.purges && R.Finished(cfg, s.replicas[i].race.purges[p])
    ensures |Apply(cfg, s, step).replicas| == |s.replicas|
    ensures Keeps(s.replicas[i].race, Apply(cfg, s, step).replicas[i].race, p)
  {
    SameReplicas(cfg, s, step);
    if step.AtReplica? && step.i == i {
      FinishedStaysAtReplica(cfg, s.db.versions, s.replicas[i], step.local, p);
    } else {
      OtherReplicaStays(cfg, s, step, i);
    }
  }

  lemma {:induction false} FinishedStaysFrom(cfg: R.Config, states: seq<System>, steps: seq<Step>, n: nat, m: nat,
                                             i: nat, p: R.PurgeId)
    requires Behaviour(cfg, states, steps) && n <= m < |states| && i < |states[n].replicas|
    requires NoRestart(steps, i, n, m)
    requires p in states[n].replicas[i].race.purges && R.Finished(cfg, states[n].replicas[i].race.purges[p])
    ensures i < |states[m].replicas| && Keeps(states[n].replicas[i].race, states[m].replicas[i].race, p)
    ensures states[m].db.versions.Keys == states[n].db.versions.Keys
  {
    if n < m {
      FinishedStaysFrom(cfg, states, steps, n, m - 1, i, p);
      var s, step := states[m - 1], steps[m - 1];
      assert states[m] == Apply(cfg, s, step);
      FinishedStaysInStep(cfg, s, step, i, p);
      BehaviourInv(cfg, states, steps, m - 1);
      if step.Database? {
        DbGrows(s.db, step.step);
      }
    }
  }

  /** The number of purges a cached entry's fetch knew of when it began. */
  function BegunAfter(race: R.State, x: Entry): nat
    requires x.item.key in race.origin && race.origin[x.item.key] in race.fetches
  {
    race.fetches[race.origin[x.item.key]].token.seqNo
  }

  /** What a finished purge of the target means for an entry cached now. */
  lemma PurgeHolds(cfg: R.Config, race: R.State, p: R.PurgeId, k: nat, x: Entry)
    requires R.Inv(cfg, race) && p in race.purges && R.Finished(cfg, race.purges[p])
    requires var target := race.purges[p].target;
             R.RecordedVersion(target) > 0 ==> T.NonDecreasing(race.history, R.RecordedTag(target))
    requires k < |race.segments| && x in race.segments[k] && R.Targeted(race.purges[p].target, x.item)
    ensures R.FromFetch(race.origin, race.fetches, x)
    ensures var purge := race.purges[p];
            || BegunAfter(race, x) >= purge.recorded
            || 0 < R.RecordedVersion(purge.target) < x.item.version
  {
    IsTrusted(cfg, race.history, race.purges[p]);
    R.FinishedLeavesNothing(cfg, race, p, k, x);
  }

  lemma IsTrusted(cfg: R.Config, h: T.History, purge: R.Purge)
    requires R.WellPurged(cfg, h, purge)
    requires R.RecordedVersion(purge.target) > 0 ==> T.NonDecreasing(h, R.RecordedTag(purge.target))
    ensures R.Trusted(h, purge)
  {
  }

  /** The purge of a handled event's target, with its place in the history. */
  lemma TargetWasPurged(cfg: R.Config, db: O.Db, ids: set<string>, r: Replica, n: nat, j: nat) returns (p: R.PurgeId)
    requires ReplicaInv(cfg, db, ids, r) && AllAfter(r, n) && r.consumer.Handling?
    requires j < |Targets(r.consumer.event)| == |r.consumer.done|
    ensures p in r.race.purges && R.Finished(cfg, r.race.purges[p]) && r.race.purges[p].recorded > n
    ensures r.race.purges[p].target == Targets(r.consumer.event)[j]
  {
    p := r.consumer.done[j];
    assert RecordedAfter(r.race, p, n);
  }

  lemma VersionedTargetIsBook(db: O.Db, ids: set<string>, e: Event, j: nat)
    requires O.RowsOk(db) && Known(db, ids, e) && j < |Targets(e)| && R.RecordedVersion(Targets(e)[j]) > 0
    ensures R.RecordedTag(Targets(e)[j]) in db.versions
  {
    VersionedIsOfBook(db, ids, e);
  }

  /** The target's purge, finished when the event was marked as handled, still holds. */
  lemma TargetStaysPurged(cfg: R.Config, states: seq<System>, steps: seq<Step>, n: nat, m: nat, i: nat, since: nat,
                          j: nat, k: nat, x: Entry)
    requires Behaviour(cfg, states, steps) && n < m < |states| && i < |states[n].replicas| && NoRestart(steps, i, n, m)
    requires AllAfter(states[n].replicas[i], since) && states[n].replicas[i].consumer.Handling?
    requires var c := states[n].replicas[i].consumer; j < |Targets(c.event)| == |c.done|
    requires i < |states[m].replicas| && k < |states[m].replicas[i].race.segments|
    requires x in states[m].replicas[i].race.segments[k]
    requires R.Targeted(Targets(states[n].replicas[i].consumer.event)[j], x.item)
    ensures var race, target := states[m].replicas[i].race, Targets(states[n].replicas[i].consumer.event)[j];
            && R.FromFetch(race.origin, race.fetches, x)
            && (BegunAfter(race, x) > since || 0 < R.RecordedVersion(target) < x.item.version)
  {
    BehaviourInv(cfg, states, steps, n);
    BehaviourInv(cfg, states, steps, m);
    var s, s' := states[n], states[m];
    var r := s.replicas[i];
    assert ReplicaInv(cfg, s.db, s.purgeIds, r) && ReplicaInv(cfg, s'.db, s'.purgeIds, s'.replicas[i]);
    var p := TargetWasPurged(cfg, s.db, s.purgeIds, r, since, j);
    FinishedStaysFrom(cfg, states, steps, n, m, i, p);
    if R.RecordedVersion(Targets(r.consumer.event)[j]) > 0 {
      VersionedTargetIsBook(s.db, s.purgeIds, r.consumer.event, j);
    }
    PurgeHolds(cfg, s'.replicas[i].race, p, k, x);
  }

  /** What handling an event is for, in the whole system and for events of every kind.  In any later state
      before the replica's next restart, a cached entry that the event names by tag or key comes from a
      fetch that took its token after the event was delivered, or the event names it only by tag and the
      entry is newer than it. */
  lemma HandledStaysPurged(cfg: R.Config, states: seq<System>, steps: seq<Step>, n: nat, m: nat, i: nat, k: nat,
                           x: Entry)
    returns (d: nat, since: nat)
    requires Behaviour(cfg, states, steps) && n < m < |states| && i < |states[n].replicas| && NoRestart(steps, i, n, m)
    requires steps[n].AtReplica? && steps[n].i == i && steps[n].local.MarkProcessed?
    requires i < |states[m].replicas| && k < |states[m].replicas[i].race.segments|
    requires x in states[m].replicas[i].race.segments[k]
    ensures states[n].replicas[i].consumer.Handling?
    ensures var e := states[n].replicas[i].consumer.event;
            && d < n && Delivered(states, steps, d, i, e, since)
            && (x.item.key in e.keys || (exists t :: t in e.tags && t in x.item.tags) ==>
                  var race := states[m].replicas[i].race;
                  && R.FromFetch(race.origin, race.fetches, x)
                  && (BegunAfter(race, x) > since || (x.item.key !in e.keys && 0 < e.version < x.item.version)))
  {
    assert ReplicaEnabled(cfg, states[n].db.versions, states[n].replicas[i], steps[n].local);
    var e := states[n].replicas[i].consumer.event;
    d, since := DeliveredBefore(cfg, states, steps, n, i);
    if x.item.key in e.keys {
      var j :| 0 <= j < |e.keys| && e.keys[j] == x.item.key;
      TargetAt(e, j);
      TargetStaysPurged(cfg, states, steps, n, m, i, since, |e.tags| + j, k, x);
    } else if t :| t in e.tags && t in x.item.tags {
      var j :| 0 <= j < |e.tags| && e.tags[j] == t;
      TargetAt(e, j);
      TargetStaysPurged(cfg, states, steps, n, m, i, since, j, k, x);
    }
  }
}
