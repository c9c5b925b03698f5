/** From every reachable state outbox and queues can be drained, and then nothing stale is cached. */
module Progress {
  import opened Events
  import opened Dedup
  import opened Lru
  import opened Coherence
  import A = Admission
  import D = Delivery
  import opened Paths
  import O = Outbox
  import R = Race

  // ---- One replica's consumer -------------------------------------------------------

  /** Steps of the consumer alone: no fetch, no restart. */
  predicate OfConsumer(step: ReplicaStep) {
    step.Deliver? || step.StartTarget? || step.Purging? || step.FinishTarget? || step.MarkProcessed?
  }

  ghost function Consuming(cfg: R.Config, versions: Versions): (Replica, ReplicaStep, Replica) -> bool
    requires cfg.Ok()
  {
    (r: Replica, step: ReplicaStep, r': Replica) =>
      && |r.race.segments| == cfg.shards && ReplicaEnabled(cfg, versions, r, step) && OfConsumer(step)
      && r' == ReplicaApply(cfg, versions, r, step)
  }

  /** These steps of the consumer lead from `r` to `r'`. */
  ghost predicate Works(cfg: R.Config, versions: Versions, r: Replica, steps: seq<ReplicaStep>, r': Replica)
    requires cfg.Ok()
  {
    Path(Consuming(cfg, versions), r, steps, r')
  }

  lemma WorksOn(cfg: R.Config, versions: Versions, r: Replica, before: seq<ReplicaStep>, mid: Replica,
                after: seq<ReplicaStep>, r': Replica)
    requires cfg.Ok() && Works(cfg, versions, r, before, mid) && Works(cfg, versions, mid, after, r')
    ensures Works(cfg, versions, r, before + after, r')
  {
    PathOn(Consuming(cfg, versions), r, before, mid, after, r');
  }

  lemma WorksOneStep(cfg: R.Config, versions: Versions, r: Replica, step: ReplicaStep)
    requires cfg.Ok() && |r.race.segments| == cfg.shards && ReplicaEnabled(cfg, versions, r, step) && OfConsumer(step)
    ensures Works(cfg, versions, r, [step], ReplicaApply(cfg, versions, r, step))
  {
    PathOne(Consuming(cfg, versions), r, step, ReplicaApply(cfg, versions, r, step));
  }

  // ---- A purge can be finished ------------------------------------------------------

  lemma {:induction false} Sequence(keys: set<string>) returns (s: seq<string>)
    ensures forall k :: k in s <==> k in keys
    decreases |keys|
  {
    if keys == {} {
      return [];
    }
    var key :| key in keys;
    var rest := Sequence(keys - {key});
    s := [key] + rest;
  }

  /** The next step of an unfinished purge. */
  lemma NextStep(cfg: R.Config, s: R.State, p: R.PurgeId) returns (step: R.Step)
    requires R.Inv(cfg, s) && p in s.purges && !R.Finished(cfg, s.purges[p])
    ensures StepOf(step, p) && R.Enabled(cfg, s, step)
    ensures var purge, s' := s.purges[p], R.Apply(cfg, s, step);
            && p in s'.purges && s'.purges[p].listed <= cfg.shards
            && (|| s'.purges[p].listed == purge.listed + 1
                || (s'.purges[p].listed == purge.listed == cfg.shards && |s'.purges[p].pending| == |purge.pending| - 1)
                || (&& s'.purges[p].listed == purge.listed == cfg.shards && |s'.purges[p].pending| == |purge.pending|
                    && s'.purges[p].deleting && !purge.deleting))
  {
    var purge := s.purges[p];
    assert R.WellPurged(cfg, s.history, purge);
    if purge.listed < cfg.shards {
      var keys := Sequence(TaggedKeys(s.segments[purge.listed], purge.target.tag));
      assert (set k | k in keys) == TaggedKeys(s.segments[purge.listed], purge.target.tag);
      step := R.List(p, keys);
    } else if purge.deleting {
      step := R.Delete(p);
    } else {
      step := R.LookUp(p, s.clock);
    }
  }

  predicate AtWork(r: Replica) {
    r.consumer.Handling? && r.consumer.current.Some?
  }

  /** The consumer finishes the purge it is at. */
  lemma {:induction false} FinishPurge(cfg: R.Config, db: O.Db, ids: set<string>, r: Replica)
    returns (steps: seq<ReplicaStep>, r': Replica)
    requires DbOk(db, ids) && ReplicaInv(cfg, db, ids, r) && AtWork(r)
    ensures Works(cfg, db.versions, r, steps, r') && ReplicaInv(cfg, db, ids, r')
    ensures r'.queue == r.queue && r'.consumer == r.consumer
    ensures r.consumer.current.value in r'.race.purges
    ensures R.Finished(cfg, r'.race.purges[r.consumer.current.value])
    decreases cfg.shards - r.race.purges[r.consumer.current.value].listed,
              |r.race.purges[r.consumer.current.value].pending|,
              if r.race.purges[r.consumer.current.value].deleting then 0 else 1
  {
    var p := r.consumer.current.value;
    if R.Finished(cfg, r.race.purges[p]) {
      return [], r;
    }
    var s := NextStep(cfg, r.race, p);
    var step := Purging(s);
    ReplicaStepInv(cfg, db, ids, r, step);
    WorksOneStep(cfg, db.versions, r, step);
    var mid := ReplicaApply(cfg, db.versions, r, step);
    var rest, last := FinishPurge(cfg, db, ids, mid);
    WorksOn(cfg, db.versions, r, [step], mid, rest, last);
    return [step] + rest, last;
  }

  // ---- An event can be handled ------------------------------------------------------

  lemma FreshPurge(purges: map<R.PurgeId, R.Purge>) returns (p: R.PurgeId)
    ensures p !in purges
  {
    p := D.Unused(purges.Keys);
  }

  lemma CanStart(cfg: R.Config, db: O.Db, ids: set<string>, r: Replica, p: R.PurgeId)
    requires R.Inv(cfg, r.race) && ConsumerOk(cfg, db, ids, r.race, r.mem, r.consumer) && p !in r.race.purges
    requires r.consumer.Handling? && r.consumer.current.None? && |r.consumer.done| < |Targets(r.consumer.event)|
    ensures ReplicaEnabled(cfg, db.versions, r, StartTarget(p, r.race.clock))
  {
    var target := Targets(r.consumer.event)[|r.consumer.done|];
    assert target.TagTarget? ==> target.tag in r.consumer.event.tags;
  }

  /** The consumer starts and finishes the next purge of its event. */
  lemma NextTarget(cfg: R.Config, db: O.Db, ids: set<string>, r: Replica)
    returns (steps: seq<ReplicaStep>, r': Replica)
    requires DbOk(db, ids) && ReplicaInv(cfg, db, ids, r)
    requires r.consumer.Handling? && r.consumer.current.None? && |r.consumer.done| < |Targets(r.consumer.event)|
    ensures Works(cfg, db.versions, r, steps, r') && ReplicaInv(cfg, db, ids, r') && r'.queue == r.queue && AtWork(r')
    ensures r'.consumer.event == r.consumer.event && r'.consumer.done == r.consumer.done
    ensures r'.consumer.current.value in r'.race.purges
    ensures R.Finished(cfg, r'.race.purges[r'.consumer.current.value])
  {
    var p := FreshPurge(r.race.purges);
    var step := StartTarget(p, r.race.clock);
    CanStart(cfg, db, ids, r, p);
    ReplicaStepInv(cfg, db, ids, r, step);
    WorksOneStep(cfg, db.versions, r, step);
    var mid := ReplicaApply(cfg, db.versions, r, step);
    var rest, last := FinishPurge(cfg, db, ids, mid);
    WorksOn(cfg, db.versions, r, [step], mid, rest, last);
    return [step] + rest, last;
  }

  /** A finished purge is booked. */
  lemma BookPurge(cfg: R.Config, db: O.Db, ids: set<string>, r: Replica) returns (r': Replica)
    requires DbOk(db, ids) && ReplicaInv(cfg, db, ids, r) && AtWork(r)
    requires r.consumer.current.value in r.race.purges && R.Finished(cfg, r.race.purges[r.consumer.current.value])
    ensures Works(cfg, db.versions, r, [FinishTarget], r') && ReplicaInv(cfg, db, ids, r') && r'.queue == r.queue
    ensures r'.consumer == Handling(r.consumer.event, r.consumer.done + [r.consumer.current.value], A.None)
  {
    ReplicaStepInv(cfg, db, ids, r, FinishTarget);
    WorksOneStep(cfg, db.versions, r, FinishTarget);
    r' := ReplicaApply(cfg, db.versions, r, FinishTarget);
  }

  /** All purges of the event that are left. */
  lemma {:induction false} FinishTargets(cfg: R.Config, db: O.Db, ids: set<string>, r: Replica)
    returns (steps: seq<ReplicaStep>, r': Replica)
    requires DbOk(db, ids) && ReplicaInv(cfg, db, ids, r) && r.consumer.Handling?
    ensures Works(cfg, db.versions, r, steps, r') && ReplicaInv(cfg, db, ids, r') && r'.queue == r.queue
    ensures r'.consumer.Handling? && r'.consumer.event == r.consumer.event && r'.consumer.current.None?
    ensures |r'.consumer.done| == |Targets(r.consumer.event)|
    decreases |Targets(r.consumer.event)| - |r.consumer.done|
  {
    if r.consumer.current.None? && |r.consumer.done| == |Targets(r.consumer.event)| {
      return [], r;
    }
    var working, mid;
    if r.consumer.current.None? {
      working, mid := NextTarget(cfg, db, ids, r);
    } else {
      working, mid := FinishPurge(cfg, db, ids, r);
    }
    var booked := BookPurge(cfg, db, ids, mid);
    WorksOn(cfg, db.versions, r, working, mid, [FinishTarget], booked);
    var rest, last := FinishTargets(cfg, db, ids, booked);
    WorksOn(cfg, db.versions, r, working + [FinishTarget], booked, rest, last);
    return working + [FinishTarget] + rest, last;
  }

  /** The event at hand is handled to the end and acknowledged. */
  lemma FinishEvent(cfg: R.Config, db: O.Db, ids: set<string>, r: Replica)
    returns (steps: seq<ReplicaStep>, r': Replica)
    requires DbOk(db, ids) && ReplicaInv(cfg, db, ids, r) && r.consumer.Handling?
    ensures Works(cfg, db.versions, r, steps, r') && ReplicaInv(cfg, db, ids, r')
    ensures r'.consumer.Idle? && r'.queue == r.queue - multiset{r.consumer.event}
  {
    var working, mid := FinishTargets(cfg, db, ids, r);
    var step := MarkProcessed(true, true);
    assert ReplicaEnabled(cfg, db.versions, mid, step);
    ReplicaStepInv(cfg, db, ids, mid, step);
    WorksOneStep(cfg, db.versions, mid, step);
    r' := ReplicaApply(cfg, db.versions, mid, step);
    WorksOn(cfg, db.versions, r, working, mid, [step], r');
    steps := working + [step];
  }

  /** One event of the queue is delivered, handled unless it is known, and acknowledged. */
  lemma TakeOne(cfg: R.Config, db: O.Db, ids: set<string>, r: Replica, e: Event)
    returns (steps: seq<ReplicaStep>, r': Replica)
    requires DbOk(db, ids) && ReplicaInv(cfg, db, ids, r) && r.consumer.Idle? && e in r.queue
    ensures Works(cfg, db.versions, r, steps, r') && ReplicaInv(cfg, db, ids, r')
    ensures r'.consumer.Idle? && r'.queue == r.queue - multiset{e}
  {
    var step := Deliver(e, AlreadyApplied(r.mem, e));
    assert ReplicaEnabled(cfg, db.versions, r, step);
    ReplicaStepInv(cfg, db, ids, r, step);
    WorksOneStep(cfg, db.versions, r, step);
    var mid := ReplicaApply(cfg, db.versions, r, step);
    if AlreadyApplied(r.mem, e) {
      return [step], mid;
    }
    var rest, last := FinishEvent(cfg, db, ids, mid);
    WorksOn(cfg, db.versions, r, [step], mid, rest, last);
    return [step] + rest, last;
  }

  lemma {:induction false} DrainIdle(cfg: R.Config, db: O.Db, ids: set<string>, r: Replica)
    returns (steps: seq<ReplicaStep>, r': Replica)
    requires DbOk(db, ids) && ReplicaInv(cfg, db, ids, r) && r.consumer.Idle?
    ensures Works(cfg, db.versions, r, steps, r') && ReplicaInv(cfg, db, ids, r') && r'.queue == multiset{}
    decreases |r.queue|
  {
    if r.queue == multiset{} {
      return [], r;
    }
    var e :| e in r.queue;
    var first, mid := TakeOne(cfg, db, ids, r, e);
    assert |mid.queue| == |r.queue| - 1;
    var rest, last := DrainIdle(cfg, db, ids, mid);
    WorksOn(cfg, db.versions, r, first, mid, rest, last);
    return first + rest, last;
  }

  /** A replica's queue can be drained by its consumer. */
  lemma QueueCanBeDrained(cfg: R.Config, db: O.Db, ids: set<string>, r: Replica)
    returns (steps: seq<ReplicaStep>, r': Replica)
    requires DbOk(db, ids) && ReplicaInv(cfg, db, ids, r)
    ensures Works(cfg, db.versions, r, steps, r') && ReplicaInv(cfg, db, ids, r') && r'.queue == multiset{}
  {
    if r.consumer.Idle? {
      steps, r' := DrainIdle(cfg, db, ids, r);
    } else {
      var first, mid := FinishEvent(cfg, db, ids, r);
      var rest, last := DrainIdle(cfg, db, ids, mid);
      WorksOn(cfg, db.versions, r, first, mid, rest, last);
      steps, r' := first + rest, last;
    }
  }

  // ---- The whole system -------------------------------------------------------------

  /** Steps of relays and consumers: no update, no purge request, no fetch, no restart. */
  predicate OfProgress(step: Step) {
    match step
    case Database(dbStep, _) => O.OfRelay(dbStep)
    case PurgeRequest(_, _, _) => false
    case AtReplica(_, local) => OfConsumer(local)
  }

  ghost predicate Sharded(cfg: R.Config, s: System) {
    forall i :: 0 <= i < |s.replicas| ==> |s.replicas[i].race.segments| == cfg.shards
  }

  lemma InvIsSharded(cfg: R.Config, s: System)
    requires Inv(cfg, s)
    ensures Sharded(cfg, s)
  {
    forall i | 0 <= i < |s.replicas|
      ensures |s.replicas[i].race.segments| == cfg.shards
    {
      assert ReplicaInv(cfg, s.db, s.purgeIds, s.replicas[i]);
    }
  }

  ghost function Progressing(cfg: R.Config): (System, Step, System) -> bool
    requires cfg.Ok()
  {
    (s: System, step: Step, s': System) =>
      Sharded(cfg, s) && Enabled(cfg, s, step) && OfProgress(step) && s' == Apply(cfg, s, step)
  }

  /** These steps of relays and consumers lead from `s` to `s'`. */
  ghost predicate Reaches(cfg: R.Config, s: System, steps: seq<Step>, s': System)
    requires cfg.Ok()
  {
    Path(Progressing(cfg), s, steps, s')
  }

  lemma ReachesOn(cfg: R.Config, s: System, before: seq<Step>, mid: System, after: seq<Step>, s': System)
    requires cfg.Ok() && Reaches(cfg, s, before, mid) && Reaches(cfg, mid, after, s')
    ensures Reaches(cfg, s, before + after, s')
  {
    PathOn(Progressing(cfg), s, before, mid, after, s');
  }

  lemma ReachesFirst(cfg: R.Config, s: System, step: Step, after: seq<Step>, s': System)
    requires cfg.Ok() && Sharded(cfg, s) && Enabled(cfg, s, step) && OfProgress(step)
    requires Reaches(cfg, Apply(cfg, s, step), after, s')
    ensures Reaches(cfg, s, [step] + after, s')
  {
    PathFirst(Progressing(cfg), s, step, Apply(cfg, s, step), after, s');
  }

  /** Steps of relays in the database are steps of the system. */
  lemma {:induction false} RelaysInSystem(cfg: R.Config, s: System, dbSteps: seq<O.Step>, db': O.Db)
    returns (steps: seq<Step>, s': System)
    requires Inv(cfg, s) && D.Leads(s.db, dbSteps, db')
    ensures Reaches(cfg, s, steps, s') && Inv(cfg, s') && s'.db == db' && |s'.replicas| == |s.replicas|
    decreases |dbSteps|
  {
    InvIsSharded(cfg, s);
    if dbSteps == [] {
      return [], s;
    }
    var next :| D.Relaying()(s.db, dbSteps[0], next) && D.Leads(next, dbSteps[1..], db');
    var step := Database(dbSteps[0], {});
    StepInv(cfg, s, step);
    var mid := Apply(cfg, s, step);
    var rest, last := RelaysInSystem(cfg, mid, dbSteps[1..], db');
    ReachesFirst(cfg, s, step, rest, last);
    return [step] + rest, last;
  }

  lemma OneReplicaMoves(cfg: R.Config, s: System, i: nat, local: ReplicaStep, r': Replica)
    requires cfg.Ok() && Sharded(cfg, s) && Enabled(cfg, s, AtReplica(i, local))
    ensures var mid := Apply(cfg, s, AtReplica(i, local));
            && mid.db == s.db && |mid.replicas| == |s.replicas|
            && mid.replicas[i] == ReplicaApply(cfg, s.db.versions, s.replicas[i], local)
            && mid.(replicas := mid.replicas[i := r']) == s.(replicas := s.replicas[i := r'])
  {
    var mid := Apply(cfg, s, AtReplica(i, local));
    assert mid.replicas[i := r'] == s.replicas[i := r'];
  }

  /** Steps of one replica's consumer are steps of the system and touch nothing else. */
  lemma {:induction false} ConsumerInSystem(cfg: R.Config, s: System, i: nat, local: seq<ReplicaStep>, r': Replica)
    returns (steps: seq<Step>, s': System)
    requires Inv(cfg, s) && i < |s.replicas| && Works(cfg, s.db.versions, s.replicas[i], local, r')
    ensures Reaches(cfg, s, steps, s') && Inv(cfg, s') && s' == s.(replicas := s.replicas[i := r'])
    decreases |local|
  {
    InvIsSharded(cfg, s);
    if local == [] {
      assert s.replicas[i := r'] == s.replicas;
      return [], s;
    }
    var next :|
      Consuming(cfg, s.db.versions)(s.replicas[i], local[0], next) && Works(cfg, s.db.versions, next, local[1..], r');
    var step := AtReplica(i, local[0]);
    StepInv(cfg, s, step);
    var mid := Apply(cfg, s, step);
    OneReplicaMoves(cfg, s, i, local[0], r');
    var rest, last := ConsumerInSystem(cfg, mid, i, local[1..], r');
    ReachesFirst(cfg, s, step, rest, last);
    return [step] + rest, last;
  }

  lemma DrainReplica(cfg: R.Config, s: System, i: nat) returns (steps: seq<Step>, s': System)
    requires Inv(cfg, s) && i < |s.replicas|
    ensures Reaches(cfg, s, steps, s') && Inv(cfg, s') && s'.db == s.db && |s'.replicas| == |s.replicas|
    ensures s'.replicas[i].queue == multiset{}
    ensures forall j :: 0 <= j < |s.replicas| && j != i ==> s'.replicas[j] == s.replicas[j]
  {
    assert ReplicaInv(cfg, s.db, s.purgeIds, s.replicas[i]);
    var local, r' := QueueCanBeDrained(cfg, s.db, s.purgeIds, s.replicas[i]);
    steps, s' := ConsumerInSystem(cfg, s, i, local, r');
  }

  lemma {:induction false} DrainReplicas(cfg: R.Config, s: System, n: nat) returns (steps: seq<Step>, s': System)
    requires Inv(cfg, s) && n <= |s.replicas|
    ensures Reaches(cfg, s, steps, s') && Inv(cfg, s') && s'.db == s.db && |s'.replicas| == |s.replicas|
    ensures forall i :: 0 <= i < n ==> s'.replicas[i].queue == multiset{}
  {
    if n == 0 {
      return [], s;
    }
    var first, mid := DrainReplicas(cfg, s, n - 1);
    var rest, last := DrainReplica(cfg, mid, n - 1);
    ReachesOn(cfg, s, first, mid, rest, last);
    return first + rest, last;
  }

  /** From every state the system can reach, relays and consumers alone can drain the outbox and all
      queues, without an update, a restart or a fetch. */
  lemma DrainedIsReachable(cfg: R.Config, s: System) returns (steps: seq<Step>, s': System)
    requires Inv(cfg, s)
    ensures Reaches(cfg, s, steps, s') && Inv(cfg, s')
    ensures s'.db.rows == map[] && s'.db.versions == s.db.versions && |s'.replicas| == |s.replicas|
    ensures forall i :: 0 <= i < |s'.replicas| ==> s'.replicas[i].queue == multiset{}
  {
    var dbSteps, db' := D.OutboxCanBeDrained(s.db);
    var first, mid := RelaysInSystem(cfg, s, dbSteps, db');
    var rest, last := DrainReplicas(cfg, mid, |mid.replicas|);
    ReachesOn(cfg, s, first, mid, rest, last);
    return first + rest, last;
  }

  /** Everything the replica caches under a book was read at these versions. */
  ghost predicate Current(versions: Versions, r: Replica) {
    forall k, e, b :: 0 <= k < |r.race.segments| && e in r.race.segments[k] && b in e.item.tags && b in versions ==>
      && e.item.key in r.race.origin && r.race.origin[e.item.key] in r.readings
      && b in SeenBy(r, e) && SeenBy(r, e)[b] == versions[b] && (e.item.version > 0 ==> e.item.version == versions[b])
  }

  lemma DrainedIsCurrent(cfg: R.Config, db: O.Db, ids: set<string>, r: Replica)
    requires DbOk(db, ids) && ReplicaInv(cfg, db, ids, r) && db.rows == map[] && r.queue == multiset{}
    ensures Current(db.versions, r)
  {
    forall k, e, b | 0 <= k < |r.race.segments| && e in r.race.segments[k] && b in e.item.tags && b in db.versions
      ensures e.item.key in r.race.origin && r.race.origin[e.item.key] in r.readings
      ensures b in SeenBy(r, e) && SeenBy(r, e)[b] == db.versions[b]
      ensures e.item.version > 0 ==> e.item.version == db.versions[b]
    {
      StaleEntryIsPending(cfg, db, ids, r, k, e, b);
    }
  }

  /** Coherence is always within reach: whatever has happened in a run, after some steps of relays and
      consumers every replica caches only responses read at the versions the database has. */
  lemma CoherenceIsReachable(cfg: R.Config, states: seq<System>, steps: seq<Step>, n: nat)
    returns (more: seq<Step>, s': System)
    requires Behaviour(cfg, states, steps) && n < |states|
    ensures cfg.Ok() && Reaches(cfg, states[n], more, s') && s'.db.versions == states[n].db.versions
    ensures s'.db.rows == map[] && |s'.replicas| == |states[n].replicas|
    ensures forall i :: 0 <= i < |s'.replicas| ==>
              s'.replicas[i].queue == multiset{} && Current(states[n].db.versions, s'.replicas[i])
  {
    BehaviourInv(cfg, states, steps, n);
    more, s' := DrainedIsReachable(cfg, states[n]);
    forall i | 0 <= i < |s'.replicas|
      ensures Current(s'.db.versions, s'.replicas[i])
    {
      assert ReplicaInv(cfg, s'.db, s'.purgeIds, s'.replicas[i]);
      DrainedIsCurrent(cfg, s'.db, s'.purgeIds, s'.replicas[i]);
    }
  }
}
