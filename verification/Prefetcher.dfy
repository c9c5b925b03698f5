/**
  The prefetch queue: enqueuers, a bounded job channel and workers, before the service is stopped.

  Every access under the mutex, every channel operation and every counter is a step of its own.
*/
module Prefetcher {

  type EnqueuerId = nat
  type WorkerId = nat

  datatype Outcome = Executed | Failed | Canceled

  /** An enqueuer holds its key from the moment it is in `queued` until the send succeeds or the
      rejection took it out again; between the send and the counter it holds nothing. */
  datatype Enqueuer = Reserved(key: string) | Sent | Rejected(key: string)

  /** A worker with a job: before the fetch, waiting for another worker's fetch of the same key,
      fetching, after the fetch with the flight still open, with it closed, and after counting. */
  datatype Worker =
    | Idle
    | Took(key: string)
    | Joined(key: string)
    | Fetching(key: string)
    | Returned(key: string, outcome: Outcome)
    | Landed(key: string, outcome: Outcome)
    | Counted(key: string)
  {
    /** The job is not counted yet. */
    predicate Uncounted() {
      !Idle? && !Counted?
    }
  }

  datatype Stats = Stats(enqueued: nat, dropped: nat, executed: nat, failed: nat, canceled: nat)

  /** Who holds a key of `queued`; this is history, not a field of the service. */
  datatype Holder = ByEnqueuer(e: EnqueuerId) | InQueue | ByWorker(w: WorkerId)

  datatype State = State(
    capacity: nat,
    jobs: seq<string>,
    queued: set<string>,
    inflight: map<string, WorkerId>,
    enqueuers: map<EnqueuerId, Enqueuer>,
    workers: map<WorkerId, Worker>,
    stats: Stats,
    holder: map<string, Holder>)

  datatype Step =
    | Reserve(e: EnqueuerId, key: string)
    | Send(e: EnqueuerId)
    | CountEnqueued(e: EnqueuerId)
    | Reject(e: EnqueuerId)
    | Withdraw(e: EnqueuerId)
    | Take(w: WorkerId)
    | Enter(w: WorkerId)
    | Wake(w: WorkerId, outcome: Outcome)
    | FetchEnds(w: WorkerId, outcome: Outcome)
    | Leave(w: WorkerId)
    | Count(w: WorkerId)
    | Release(w: WorkerId)

  /** Rejection: the queue is full, or the context is done, which may happen at any time. */
  predicate Enabled(s: State, step: Step) {
    match step
    case Reserve(e, key) => e !in s.enqueuers && key != "" && key !in s.queued
    case Send(e) => e in s.enqueuers && s.enqueuers[e].Reserved? && |s.jobs| < s.capacity
    case CountEnqueued(e) => e in s.enqueuers && s.enqueuers[e].Sent?
    case Reject(e) => e in s.enqueuers && s.enqueuers[e].Reserved?
    case Withdraw(e) => e in s.enqueuers && s.enqueuers[e].Rejected?
    case Take(w) => w in s.workers && s.workers[w].Idle? && s.jobs != []
    case Enter(w) => w in s.workers && s.workers[w].Took?
    case Wake(w, _) =>
      && w in s.workers && s.workers[w].Joined?
      && (s.workers[w].key in s.inflight ==>
            s.inflight[s.workers[w].key] in s.workers && s.workers[s.inflight[s.workers[w].key]].Returned?)
    case FetchEnds(w, _) => w in s.workers && s.workers[w].Fetching?
    case Leave(w) => w in s.workers && s.workers[w].Returned?
    case Count(w) => w in s.workers && s.workers[w].Landed?
    case Release(w) => w in s.workers && s.workers[w].Counted?
  }

  function Tallied(stats: Stats, outcome: Outcome): Stats {
    match outcome
    case Executed => stats.(executed := stats.executed + 1)
    case Failed => stats.(failed := stats.failed + 1)
    case Canceled => stats.(canceled := stats.canceled + 1)
  }

  function Apply(s: State, step: Step): State
    requires Enabled(s, step)
  {
    match step
    case Reserve(e, key) =>
      s.(queued := s.queued + {key}, enqueuers := s.enqueuers[e := Reserved(key)],
         holder := s.holder[key := ByEnqueuer(e)])
    case Send(e) =>
      var key := s.enqueuers[e].key;
      s.(jobs := s.jobs + [key], enqueuers := s.enqueuers[e := Sent], holder := s.holder[key := InQueue])
    case CountEnqueued(e) =>
      s.(enqueuers := s.enqueuers - {e}, stats := s.stats.(enqueued := s.stats.enqueued + 1))
    case Reject(e) => s.(enqueuers := s.enqueuers[e := Rejected(s.enqueuers[e].key)])
    case Withdraw(e) =>
      var key := s.enqueuers[e].key;
      s.(queued := s.queued - {key}, enqueuers := s.enqueuers - {e}, holder := s.holder - {key},
         stats := s.stats.(dropped := s.stats.dropped + 1))
    case Take(w) =>
      s.(jobs := s.jobs[1..], workers := s.workers[w := Took(s.jobs[0])], holder := s.holder[s.jobs[0] := ByWorker(w)])
    case Enter(w) =>
      var key := s.workers[w].key;
      if key in s.inflight then s.(workers := s.workers[w := Joined(key)])
      else s.(workers := s.workers[w := Fetching(key)], inflight := s.inflight[key := w])
    case Wake(w, outcome) => s.(workers := s.workers[w := Landed(s.workers[w].key, outcome)])
    case FetchEnds(w, outcome) => s.(workers := s.workers[w := Returned(s.workers[w].key, outcome)])
    case Leave(w) =>
      s.(workers := s.workers[w := Landed(s.workers[w].key, s.workers[w].outcome)],
         inflight := s.inflight - {s.workers[w].key})
    case Count(w) =>
      s.(workers := s.workers[w := Counted(s.workers[w].key)], stats := Tallied(s.stats, s.workers[w].outcome))
    case Release(w) =>
      var key := s.workers[w].key;
      s.(workers := s.workers[w := Idle], queued := s.queued - {key}, holder := s.holder - {key})
  }

  ghost predicate Initial(s: State) {
    && s.capacity >= 1 && s.jobs == [] && s.queued == {} && s.inflight == map[] && s.enqueuers == map[] &&
       s.holder == map[]
    && (forall w :: w in s.workers ==> s.workers[w].Idle?)
    && s.stats == Stats(0, 0, 0, 0, 0)
  }

  // ---- Who holds a key --------------------------------------------------------------

  predicate Holds(holder: map<string, Holder>, key: string, h: Holder) {
    key in holder && holder[key] == h
  }

  predicate ThreadsHold(s: State) {
    && s.holder.Keys == s.queued
    && (forall e :: e in s.enqueuers && !s.enqueuers[e].Sent? ==> Holds(s.holder, s.enqueuers[e].key, ByEnqueuer(e)))
    && (forall w :: w in s.workers && !s.workers[w].Idle? ==> Holds(s.holder, s.workers[w].key, ByWorker(w)))
  }

  predicate JobsHeld(s: State) {
    && (forall i :: 0 <= i < |s.jobs| ==> Holds(s.holder, s.jobs[i], InQueue))
    && (forall i, j :: 0 <= i < j < |s.jobs| ==> s.jobs[i] != s.jobs[j])
  }

  predicate HoldersOk(s: State) {
    ThreadsHold(s) && JobsHeld(s)
  }

  predicate HolderIsReal(s: State, key: string)
    requires key in s.holder
  {
    match s.holder[key]
    case ByEnqueuer(e) => e in s.enqueuers && !s.enqueuers[e].Sent? && s.enqueuers[e].key == key
    case ByWorker(w) => w in s.workers && !s.workers[w].Idle? && s.workers[w].key == key
    case InQueue => key in s.jobs
  }

  predicate AllReal(s: State) {
    forall key :: key in s.holder ==> HolderIsReal(s, key)
  }

  /** The open flights are those of the fetching and just returned workers; nobody ever joins one. */
  predicate FlightsOk(s: State) {
    && (forall w :: w in s.workers ==> !s.workers[w].Joined?)
    && (forall w :: w in s.workers && (s.workers[w].Fetching? || s.workers[w].Returned?) ==>
          s.workers[w].key in s.inflight && s.inflight[s.workers[w].key] == w)
    && (forall key :: key in s.inflight ==>
          && s.inflight[key] in s.workers
          && var x := s.workers[s.inflight[key]]; (x.Fetching? || x.Returned?) && x.key == key)
  }

  // ---- Counting ---------------------------------------------------------------------

  function Uncounted(workers: map<WorkerId, Worker>): set<WorkerId> {
    set w | w in workers && workers[w].Uncounted()
  }

  function Unrecorded(enqueuers: map<EnqueuerId, Enqueuer>): set<EnqueuerId> {
    set e | e in enqueuers && enqueuers[e].Sent?
  }

  /** Every job sent is waiting, with a worker, or counted by its outcome. */
  predicate Accounted(s: State) {
    s.stats.enqueued + |Unrecorded(s.enqueuers)| ==
      s.stats.executed + s.stats.failed + s.stats.canceled + |s.jobs| + |Uncounted(s.workers)|
  }

  predicate Inv(s: State) {
    HoldersOk(s) && AllReal(s) && FlightsOk(s) && Accounted(s) && |s.jobs| <= s.capacity
  }

  lemma WorkerChanges(workers: map<WorkerId, Worker>, w: WorkerId, after: Worker)
    requires w in workers
    ensures |Uncounted(workers[w := after])| ==
              |Uncounted(workers)| - (if workers[w].Uncounted() then 1 else 0) + (if after.Uncounted() then 1 else 0)
  {
    var rest := Uncounted(workers) - {w};
    assert Uncounted(workers[w := after]) == rest + (if after.Uncounted() then {w} else {});
    assert Uncounted(workers) == rest + (if workers[w].Uncounted() then {w} else {});
  }

  lemma EnqueuerChanges(enqueuers: map<EnqueuerId, Enqueuer>, e: EnqueuerId, after: Enqueuer)
    requires e in enqueuers ==> !enqueuers[e].Sent?
    ensures |Unrecorded(enqueuers[e := after])| == |Unrecorded(enqueuers)| + (if after.Sent? then 1 else 0)
  {
    assert Unrecorded(enqueuers[e := after]) == Unrecorded(enqueuers) + (if after.Sent? then {e} else {});
  }

  lemma EnqueuerLeaves(enqueuers: map<EnqueuerId, Enqueuer>, e: EnqueuerId)
    requires e in enqueuers
    ensures |Unrecorded(enqueuers - {e})| == |Unrecorded(enqueuers)| - (if enqueuers[e].Sent? then 1 else 0)
  {
    assert Unrecorded(enqueuers) == Unrecorded(enqueuers - {e}) + (if enqueuers[e].Sent? then {e} else {});
  }

  lemma StepAccounts(s: State, step: Step)
    requires Accounted(s) && Enabled(s, step)
    ensures Accounted(Apply(s, step))
  {
    match step
    case Reserve(e, key) => EnqueuerChanges(s.enqueuers, e, Reserved(key));
    case Send(e) => EnqueuerChanges(s.enqueuers, e, Sent);
    case CountEnqueued(e) => EnqueuerLeaves(s.enqueuers, e);
    case Reject(e) => EnqueuerChanges(s.enqueuers, e, Rejected(s.enqueuers[e].key));
    case Withdraw(e) => EnqueuerLeaves(s.enqueuers, e);
    case Take(w) => WorkerChanges(s.workers, w, Took(s.jobs[0]));
    case Enter(w) => WorkerChanges(s.workers, w, Apply(s, step).workers[w]);
    case Wake(w, outcome) => WorkerChanges(s.workers, w, Landed(s.workers[w].key, outcome));
    case FetchEnds(w, outcome) => WorkerChanges(s.workers, w, Returned(s.workers[w].key, outcome));
    case Leave(w) => WorkerChanges(s.workers, w, Landed(s.workers[w].key, s.workers[w].outcome));
    case Count(w) => WorkerChanges(s.workers, w, Counted(s.workers[w].key));
    case Release(w) => WorkerChanges(s.workers, w, Idle);
  }

  lemma StepThreads(s: State, step: Step)
    requires HoldersOk(s) && Enabled(s, step)
    ensures ThreadsHold(Apply(s, step))
  {
  }

  lemma StepJobs(s: State, step: Step)
    requires HoldersOk(s) && Enabled(s, step)
    ensures JobsHeld(Apply(s, step))
  {
  }

  lemma StepReal(s: State, step: Step)
    requires HoldersOk(s) && AllReal(s) && Enabled(s, step)
    ensures AllReal(Apply(s, step))
  {
    var s' := Apply(s, step);
    forall key | key in s'.holder
      ensures HolderIsReal(s', key)
    {
      if key in s.holder {
        assert HolderIsReal(s, key);
      }
      if step.Send? {
        assert s'.jobs[|s.jobs|] == s.enqueuers[step.e].key;
      }
      if step.Take? {
        assert s.jobs == [s.jobs[0]] + s.jobs[1..];
      }
    }
  }

  /** A worker that enters finds no flight of its key: it would have to be another worker's. */
  lemma StepFlights(s: State, step: Step)
    requires HoldersOk(s) && FlightsOk(s) && Enabled(s, step)
    ensures FlightsOk(Apply(s, step))
  {
  }

  lemma StepInv(s: State, step: Step)
    requires Inv(s) && Enabled(s, step)
    ensures Inv(Apply(s, step))
  {
    StepThreads(s, step);
    StepJobs(s, step);
    StepReal(s, step);
    StepFlights(s, step);
    StepAccounts(s, step);
  }

  ghost predicate Behaviour(states: seq<State>, steps: seq<Step>) {
    && |states| == |steps| + 1 && Initial(states[0])
    && (forall n {:trigger steps[n]} :: 0 <= n < |steps| ==>
          Enabled(states[n], steps[n]) && states[n + 1] == Apply(states[n], steps[n]))
  }

  lemma InitialInv(s: State)
    requires Initial(s)
    ensures Inv(s)
  {
  }

  lemma {:induction false} BehaviourInv(states: seq<State>, steps: seq<Step>, n: nat)
    requires Behaviour(states, steps) && n < |states|
    ensures Inv(states[n])
  {
    if n == 0 {
      InitialInv(states[0]);
    } else {
      BehaviourInv(states, steps, n - 1);
      assert steps[n - 1] == steps[n - 1];
      StepInv(states[n - 1], steps[n - 1]);
    }
  }

  // ---- What it means ----------------------------------------------------------------

  /** A key is queued exactly when a job waits for it, a worker has it, or an enqueue of it is in
      progress. */
  lemma QueuedKeys(states: seq<State>, steps: seq<Step>, n: nat, key: string)
    requires Behaviour(states, steps) && n < |states|
    ensures key in states[n].queued <==>
              || key in states[n].jobs
              || (exists w :: w in states[n].workers && !states[n].workers[w].Idle? && states[n].workers[w].key == key)
              || (exists e ::
                    e in states[n].enqueuers && !states[n].enqueuers[e].Sent? && states[n].enqueuers[e].key == key)
  {
    BehaviourInv(states, steps, n);
    if key in states[n].queued {
      assert HolderIsReal(states[n], key);
    }
  }

  /** A key is never twice among the waiting and the running jobs. */
  lemma EachKeyOnce(states: seq<State>, steps: seq<Step>, n: nat)
    requires Behaviour(states, steps) && n < |states|
    ensures var s := states[n];
            && (forall i, j :: 0 <= i < j < |s.jobs| ==> s.jobs[i] != s.jobs[j])
            && (forall w :: w in s.workers && !s.workers[w].Idle? ==> s.workers[w].key !in s.jobs)
            && (forall w, x :: w in s.workers && x in s.workers && w != x ==>
                !s.workers[w].Idle? && !s.workers[x].Idle? ==> s.workers[w].key != s.workers[x].key)
  {
    BehaviourInv(states, steps, n);
    var s := states[n];
    assert forall i :: 0 <= i < |s.jobs| ==> Holds(s.holder, s.jobs[i], InQueue);
    forall w | w in s.workers && !s.workers[w].Idle?
      ensures s.workers[w].key !in s.jobs
    {
      assert Holds(s.holder, s.workers[w].key, ByWorker(w));
    }
    forall w, x | w in s.workers && x in s.workers && w != x && !s.workers[w].Idle? && !s.workers[x].Idle?
      ensures s.workers[w].key != s.workers[x].key
    {
      assert Holds(s.holder, s.workers[w].key, ByWorker(w)) && Holds(s.holder, s.workers[x].key, ByWorker(x));
    }
  }

  /** At most one fetch per key runs, and no worker ever waits for another one's fetch. */
  lemma OneFetchPerKey(states: seq<State>, steps: seq<Step>, n: nat, w: WorkerId, x: WorkerId)
    requires Behaviour(states, steps) && n < |states| && w in states[n].workers && x in states[n].workers
    ensures !states[n].workers[w].Joined?
    ensures states[n].workers[w].Fetching? && states[n].workers[x].Fetching? && w != x ==>
              states[n].workers[w].key != states[n].workers[x].key
  {
    BehaviourInv(states, steps, n);
    EachKeyOnce(states, steps, n);
  }

  /** When no enqueue stands between its send and its counter, the enqueued jobs are exactly the
      executed, failed, canceled, waiting and running ones. */
  lemma EnqueuedAddUp(states: seq<State>, steps: seq<Step>, n: nat)
    requires Behaviour(states, steps) && n < |states|
    requires forall e :: e in states[n].enqueuers ==> !states[n].enqueuers[e].Sent?
    ensures var st := states[n].stats;
            st.enqueued == st.executed + st.failed + st.canceled + |states[n].jobs| + |Uncounted(states[n].workers)|
  {
    BehaviourInv(states, steps, n);
    assert Unrecorded(states[n].enqueuers) == {};
  }
}
