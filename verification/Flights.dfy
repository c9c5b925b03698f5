/**
  Shared flights: concurrent requests for one key wait for one upstream fetch.

  Any number of callers, background revalidations and cancellations interleave freely.  The result
  of every upstream fetch is a fresh response id, so that it can be seen who was handed what.
*/
module Flights {
  import A = Admission

  type CallerId = nat
  type FlightId = nat
  type ResponseId = nat

  /** What a fetch ends with; a stream is never stored. */
  datatype Result = Result(response: ResponseId, failed: bool, stored: bool, stream: bool)

  /** A flight in the group; `leader` is the caller whose function runs, none for a revalidation. */
  datatype Flight = Flight(key: string, leader: A.Option<CallerId>, result: A.Option<Result>)

  datatype Caller =
    | Alone(cacheable: bool)
    | Waiting(flight: FlightId, ran: bool)
    | Retrying
    | Handed(result: Result)
    | Cancelled

  /** `streaming` is the policy's AllowStreaming.  `origin` is history: whose fetch a response is. */
  datatype Source = ByFlight(flight: FlightId) | ByCaller(caller: CallerId)

  datatype State = State(
    streaming: bool,
    callers: map<CallerId, Caller>,
    flights: map<FlightId, Flight>,
    inflight: map<string, FlightId>,
    origin: map<ResponseId, Source>)

  datatype Step =
    | Fetch(c: CallerId, key: string, cacheable: bool, conditional: bool, f: FlightId)
    | Revalidate(key: string, f: FlightId)
    | FlightEnds(f: FlightId, result: Result)
    | OwnEnds(c: CallerId, result: Result)
    | Receive(c: CallerId)
    | Cancel(c: CallerId)

  predicate Collapsible(s: State, conditional: bool) {
    !s.streaming && !conditional
  }

  /** A fetch brings a new response; streams only if the policy allows them, storing only without
      an error, without a stream and when the fetch may store. */
  predicate CanEnd(s: State, result: Result, mayStore: bool) {
    && result.response !in s.origin
    && (result.stream ==> s.streaming)
    && (result.stored ==> mayStore && !result.failed && !result.stream)
  }

  predicate Enabled(s: State, step: Step) {
    match step
    case Fetch(c, key, _, _, f) => c !in s.callers && f !in s.flights
    case Revalidate(key, f) => f !in s.flights
    case FlightEnds(f, result) => f in s.flights && s.flights[f].result.None? && CanEnd(s, result, true)
    case OwnEnds(c, result) =>
      && c in s.callers && (s.callers[c].Alone? || s.callers[c].Retrying?)
      && CanEnd(s, result, s.callers[c].Alone? && s.callers[c].cacheable)
    case Receive(c) =>
      && c in s.callers && s.callers[c].Waiting? && s.callers[c].flight in s.flights
      && s.flights[s.callers[c].flight].result.Some?
    case Cancel(c) => c in s.callers && s.callers[c].Waiting?
  }

  /** A caller takes the flight's result, unless it did not run it and the result was not stored. */
  function Took(caller: Caller, result: Result): Caller
    requires caller.Waiting?
  {
    if caller.ran || result.failed || result.stored then Handed(result) else Retrying
  }

  function Apply(s: State, step: Step): State
    requires Enabled(s, step)
  {
    match step
    case Fetch(c, key, cacheable, conditional, f) =>
      if !cacheable || !Collapsible(s, conditional) then s.(callers := s.callers[c := Alone(cacheable)])
      else if key in s.inflight then s.(callers := s.callers[c := Waiting(s.inflight[key], false)])
      else s.(callers := s.callers[c := Waiting(f, true)],
              flights := s.flights[f := Flight(key, A.Some(c), A.None)],
              inflight := s.inflight[key := f])
    case Revalidate(key, f) =>
      if key in s.inflight then s
      else s.(flights := s.flights[f := Flight(key, A.None, A.None)], inflight := s.inflight[key := f])
    case FlightEnds(f, result) =>
      s.(flights := s.flights[f := s.flights[f].(result := A.Some(result))],
         inflight := s.inflight - {s.flights[f].key},
         origin := s.origin[result.response := ByFlight(f)])
    case OwnEnds(c, result) =>
      s.(callers := s.callers[c := Handed(result)], origin := s.origin[result.response := ByCaller(c)])
    case Receive(c) =>
      s.(callers := s.callers[c := Took(s.callers[c], s.flights[s.callers[c].flight].result.value)])
    case Cancel(c) => s.(callers := s.callers[c := Cancelled])
  }

  predicate Initial(s: State) {
    s.callers == map[] && s.flights == map[] && s.inflight == map[] && s.origin == map[]
  }

  // ---- The invariant ----------------------------------------------------------------

  /** A finished flight's result is its own; a running flight is the one in flight for its key. */
  predicate FlightOk(s: State, f: FlightId)
    requires f in s.flights
  {
    match s.flights[f].result
    case None => s.flights[f].key in s.inflight && s.inflight[s.flights[f].key] == f
    case Some(r) =>
      r.response in s.origin && s.origin[r.response] == ByFlight(f) && (r.stream ==> s.streaming) &&
        (r.stored ==> !r.failed)
  }

  /** Waiters wait only where nothing streams, for a flight that exists; who ran it is its leader. */
  predicate WaiterOk(s: State, c: CallerId, flight: FlightId, ran: bool) {
    && !s.streaming && flight in s.flights
    && (ran <==> s.flights[flight].leader == A.Some(c))
  }

  /** A handed result is the caller's own, or the flight's that it led, that failed or was stored. */
  predicate HandedOk(s: State, c: CallerId, r: Result) {
    && r.response in s.origin
    && match s.origin[r.response]
       case ByCaller(d) => d == c
       case ByFlight(f) =>
         && !s.streaming && f in s.flights && s.flights[f].result == A.Some(r)
         && (s.flights[f].leader == A.Some(c) || r.failed || r.stored)
  }

  predicate CallerOk(s: State, c: CallerId)
    requires c in s.callers
  {
    match s.callers[c]
    case Waiting(flight, ran) => WaiterOk(s, c, flight, ran)
    case Handed(r) => HandedOk(s, c, r)
    case _ => true
  }

  /** A leader is a caller that asked before. */
  predicate LeadersKnown(s: State) {
    forall f :: f in s.flights && s.flights[f].leader.Some? ==> s.flights[f].leader.value in s.callers
  }

  predicate Inv(s: State) {
    && (forall f :: f in s.flights ==> FlightOk(s, f))
    && (forall key :: key in s.inflight ==> s.inflight[key] in s.flights && s.flights[s.inflight[key]].key == key)
    && (forall c :: c in s.callers ==> CallerOk(s, c))
    && LeadersKnown(s)
  }

  lemma FlightStays(s: State, step: Step, f: FlightId)
    requires Inv(s) && Enabled(s, step) && f in Apply(s, step).flights
    ensures FlightOk(Apply(s, step), f)
  {
    assert f in s.flights ==> FlightOk(s, f);
    if step.FlightEnds? && f != step.f {
      assert FlightOk(s, step.f);
    }
  }

  lemma GroupStays(s: State, step: Step)
    requires Enabled(s, step) && LeadersKnown(s)
    requires forall key :: key in s.inflight ==> s.inflight[key] in s.flights && s.flights[s.inflight[key]].key == key
    ensures var s' := Apply(s, step);
            && (forall key :: key in s'.inflight ==>
                s'.inflight[key] in s'.flights && s'.flights[s'.inflight[key]].key == key)
            && LeadersKnown(s')
  {
  }

  lemma StepInv(s: State, step: Step)
    requires Inv(s) && Enabled(s, step)
    ensures Inv(Apply(s, step))
  {
    var s' := Apply(s, step);
    GroupStays(s, step);
    forall f | f in s'.flights
      ensures FlightOk(s', f)
    {
      FlightStays(s, step, f);
    }
    forall c | c in s'.callers
      ensures CallerOk(s', c)
    {
      CallerAfter(s, step, c);
    }
  }

  lemma CallerAfter(s: State, step: Step, c: CallerId)
    requires Inv(s) && Enabled(s, step) && c in Apply(s, step).callers
    ensures CallerOk(Apply(s, step), c)
  {
    if c in s.callers {
      CallerStays(s, step, c);
    }
  }

  lemma CallerStays(s: State, step: Step, c: CallerId)
    requires Inv(s) && Enabled(s, step) && c in s.callers
    ensures CallerOk(Apply(s, step), c)
  {
    assert CallerOk(s, c);
    if step.Receive? && step.c == c {
      assert FlightOk(s, s.callers[c].flight);
    }
  }

  ghost predicate Behaviour(states: seq<State>, steps: seq<Step>) {
    && |states| == |steps| + 1 && Initial(states[0])
    && (forall n {:trigger steps[n]} :: 0 <= n < |steps| ==>
          Enabled(states[n], steps[n]) && states[n + 1] == Apply(states[n], steps[n]))
  }

  lemma {:induction false} BehaviourInv(states: seq<State>, steps: seq<Step>, n: nat)
    requires Behaviour(states, steps) && n < |states|
    ensures Inv(states[n])
  {
    if n > 0 {
      BehaviourInv(states, steps, n - 1);
      assert steps[n - 1] == steps[n - 1];
      StepInv(states[n - 1], steps[n - 1]);
    }
  }

  /** Two requests are handed the same upstream response only if it failed or was stored in the
      shared cache; a response fetched without error that was not stored, and any stream, goes to
      one request only. */
  lemma UnstoredResponseHasOneReader(states: seq<State>, steps: seq<Step>, n: nat, c: CallerId, d: CallerId)
    requires Behaviour(states, steps) && n < |states| && c != d
    requires c in states[n].callers && states[n].callers[c].Handed?
    requires d in states[n].callers && states[n].callers[d].Handed?
    requires states[n].callers[c].result.response == states[n].callers[d].result.response
    ensures states[n].callers[c].result == states[n].callers[d].result
    ensures var r := states[n].callers[c].result; (r.failed || r.stored) && !r.stream
  {
    BehaviourInv(states, steps, n);
    var s := states[n];
    assert CallerOk(s, c) && CallerOk(s, d);
    var r := s.callers[c].result;
    assert s.origin[r.response].ByFlight?;
    assert FlightOk(s, s.origin[r.response].flight);
  }

  /** At most one upstream fetch per key is shared at a time. */
  lemma OneFlightPerKey(states: seq<State>, steps: seq<Step>, n: nat, f: FlightId, g: FlightId)
    requires Behaviour(states, steps) && n < |states| && f in states[n].flights && g in states[n].flights
    requires states[n].flights[f].result.None? && states[n].flights[g].result.None?
    requires states[n].flights[f].key == states[n].flights[g].key
    ensures f == g
  {
    BehaviourInv(states, steps, n);
    assert FlightOk(states[n], f) && FlightOk(states[n], g);
  }
}
