/** Admission: whether a response may push another entry out of a full segment. */
module Admission {

  datatype Option<+T> = None | Some(value: T)

  datatype Metrics = Metrics(
    pollution: real,
    candidateFrequency: nat,
    victimFrequency: nat,
    victimKey: string,
    noEviction: bool)

  /** The frequency sketch is an arbitrary estimate, the recency window an arbitrary oracle. */
  datatype Policy =
    | Always
    | TinyLFU(filter: Option<string -> nat>, window: Option<string -> bool>,
              minFrequency: nat, maxPollutionRatio: real)
  {
    function Frequency(key: string): nat
      requires TinyLFU?
    {
      if filter.Some? then filter.value(key) else 0
    }
  }

  function Score(candidate: nat, victim: nat): real {
    if candidate == 0 || victim == 0 then 0.0
    else 1.0 - (candidate as real / (victim as real + candidate as real))
  }

  function PollutantScore(p: Policy, candidateKey: string, victimKey: string): real
    requires p.TinyLFU?
  {
    if p.filter.None? then 0.0
    else Score(p.filter.value(candidateKey), if victimKey == "" then 0 else p.filter.value(victimKey))
  }

  predicate ShouldStore(p: Policy, key: string, m: Metrics) {
    match p
    case Always => true
    case TinyLFU(filter, window, minFrequency, maxPollutionRatio) =>
      if key == "" then false
      else if m.noEviction then true
      else if window.Some? && window.value(key) then true
      else if filter.None? then true
      else
        var candidate := if m.candidateFrequency == 0 then filter.value(key) else m.candidateFrequency;
        if candidate == 0 then true
        else if m.victimFrequency > 0 && candidate < m.victimFrequency then false
        else if m.pollution > 0.0 && maxPollutionRatio > 0.0 && m.pollution > maxPollutionRatio then false
        else if m.victimKey != "" && maxPollutionRatio > 0.0 && candidate >= minFrequency &&
                PollutantScore(p, key, m.victimKey) > maxPollutionRatio then false
        else !(minFrequency > 0 && candidate < minFrequency)
  }

  function AtLeastOne(n: nat): nat {
    if n == 0 then 1 else n
  }

  const Plain := Metrics(0.0, 1, 0, "", false)

  /** Frequencies and pollution, with `seen` the key at the back of the segment. */
  function Against(p: Policy, key: string, seen: Option<string>): Metrics {
    if !p.TinyLFU? then Plain
    else
      var m := if p.filter.Some? then Plain.(candidateFrequency := AtLeastOne(p.filter.value(key))) else Plain;
      if seen.None? then m
      else m.(victimKey := seen.value, victimFrequency := p.Frequency(seen.value),
              pollution := PollutantScore(p, key, seen.value))
  }

  /** What the handler measures before a store: nothing below half of the capacity. */
  function ComputeMetrics(p: Policy, key: string, size: nat, capacity: nat, seen: Option<string>): Metrics {
    if size < capacity / 2 then Plain else Against(p, key, seen)
  }

  /** What the segment makes of the metrics under its lock: whether room is needed and, for a
      frequency-aware policy, whose (`victim` is the key at the back unless that is the key itself). */
  function AtSet(p: Policy, m: Metrics, overflow: bool, victim: Option<string>): Metrics {
    var m1 := m.(noEviction := !overflow);
    if overflow && victim.Some? && p.TinyLFU?
    then m1.(victimKey := victim.value, victimFrequency := p.Frequency(victim.value)) else m1
  }

  /** A store that needs room: what the handler measured, then what the segment sees. */
  datatype Contest = Contest(key: string, size: nat, capacity: nat, seen: Option<string>, victim: Option<string>)
  {
    /** The segment never names the key as its own victim. */
    predicate Proper() {
      key != "" && victim != Some(key)
    }

    predicate HalfEmpty() {
      size < capacity / 2
    }

    /** The key whose frequency counts: the segment's victim, else what the handler saw. */
    function Rival(): Option<string> {
      if victim.Some? then victim else if HalfEmpty() then None else seen
    }

    /** The frequency that counts for the candidate. */
    function Candidate(p: Policy): nat
      requires p.TinyLFU?
    {
      if HalfEmpty() then 1 else AtLeastOne(p.Frequency(key))
    }

    predicate FrequentEnough(p: Policy)
      requires p.TinyLFU?
    {
      && (Rival().Some? ==> p.Frequency(Rival().value) <= Candidate(p))
      && p.minFrequency <= Candidate(p)
    }

    predicate Polluting(p: Policy)
      requires p.TinyLFU?
    {
      && p.maxPollutionRatio > 0.0
      && (|| (!HalfEmpty() && seen.Some? && PollutantScore(p, key, seen.value) > p.maxPollutionRatio)
          || (Rival().Some? && PollutantScore(p, key, Rival().value) > p.maxPollutionRatio))
    }

    predicate Admitted(p: Policy) {
      ShouldStore(p, key, AtSet(p, ComputeMetrics(p, key, size, capacity, seen), true, victim))
    }

    /** Nothing moved between the handler's look and the segment's. */
    predicate Steady() {
      seen.Some? && !HalfEmpty() ==> Rival() == seen
    }
  }

  predicate InWindow(p: Policy, key: string) {
    p.TinyLFU? && p.window.Some? && p.window.value(key)
  }

  /** The whole decision when room is needed: the window knows the key, or it is as frequent as its
      rival and the minimum and pollutes nothing.  Below half of the capacity every key without a
      window entry counts as seen once. */
  lemma AdmittedIff(p: Policy, c: Contest)
    requires p.TinyLFU? && p.filter.Some? && c.key != ""
    ensures c.Admitted(p) <==> InWindow(p, c.key) || (c.FrequentEnough(p) && !c.Polluting(p))
  {
  }

  /** Below half of the capacity the handler does not ask the sketch, and a key however popular loses
      to a victim that was seen twice. */
  lemma HalfEmptyForgetsPopularity(p: Policy, c: Contest)
    requires p.TinyLFU? && p.filter.Some? && c.key != "" && c.size < c.capacity / 2
    requires c.victim.Some? && p.filter.value(c.victim.value) > 1
    ensures c.Admitted(p) <==> InWindow(p, c.key)
  {
    AdmittedIff(p, c);
  }

  /** The pollution score of a seen candidate is the victim's share of the requests for the two. */
  lemma ScoreIsVictimsShare(candidate: nat, victim: nat)
    requires candidate > 0 && victim > 0
    ensures Score(candidate, victim) * (candidate + victim) as real == victim as real
  {
    var c, v := candidate as real, victim as real;
    var share := c / (v + c);
    assert share * (v + c) == c;
    assert (1.0 - share) * (c + v) == (c + v) - share * (v + c);
  }

  /** At half capacity or more, with the ratio the proxy configures and nothing moving meanwhile, a key
      without a window entry pushes out a victim exactly if it was requested at least as often as the
      victim and as the minimum asks. */
  lemma FrequencyDecides(p: Policy, c: Contest)
    requires p.TinyLFU? && p.filter.Some? && c.key != "" && p.maxPollutionRatio >= 0.5
    requires c.size >= c.capacity / 2 && c.victim.Some? && c.seen == c.victim && !InWindow(p, c.key)
    requires p.filter.value(c.key) > 0
    ensures c.Admitted(p) <==>
              p.filter.value(c.victim.value) <= p.filter.value(c.key) && p.minFrequency <= p.filter.value(c.key)
  {
    PollutionTestsAreRedundant(p, c);
  }

  lemma PollutionMeansRarer(candidate: nat, victim: nat, ratio: real)
    requires Score(candidate, victim) > ratio >= 0.5
    ensures 0 < candidate < victim
  {
    var c, v := candidate as real, victim as real;
    var share := c / (v + c);
    assert share * (v + c) == c;
    assert share < 0.5;
    assert c < 0.5 * (v + c) by {
      ShareBelow(share, 0.5, v + c);
    }
  }

  lemma ShareBelow(share: real, bound: real, whole: real)
    requires share < bound && 0.0 < whole
    ensures share * whole < bound * whole
  {
  }

  lemma CommonIsNoPolluter(p: Policy, c: Contest)
    requires p.TinyLFU? && p.filter.Some? && p.maxPollutionRatio >= 0.5 && c.Steady()
    requires c.Rival().Some? ==> p.Frequency(c.Rival().value) <= p.Frequency(c.key)
    ensures !c.Polluting(p)
  {
    if c.Polluting(p) {
      PollutionMeansRarer(p.filter.value(c.key), p.filter.value(c.Rival().value), p.maxPollutionRatio);
    }
  }

  /** With a pollution ratio of at least one half (the proxy configures 0.7) and nothing moving
      meanwhile the pollution tests never decide. */
  lemma PollutionTestsAreRedundant(p: Policy, c: Contest)
    requires p.TinyLFU? && p.filter.Some? && c.key != "" && p.maxPollutionRatio >= 0.5 && c.Steady()
    ensures c.Admitted(p) <==> InWindow(p, c.key) || c.FrequentEnough(p)
  {
    AdmittedIff(p, c);
    if c.Polluting(p) {
      var rival := c.Rival().value;
      PollutionMeansRarer(p.filter.value(c.key), p.filter.value(rival), p.maxPollutionRatio);
    }
  }

  /** The score falls as the candidate is seen more often, once it has been seen at all. */
  lemma ScoreFalls(candidate: nat, more: nat, victim: nat)
    requires 0 < candidate <= more
    ensures Score(more, victim) <= Score(candidate, victim)
  {
    if victim > 0 {
      ShareRises(candidate as real, more as real, victim as real);
    }
  }

  lemma ShareRises(c: real, m: real, v: real)
    requires 0.0 < c <= m && 0.0 < v
    ensures c / (v + c) <= m / (v + m)
  {
    var x, y := c / (v + c), m / (v + m);
    assert x * (v + c) == c && y * (v + m) == m;
    assert (y - x) * (v + m) == (1.0 - x) * (m - c);
    assert x <= 1.0;
    assert (1.0 - x) * (m - c) >= 0.0;
  }

  /** `q` is `p` after further requests for the key and nothing else. */
  ghost predicate MoreOf(p: Policy, q: Policy, key: string) {
    && p.TinyLFU? && p.filter.Some? && q.TinyLFU? && q.filter.Some?
    && q.window == p.window && q.minFrequency == p.minFrequency && q.maxPollutionRatio == p.maxPollutionRatio
    && p.filter.value(key) <= q.filter.value(key)
    && forall k :: k != key ==> q.filter.value(k) == p.filter.value(k)
  }

  lemma SeenBeforePollutesLess(p: Policy, q: Policy, key: string, rival: string)
    requires MoreOf(p, q, key) && 0 < p.filter.value(key)
    ensures PollutantScore(q, key, rival) <= PollutantScore(p, key, rival)
  {
    if rival == key {
      HalfAgainstItself(p.filter.value(key));
      HalfAgainstItself(q.filter.value(key));
    } else if rival != "" {
      ScoreFalls(p.filter.value(key), q.filter.value(key), p.filter.value(rival));
    }
  }

  lemma HalfAgainstItself(n: nat)
    ensures n > 0 ==> Score(n, n) == 0.5
  {
    if n > 0 {
      var x := n as real;
      assert 0.5 * (x + x) == x;
      assert x / (x + x) == 0.5;
    }
  }

  /** Further requests never cost an admitted key its admission, whatever the pollution ratio and
      wherever the victim moved meanwhile.  The handler counts a request before it measures, so the
      key has been counted. */
  lemma MoreFrequentStaysAdmitted(p: Policy, q: Policy, c: Contest)
    requires MoreOf(p, q, c.key) && c.Proper() && 0 < p.filter.value(c.key)
    ensures c.Admitted(p) ==> c.Admitted(q)
  {
    AdmittedIff(p, c);
    AdmittedIff(q, c);
    if c.seen.Some? {
      SeenBeforePollutesLess(p, q, c.key, c.seen.value);
    }
    if c.Rival().Some? {
      SeenBeforePollutesLess(p, q, c.key, c.Rival().value);
    }
  }
}
