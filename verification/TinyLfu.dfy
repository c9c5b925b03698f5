/** TinyLFU admission as it is kept: a sketch that counts requests and a window of recent keys. */
module TinyLfu {
  import opened Admission
  import K = Sketch
  import W = Recency

  /** The estimates of a sketch after the requests `h`. */
  function Estimates(s: K.Shape, h: seq<string>): string -> nat {
    k => if s.Ok() then K.Estimated(s, h, k) else 0
  }

  // ---- One more request -------------------------------------------------------------

  /** `q` is `p` after the sketch has counted `key` once more. */
  ghost predicate CountedOnceMore(p: Policy, q: Policy, s: K.Shape, h: seq<string>, key: string) {
    && s.Ok() && s.agingStep < 0x8000_0000 && key in h
    && p.TinyLFU? && p.filter == Some(Estimates(s, h)) && q == p.(filter := Some(Estimates(s, h + [key])))
  }

  /** This count makes the sketch age, and halving takes the key below the minimum. */
  predicate AgedBelowMinimum(p: Policy, s: K.Shape, h: seq<string>, key: string)
    requires s.Ok() && p.TinyLFU?
  {
    (|h| + 1) % s.agingStep == 0 && K.Halved(p.Frequency(key) + 1) < p.minFrequency
  }

  /** One more request can cost an admitted key its admission in three ways only: it makes the sketch
      age and drops below the minimum; the cache is less than half full, where the key counts as seen
      once, and a collision takes its rival above that; or a collision makes it pollute. */
  lemma OneMoreRequestCostsAdmissionIff(p: Policy, q: Policy, s: K.Shape, h: seq<string>, c: Contest)
    requires CountedOnceMore(p, q, s, h, c.key) && c.Proper() && c.Admitted(p)
    ensures !c.Admitted(q) <==>
              && !InWindow(p, c.key)
              && (|| (if c.HalfEmpty() then c.Rival().Some? && q.Frequency(c.Rival().value) > 1
                      else AgedBelowMinimum(p, s, h, c.key))
                  || c.Polluting(q))
  {
    AdmittedIff(p, c);
    AdmittedIff(q, c);
    K.CountedIsPositive(s, h, c.key);
    K.CountedIsPositive(s, h + [c.key], c.key);
    K.OneMore(s, h, c.key, c.key);
    if c.Rival().Some? && c.Rival().value != "" && p.Frequency(c.Rival().value) <= p.Frequency(c.key) {
      K.RankKept(s, h, c.key, c.Rival().value);
    }
  }

  /** With a ratio of at least one half and nothing moving meanwhile only aging is left once the cache
      is half full. */
  lemma OnlyAgingCostsAdmission(p: Policy, q: Policy, s: K.Shape, h: seq<string>, c: Contest)
    requires CountedOnceMore(p, q, s, h, c.key) && c.Proper() && c.Admitted(p)
    requires p.maxPollutionRatio >= 0.5 && c.Steady() && !c.HalfEmpty()
    ensures !c.Admitted(q) <==> !InWindow(p, c.key) && AgedBelowMinimum(p, s, h, c.key)
  {
    OneMoreRequestCostsAdmissionIff(p, q, s, h, c);
    if !InWindow(p, c.key) {
      StaysNoRarer(p, q, s, h, c);
      CommonIsNoPolluter(q, c);
    }
  }

  lemma StaysNoRarer(p: Policy, q: Policy, s: K.Shape, h: seq<string>, c: Contest)
    requires CountedOnceMore(p, q, s, h, c.key) && c.Proper() && c.Admitted(p)
    requires !c.HalfEmpty() && !InWindow(p, c.key)
    ensures c.Rival().Some? ==> q.Frequency(c.Rival().value) <= q.Frequency(c.key)
  {
    AdmittedIff(p, c);
    K.CountedIsPositive(s, h, c.key);
    if c.Rival().Some? && c.Rival().value != "" {
      K.RankKept(s, h, c.key, c.Rival().value);
    }
  }

  // ---- Two requests within the window -----------------------------------------------

  /** What the window of `size` keys knows after the touches `keys`. */
  function Recent(keys: seq<string>, size: nat): string -> bool {
    key => W.Known(keys, key, size)
  }

  /** The promise of the window: a key that was requested before, with fewer than `size` other keys
      since, is admitted over any established one; otherwise only frequency counts. */
  lemma AdmittedIffRecentOrFrequent(p: Policy, keys: seq<string>, size: nat, c: Contest)
    requires p.TinyLFU? && p.filter.Some? && p.window == Some(Recent(keys, size)) && c.key != ""
    ensures c.Admitted(p) <==> W.Known(keys, c.key, size) || (c.FrequentEnough(p) && !c.Polluting(p))
  {
    AdmittedIff(p, c);
  }

  /** The smallest case: a key counted twice is as frequent as the minimum asks, its third request makes
      the sketch age, and it counts as seen once. */
  lemma AgingCostsAdmission()
    ensures var s := K.Shape(2, 1, 3, (k: string, row: nat) => if k == "k" then 0 else 1);
            var p := TinyLFU(Some(Estimates(s, ["k", "k"])), None, 2, 0.7);
            var q := TinyLFU(Some(Estimates(s, ["k", "k"] + ["k"])), None, 2, 0.7);
            var c := Contest("k", 1, 1, Some("v"), Some("v"));
            CountedOnceMore(p, q, s, ["k", "k"], "k") && c.Admitted(p) && !c.Admitted(q)
  {
    var s := K.Shape(2, 1, 3, (k: string, row: nat) => if k == "k" then 0 else 1);
    var p := TinyLFU(Some(Estimates(s, ["k", "k"])), None, 2, 0.7);
    var q := TinyLFU(Some(Estimates(s, ["k", "k"] + ["k"])), None, 2, 0.7);
    var c := Contest("k", 1, 1, Some("v"), Some("v"));
    assert ["k", "k"][..1] == ["k"] && ["k"][..0] == [];
    assert K.Cell(s, ["k"], 0, 0) == 1 && K.Cell(s, ["k"], 0, 1) == 0;
    assert K.Cell(s, ["k", "k"], 0, 0) == 2 && K.Cell(s, ["k", "k"], 0, 1) == 0;
    assert K.Minimum(s, ["k", "k"], "k", 0) == K.MAX_COUNTER == K.Minimum(s, ["k", "k"], "v", 0);
    assert K.Minimum(s, ["k", "k"], "k", 1) == 2 && K.Minimum(s, ["k", "k"], "v", 1) == 0;
    AdmittedIff(p, c);
    OnlyAgingCostsAdmission(p, q, s, ["k", "k"], c);
  }

  // ---- The policy as an object ------------------------------------------------------

  /** Empty keys are not recorded. */
  function Noted(keys: seq<string>, key: string): seq<string> {
    if key == "" then keys else keys + [key]
  }

  /** The requests that the sketch has counted and those that touched the window. */
  datatype Requests = Requests(counted: seq<string>, touches: seq<string>)

  class TinyLfuAdmission {
    const filter: K.CountMinSketch?
    const window: W.LruWindow?
    const minFrequency: nat
    const maxPollutionRatio: real

    constructor (filter: K.CountMinSketch?, window: W.LruWindow?, minFrequency: nat, maxPollutionRatio: real)
      ensures this.filter == filter && this.window == window
      ensures this.minFrequency == minFrequency && this.maxPollutionRatio == maxPollutionRatio
    {
      this.filter, this.window := filter, window;
      this.minFrequency, this.maxPollutionRatio := minFrequency, maxPollutionRatio;
    }

    ghost function Repr(): set<object> {
      (if filter == null then {} else {filter, filter.counters}) + (if window == null then {} else {window})
    }

    ghost predicate Valid()
      reads Repr()
    {
      (filter != null ==> filter.Valid()) && (window != null ==> window.Valid())
    }

    ghost function Record(): Requests
      reads Repr()
    {
      Requests(if filter == null then [] else filter.increments, if window == null then [] else window.touched)
    }

    /** The policy after these requests. */
    ghost function At(r: Requests): Policy {
      TinyLFU(if filter == null then None else Some(Estimates(filter.shape, r.counted)),
              if window == null then None else Some(Recent(r.touches, window.size)),
              minFrequency, maxPollutionRatio)
    }

    method Frequency(key: string) returns (n: nat)
      requires Valid()
      ensures n == At(Record()).Frequency(key)
    {
      if filter == null {
        return 0;
      }
      n := filter.Estimate(key);
    }

    method PollutantScore(candidateKey: string, victimKey: string) returns (score: real)
      requires Valid()
      ensures score == Admission.PollutantScore(At(Record()), candidateKey, victimKey)
    {
      if filter == null {
        return 0.0;
      }
      var candidate := filter.Estimate(candidateKey);
      var victim := 0;
      if victimKey != "" {
        victim := filter.Estimate(victimKey);
      }
      if candidate == 0 || victim == 0 {
        return 0.0;
      }
      score := 1.0 - (candidate as real / (victim as real + candidate as real));
    }

    method ShouldStore(key: string, m: Metrics) returns (yes: bool)
      requires Valid()
      ensures yes == Admission.ShouldStore(At(Record()), key, m)
    {
      if key == "" {
        return false;
      }
      if m.noEviction {
        return true;
      }
      if window != null {
        var known := window.Contains(key);
        if known {
          return true;
        }
      }
      if filter == null {
        return true;
      }
      var candidate := m.candidateFrequency;
      if candidate == 0 {
        candidate := filter.Estimate(key);
      }
      if candidate == 0 {
        return true;
      }
      if m.victimFrequency > 0 && candidate < m.victimFrequency {
        return false;
      }
      if m.pollution > 0.0 && maxPollutionRatio > 0.0 && m.pollution > maxPollutionRatio {
        return false;
      }
      if m.victimKey != "" && maxPollutionRatio > 0.0 && candidate >= minFrequency {
        var pollution := PollutantScore(key, m.victimKey);
        if pollution > maxPollutionRatio {
          return false;
        }
      }
      return !(minFrequency > 0 && candidate < minFrequency);
    }

    /** Counts a request. */
    method RecordFrequency(key: string)
      requires Valid()
      modifies Repr()
      ensures Valid() && Record() == CountedWith(this, old(Record()), key)
    {
      if filter != null {
        filter.Increment(key);
      }
    }

    method TouchWindow(key: string)
      requires Valid()
      modifies Repr()
      ensures Valid() && Record() == TouchedWith(this, old(Record()), key)
    {
      if window != null {
        var ok := window.Touch(key);
      }
    }
  }

  // ---- The admission of a cache, which may have none ---------------------------------

  ghost function Footprint(a: TinyLfuAdmission?): set<object> {
    if a == null then {} else a.Repr()
  }

  ghost predicate Ready(a: TinyLfuAdmission?)
    reads Footprint(a)
  {
    a != null ==> a.Valid()
  }

  ghost function RequestsOf(a: TinyLfuAdmission?): Requests
    reads Footprint(a)
  {
    if a == null then Requests([], []) else a.Record()
  }

  /** Without an admission policy everything is admitted. */
  ghost function PolicyAt(a: TinyLfuAdmission?, r: Requests): Policy {
    if a == null then Always else a.At(r)
  }

  ghost function PolicyOf(a: TinyLfuAdmission?): Policy
    reads Footprint(a)
  {
    PolicyAt(a, RequestsOf(a))
  }

  /** One more request is counted. */
  ghost function CountedWith(a: TinyLfuAdmission?, r: Requests, key: string): Requests {
    if a == null || a.filter == null then r else r.(counted := Noted(r.counted, key))
  }

  /** One more request touches the window. */
  ghost function TouchedWith(a: TinyLfuAdmission?, r: Requests, key: string): Requests {
    if a == null || a.window == null then r else r.(touches := Noted(r.touches, key))
  }

  ghost predicate InTheWindow(a: TinyLfuAdmission?, r: Requests, key: string) {
    a != null && a.window != null && W.Known(r.touches, key, a.window.size)
  }

  /** A request is counted before its response is measured, so whatever the sketch has done since it
      began, the key does not count as unseen then. */
  lemma CountedBeforeTheContest(a: TinyLfuAdmission, r: Requests, key: string)
    requires a.filter != null && a.filter.shape.Ok() && a.filter.shape.agingStep < 0x8000_0000 && key != ""
    ensures a.At(CountedWith(a, r, key)).filter.value(key) > 0
  {
    K.CountedIsPositive(a.filter.shape, Noted(r.counted, key), key);
  }
}
