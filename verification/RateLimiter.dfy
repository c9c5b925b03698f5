/** The token bucket of background requests; times are seconds, arithmetic is over the reals. */
module RateLimiter {

  /** Tokens that come in during `d` seconds. */
  function Earned(rate: real, d: real): real {
    rate * d
  }

  lemma EarnedAdds(rate: real, x: real, y: real)
    ensures Earned(rate, x) + Earned(rate, y) == Earned(rate, x + y)
  {
  }

  lemma EarnedGrows(rate: real, x: real, y: real)
    requires 0.0 <= rate && x <= y
    ensures Earned(rate, x) <= Earned(rate, y) && (0.0 <= x ==> 0.0 <= Earned(rate, x))
  {
  }

  lemma OneIntervalEarnsOne(rate: real)
    requires 0.0 < rate
    ensures Earned(rate, 1.0 / rate) == 1.0
  {
  }

  datatype Bucket = Bucket(rate: real, tokens: real, last: real)
  {
    function Burst(): (b: real)
      ensures b >= 1.0 && b >= rate
    {
      if rate > 1.0 then rate else 1.0
    }

    function Refilled(now: real): real {
      var t := tokens + Earned(rate, now - last);
      if t < Burst() then t else Burst()
    }

    predicate Grants(now: real) {
      Refilled(now) >= 1.0
    }

    function Called(now: real): Bucket {
      Bucket(rate, if Grants(now) then Refilled(now) - 1.0 else Refilled(now), now)
    }
  }

  /** The bucket after calls at these times. */
  function After(b: Bucket, calls: seq<real>): Bucket {
    if calls == [] then b else After(b, calls[..|calls| - 1]).Called(calls[|calls| - 1])
  }

  /** How many of the calls are granted. */
  function Granted(b: Bucket, calls: seq<real>): nat {
    if calls == [] then 0
    else Granted(b, calls[..|calls| - 1]) + if After(b, calls[..|calls| - 1]).Grants(calls[|calls| - 1]) then 1 else 0
  }

  /** One call accounts for its refill. */
  lemma OneCall(b: Bucket, now: real)
    ensures var c := b.Called(now);
            && c.rate == b.rate && c.last == now
            && c.tokens == b.Refilled(now) - (if b.Grants(now) then 1.0 else 0.0)
    ensures b.Refilled(now) <= b.tokens + Earned(b.rate, now - b.last) && b.Refilled(now) <= b.Burst()
    ensures b.Grants(now) ==> b.Called(now).tokens >= 0.0
  {
  }

  /** What was granted and what is left came out of the first refill and the time since. */
  lemma {:induction false} GrantedAndLeft(b: Bucket, first: real, calls: seq<real>)
    ensures var c := After(b.Called(first), calls);
            && c.rate == b.rate && c.last == (if calls == [] then first else calls[|calls| - 1])
            && c.tokens + Granted(b.Called(first), calls) as real <=
               b.Called(first).tokens + Earned(b.rate, c.last - first)
  {
    if calls == [] {
    } else {
      var init, now := calls[..|calls| - 1], calls[|calls| - 1];
      GrantedAndLeft(b, first, init);
      var c := After(b.Called(first), init);
      OneCall(c, now);
      EarnedAdds(b.rate, c.last - first, now - c.last);
    }
  }

  /** Whatever the calls, those made within `d` seconds of the first one are granted at most the
      burst plus `d` times the rate, even when call times step back. */
  lemma {:induction false} WindowBound(b: Bucket, first: real, calls: seq<real>, d: real)
    requires b.rate > 0.0 && d >= 0.0
    requires forall i :: 0 <= i < |calls| ==> calls[i] - first <= d
    ensures Granted(b.Called(first), calls) as real + (if b.Grants(first) then 1.0 else 0.0) <=
              b.Burst() + Earned(b.rate, d)
  {
    OneCall(b, first);
    EarnedGrows(b.rate, 0.0, d);
    if calls != [] {
      var init, now := calls[..|calls| - 1], calls[|calls| - 1];
      var c := After(b.Called(first), init);
      if c.Grants(now) {
        GrantedAndLeft(b, first, calls);
        OneCall(c, now);
        EarnedGrows(b.rate, now - first, d);
      } else {
        WindowBound(b, first, init, d);
      }
    }
  }

  lemma {:induction false} AfterConcat(b: Bucket, before: seq<real>, window: seq<real>)
    ensures After(b, before + window) == After(After(b, before), window)
    ensures Granted(b, before + window) == Granted(b, before) + Granted(After(b, before), window)
  {
    var all := before + window;
    if window == [] {
      assert all == before;
    } else {
      AfterConcat(b, before, window[..|window| - 1]);
      assert all[..|all| - 1] == before + window[..|window| - 1];
    }
  }

  lemma {:induction false} RateStays(b: Bucket, calls: seq<real>)
    ensures After(b, calls).rate == b.rate
  {
    if calls != [] {
      RateStays(b, calls[..|calls| - 1]);
    }
  }

  lemma WindowOfRun(b: Bucket, calls: seq<real>, from: nat, to: nat, d: real)
    requires b.rate > 0.0 && from < to <= |calls| && d >= 0.0
    requires forall i :: from <= i < to ==> calls[i] - calls[from] <= d
    ensures Granted(b, calls[..to]) as real - Granted(b, calls[..from]) as real <= b.Burst() + Earned(b.rate, d)
  {
    var c := After(b, calls[..from]);
    RateStays(b, calls[..from]);
    SplitWindow(b, calls, from, to);
    var rest := calls[from + 1..to];
    assert forall i :: 0 <= i < |rest| ==> rest[i] == calls[from + 1 + i];
    WindowBound(c, calls[from], rest, d);
  }

  /** Any window of any run: no more than the burst, which is the rate but at least one, plus the rate
      times its length. */
  lemma AnyWindowIsBounded(b: Bucket, calls: seq<real>, from: nat, to: nat, d: real)
    requires b.rate > 0.0 && from < to <= |calls| && d >= 0.0
    requires forall i :: from <= i < to ==> calls[i] - calls[from] <= d
    ensures Granted(b, calls[..to]) as real - Granted(b, calls[..from]) as real <=
              (if b.rate > 1.0 then b.rate else 1.0) + b.rate * d
  {
    var bound := b.Burst() + Earned(b.rate, d);
    assert bound == (if b.rate > 1.0 then b.rate else 1.0) + b.rate * d;
    assert Granted(b, calls[..to]) as real - Granted(b, calls[..from]) as real <= bound by {
      WindowOfRun(b, calls, from, to, d);
    }
  }

  lemma SplitWindow(b: Bucket, calls: seq<real>, from: nat, to: nat)
    requires from < to <= |calls|
    ensures var c := After(b, calls[..from]);
            Granted(b, calls[..to]) == Granted(b, calls[..from]) + (if c.Grants(calls[from]) then 1 else 0) +
                                       Granted(c.Called(calls[from]), calls[from + 1..to])
  {
    var first := calls[..from] + [calls[from]];
    assert first[..from] == calls[..from];
    assert calls[..to] == first + calls[from + 1..to];
    AfterConcat(b, first, calls[from + 1..to]);
  }

  /** At one and the same time a bucket grants as many calls as it holds tokens. */
  lemma {:induction false} HeldTokensAreGranted(b: Bucket, now: real, calls: seq<real>)
    requires b.rate > 0.0 && 0.0 <= b.tokens <= b.Burst() && b.last == now
    requires |calls| as real <= b.tokens && forall i :: 0 <= i < |calls| ==> calls[i] == now
    ensures Granted(b, calls) == |calls|
    ensures var c := After(b, calls);
            c.tokens == b.tokens - |calls| as real && c.last == now && c.rate == b.rate
  {
    if calls != [] {
      HeldTokensAreGranted(b, now, calls[..|calls| - 1]);
      assert Earned(b.rate, 0.0) == 0.0;
    }
  }

  lemma FilledUp(b: Bucket, now: real)
    requires 0.0 <= b.tokens && b.rate * (now - b.last) >= if b.rate > 1.0 then b.rate else 1.0
    ensures b.Refilled(now) == (if b.rate > 1.0 then b.rate else 1.0) && b.Grants(now)
    ensures b.Called(now) == Bucket(b.rate, b.Refilled(now) - 1.0, now)
  {
  }

  /** After a pause long enough to fill the bucket a burst of calls is granted in full: as many as the
      rate says for a second, and at least one. */
  lemma BurstIsGranted(b: Bucket, now: real, calls: seq<real>)
    requires b.rate > 0.0 && 0.0 <= b.tokens <= b.Burst() && calls != []
    requires b.rate * (now - b.last) >= if b.rate > 1.0 then b.rate else 1.0
    requires |calls| as real <= if b.rate > 1.0 then b.rate else 1.0
    requires forall i :: 0 <= i < |calls| ==> calls[i] == now
    ensures Granted(b, calls) == |calls|
  {
    FilledUp(b, now);
    var first := [now];
    assert calls == first + calls[1..] && first[..0] == [];
    AfterConcat(b, first, calls[1..]);
    assert After(b, first) == b.Called(now);
    HeldTokensAreGranted(b.Called(now), now, calls[1..]);
  }

  predicate NonDecreasing(start: real, calls: seq<real>) {
    && (forall i :: 0 <= i < |calls| ==> start <= calls[i])
    && (forall i, j :: 0 <= i < j < |calls| ==> calls[i] <= calls[j])
  }

  /** A bucket in range stays in range with a clock that does not go back. */
  lemma CallStaysInRange(b: Bucket, now: real)
    requires b.rate > 0.0 && 0.0 <= b.tokens <= b.Burst() && b.last <= now
    ensures 0.0 <= b.Called(now).tokens <= b.Called(now).Burst()
    ensures now - b.last >= 1.0 / b.rate ==> b.Grants(now)
  {
    OneCall(b, now);
    EarnedGrows(b.rate, 0.0, now - b.last);
    OneIntervalEarnsOne(b.rate);
    if now - b.last >= 1.0 / b.rate {
      EarnedGrows(b.rate, 1.0 / b.rate, now - b.last);
    }
  }

  /** With a clock that does not go back the tokens stay between zero and the burst, and a call that
      comes one interval after the previous one is granted. */
  lemma {:induction false} TokensInRange(b: Bucket, calls: seq<real>)
    requires b.rate > 0.0 && 0.0 <= b.tokens <= b.Burst() && NonDecreasing(b.last, calls)
    ensures var c := After(b, calls);
            && c.rate == b.rate && 0.0 <= c.tokens <= c.Burst()
            && c.last == (if calls == [] then b.last else calls[|calls| - 1])
    ensures forall i :: 0 <= i < |calls| && calls[i] - After(b, calls[..i]).last >= 1.0 / b.rate ==>
              After(b, calls[..i]).Grants(calls[i])
  {
    if calls != [] {
      var init, now := calls[..|calls| - 1], calls[|calls| - 1];
      TokensInRange(b, init);
      var c := After(b, init);
      CallStaysInRange(c, now);
      forall i | 0 <= i < |calls|
        ensures calls[i] - After(b, calls[..i]).last >= 1.0 / b.rate ==> After(b, calls[..i]).Grants(calls[i])
      {
        assert i < |init| ==> calls[..i] == init[..i] && calls[i] == init[i];
      }
    }
  }

  class RateLimiter {
    const rate: real
    var tokens: real
    var last: real

    function View(): Bucket
      reads this
    {
      Bucket(rate, tokens, last)
    }

    constructor (rps: real, now: real)
      requires rps > 0.0
      ensures View() == Bucket(rps, rps, now) && 0.0 <= tokens <= View().Burst()
    {
      rate, tokens, last := rps, rps, now;
    }

    method Allow(now: real) returns (ok: bool)
      modifies this
      ensures ok == old(View()).Grants(now) && View() == old(View()).Called(now)
    {
      var burst := if rate > 1.0 then rate else 1.0;
      var refilled := tokens + rate * (now - last);
      tokens := if refilled < burst then refilled else burst;
      last := now;
      if tokens < 1.0 {
        return false;
      }
      tokens := tokens - 1.0;
      return true;
    }
  }
}
