/** The aging count-min sketch behind TinyLFU, for any hash function. */
module Sketch {

  const MAX_COUNTER: nat := 0xFFFF_FFFF

  /** A saturating 32-bit increment. */
  function Bumped(count: nat): nat {
    if count < MAX_COUNTER then count + 1 else count
  }

  /** Aging halves a counter but leaves a 1 alone. */
  function Halved(count: nat): nat {
    if count > 1 then count / 2 else count
  }

  datatype Shape = Shape(width: nat, depth: nat, agingStep: nat, hash: (string, nat) -> nat)
  {
    predicate Ok() {
      width >= 1 && depth >= 1 && agingStep >= 1
    }

    function Index(key: string, row: nat): (i: nat)
      requires Ok()
      ensures i < width
    {
      hash(key, row) % width
    }
  }

  function Aged(s: Shape, h: seq<string>, count: nat): nat
    requires s.Ok()
  {
    if |h| % s.agingStep == 0 then Halved(count) else count
  }

  /** A counter after the increments `h`. */
  function Cell(s: Shape, h: seq<string>, row: nat, column: nat): nat
    requires s.Ok()
  {
    if h == [] then 0
    else
      var before := Cell(s, h[..|h| - 1], row, column);
      Aged(s, h, if s.Index(h[|h| - 1], row) == column then Bumped(before) else before)
  }

  /** The key's own increments, halved whenever the sketch is. */
  function Own(s: Shape, h: seq<string>, key: string): nat
    requires s.Ok()
  {
    if h == [] then 0
    else
      var before := Own(s, h[..|h| - 1], key);
      Aged(s, h, if h[|h| - 1] == key then Bumped(before) else before)
  }

  function Minimum(s: Shape, h: seq<string>, key: string, rows: nat): nat
    requires s.Ok()
  {
    if rows == 0 then MAX_COUNTER
    else
      var v, m := Cell(s, h, rows - 1, s.Index(key, rows - 1)), Minimum(s, h, key, rows - 1);
      if v < m then v else m
  }

  /** A saturated minimum is read as "never seen". */
  function Estimated(s: Shape, h: seq<string>, key: string): nat
    requires s.Ok()
  {
    if key == "" || Minimum(s, h, key, s.depth) == MAX_COUNTER then 0 else Minimum(s, h, key, s.depth)
  }

  lemma HalvedOrder(a: nat, b: nat)
    requires a <= b
    ensures Halved(a) <= Halved(b) && Bumped(a) <= Bumped(b) && (b <= MAX_COUNTER ==> a <= Bumped(b) <= MAX_COUNTER)
  {
  }

  lemma NextRemainder(n: nat, step: nat)
    requires step >= 1
    ensures (n + 1) % step == if n % step == step - 1 then 0 else n % step + 1
  {
    var q, r := n / step, n % step;
    assert n + 1 == q * step + (r + 1);
    if r == step - 1 {
      assert n + 1 == (q + 1) * step;
      MultipleRemainder(q + 1, step, 0);
    } else {
      MultipleRemainder(q, step, r + 1);
    }
  }

  lemma MultipleRemainder(q: nat, step: nat, r: nat)
    requires r < step
    ensures (q * step + r) % step == r
  {
    var d := (q * step + r) / step;
    assert q * step + r == d * step + (q * step + r) % step;
    assert (q - d) * step == (q * step + r) % step - r;
    assert q - d >= 1 ==> (q - d) * step >= step;
    assert q - d <= -1 ==> (q - d) * step <= 0 - step;
  }

  /** No counter outgrows the aging step by more than the increments since the last aging. */
  lemma {:induction false} CellBound(s: Shape, h: seq<string>, row: nat, column: nat)
    requires s.Ok()
    ensures Cell(s, h, row, column) <= s.agingStep + |h| % s.agingStep
    ensures Cell(s, h, row, column) <= MAX_COUNTER
  {
    if h != [] {
      CellBound(s, h[..|h| - 1], row, column);
      NextRemainder(|h| - 1, s.agingStep);
    }
  }

  /** The counter a key maps to is at least the key's own count. */
  lemma {:induction false} OwnBelowCell(s: Shape, h: seq<string>, key: string, row: nat)
    requires s.Ok()
    ensures Own(s, h, key) <= Cell(s, h, row, s.Index(key, row))
  {
    if h != [] {
      var init := h[..|h| - 1];
      OwnBelowCell(s, init, key, row);
      CellBound(s, init, row, s.Index(key, row));
      HalvedOrder(Own(s, init, key), Cell(s, init, row, s.Index(key, row)));
      HalvedOrder(Bumped(Own(s, init, key)), Bumped(Cell(s, init, row, s.Index(key, row))));
      HalvedOrder(Own(s, init, key), Bumped(Cell(s, init, row, s.Index(key, row))));
    }
  }

  lemma {:induction false} OwnBelowMinimum(s: Shape, h: seq<string>, key: string, rows: nat)
    requires s.Ok()
    ensures Own(s, h, key) <= Minimum(s, h, key, rows)
  {
    if rows == 0 {
      OwnBelowCell(s, h, key, 0);
      CellBound(s, h, 0, s.Index(key, 0));
    } else {
      OwnBelowMinimum(s, h, key, rows - 1);
      OwnBelowCell(s, h, key, rows - 1);
    }
  }

  /** With an aging step below 2^31 no counter saturates, so an estimate never undercounts a key
      and never exceeds the aging step by more than the increments since the last aging. */
  lemma EstimateBounds(s: Shape, h: seq<string>, key: string)
    requires s.Ok() && s.agingStep < 0x8000_0000 && key != ""
    ensures Own(s, h, key) <= Estimated(s, h, key) <= s.agingStep + |h| % s.agingStep
    ensures Estimated(s, h, key) == Minimum(s, h, key, s.depth) < MAX_COUNTER
  {
    OwnBelowMinimum(s, h, key, s.depth);
    CellBound(s, h, s.depth - 1, s.Index(key, s.depth - 1));
  }

  function Pow2(n: nat): (p: nat)
    ensures p >= 1
  {
    if n == 0 then 1 else 2 * Pow2(n - 1)
  }

  /** How often the key occurs. */
  function Occurrences(h: seq<string>, key: string): nat {
    if h == [] then 0 else Occurrences(h[..|h| - 1], key) + if h[|h| - 1] == key then 1 else 0
  }

  /** How often the sketch has aged. */
  function Agings(s: Shape, h: seq<string>): nat
    requires s.Ok()
  {
    if h == [] then 0 else Agings(s, h[..|h| - 1]) + if |h| % s.agingStep == 0 then 1 else 0
  }

  /** `own` is what is left of a number of requests that was halved once per factor 2 of `p`. */
  predicate LeftOf(own: nat, requests: nat, p: nat) {
    own <= requests < (own + 1) * p
  }

  lemma OneMoreLeft(own: nat, requests: nat, p: nat)
    requires LeftOf(own, requests, p) && p >= 1
    ensures LeftOf(own + 1, requests + 1, p)
  {
    assert (own + 2) * p == (own + 1) * p + p;
  }

  lemma HalvedLeft(own: nat, requests: nat, p: nat)
    requires LeftOf(own, requests, p) && p >= 1
    ensures LeftOf(Halved(own), requests, 2 * p)
  {
    var half := Halved(own) + 1;
    assert own + 1 <= 2 * half;
    Ordered(own + 1, 2 * half, p);
    assert (2 * half) * p == half * (2 * p);
  }

  lemma Ordered(a: nat, b: nat, p: nat)
    requires a <= b
    ensures a * p <= b * p
  {
  }

  /** A key's own count is its number of requests, halved at most once by every aging: never above the
      number of requests, and above that number divided by two per aging, less one.  Before the first
      aging it is exact. */
  lemma {:induction false} OwnIsAgedCount(s: Shape, h: seq<string>, key: string)
    requires s.Ok() && s.agingStep < 0x8000_0000
    ensures LeftOf(Own(s, h, key), Occurrences(h, key), Pow2(Agings(s, h)))
    ensures Agings(s, h) == 0 ==> Own(s, h, key) == Occurrences(h, key)
  {
    if h != [] {
      var init := h[..|h| - 1];
      OwnIsAgedCount(s, init, key);
      OwnIsSmall(s, init, key);
      var own, requests, p := Own(s, init, key), Occurrences(init, key), Pow2(Agings(s, init));
      if h[|h| - 1] == key {
        OneMoreLeft(own, requests, p);
        HalvedLeft(own + 1, requests + 1, p);
      } else {
        HalvedLeft(own, requests, p);
      }
    }
  }

  /** An estimate undercounts only by what aging takes: halving it back once per aging exceeds the number
      of requests. */
  lemma EstimateCountsRequests(s: Shape, h: seq<string>, key: string)
    requires s.Ok() && s.agingStep < 0x8000_0000 && key != ""
    ensures Occurrences(h, key) < (Estimated(s, h, key) + 1) * Pow2(Agings(s, h))
  {
    OwnIsAgedCount(s, h, key);
    EstimateBounds(s, h, key);
    Ordered(Own(s, h, key) + 1, Estimated(s, h, key) + 1, Pow2(Agings(s, h)));
  }

  lemma OwnIsSmall(s: Shape, h: seq<string>, key: string)
    requires s.Ok() && s.agingStep < 0x8000_0000
    ensures Own(s, h, key) < MAX_COUNTER
  {
    OwnBelowCell(s, h, key, 0);
    CellBound(s, h, 0, s.Index(key, 0));
  }

  lemma {:induction false} CountedOwn(s: Shape, h: seq<string>, key: string)
    requires s.Ok() && key in h
    ensures Own(s, h, key) >= 1
  {
    if h[|h| - 1] != key {
      CountedOwn(s, h[..|h| - 1], key);
    }
  }

  /** A key that was counted is never estimated at 0 again, however often the sketch ages. */
  lemma CountedIsPositive(s: Shape, h: seq<string>, key: string)
    requires s.Ok() && s.agingStep < 0x8000_0000 && key != "" && key in h
    ensures Estimated(s, h, key) >= 1
  {
    CountedOwn(s, h, key);
    EstimateBounds(s, h, key);
  }

  lemma CellAfter(s: Shape, h: seq<string>, key: string, row: nat, column: nat)
    requires s.Ok() && s.agingStep < 0x8000_0000
    ensures var before := Cell(s, h, row, column);
            Cell(s, h + [key], row, column) ==
            Aged(s, h + [key], if s.Index(key, row) == column then before + 1 else before)
  {
    assert (h + [key])[..|h|] == h;
    CellBound(s, h, row, column);
  }

  predicate OneStep(s: Shape, h: seq<string>, before: nat, after: nat, own: bool)
    requires s.Ok()
  {
    && Aged(s, h, before) <= after <= Aged(s, h, before + 1)
    && (own ==> after == Aged(s, h, before + 1))
  }

  lemma LesserOneStep(s: Shape, h: seq<string>, v: nat, v': nat, m: nat, m': nat, own: bool)
    requires s.Ok() && OneStep(s, h, v, v', own) && OneStep(s, h, m, m', own)
    ensures OneStep(s, h, if v < m then v else m, if v' < m' then v' else m', own)
  {
    if v < m {
      HalvedOrder(v + 1, m);
    } else {
      HalvedOrder(m, v);
      HalvedOrder(m + 1, v + 1);
    }
  }

  /** One more count of `key` raises the minimum of the key by 1 and any other by at most 1, before
      aging. */
  lemma {:induction false} MinimumAfter(s: Shape, h: seq<string>, key: string, k: string, rows: nat)
    requires s.Ok() && s.agingStep < 0x8000_0000 && rows >= 1
    ensures OneStep(s, h + [key], Minimum(s, h, k, rows), Minimum(s, h + [key], k, rows), k == key)
  {
    CellStep(s, h, key, k, rows - 1);
    if rows > 1 {
      MinimumAfter(s, h, key, k, rows - 1);
      var column := s.Index(k, rows - 1);
      LesserOneStep(s, h + [key], Cell(s, h, rows - 1, column), Cell(s, h + [key], rows - 1, column),
                    Minimum(s, h, k, rows - 1), Minimum(s, h + [key], k, rows - 1), k == key);
    } else {
      FirstMinimum(s, h, k);
      FirstMinimum(s, h + [key], k);
    }
  }

  lemma CellStep(s: Shape, h: seq<string>, key: string, k: string, row: nat)
    requires s.Ok() && s.agingStep < 0x8000_0000
    ensures OneStep(s, h + [key], Cell(s, h, row, s.Index(k, row)), Cell(s, h + [key], row, s.Index(k, row)), k == key)
  {
    CellAfter(s, h, key, row, s.Index(k, row));
    HalvedOrder(Cell(s, h, row, s.Index(k, row)), Cell(s, h, row, s.Index(k, row)) + 1);
  }

  lemma FirstMinimum(s: Shape, h: seq<string>, k: string)
    requires s.Ok() && s.agingStep < 0x8000_0000
    ensures Minimum(s, h, k, 1) == Cell(s, h, 0, s.Index(k, 0))
  {
    CellBound(s, h, 0, s.Index(k, 0));
    assert Minimum(s, h, k, 0) == MAX_COUNTER;
  }

  /** The estimates after one more count of `key`. */
  lemma OneMore(s: Shape, h: seq<string>, key: string, k: string)
    requires s.Ok() && s.agingStep < 0x8000_0000 && key != "" && k != ""
    ensures Aged(s, h + [key], Estimated(s, h, k)) <= Estimated(s, h + [key], k)
    ensures Estimated(s, h + [key], k) <= Aged(s, h + [key], Estimated(s, h, k) + 1)
    ensures Estimated(s, h + [key], key) == Aged(s, h + [key], Estimated(s, h, key) + 1)
  {
    EstimateBounds(s, h, k);
    EstimateBounds(s, h, key);
    EstimateBounds(s, h + [key], k);
    EstimateBounds(s, h + [key], key);
    MinimumAfter(s, h, key, k, s.depth);
    MinimumAfter(s, h, key, key, s.depth);
  }

  /** A key that is not rarer than another stays so when it is counted once more, collisions and
      aging included. */
  lemma RankKept(s: Shape, h: seq<string>, key: string, k: string)
    requires s.Ok() && s.agingStep < 0x8000_0000 && key != "" && k != ""
    requires Estimated(s, h, k) <= Estimated(s, h, key)
    ensures Estimated(s, h + [key], k) <= Estimated(s, h + [key], key)
  {
    OneMore(s, h, key, k);
    HalvedOrder(Estimated(s, h, k) + 1, Estimated(s, h, key) + 1);
  }

  predicate Alone(s: Shape, h: seq<string>, key: string, row: nat)
    requires s.Ok()
  {
    forall k :: k in h && s.Index(k, row) == s.Index(key, row) ==> k == key
  }

  lemma {:induction false} AloneIsOwn(s: Shape, h: seq<string>, key: string, row: nat)
    requires s.Ok() && Alone(s, h, key, row)
    ensures Cell(s, h, row, s.Index(key, row)) == Own(s, h, key)
  {
    if h != [] {
      assert h == h[..|h| - 1] + [h[|h| - 1]];
      AloneIsOwn(s, h[..|h| - 1], key, row);
    }
  }

  lemma {:induction false} MinimumBelow(s: Shape, h: seq<string>, key: string, rows: nat, row: nat)
    requires s.Ok() && row < rows
    ensures Minimum(s, h, key, rows) <= Cell(s, h, row, s.Index(key, row))
  {
    if row < rows - 1 {
      MinimumBelow(s, h, key, rows - 1, row);
    }
  }

  /** One row in which the key collides with no other is enough for an exact estimate. */
  lemma EstimateIsExactWithoutCollision(s: Shape, h: seq<string>, key: string, row: nat)
    requires s.Ok() && s.agingStep < 0x8000_0000 && key != ""
    requires row < s.depth && Alone(s, h, key, row)
    ensures Estimated(s, h, key) == Own(s, h, key)
  {
    AloneIsOwn(s, h, key, row);
    MinimumBelow(s, h, key, s.depth, row);
    EstimateBounds(s, h, key);
  }

  class CountMinSketch {
    const shape: Shape
    const counters: array2<nat>
    var ageCounter: nat
    ghost var increments: seq<string>

    ghost predicate Valid()
      reads this, counters
    {
      && shape.Ok() && counters.Length0 == shape.depth && counters.Length1 == shape.width
      && ageCounter == |increments|
      && forall i, j :: 0 <= i < shape.depth && 0 <= j < shape.width ==> counters[i, j] == Cell(shape, increments, i, j)
    }

    constructor (width: int, depth: int, agingStep: nat, hash: (string, nat) -> nat)
      requires agingStep >= 1
      ensures Valid() && increments == [] && fresh(counters)
      ensures shape == Shape(if width <= 0 then 512 else width, if depth <= 0 then 2 else depth, agingStep, hash)
    {
      var w: nat := if width <= 0 then 512 else width;
      var d: nat := if depth <= 0 then 2 else depth;
      shape := Shape(w, d, agingStep, hash);
      counters := new nat[d, w]((_, _) => 0);
      ageCounter, increments := 0, [];
    }

    method Increment(key: string)
      requires Valid()
      modifies this, counters
      ensures Valid() && increments == if key == "" then old(increments) else old(increments) + [key]
    {
      if key == "" {
        return;
      }
      for i := 0 to shape.depth
        invariant counters.Length0 == shape.depth && counters.Length1 == shape.width
        invariant increments == old(increments) && ageCounter == old(ageCounter)
        invariant forall r, c :: 0 <= r < shape.depth && 0 <= c < shape.width ==>
          counters[r, c] == if r < i && shape.Index(key, r) == c then Bumped(Cell(shape, increments, r, c))
                            else Cell(shape, increments, r, c)
      {
        var idx := shape.Index(key, i);
        if counters[i, idx] < MAX_COUNTER {
          counters[i, idx] := counters[i, idx] + 1;
        }
      }
      ageCounter := ageCounter + 1;
      ghost var before := increments;
      increments := increments + [key];
      assert increments[..|increments| - 1] == before;
      if ageCounter % shape.agingStep == 0 {
        Age();
      }
    }

    method Age()
      modifies counters
      ensures forall i, j :: 0 <= i < counters.Length0 && 0 <= j < counters.Length1 ==>
                counters[i, j] == Halved(old(counters[i, j]))
      ensures forall i, j :: 0 <= i < counters.Length0 && 0 <= j < counters.Length1 ==>
                counters[i, j] == if old(counters[i, j]) > 1 then old(counters[i, j]) / 2 else old(counters[i, j])
    {
      for i := 0 to counters.Length0
        invariant forall r, c :: 0 <= r < counters.Length0 && 0 <= c < counters.Length1 ==>
          counters[r, c] == if r < i then Halved(old(counters[r, c])) else old(counters[r, c])
      {
        for j := 0 to counters.Length1
          invariant forall r, c :: 0 <= r < counters.Length0 && 0 <= c < counters.Length1 ==>
            counters[r, c] == if r < i || (r == i && c < j) then Halved(old(counters[r, c])) else old(counters[r, c])
        {
          if counters[i, j] > 1 {
            counters[i, j] := counters[i, j] / 2;
          }
        }
      }
    }

    method Estimate(key: string) returns (n: nat)
      requires Valid()
      ensures n == Estimated(shape, increments, key)
      ensures shape.agingStep < 0x8000_0000 && key != "" ==>
                Own(shape, increments, key) <= n <= shape.agingStep + ageCounter % shape.agingStep
    {
      if shape.agingStep < 0x8000_0000 && key != "" {
        EstimateBounds(shape, increments, key);
      }
      if key == "" {
        return 0;
      }
      var minimum := MAX_COUNTER;
      for i := 0 to shape.depth
        invariant minimum == Minimum(shape, increments, key, i)
      {
        var v := counters[i, shape.Index(key, i)];
        if v < minimum {
          minimum := v;
        }
      }
      n := if minimum == MAX_COUNTER then 0 else minimum;
    }

    method Reset()
      requires Valid()
      modifies this, counters
      ensures Valid() && increments == []
    {
      for i := 0 to counters.Length0
        invariant counters.Length0 == shape.depth && counters.Length1 == shape.width
        invariant forall r, c :: 0 <= r < i && 0 <= c < counters.Length1 ==> counters[r, c] == 0
      {
        for j := 0 to counters.Length1
          invariant forall r, c ::
                      0 <= r < counters.Length0 && 0 <= c < counters.Length1 && (r < i || (r == i && c < j)) ==>
                        counters[r, c] == 0
        {
          counters[i, j] := 0;
        }
      }
      ageCounter, increments := 0, [];
    }
  }
}
