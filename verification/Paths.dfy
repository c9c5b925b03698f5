/** Finite runs of a state machine given by its steps: `next(s, t, s')` if step `t` leads from `s` to `s'`. */
module Paths {

  ghost predicate Path<S(!new), T(!new)>(next: (S, T, S) -> bool, s: S, steps: seq<T>, s': S)
    decreases |steps|
  {
    if steps == [] then s' == s
    else exists mid :: next(s, steps[0], mid) && Path(next, mid, steps[1..], s')
  }

  lemma PathFirst<S(!new), T(!new)>(next: (S, T, S) -> bool, s: S, t: T, mid: S, rest: seq<T>, s': S)
    requires next(s, t, mid) && Path(next, mid, rest, s')
    ensures Path(next, s, [t] + rest, s')
  {
    assert ([t] + rest)[0] == t && ([t] + rest)[1..] == rest;
  }

  lemma PathOne<S(!new), T(!new)>(next: (S, T, S) -> bool, s: S, t: T, s': S)
    requires next(s, t, s')
    ensures Path(next, s, [t], s')
  {
    PathFirst(next, s, t, s', [], s');
    assert [t] + [] == [t];
  }

  lemma {:induction false} PathOn<S(!new), T(!new)>(next: (S, T, S) -> bool, s: S, before: seq<T>, mid: S,
                                                    after: seq<T>, s': S)
    requires Path(next, s, before, mid) && Path(next, mid, after, s')
    ensures Path(next, s, before + after, s')
    decreases |before|
  {
    if before == [] {
      assert before + after == after;
    } else {
      var first :| next(s, before[0], first) && Path(next, first, before[1..], mid);
      PathOn(next, first, before[1..], mid, after, s');
      PathFirst(next, s, before[0], first, before[1..] + after, s');
      assert [before[0]] + (before[1..] + after) == before + after;
    }
  }
}
