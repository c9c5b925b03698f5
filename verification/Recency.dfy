/** Lists of keys by recency, and the window in front of admission: the keys touched last. */
module Recency {

  predicate NoRepeats(keys: seq<string>) {
    forall i, j :: 0 <= i < j < |keys| ==> keys[i] != keys[j]
  }

  function Removed(lru: seq<string>, key: string): seq<string> {
    if lru == [] then []
    else if lru[0] == key then Removed(lru[1..], key)
    else [lru[0]] + Removed(lru[1..], key)
  }

  lemma {:induction false} RemovedElements(lru: seq<string>, key: string)
    ensures forall k :: k in Removed(lru, key) <==> k in lru && k != key
  {
    if lru != [] {
      RemovedElements(lru[1..], key);
      assert lru == [lru[0]] + lru[1..];
    }
  }

  lemma FrontedNoRepeats(key: string, rest: seq<string>)
    requires NoRepeats(rest) && key !in rest
    ensures NoRepeats([key] + rest)
  {
  }

  lemma {:induction false} RemovedNoRepeats(lru: seq<string>, key: string)
    requires NoRepeats(lru)
    ensures NoRepeats(Removed(lru, key))
  {
    if lru != [] {
      RemovedNoRepeats(lru[1..], key);
      RemovedElements(lru[1..], key);
      if lru[0] != key {
        assert lru[0] !in lru[1..];
        FrontedNoRepeats(lru[0], Removed(lru[1..], key));
      }
    }
  }

  lemma {:induction false} RemovedShorter(lru: seq<string>, key: string)
    requires NoRepeats(lru)
    ensures |Removed(lru, key)| == if key in lru then |lru| - 1 else |lru|
  {
    if lru != [] {
      RemovedShorter(lru[1..], key);
      assert lru == [lru[0]] + lru[1..];
    }
  }

  lemma {:induction false} RemovedFrom(pre: seq<string>, rest: seq<string>, key: string)
    ensures Removed(pre + rest, key) == Removed(pre, key) + Removed(rest, key)
  {
    if pre != [] {
      RemovedFrom(pre[1..], rest, key);
      assert (pre + rest)[1..] == pre[1..] + rest;
    } else {
      assert pre + rest == rest;
    }
  }

  lemma {:induction false} RemovedAbsent(lru: seq<string>, key: string)
    requires key !in lru
    ensures Removed(lru, key) == lru
  {
    if lru != [] {
      RemovedAbsent(lru[1..], key);
    }
  }

  // ---- The window -------------------------------------------------------------------

  function Front(lru: seq<string>, n: nat): seq<string> {
    if |lru| > n then lru[..n] else lru
  }

  function Touched(lru: seq<string>, key: string, size: nat): seq<string> {
    if key == "" then lru else Front([key] + Removed(lru, key), size)
  }

  /** The window after touching `keys`, the most recent key first. */
  function Kept(keys: seq<string>, size: nat): seq<string> {
    if keys == [] then [] else Touched(Kept(keys[..|keys| - 1], size), keys[|keys| - 1], size)
  }

  /** All keys ever touched, the most recent first. */
  function AllTouched(keys: seq<string>): seq<string> {
    if keys == [] then []
    else
      var before, key := AllTouched(keys[..|keys| - 1]), keys[|keys| - 1];
      if key == "" then before else [key] + Removed(before, key)
  }

  /** The other keys touched since `key` was touched last. */
  function Since(keys: seq<string>, key: string): set<string> {
    if keys == [] || keys[|keys| - 1] == key then {}
    else Since(keys[..|keys| - 1], key) + ({keys[|keys| - 1]} - {""})
  }

  lemma {:induction false} AllTouchedNoRepeats(keys: seq<string>)
    ensures NoRepeats(AllTouched(keys))
  {
    if keys != [] {
      var before, key := AllTouched(keys[..|keys| - 1]), keys[|keys| - 1];
      AllTouchedNoRepeats(keys[..|keys| - 1]);
      RemovedNoRepeats(before, key);
      RemovedElements(before, key);
      FrontedNoRepeats(key, Removed(before, key));
    }
  }

  /** Touching a key in front of a longer list or in front of its beginning comes to the same. */
  lemma FrontTouched(all: seq<string>, key: string, size: nat)
    requires NoRepeats(all) && size >= 1
    ensures Front([key] + Removed(Front(all, size), key), size) == Front([key] + Removed(all, key), size)
  {
    if |all| > size {
      var pre, rest := all[..size], all[size..];
      assert all == pre + rest;
      RemovedFrom(pre, rest, key);
      RemovedShorter(pre, key);
    }
  }

  /** The window is the beginning of the list of all keys by recency. */
  lemma {:induction false} KeptIsFront(keys: seq<string>, size: nat)
    requires size >= 1
    ensures Kept(keys, size) == Front(AllTouched(keys), size)
  {
    if keys != [] {
      var init, key := keys[..|keys| - 1], keys[|keys| - 1];
      KeptIsFront(init, size);
      AllTouchedNoRepeats(init);
      FrontTouched(AllTouched(init), key, size);
    }
  }

  lemma {:induction false} AsMany(lru: seq<string>, keys: set<string>)
    requires NoRepeats(lru) && forall k :: k in lru <==> k in keys
    ensures |lru| == |keys|
  {
    if lru != [] {
      assert lru == [lru[0]] + lru[1..];
      AsMany(lru[1..], keys - {lru[0]});
    } else {
      assert keys == {};
    }
  }

  /** In front of a key are exactly the others touched since. */
  lemma {:induction false} InFront(keys: seq<string>, key: string) returns (pre: seq<string>, post: seq<string>)
    requires key in keys && key != ""
    ensures AllTouched(keys) == pre + [key] + post && NoRepeats(pre) && key !in pre
    ensures forall k :: k in pre <==> k in Since(keys, key)
  {
    var init, last := keys[..|keys| - 1], keys[|keys| - 1];
    if last == key {
      pre, post := [], Removed(AllTouched(init), key);
    } else {
      assert keys == init + [last];
      pre, post := InFront(init, key);
      if last != "" {
        RemovedFrom(pre + [key], post, last);
        RemovedFrom(pre, [key], last);
        RemovedAbsent([key], last);
        RemovedElements(pre, last);
        RemovedNoRepeats(pre, last);
        FrontedNoRepeats(last, Removed(pre, last));
        pre, post := [last] + Removed(pre, last), Removed(post, last);
      }
    }
  }

  lemma {:induction false} OnlyTouched(keys: seq<string>, key: string)
    ensures key in AllTouched(keys) ==> key in keys && key != ""
  {
    if keys != [] {
      var init := keys[..|keys| - 1];
      OnlyTouched(init, key);
      RemovedElements(AllTouched(init), keys[|keys| - 1]);
    }
  }

  /** Touched, with fewer than `size` other keys touched since. */
  predicate Known(keys: seq<string>, key: string, size: nat) {
    key != "" && key in keys && |Since(keys, key)| < size
  }

  /** The window of `size` keys holds a key if and only if it was touched and fewer than `size` other
      keys have been touched since. */
  lemma KeptIffKnown(keys: seq<string>, key: string, size: nat)
    requires size >= 1
    ensures key in Kept(keys, size) <==> Known(keys, key, size)
  {
    KeptIsFront(keys, size);
    if key in keys && key != "" {
      var pre, post := InFront(keys, key);
      AsMany(pre, Since(keys, key));
      AllTouchedNoRepeats(keys);
      var all := AllTouched(keys);
      assert all[|pre|] == key;
      if |pre| < size {
        assert Front(all, size)[|pre|] == key;
      }
    } else {
      OnlyTouched(keys, key);
    }
  }

  lemma DroppedBack(lru: seq<string>)
    requires NoRepeats(lru) && lru != []
    ensures NoRepeats(lru[..|lru| - 1])
    ensures forall k :: k in lru[..|lru| - 1] <==> k in lru && k != lru[|lru| - 1]
  {
    assert lru == lru[..|lru| - 1] + [lru[|lru| - 1]];
  }

  /** Moving a key to the front, or adding it there. */
  lemma Fronted(lru: seq<string>, key: string)
    requires NoRepeats(lru)
    ensures var moved := [key] + Removed(lru, key);
            && NoRepeats(moved) && (forall k :: k in moved <==> k in lru || k == key)
            && |moved| == if key in lru then |lru| else |lru| + 1
    ensures key !in lru ==> Removed(lru, key) == lru
  {
    RemovedElements(lru, key);
    RemovedShorter(lru, key);
    RemovedNoRepeats(lru, key);
    FrontedNoRepeats(key, Removed(lru, key));
    if key !in lru {
      RemovedAbsent(lru, key);
    }
  }

  class LruWindow {
    const size: nat
    var lru: seq<string>
    var entries: set<string>
    ghost var touched: seq<string>

    ghost predicate Valid()
      reads this
    {
      && size >= 1 && lru == Kept(touched, size) && NoRepeats(lru) && |lru| <= size
      && forall k :: k in lru <==> k in entries
    }

    constructor (configured: int)
      ensures Valid() && touched == [] && size == if configured <= 0 then 32 else configured
    {
      size := if configured <= 0 then 32 else configured;
      lru, entries, touched := [], {}, [];
    }

    method Touch(key: string) returns (ok: bool)
      requires Valid()
      modifies this
      ensures Valid() && ok == (key != "")
      ensures touched == if key == "" then old(touched) else old(touched) + [key]
    {
      if key == "" {
        return false;
      }
      touched := touched + [key];
      assert touched[..|touched| - 1] == old(touched);
      Fronted(lru, key);
      if key in entries {
        lru := [key] + Removed(lru, key);
        return true;
      }
      lru, entries := [key] + lru, entries + {key};
      if |lru| > size {
        DroppedBack(lru);
        var back := lru[|lru| - 1];
        lru, entries := lru[..|lru| - 1], entries - {back};
      }
      return true;
    }

    /** True exactly if the key was touched and fewer than `size` others have been since. */
    method Contains(key: string) returns (yes: bool)
      requires Valid()
      ensures yes == Known(touched, key, size)
    {
      KeptIffKnown(touched, key, size);
      return key != "" && key in entries;
    }
  }
}
