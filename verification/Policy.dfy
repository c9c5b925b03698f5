/**
  Freshness: how long a response may be served, and for how long beyond that while it is being
  revalidated or while the upstream fails (sections 3 and 4 of RFC 5861, section 5.2.2.2 of RFC 9111).
*/
module Policy {
  import opened Lru
  import A = Admission

  const SECOND: int := 1_000_000_000
  const MINUTE: int := 60 * SECOND
  const INT64_MAX: int := 0x7FFF_FFFF_FFFF_FFFF

  /** Seconds up to this fit a duration. */
  const MAX_SECONDS: int := 9223372036

  /** A Cache-Control directive; `Number` is an argument that parses as an int64. */
  datatype Name = MaxAge | MustRevalidate | ProxyRevalidate | WhileRevalidate | IfError | OtherName
  datatype Argument = Missing | Malformed | Number(n: int)
  datatype Directive = Directive(name: Name, argument: Argument)

  datatype CachePolicy = CachePolicy(
    successTtl: int, errorTtl: int, respectResponseTtl: bool, maxTtl: int,
    staleWhileRevalidate: int, staleIfError: int)
  {
    function Normalized(): CachePolicy {
      CachePolicy(
        if successTtl <= 0 then 5 * MINUTE else successTtl,
        if errorTtl <= 0 then MINUTE else errorTtl,
        respectResponseTtl, maxTtl,
        if staleWhileRevalidate < 0 then 0 else staleWhileRevalidate,
        if staleIfError < 0 then 0 else staleIfError)
    }
  }

  /** An int64 after overflow. */
  function Wrapped(x: int): (w: int)
    ensures 0 - INT64_MAX - 1 <= w <= INT64_MAX
  {
    (x + INT64_MAX + 1) % 0x1_0000_0000_0000_0000 - INT64_MAX - 1
  }

  function Seconds(n: int): int {
    Wrapped(n * SECOND)
  }

  /** Multiplying header seconds into a duration is exact for as many seconds as fit, and wrong
      for every larger number. */
  lemma SecondsExactIffTheyFit(n: nat)
    ensures Seconds(n) == n * 1_000_000_000 <==> n <= 9223372036
  {
  }

  // ---- Time to live -----------------------------------------------------------------

  predicate GivesAge(d: Directive) {
    d.name == MaxAge && d.argument.Number? && d.argument.n >= 0
  }

  datatype Ttl = Unstated | Expired | Lifetime(ttl: int)

  function FromExpires(expiresIn: A.Option<int>): Ttl {
    if expiresIn.None? then Unstated else if expiresIn.value <= 0 then Expired else Lifetime(expiresIn.value)
  }

  /** `expiresIn` is the time left until the Expires header, if it parses. */
  function HeaderTtl(ds: seq<Directive>, expiresIn: A.Option<int>): Ttl {
    if ds == [] then FromExpires(expiresIn)
    else if GivesAge(ds[0]) then (if ds[0].argument.n == 0 then Expired else Lifetime(Seconds(ds[0].argument.n)))
    else HeaderTtl(ds[1..], expiresIn)
  }

  predicate FirstAge(ds: seq<Directive>, i: nat) {
    i < |ds| && GivesAge(ds[i]) && forall j :: 0 <= j < i ==> !GivesAge(ds[j])
  }

  /** The first usable max-age decides, whatever comes after it; without one the Expires header. */
  lemma {:induction false} FirstAgeDecides(ds: seq<Directive>, expiresIn: A.Option<int>)
    ensures forall i: nat :: FirstAge(ds, i) ==>
              HeaderTtl(ds, expiresIn) == if ds[i].argument.n == 0 then Expired else Lifetime(Seconds(ds[i].argument.n))
    ensures (forall i: nat :: !FirstAge(ds, i)) ==>
              HeaderTtl(ds, expiresIn) ==
              if expiresIn.None? then Unstated
              else if expiresIn.value > 0 then Lifetime(expiresIn.value) else Expired
    ensures AgesFit(ds) && HeaderTtl(ds, expiresIn).Lifetime? ==> HeaderTtl(ds, expiresIn).ttl > 0
  {
    if ds != [] {
      FirstAgeDecides(ds[1..], expiresIn);
      if GivesAge(ds[0]) {
        assert FirstAge(ds, 0);
        SecondsExactIffTheyFit(ds[0].argument.n);
      } else {
        forall i: nat
          ensures FirstAge(ds, i) <==> i > 0 && FirstAge(ds[1..], i - 1)
        {
          if i > 0 && FirstAge(ds[1..], i - 1) {
            assert forall j :: 0 < j < i ==> ds[j] == ds[1..][j - 1];
          }
        }
        forall i: nat
          ensures FirstAge(ds[1..], i) ==> FirstAge(ds, i + 1)
        {
        }
      }
    }
  }

  predicate AgesFit(ds: seq<Directive>) {
    forall i :: 0 <= i < |ds| && GivesAge(ds[i]) ==> ds[i].argument.n <= MAX_SECONDS
  }

  method TtlFromHeaders(ds: seq<Directive>, expiresIn: A.Option<int>) returns (t: Ttl)
    ensures t == HeaderTtl(ds, expiresIn)
  {
    for i := 0 to |ds|
      invariant HeaderTtl(ds, expiresIn) == HeaderTtl(ds[i..], expiresIn)
    {
      assert ds[i..][1..] == ds[i + 1..];
      if !ds[i].argument.Number? || ds[i].name != MaxAge {
        continue;
      }
      var seconds := ds[i].argument.n;
      if seconds >= 0 {
        if seconds == 0 {
          return Expired;
        }
        return Lifetime(Seconds(seconds));
      }
    }
    if expiresIn.Some? {
      if expiresIn.value <= 0 {
        return Expired;
      }
      return Lifetime(expiresIn.value);
    }
    return Unstated;
  }

  /** The lifetime part of the storing decision; no lifetime means the response is not stored. */
  method ResponseLifetime(policy: CachePolicy, status: nat, ds: seq<Directive>, expiresIn: A.Option<int>)
    returns (ttl: A.Option<int>)
    ensures ttl.None? <==> policy.respectResponseTtl && HeaderTtl(ds, expiresIn) == Expired
    ensures ttl.Some? ==>
              var stated :=
                if policy.respectResponseTtl && HeaderTtl(ds, expiresIn).Lifetime? then HeaderTtl(ds, expiresIn).ttl
                else if status >= 400 then (if policy.errorTtl > 0 then policy.errorTtl else 60 * 1_000_000_000)
                else if policy.successTtl > 0 then policy.successTtl else 300 * 1_000_000_000;
              && (policy.maxTtl <= 0 || stated <= policy.maxTtl ==> ttl.value == stated)
              && (policy.maxTtl > 0 && stated > policy.maxTtl ==> ttl.value == policy.maxTtl)
    ensures ttl.Some? && AgesFit(ds) ==> ttl.value > 0
  {
    FirstAgeDecides(ds, expiresIn);
    var p := policy.Normalized();
    var base := if status >= 400 then p.errorTtl else p.successTtl;
    if p.respectResponseTtl {
      var t := TtlFromHeaders(ds, expiresIn);
      match t
      case Expired => return A.None;
      case Lifetime(n) => base := n;
      case Unstated =>
    }
    ttl := A.Some(if p.maxTtl > 0 && base > p.maxTtl then p.maxTtl else base);
  }

  // ---- Serving beyond the lifetime --------------------------------------------------

  datatype Windows = Windows(whileRevalidate: int, ifError: int)
  {
    /** How long past expiry an entry can be of any use. */
    function Longer(): int {
      var w := if whileRevalidate > ifError then whileRevalidate else ifError;
      if w > 0 then w else 0
    }
  }

  predicate Forbids(d: Directive) {
    d.name == MustRevalidate || d.name == ProxyRevalidate
  }

  predicate NeverStale(ds: seq<Directive>) {
    exists i :: 0 <= i < |ds| && Forbids(ds[i])
  }

  predicate GivesWindow(d: Directive, name: Name) {
    d.name == name && d.argument.Number? && d.argument.n >= 0
  }

  predicate LastGiven(ds: seq<Directive>, name: Name, i: nat) {
    i < |ds| && GivesWindow(ds[i], name) && forall j :: i < j < |ds| ==> !GivesWindow(ds[j], name)
  }

  function LastWindow(ds: seq<Directive>, name: Name, configured: int): int {
    if ds == [] then configured
    else if GivesWindow(ds[|ds| - 1], name) then Seconds(ds[|ds| - 1].argument.n)
    else LastWindow(ds[..|ds| - 1], name, configured)
  }

  lemma LastGivenEarlier(ds: seq<Directive>, name: Name, i: nat)
    requires ds != [] && !GivesWindow(ds[|ds| - 1], name)
    ensures LastGiven(ds, name, i) <==> LastGiven(ds[..|ds| - 1], name, i)
  {
    var init := ds[..|ds| - 1];
    if LastGiven(init, name, i) {
      forall j | i < j < |ds|
        ensures !GivesWindow(ds[j], name)
      {
        assert j < |init| ==> ds[j] == init[j];
      }
    }
    if LastGiven(ds, name, i) {
      forall j | i < j < |init|
        ensures !GivesWindow(init[j], name)
      {
        assert init[j] == ds[j];
      }
    }
  }

  /** The last usable directive of the name decides (unlike max-age, where the first one does);
      without one the configured window stays. */
  lemma {:induction false} LastDirectiveDecides(ds: seq<Directive>, name: Name, configured: int)
    ensures forall i: nat :: LastGiven(ds, name, i) ==> LastWindow(ds, name, configured) == Seconds(ds[i].argument.n)
    ensures (forall i: nat :: !LastGiven(ds, name, i)) ==> LastWindow(ds, name, configured) == configured
  {
    if ds != [] {
      var init, last := ds[..|ds| - 1], |ds| - 1;
      if GivesWindow(ds[last], name) {
        assert LastGiven(ds, name, last);
      } else {
        LastDirectiveDecides(init, name, configured);
        forall i: nat
          ensures LastGiven(ds, name, i) <==> LastGiven(init, name, i)
        {
          LastGivenEarlier(ds, name, i);
        }
      }
    }
  }

  function StaleWindows(policy: CachePolicy, ds: seq<Directive>): Windows {
    if NeverStale(ds) then Windows(0, 0)
    else Windows(LastWindow(ds, WhileRevalidate, policy.staleWhileRevalidate),
                 LastWindow(ds, IfError, policy.staleIfError))
  }

  /** Both windows are zero where staleness is forbidden anywhere; otherwise each is what the last usable
      directive of its own name says, or as configured. */
  lemma WindowsByDirective(policy: CachePolicy, ds: seq<Directive>)
    ensures (exists i :: 0 <= i < |ds| && (ds[i].name == MustRevalidate || ds[i].name == ProxyRevalidate)) ==>
              StaleWindows(policy, ds) == Windows(0, 0)
    ensures (forall i :: 0 <= i < |ds| ==> ds[i].name != MustRevalidate && ds[i].name != ProxyRevalidate) ==>
              var w := StaleWindows(policy, ds);
              && (forall i: nat :: LastGiven(ds, WhileRevalidate, i) ==> w.whileRevalidate == Seconds(ds[i].argument.n))
              && (forall i: nat :: LastGiven(ds, IfError, i) ==> w.ifError == Seconds(ds[i].argument.n))
              && ((forall i: nat :: !LastGiven(ds, WhileRevalidate, i)) ==>
                    w.whileRevalidate == policy.staleWhileRevalidate)
              && ((forall i: nat :: !LastGiven(ds, IfError, i)) ==> w.ifError == policy.staleIfError)
  {
    LastDirectiveDecides(ds, WhileRevalidate, policy.staleWhileRevalidate);
    LastDirectiveDecides(ds, IfError, policy.staleIfError);
    if i :| 0 <= i < |ds| && (ds[i].name == MustRevalidate || ds[i].name == ProxyRevalidate) {
      assert Forbids(ds[i]);
    }
  }

  method ParseStaleWindows(policy: CachePolicy, ds: seq<Directive>) returns (swr: int, sie: int)
    ensures Windows(swr, sie) == StaleWindows(policy, ds)
  {
    swr, sie := policy.staleWhileRevalidate, policy.staleIfError;
    for i := 0 to |ds|
      invariant !NeverStale(ds[..i])
      invariant swr == LastWindow(ds[..i], WhileRevalidate, policy.staleWhileRevalidate)
      invariant sie == LastWindow(ds[..i], IfError, policy.staleIfError)
    {
      assert ds[..i + 1][..i] == ds[..i];
      var d := ds[i];
      if d.name == MustRevalidate || d.name == ProxyRevalidate {
        assert Forbids(ds[i]);
        return 0, 0;
      }
      if !d.argument.Number? || d.argument.n < 0 {
        continue;
      }
      if d.name == WhileRevalidate {
        swr := Seconds(d.argument.n);
      } else if d.name == IfError {
        sie := Seconds(d.argument.n);
      }
    }
    assert ds[..|ds|] == ds;
  }

  /** What comes back from the upstream; the version and the tags are those read from the headers. */
  datatype Upstream = Upstream(status: nat, body: seq<bv8>, headers: seq<Header>, version: nat, tags: seq<string>)

  function BuildItem(key: string, up: Upstream, ttl: int, windows: Windows, now: int): Item {
    var w := if windows.whileRevalidate > windows.ifError then windows.whileRevalidate else windows.ifError;
    Item(key, up.body, up.headers, up.status, now + ttl, now + ttl + w, now, up.version, up.tags)
  }

  /** The item's times come from the policy and its own headers. */
  predicate Built(policy: CachePolicy, parse: seq<Header> -> seq<Directive>, item: Item) {
    && 0 < item.storedAt < item.expiresAt
    && item.RemoveAt() == item.expiresAt + StaleWindows(policy, parse(item.headers)).Longer()
  }

  lemma BuildItemIsBuilt(policy: CachePolicy, parse: seq<Header> -> seq<Directive>, key: string, up: Upstream,
                         ttl: int, now: int)
    requires 0 < now && 0 < ttl
    ensures Built(policy, parse, BuildItem(key, up, ttl, StaleWindows(policy, parse(up.headers)), now))
  {
  }

  datatype Answer = Hit | Revalidating | StaleIfError | Forwarded

  /** The decision of a request that found the item; `failed` is an upstream error or a 5xx. */
  function Decide(item: Item, isFresh: bool, decided: int, windows: Windows, failed: bool): Answer {
    if isFresh then Hit
    else if decided < item.expiresAt + windows.whileRevalidate then Revalidating
    else if decided < item.expiresAt + windows.ifError && failed then StaleIfError
    else Forwarded
  }

  /** The bound on what is served from cache: within the lifetime, or within the window that allows
      it, and nothing but fresh items when the response forbids staleness. */
  predicate WithinBound(item: Item, answer: Answer, looked: int, windows: Windows, failed: bool) {
    match answer
    case Hit => looked < item.expiresAt
    case Revalidating => item.expiresAt <= looked < item.expiresAt + windows.whileRevalidate
    case StaleIfError => failed && item.expiresAt <= looked < item.expiresAt + windows.ifError
    case Forwarded => true
  }

  /** Some window, judged at the time of the decision, allows the item to be served. */
  predicate Allowed(item: Item, decided: int, windows: Windows, failed: bool) {
    || decided < item.expiresAt + windows.whileRevalidate
    || (failed && decided < item.expiresAt + windows.ifError)
  }

  /** Deciding later than looking up only ever serves less, and whatever is fresh or allowed when it
      is decided is served. */
  lemma DecisionWithinBound(policy: CachePolicy, parse: seq<Header> -> seq<Directive>, item: Item,
                            looked: int, decided: int, failed: bool)
    requires Built(policy, parse, item) && looked <= decided
    ensures var windows := StaleWindows(policy, parse(item.headers));
            var answer := Decide(item, item.Fresh(looked), decided, windows, failed);
            && WithinBound(item, answer, looked, windows, failed)
            && (answer == Forwarded <==> !item.Fresh(looked) && !Allowed(item, decided, windows, failed))
            && (NeverStale(parse(item.headers)) ==> answer == Hit || answer == Forwarded)
            && (item.Expired(looked) ==> answer == Forwarded)
            && (item.Expired(looked) <==> looked >= item.expiresAt + windows.Longer())
  {
  }
}
