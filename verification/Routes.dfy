/** Route templates: matching a path, expanding a template, tags by template, learning transitions. */
module Routes {
  import opened Events
  import A = Admission

  type Params = map<string, string>

  // ---- Paths ------------------------------------------------------------------------

  function Join(parts: seq<string>): string {
    if parts == [] then "" else if |parts| == 1 then parts[0] else parts[0] + "/" + Join(parts[1..])
  }

  /** Splitting at every slash; there is always at least one part. */
  function Split(s: string): (parts: seq<string>)
    ensures |parts| >= 1
  {
    if s == "" then [""]
    else
      var rest := Split(s[1..]);
      if s[0] == '/' then [""] + rest else [[s[0]] + rest[0]] + rest[1..]
  }

  function TrimLeft(s: string): string {
    if s != "" && s[0] == '/' then TrimLeft(s[1..]) else s
  }

  function TrimRight(s: string): string {
    if s != "" && s[|s| - 1] == '/' then TrimRight(s[..|s| - 1]) else s
  }

  function SplitPath(p: string): seq<string> {
    var trimmed := TrimRight(TrimLeft(p));
    if trimmed == "" then [] else Split(trimmed)
  }

  predicate Segment(s: string) {
    s != "" && '/' !in s
  }

  predicate Segments(parts: seq<string>) {
    forall i :: 0 <= i < |parts| ==> Segment(parts[i])
  }

  /** Lexical cleaning of a rooted path: empty and "." parts go, ".." takes the part before it. */
  function Cleaned(parts: seq<string>): (clean: seq<string>)
    requires forall i :: 0 <= i < |parts| ==> '/' !in parts[i]
    ensures Segments(clean)
  {
    if parts == [] then []
    else
      var before, last := Cleaned(parts[..|parts| - 1]), parts[|parts| - 1];
      if last == "" || last == "." then before
      else if last == ".." then (if before == [] then [] else before[..|before| - 1])
      else before + [last]
  }

  lemma {:induction false} SplitHasNoSlash(s: string)
    ensures forall i :: 0 <= i < |Split(s)| ==> '/' !in Split(s)[i]
  {
    if s != "" {
      SplitHasNoSlash(s[1..]);
    }
  }

  /** The key of a route: the cleaned path with one leading slash and no trailing one. */
  function RouteKey(p: string): string {
    SplitHasNoSlash(p);
    "/" + Join(Cleaned(Split(p)))
  }

  lemma {:induction false} SplitSegment(s: string, rest: string)
    requires '/' !in s
    ensures Split(s) == [s]
    ensures Split(s + "/" + rest) == [s] + Split(rest)
  {
    if s == "" {
      assert (s + "/" + rest)[1..] == rest;
    } else {
      SplitSegment(s[1..], rest);
      assert (s + "/" + rest)[1..] == s[1..] + "/" + rest;
      assert [s[0]] + s[1..] == s;
    }
  }

  predicate NoSlashes(parts: seq<string>) {
    forall i :: 0 <= i < |parts| ==> '/' !in parts[i]
  }

  /** What splitting a path yields: no slashes, and nothing empty at either end. */
  predicate Path(parts: seq<string>) {
    NoSlashes(parts) && (parts != [] ==> parts[0] != "" && parts[|parts| - 1] != "")
  }

  lemma {:induction false} SplitJoin(parts: seq<string>)
    requires NoSlashes(parts) && parts != []
    ensures Split(Join(parts)) == parts
  {
    if |parts| == 1 {
      SplitSegment(parts[0], "");
    } else {
      SplitJoin(parts[1..]);
      SplitSegment(parts[0], Join(parts[1..]));
    }
  }

  lemma {:induction false} JoinEnds(parts: seq<string>)
    requires NoSlashes(parts) && parts != [] && parts[|parts| - 1] != ""
    ensures Join(parts) != "" && Join(parts)[|Join(parts)| - 1] != '/'
    ensures parts[0] != "" ==> Join(parts)[0] != '/'
  {
    if |parts| > 1 {
      JoinEnds(parts[1..]);
    }
  }

  lemma {:induction false} SplitEnds(s: string)
    ensures s != "" && s[0] != '/' ==> Split(s)[0] != ""
    ensures s != "" && s[|s| - 1] != '/' ==> Split(s)[|Split(s)| - 1] != ""
  {
    if |s| > 1 {
      SplitEnds(s[1..]);
    }
  }

  lemma {:induction false} TrimEnds(s: string)
    ensures TrimLeft(s) != "" ==> TrimLeft(s)[0] != '/'
    ensures TrimRight(s) != "" ==> TrimRight(s)[|TrimRight(s)| - 1] != '/' && TrimRight(s)[0] == s[0]
  {
    if s != "" {
      TrimEnds(s[1..]);
      TrimEnds(s[..|s| - 1]);
    }
  }

  lemma SplitPathIsPath(p: string)
    ensures Path(SplitPath(p))
  {
    TrimEnds(p);
    TrimEnds(TrimLeft(p));
    SplitEnds(TrimRight(TrimLeft(p)));
    SplitHasNoSlash(TrimRight(TrimLeft(p)));
  }

  /** A path built from parts splits into exactly these parts if they are those of some path. */
  lemma SplitPathJoinIff(parts: seq<string>)
    ensures SplitPath("/" + Join(parts)) == parts <==> Path(parts)
  {
    var p := "/" + Join(parts);
    SplitPathIsPath(p);
    assert p[1..] == Join(parts) && TrimLeft(p) == TrimLeft(p[1..]);
    if Path(parts) && parts != [] {
      JoinEnds(parts);
      SplitJoin(parts);
      assert TrimRight(TrimLeft(p)) == Join(parts);
    } else if parts == [] {
      assert TrimRight(TrimLeft(p)) == "";
    }
  }

  /** Every route key is a path built from segments. */
  lemma RouteKeySegments(p: string)
    ensures Segments(SplitPath(RouteKey(p))) && RouteKey(p) == "/" + Join(SplitPath(RouteKey(p)))
  {
    SplitHasNoSlash(p);
    SplitPathJoinIff(Cleaned(Split(p)));
  }

  // ---- Routes -----------------------------------------------------------------------

  datatype Route = Route(pattern: string, tags: seq<string>)
  datatype Compiled = Compiled(pattern: string, segments: seq<string>, tags: seq<string>)

  function Placeholder(segment: string): A.Option<string> {
    if |segment| >= 2 && segment[0] == '{' && segment[|segment| - 1] == '}'
    then A.Some(segment[1..|segment| - 1]) else A.None
  }

  predicate Named(segments: seq<string>, i: nat, name: string) {
    i < |segments| && Placeholder(segments[i]) == A.Some(name)
  }

  /** Placeholders have names, each used once. */
  ghost predicate Distinct(segments: seq<string>) {
    && (forall i: nat :: !Named(segments, i, ""))
    && (forall i: nat, j: nat, name :: Named(segments, i, name) && Named(segments, j, name) ==> i == j)
  }

  /** Literals agree. */
  predicate Agrees(want: seq<string>, segments: seq<string>) {
    |segments| == |want| && forall i :: 0 <= i < |want| && Placeholder(want[i]).None? ==> segments[i] == want[i]
  }

  /** `params` gives every placeholder its segment and nothing else. */
  ghost predicate Binds(want: seq<string>, segments: seq<string>, params: Params)
    requires |segments| == |want|
  {
    && (forall i: nat, name :: Named(want, i, name) ==> name in params)
    && (forall name :: name in params ==> exists i: nat :: Named(want, i, name) && segments[i] == params[name])
  }

  /** Matching succeeds exactly when the literals agree, and binds the placeholders. */
  method MatchSegments(want: seq<string>, segments: seq<string>) returns (params: A.Option<Params>)
    ensures params.Some? <==> Agrees(want, segments)
    ensures params.Some? ==> Binds(want, segments, params.value)
  {
    if |segments| != |want| {
      return A.None;
    }
    var m: Params := map[];
    for i := 0 to |want|
      invariant forall j :: 0 <= j < i && Placeholder(want[j]).None? ==> segments[j] == want[j]
      invariant forall j: nat, name :: j < i && Named(want, j, name) ==> name in m
      invariant forall name :: name in m ==> exists j: nat :: j < i && Named(want, j, name) && segments[j] == m[name]
    {
      var name := Placeholder(want[i]);
      if name.Some? {
        m := m[name.value := segments[i]];
        assert Named(want, i, name.value);
        continue;
      }
      if segments[i] != want[i] {
        return A.None;
      }
    }
    return A.Some(m);
  }

  function Value(params: Params, name: string): string {
    if name in params then params[name] else ""
  }

  /** The segments with their placeholders filled. */
  function Fill(want: seq<string>, params: Params): (out: seq<string>)
    ensures |out| == |want|
    ensures forall i :: 0 <= i < |want| ==>
              out[i] == if Placeholder(want[i]).Some? then Value(params, Placeholder(want[i]).value) else want[i]
  {
    seq(|want|, i requires 0 <= i < |want| =>
      if Placeholder(want[i]).Some? then Value(params, Placeholder(want[i]).value) else want[i])
  }

  predicate Fillable(want: seq<string>, params: Params) {
    forall i :: 0 <= i < |want| && Placeholder(want[i]).Some? ==> Value(params, Placeholder(want[i]).value) != ""
  }

  method Expand(route: Compiled, params: Params) returns (path: A.Option<string>)
    ensures path.Some? <==> Fillable(route.segments, params)
    ensures path.Some? ==> path.value == "/" + Join(Fill(route.segments, params))
  {
    var out: seq<string> := [];
    for i := 0 to |route.segments|
      invariant out == Fill(route.segments, params)[..i]
      invariant Fillable(route.segments[..i], params)
    {
      var segment := route.segments[i];
      var name := Placeholder(segment);
      if name.Some? {
        var v := if name.value in params then params[name.value] else "";
        if v == "" {
          return A.None;
        }
        segment := v;
      }
      out := out + [segment];
    }
    assert out == Fill(route.segments, params);
    assert route.segments[..|route.segments|] == route.segments;
    return A.Some("/" + Join(out));
  }

  /** Filling a template with what was matched gives the path back. */
  lemma FillUndoesMatch(want: seq<string>, segments: seq<string>, params: Params)
    requires Distinct(want) && Agrees(want, segments) && Binds(want, segments, params) && Segments(segments)
    ensures Fillable(want, params) && Fill(want, params) == segments
  {
    forall i | 0 <= i < |want|
      ensures Fill(want, params)[i] == segments[i]
      ensures Placeholder(want[i]).Some? ==> Value(params, Placeholder(want[i]).value) != ""
    {
      if Placeholder(want[i]).Some? {
        var name := Placeholder(want[i]).value;
        assert Named(want, i, name);
        var j: nat :| Named(want, j, name) && segments[j] == params[name];
        assert i == j && Segment(segments[i]);
      }
    }
  }

  ghost function Names(segments: seq<string>): set<string> {
    set i | 0 <= i < |segments| && Placeholder(segments[i]).Some? :: Placeholder(segments[i]).value
  }

  predicate SlashFree(want: seq<string>, params: Params) {
    forall i :: 0 <= i < |want| && Placeholder(want[i]).Some? ==> '/' !in Value(params, Placeholder(want[i]).value)
  }

  /** `found` is what the path's template says: its placeholders with the values of `params`. */
  ghost predicate Restored(want: seq<string>, params: Params, found: Params) {
    && (forall name :: name in found <==> exists i: nat :: Named(want, i, name))
    && (forall name :: name in found ==> found[name] == Value(params, name))
  }

  /** Matching the path that a template expands to gives the parameters back exactly if no value
      contains a slash. */
  lemma MatchUndoesExpandIff(pattern: string, params: Params)
    requires Distinct(SplitPath(pattern)) && Fillable(SplitPath(pattern), params)
    ensures var want := SplitPath(pattern);
            var segments := SplitPath("/" + Join(Fill(want, params)));
            SlashFree(want, params) <==>
              Agrees(want, segments) && exists found: Params ::
                Binds(want, segments, found) && Restored(want, params, found)
  {
    var want := SplitPath(pattern);
    var segments := SplitPath("/" + Join(Fill(want, params)));
    SplitPathIsPath(pattern);
    SplitPathIsPath("/" + Join(Fill(want, params)));
    SplitPathJoinIff(Fill(want, params));
    if SlashFree(want, params) {
      FilledPath(want, params);
      FilledBinds(want, params, map name | name in Names(want) :: Value(params, name));
    }
    if Agrees(want, segments) {
      forall found: Params | Binds(want, segments, found) && Restored(want, params, found)
        ensures SlashFree(want, params)
      {
        RestoredFills(want, params, segments, found);
        FilledSlashFree(want, params);
      }
    }
  }

  lemma FilledPath(want: seq<string>, params: Params)
    requires Path(want) && Fillable(want, params) && SlashFree(want, params)
    ensures Path(Fill(want, params))
  {
  }

  lemma FilledSlashFree(want: seq<string>, params: Params)
    requires NoSlashes(Fill(want, params))
    ensures SlashFree(want, params)
  {
  }

  lemma FilledBinds(want: seq<string>, params: Params, found: Params)
    requires found.Keys == Names(want) && forall name :: name in found ==> found[name] == Value(params, name)
    ensures Binds(want, Fill(want, params), found) && Restored(want, params, found)
  {
    forall name
      ensures name in found <==> exists i: nat :: Named(want, i, name) && Fill(want, params)[i] == Value(params, name)
    {
      if name in Names(want) {
        var i: nat :| i < |want| && Placeholder(want[i]) == A.Some(name);
        assert Named(want, i, name);
      }
    }
  }

  lemma RestoredFills(want: seq<string>, params: Params, segments: seq<string>, found: Params)
    requires Distinct(want) && Agrees(want, segments) && Binds(want, segments, found) && Restored(want, params, found)
    ensures Fill(want, params) == segments
  {
    forall i | 0 <= i < |want|
      ensures Fill(want, params)[i] == segments[i]
    {
      if Placeholder(want[i]).Some? {
        assert Named(want, i, Placeholder(want[i]).value);
      }
    }
  }

  // ---- The table --------------------------------------------------------------------

  type Table = seq<Compiled>

  ghost predicate TableOk(table: Table) {
    forall i :: 0 <= i < |table| ==> table[i].segments == SplitPath(table[i].pattern) && Distinct(table[i].segments)
  }

  /** Route `i` is the first one that matches. */
  predicate FirstMatch(table: Table, segments: seq<string>, i: nat) {
    i < |table| && Agrees(table[i].segments, segments) &&
      forall j :: 0 <= j < i ==> !Agrees(table[j].segments, segments)
  }

  method Template(table: Table, path: string) returns (found: A.Option<nat>, params: Params)
    ensures found.None? <==> forall i :: 0 <= i < |table| ==> !Agrees(table[i].segments, SplitPath(path))
    ensures found.Some? ==> FirstMatch(table, SplitPath(path), found.value) &&
                            Binds(table[found.value].segments, SplitPath(path), params)
  {
    var segments := SplitPath(path);
    for i := 0 to |table|
      invariant forall j :: 0 <= j < i ==> !Agrees(table[j].segments, segments)
    {
      var m := MatchSegments(table[i].segments, segments);
      if m.Some? {
        return A.Some(i), m.value;
      }
    }
    return A.None, map[];
  }

  predicate IsFirst(table: Table, pattern: string, i: nat) {
    i < |table| && table[i].pattern == pattern && forall j :: 0 <= j < i ==> table[j].pattern != pattern
  }

  /** The first route with that pattern. */
  method ByMatch(table: Table, pattern: string) returns (route: A.Option<Compiled>)
    ensures route.None? <==> forall i :: 0 <= i < |table| ==> table[i].pattern != pattern
    ensures route.Some? ==> exists i :: 0 <= i < |table| && IsFirst(table, pattern, i) && table[i] == route.value
  {
    for i := 0 to |table|
      invariant forall j :: 0 <= j < i ==> table[j].pattern != pattern
    {
      if table[i].pattern == pattern {
        assert IsFirst(table, pattern, i);
        return A.Some(table[i]);
      }
    }
    return A.None;
  }

  predicate SameValues(prev: Params, next: Params) {
    forall name :: name in next ==> Value(prev, name) == next[name]
  }

  method SameParams(prev: Params, next: Params) returns (same: bool)
    ensures same == SameValues(prev, next)
  {
    var names := next.Keys;
    while names != {}
      invariant names <= next.Keys
      invariant forall name :: name in next && name !in names ==> Value(prev, name) == next[name]
      decreases names
    {
      var name :| name in names;
      if (if name in prev then prev[name] else "") != next[name] {
        return false;
      }
      names := names - {name};
    }
    return true;
  }

  // ---- Tag templates ----------------------------------------------------------------

  function Before(s: string, c: char): (n: nat)
    ensures n <= |s| && c !in s[..n] && (n < |s| ==> s[n] == c)
  {
    if s == "" || s[0] == c then 0 else
      assert s == [s[0]] + s[1..];
      var n := 1 + Before(s[1..], c);
      assert s[..n] == [s[0]] + s[1..][..n - 1];
      n
  }

  type Lookup = string -> A.Option<string>

  /** A template up to its first `{name}`: no brace, a brace that is not closed, or text, name and rest. */
  datatype Piece = Plain | Unclosed | Hole(text: string, name: string, rest: string)

  function Cut(template: string): (p: Piece)
    ensures p.Hole? ==> template == p.text + "{" + p.name + "}" + p.rest && '{' !in p.text && '}' !in p.name
  {
    var start := Before(template, '{');
    if start == |template| then Plain
    else
      var end := Before(template[start..], '}');
      if start + end == |template| then Unclosed
      else
        assert template[start..][0] == '{';
        CutRejoins(template, start, start + end);
        assert forall i :: start < i < start + end ==> template[i] == template[start..][..end][i - start];
        Hole(template[..start], template[start + 1..start + end], template[start + end + 1..])
  }

  lemma CutRejoins(s: string, start: nat, end: nat)
    requires start < end < |s| && s[start] == '{' && s[end] == '}'
    ensures s == s[..start] + "{" + s[start + 1..end] + "}" + s[end + 1..]
  {
  }

  /** The template with every `{name}` replaced; nothing if a brace is not closed or a name has no
      value.  A value is never looked into. */
  function Filled(template: string, values: Lookup): A.Option<string>
    decreases |template|
  {
    match Cut(template)
    case Plain => A.Some(template)
    case Unclosed => A.None
    case Hole(text, name, rest) =>
      if values(name).Some? && Filled(rest, values).Some?
      then A.Some(text + values(name).value + Filled(rest, values).value) else A.None
  }

  method IndexByte(s: string, c: char) returns (n: nat)
    ensures n == Before(s, c)
  {
    n := 0;
    while n < |s| && s[n] != c
      invariant n <= |s| && Before(s, c) == n + Before(s[n..], c)
    {
      assert s[n..][1..] == s[n + 1..];
      n := n + 1;
    }
  }

  method CutFirst(template: string) returns (p: Piece)
    ensures p == Cut(template)
  {
    var start := IndexByte(template, '{');
    if start == |template| {
      return Plain;
    }
    var end := IndexByte(template[start..], '}');
    if start + end == |template| {
      return Unclosed;
    }
    p := Hole(template[..start], template[start + 1..start + end], template[start + end + 1..]);
  }

  function Prefixed(out: string, filled: A.Option<string>): A.Option<string> {
    if filled.Some? then A.Some(out + filled.value) else A.None
  }

  lemma Regrouped(out: string, text: string, value: string, tail: string)
    ensures out + (text + value + tail) == out + text + value + tail
  {
  }

  lemma OneHole(rest: string, values: Lookup, out: string)
    requires Cut(rest).Hole? && values(Cut(rest).name).Some?
    ensures Prefixed(out, Filled(rest, values)) ==
            Prefixed(out + Cut(rest).text + values(Cut(rest).name).value, Filled(Cut(rest).rest, values))
  {
    var tail := Filled(Cut(rest).rest, values);
    if tail.Some? {
      Regrouped(out, Cut(rest).text, values(Cut(rest).name).value, tail.value);
    }
  }

  function OrEmpty(filled: A.Option<string>): string {
    if filled.Some? then filled.value else ""
  }

  /** The empty string stands for failure. */
  method ExpandTag(template: string, values: Lookup) returns (tag: string)
    ensures tag == OrEmpty(Filled(template, values))
  {
    var rest := template;
    var out := "";
    assert Prefixed("", Filled(template, values)) == Filled(template, values) by {
      assert Filled(template, values).Some? ==> "" + Filled(template, values).value == Filled(template, values).value;
    }
    while true
      invariant Filled(template, values) == Prefixed(out, Filled(rest, values))
      decreases |rest|
    {
      var piece := CutFirst(rest);
      if piece.Plain? {
        return out + rest;
      }
      if piece.Unclosed? {
        return "";
      }
      var value := values(piece.name);
      if value.None? {
        return "";
      }
      OneHole(rest, values, out);
      out := out + piece.text + value.value;
      rest := piece.rest;
    }
  }

  /** The names between the template's braces. */
  function Holes(template: string): set<string>
    decreases |template|
  {
    match Cut(template)
    case Hole(_, name, rest) => {name} + Holes(rest)
    case _ => {}
  }

  predicate Resolved(values: Lookup, name: string) {
    values(name).Some? && values(name).value != ""
  }

  predicate Covers(names: set<string>, values: Lookup) {
    forall name :: name in names ==> Resolved(values, name)
  }

  ghost predicate NonEmpty(values: Lookup) {
    forall name :: values(name).Some? ==> Resolved(values, name)
  }

  /** A template that was filled once is filled by any values for the same names. */
  lemma {:induction false} FilledAgain(template: string, sample: Lookup, values: Lookup)
    requires NonEmpty(sample) && Covers(Holes(template), values) && Filled(template, sample).Some?
    ensures Filled(template, values).Some?
    ensures Filled(template, sample).value != "" ==> Filled(template, values).value != ""
    decreases |template|
  {
    match Cut(template)
    case Hole(text, name, rest) =>
      assert Resolved(values, name);
      FilledAgain(rest, sample, values);
    case _ =>
  }

  // ---- Compilation ------------------------------------------------------------------

  const QUERY: string := "query."

  predicate QueryPrefix(name: string) {
    |name| >= |QUERY| && name[..|QUERY|] == QUERY
  }

  /** What compilation tries a tag template with: every placeholder and query name has a value. */
  function Sample(names: set<string>): Lookup {
    name => if name in names || (QueryPrefix(name) && |name| > |QUERY|) then A.Some("x") else A.None
  }

  predicate GoodTag(template: string, names: set<string>, letterOrDigit: char -> bool) {
    Filled(template, Sample(names)).Some? && ValidTag(Filled(template, Sample(names)).value, letterOrDigit)
  }

  ghost predicate Compilable(route: Route, letterOrDigit: char -> bool) {
    && route.pattern != "" && route.pattern[0] == '/'
    && Distinct(SplitPath(route.pattern))
    && forall i :: 0 <= i < |route.tags| ==> GoodTag(route.tags[i], Names(SplitPath(route.pattern)), letterOrDigit)
  }

  method PlaceholderNames(segments: seq<string>) returns (names: A.Option<set<string>>)
    ensures names.Some? <==> Distinct(segments)
    ensures names.Some? ==> names.value == Names(segments)
  {
    var params: set<string> := {};
    for i := 0 to |segments|
      invariant params == Names(segments[..i])
      invariant forall j: nat :: j < i ==> !Named(segments, j, "")
      invariant forall j: nat, k: nat, name ::
                  j < i && k < i && Named(segments, j, name) && Named(segments, k, name) ==> j == k
    {
      var name := Placeholder(segments[i]);
      if name.Some? {
        assert Named(segments, i, name.value);
        if name.value == "" {
          return A.None;
        }
        if name.value in params {
          var j :| 0 <= j < i && Placeholder(segments[..i][j]) == name;
          assert Named(segments, j, name.value);
          return A.None;
        }
        forall j: nat | j < i
          ensures !Named(segments, j, name.value)
        {
          assert segments[..i][j] == segments[j];
        }
        params := params + {name.value};
      }
      NamesGrow(segments, i);
    }
    assert segments[..|segments|] == segments;
    return A.Some(params);
  }

  lemma NamesGrow(segments: seq<string>, i: nat)
    requires i < |segments|
    ensures Names(segments[..i + 1]) ==
              Names(segments[..i]) + if Placeholder(segments[i]).Some? then {Placeholder(segments[i]).value} else {}
  {
  }

  function CompiledFrom(route: Route): Compiled {
    Compiled(route.pattern, SplitPath(route.pattern), route.tags)
  }

  /** Compilation accepts exactly the tables whose routes are all well-formed. */
  method CompileRoutes(routes: seq<Route>, letterOrDigit: char -> bool) returns (table: A.Option<Table>)
    ensures table.Some? <==> forall i :: 0 <= i < |routes| ==> Compilable(routes[i], letterOrDigit)
    ensures table.Some? ==> TableOk(table.value) && |table.value| == |routes| &&
                            forall i :: 0 <= i < |routes| ==> table.value[i] == CompiledFrom(routes[i])
  {
    var out: Table := [];
    for n := 0 to |routes|
      invariant |out| == n && forall i :: 0 <= i < n ==> out[i] == CompiledFrom(routes[i])
      invariant forall i :: 0 <= i < n ==> Compilable(routes[i], letterOrDigit)
    {
      var ok := CheckRoute(routes[n], letterOrDigit);
      if !ok {
        return A.None;
      }
      out := out + [CompiledFrom(routes[n])];
    }
    return A.Some(out);
  }

  method CheckTags(tags: seq<string>, names: set<string>, letterOrDigit: char -> bool) returns (ok: bool)
    ensures ok <==> forall i :: 0 <= i < |tags| ==> GoodTag(tags[i], names, letterOrDigit)
  {
    for i := 0 to |tags|
      invariant forall j :: 0 <= j < i ==> GoodTag(tags[j], names, letterOrDigit)
    {
      var sample := ExpandTag(tags[i], Sample(names));
      if sample == "" || !ValidTag(sample, letterOrDigit) {
        assert !GoodTag(tags[i], names, letterOrDigit);
        return false;
      }
    }
    return true;
  }

  method CheckRoute(route: Route, letterOrDigit: char -> bool) returns (ok: bool)
    ensures ok <==> Compilable(route, letterOrDigit)
  {
    if route.pattern == "" || route.pattern[0] != '/' {
      return false;
    }
    var names := PlaceholderNames(SplitPath(route.pattern));
    if names.None? {
      return false;
    }
    ok := CheckTags(route.tags, names.value, letterOrDigit);
  }

  /** Looking a tag's name up: a query parameter, or a segment of the path. */
  function Values(params: Params, query: Lookup): Lookup {
    name =>
      if QueryPrefix(name) then
        var v := query(name[|QUERY|..]);
        if v.Some? && v.value != "" then v else A.None
      else if name in params && params[name] != "" then A.Some(params[name]) else A.None
  }

  /** The path gives every placeholder that the template names something, and so does the query. */
  ghost predicate Supplies(want: seq<string>, segments: seq<string>, query: Lookup, template: string)
    requires |segments| == |want|
  {
    && (forall j: nat, name :: Named(want, j, name) && name in Holes(template) && !QueryPrefix(name) ==>
        segments[j] != "")
    && (forall name :: name in Holes(template) && QueryPrefix(name) ==> Resolved(query, name[|QUERY|..]))
  }

  /** On a compiled route a tag template is filled, and not with nothing, exactly if the path and
      the query supply what it names. */
  lemma CompiledTagIsFilledIff(route: Route, letterOrDigit: char -> bool, segments: seq<string>, params: Params,
                               query: Lookup, i: nat)
    requires Compilable(route, letterOrDigit) && i < |route.tags|
    requires Agrees(SplitPath(route.pattern), segments) && Binds(SplitPath(route.pattern), segments, params)
    ensures var tag := Filled(route.tags[i], Values(params, query));
            && (tag.Some? <==> Supplies(SplitPath(route.pattern), segments, query, route.tags[i]))
            && (tag.Some? ==> tag.value != "")
  {
    var want, template := SplitPath(route.pattern), route.tags[i];
    HolesAreNamed(template, Sample(Names(want)));
    CoveredIsFilledIff(template, Sample(Names(want)), Values(params, query));
    CoversIffSupplied(want, segments, params, query, template);
  }

  lemma CoveredIsFilledIff(template: string, sample: Lookup, values: Lookup)
    requires NonEmpty(sample) && NonEmpty(values)
    requires Filled(template, sample).Some? && Filled(template, sample).value != ""
    ensures Filled(template, values).Some? <==> Covers(Holes(template), values)
    ensures Filled(template, values).Some? ==> Filled(template, values).value != ""
  {
    if Filled(template, values).Some? {
      HolesAreNamed(template, values);
    }
    if Covers(Holes(template), values) {
      FilledAgain(template, sample, values);
    }
  }

  lemma CoversIffSupplied(want: seq<string>, segments: seq<string>, params: Params, query: Lookup, template: string)
    requires Distinct(want) && Agrees(want, segments) && Binds(want, segments, params)
    requires forall name :: name in Holes(template) && !QueryPrefix(name) ==> name in Names(want)
    ensures Covers(Holes(template), Values(params, query)) <==> Supplies(want, segments, query, template)
  {
    forall j: nat, name | Named(want, j, name)
      ensures name in params && params[name] == segments[j]
    {
      var k: nat :| Named(want, k, name) && segments[k] == params[name];
    }
    if Supplies(want, segments, query, template) {
      forall name | name in Holes(template)
        ensures Resolved(Values(params, query), name)
      {
        if !QueryPrefix(name) {
          var j: nat :| j < |want| && Placeholder(want[j]) == A.Some(name);
          assert Named(want, j, name);
        }
      }
    }
  }

  /** A cleaned path supplies every placeholder. */
  lemma CleanPathSupplies(want: seq<string>, path: string, query: Lookup, template: string)
    requires |SplitPath(RouteKey(path))| == |want|
    requires forall name :: name in Holes(template) && QueryPrefix(name) ==> Resolved(query, name[|QUERY|..])
    ensures Supplies(want, SplitPath(RouteKey(path)), query, template)
  {
    RouteKeySegments(path);
    forall j: nat, name | Named(want, j, name)
      ensures SplitPath(RouteKey(path))[j] != ""
    {
      assert Segment(SplitPath(RouteKey(path))[j]);
    }
  }

  function Kept(filled: A.Option<string>, letterOrDigit: char -> bool): seq<string> {
    if filled.Some? && ValidTag(filled.value, letterOrDigit) then [filled.value] else []
  }

  /** The templates that are filled and make valid tags, in their order. */
  function ValidTags(templates: seq<string>, values: Lookup, letterOrDigit: char -> bool): seq<string> {
    if templates == [] then []
    else
      ValidTags(templates[..|templates| - 1], values, letterOrDigit) +
      Kept(Filled(templates[|templates| - 1], values), letterOrDigit)
  }

  lemma OnlyFirst(table: Table, segments: seq<string>, i: nat)
    requires i < |table| && Agrees(table[i].segments, segments)
    ensures forall j: nat :: FirstMatch(table, segments, j) ==>
              j <= i && (j < i ==> Agrees(table[j].segments, segments))
  {
  }

  method FilledTags(templates: seq<string>, values: Lookup, letterOrDigit: char -> bool) returns (tags: seq<string>)
    ensures tags == ValidTags(templates, values, letterOrDigit)
  {
    tags := [];
    for n := 0 to |templates|
      invariant tags == ValidTags(templates[..n], values, letterOrDigit)
    {
      assert templates[..n + 1][..n] == templates[..n];
      var tag := ExpandTag(templates[n], values);
      if tag != "" && ValidTag(tag, letterOrDigit) {
        tags := tags + [tag];
      }
    }
    assert templates[..|templates|] == templates;
  }

  /** The tags of a request are those of the first route that matches its path as it stands. */
  method TagsFor(table: Table, path: string, query: Lookup, letterOrDigit: char -> bool)
    returns (tags: seq<string>, ghost params: Params)
    ensures (forall i :: 0 <= i < |table| ==> !Agrees(table[i].segments, SplitPath(path))) ==> tags == []
    ensures forall i: nat :: FirstMatch(table, SplitPath(path), i) ==>
                               && Binds(table[i].segments, SplitPath(path), params)
                               && tags == ValidTags(table[i].tags, Values(params, query), letterOrDigit)
  {
    tags, params := [], map[];
    var segments := SplitPath(path);
    for i := 0 to |table|
      invariant forall j :: 0 <= j < i ==> !Agrees(table[j].segments, segments)
      invariant tags == []
    {
      var m := MatchSegments(table[i].segments, segments);
      if m.None? {
        continue;
      }
      params := m.value;
      tags := FilledTags(table[i].tags, Values(m.value, query), letterOrDigit);
      OnlyFirst(table, segments, i);
      return tags, params;
    }
  }

  lemma {:induction false} HolesAreNamed(template: string, sample: Lookup)
    requires Filled(template, sample).Some?
    ensures forall name :: name in Holes(template) ==> sample(name).Some?
    decreases |template|
  {
    match Cut(template)
    case Hole(_, _, rest) => HolesAreNamed(rest, sample);
    case _ =>
  }

  // ---- Learning ---------------------------------------------------------------------

  /** Expanding the route found by its template, with the values matched, gives the visited path
      back. */
  lemma ExpandUndoesTemplate(table: Table, p: string, i: nat, params: Params, route: Compiled)
    requires TableOk(table) && FirstMatch(table, SplitPath(RouteKey(p)), i)
    requires Binds(table[i].segments, SplitPath(RouteKey(p)), params)
    requires route in table && route.pattern == table[i].pattern
    ensures Fillable(route.segments, params) && "/" + Join(Fill(route.segments, params)) == RouteKey(p)
  {
    RouteKeySegments(p);
    FillUndoesMatch(table[i].segments, SplitPath(RouteKey(p)), params);
  }

  /** Values that agree where the next template has placeholders fill it the same way. */
  lemma SameValuesFillSame(want: seq<string>, segments: seq<string>, prev: Params, next: Params)
    requires Distinct(want) && |segments| == |want| && Binds(want, segments, next) && SameValues(prev, next)
    ensures Fill(want, prev) == Fill(want, next) && (Fillable(want, next) ==> Fillable(want, prev))
  {
    forall i | 0 <= i < |want| && Placeholder(want[i]).Some?
      ensures Value(prev, Placeholder(want[i]).value) == Value(next, Placeholder(want[i]).value)
    {
      assert Named(want, i, Placeholder(want[i]).value);
    }
  }

  /** The next path can be rebuilt from the previous one through two different templates. */
  ghost predicate Rebuildable(table: Table, prev: seq<string>, next: seq<string>) {
    exists i: nat, j: nat, p: Params, q: Params ::
      && FirstMatch(table, prev, i) && Binds(table[i].segments, prev, p)
      && FirstMatch(table, next, j) && Binds(table[j].segments, next, q)
      && table[i].pattern != table[j].pattern && SameValues(p, q)
  }

  lemma NotRebuildable(table: Table, prev: seq<string>, next: seq<string>, i: nat, p: Params, j: nat, q: Params)
    requires TableOk(table)
    requires FirstMatch(table, prev, i) && Binds(table[i].segments, prev, p)
    requires FirstMatch(table, next, j) && Binds(table[j].segments, next, q)
    requires table[i].pattern == table[j].pattern || !SameValues(p, q)
    ensures !Rebuildable(table, prev, next)
  {
  }

  datatype Transition = Transition(from: string, to: string)

  /** Learning is faithful: a learned step, replayed on the previous path, leads to exactly the path
      that was visited. */
  method RecordTemplateTransition(table: Table, ghost before: string, prev: string, ghost after: string,
                                  current: string)
    returns (learned: A.Option<Transition>, ghost replayed: A.Option<Compiled>, ghost values: Params)
    requires TableOk(table) && prev == RouteKey(before) && current == RouteKey(after)
    ensures learned.Some? <==> Rebuildable(table, SplitPath(prev), SplitPath(current))
    ensures learned.Some? ==>
              && replayed.Some? && replayed.value in table && replayed.value.pattern == learned.value.to
              && learned.value.from != learned.value.to
              && Agrees(SplitPath(learned.value.from), SplitPath(prev)) &&
                 Binds(SplitPath(learned.value.from), SplitPath(prev), values)
              && Fillable(replayed.value.segments, values)
              && "/" + Join(Fill(replayed.value.segments, values)) == current
  {
    replayed, values := A.None, map[];
    var prevRoute, prevParams := Template(table, prev);
    if prevRoute.None? {
      return A.None, replayed, values;
    }
    var nextRoute, nextParams := Template(table, current);
    if nextRoute.None? {
      return A.None, replayed, values;
    }
    var from, to := table[prevRoute.value].pattern, table[nextRoute.value].pattern;
    var same := SameParams(prevParams, nextParams);
    if from == to || !same {
      NotRebuildable(table, SplitPath(prev), SplitPath(current), prevRoute.value, prevParams, nextRoute.value,
                     nextParams);
      return A.None, replayed, values;
    }
    var found := ByMatch(table, to);
    ExpandUndoesTemplate(table, after, nextRoute.value, nextParams, found.value);
    SameValuesFillSame(table[nextRoute.value].segments, SplitPath(current), prevParams, nextParams);
    return A.Some(Transition(from, to)), found, prevParams;
  }
}
