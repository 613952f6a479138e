/**
 `PatternFromEndpoint` (v2/pkg/spike/socket/utils.go) as a function on pattern values:
 the first registered pattern whose segments fit a concrete endpoint, with the
 placeholders read back from it.  Printing and matching are shown to undo each other.
 */
module EndpointMatching {
  import opened Basics
  import opened GoStrings
  import opened Segments
  import opened Endpoints
  import opened ParamAssignment
  import opened Blocks
  import opened Instantiation

  predicate IsHole(part: string) {
    "$" <= part
  }

  /** The comparison loop: same length, and literal segments equal. */
  predicate Fits(parts: seq<string>, endpoint: seq<string>) {
    |parts| == |endpoint| && forall i | 0 <= i < |parts| :: IsHole(parts[i]) || parts[i] == endpoint[i]
  }

  /** What the loop stores for a placeholder: `*` stands for the placeholder itself. */
  function HoleValue(part: string, segment: string): string {
    if segment == "*" then part else segment
  }

  function Collect(parts: seq<string>, endpoint: seq<string>, m: map<string, string>): map<string, string>
    requires |parts| <= |endpoint|
  {
    if parts == [] then m
    else Collect(parts[1..], endpoint[1..],
                 if IsHole(parts[0]) then m[parts[0][1..] := HoleValue(parts[0], endpoint[0])] else m)
  }

  /** The part of a WebSocket endpoint before `?`, cut at the dots. */
  function EndpointParts(endpoint: string): seq<string> {
    Split(Split(endpoint, '?')[0], '.')
  }

  function QueryOf(endpoint: string, old_: Option<string>): Option<string> {
    var parts := Split(endpoint, '?');
    if |parts| > 1 then Some(parts[1]) else old_
  }

  predicate MatchesPattern(p: PatternData, endpoint: string) {
    Fits(Split(EndpointName(p), '.'), EndpointParts(endpoint))
  }

  function Matched(p: PatternData, endpoint: string): PatternData
    requires MatchesPattern(p, endpoint)
  {
    p.(params := Collect(Split(EndpointName(p), '.'), EndpointParts(endpoint), map[]),
       query := QueryOf(endpoint, p.query))
  }

  function Lookup(patterns: seq<PatternData>, endpoint: string): Option<PatternData> {
    if patterns == [] then None
    else if MatchesPattern(patterns[0], endpoint) then Some(Matched(patterns[0], endpoint))
    else Lookup(patterns[1..], endpoint)
  }

  /** The lookup returns the first pattern of the list that fits, with its placeholders filled in. */
  lemma {:induction false} LookupIsFirst(patterns: seq<PatternData>, endpoint: string, j: nat)
    requires j <= |patterns| && forall i | 0 <= i < j :: !MatchesPattern(patterns[i], endpoint)
    ensures j == |patterns| ==> Lookup(patterns, endpoint) == None
    ensures j < |patterns| && MatchesPattern(patterns[j], endpoint) ==>
        Lookup(patterns, endpoint) == Some(Matched(patterns[j], endpoint))
  {
    hide MatchesPattern, Matched;
    if j > 0 {
      assert !MatchesPattern(patterns[0], endpoint);
      LookupIsFirst(patterns[1..], endpoint, j - 1);
    }
  }

  // ---- segments of a whole endpoint ----

  function PathParts(generic: string): seq<string> {
    if generic == "" then [] else Split(generic, '.')
  }

  /** The segments of `service.generic.METHOD`. */
  function Parts(p: PatternData): (r: seq<string>)
    ensures |r| >= 1
  {
    Split(p.service, '.') + PathParts(p.generic) + [p.httpMethod]
  }

  ghost predicate WellFormed(p: PatternData) {
    && Tidy(Split(p.generic, '.'), '.')
    && '$' !in p.service
    && '$' !in p.httpMethod && '.' !in p.httpMethod
    && '?' !in p.service + p.generic + p.httpMethod
  }

  lemma JoinThree(a: seq<string>, b: seq<string>, c: string)
    requires |a| >= 1
    ensures Join(a + b + [c], '.') == if b == [] then Join(a, '.') + "." + c
        else Join(a, '.') + "." + Join(b, '.') + "." + c
  {
    if b == [] {
      assert a + b + [c] == a + [c];
      JoinConcat(a, [c], '.');
    } else {
      JoinConcat(a + b, [c], '.');
      JoinConcat(a, b, '.');
    }
  }

  lemma PartsOfName(p: PatternData)
    requires '.' !in p.httpMethod
    ensures Split(EndpointName(p), '.') == Parts(p)
  {
    JoinThree(Split(p.service, '.'), PathParts(p.generic), p.httpMethod);
    SplitOfJoin(Parts(p), '.');
  }

  /** The printed endpoint, segment by segment. */
  function SpecificParts(p: PatternData): (r: seq<string>)
    ensures |r| == |Parts(p)|
  {
    Split(p.service, '.') + InstAll(PathParts(p.generic), p.params) + [p.httpMethod]
  }

  lemma SpecificIsJoin(p: PatternData)
    requires WellFormed(p)
    requires CleanValues(Split(p.generic, '.'), p.params) && NoShadow(Split(p.generic, '.'), p.params)
    ensures EndpointNameSpecific(p) == Join(SpecificParts(p), '.')
  {
    InstantiateExact(p.generic, p.params);
    JoinThree(Split(p.service, '.'), InstAll(PathParts(p.generic), p.params), p.httpMethod);
    if p.generic == "" {
      assert InstAll(PathParts(p.generic), p.params) == [];
    }
  }

  /** In a well-formed pattern the placeholders are exactly the parameter segments of the path. */
  lemma HolesOfPattern(p: PatternData)
    requires WellFormed(p)
    ensures forall s | s in Split(p.service, '.') :: !IsHole(s)
    ensures forall s | s in PathParts(p.generic) :: IsHole(s) <==> LooksLikeParam(s)
    ensures forall s | s in PathParts(p.generic) :: IsHole(s) <==> IsParam(s, '.')
    ensures !IsHole(p.httpMethod)
    ensures Tidy(Parts(p), '.')
  {
    forall s | s in Split(p.service, '.') ensures !IsHole(s) && TidySegment(s, '.') {
      PartChars(p.service, '.', s);
      assert s == "" || s[0] in s;
    }
    forall s | s in PathParts(p.generic) ensures TidySegment(s, '.') && (IsHole(s) <==> IsParam(s, '.')) {
      assert s in Split(p.generic, '.');
      if IsHole(s) { assert s[0] in s; }
    }
    assert p.httpMethod == "" || p.httpMethod[0] in p.httpMethod;
  }

  /** The whole printed endpoint is a segment-wise substitution: service and method hold no placeholder. */
  lemma SpecificIsInstAll(p: PatternData)
    requires WellFormed(p)
    ensures SpecificParts(p) == InstAll(Parts(p), p.params)
  {
    HolesOfPattern(p);
    var a, b := Split(p.service, '.'), PathParts(p.generic);
    forall i | 0 <= i < |Parts(p)| ensures SpecificParts(p)[i] == Inst(Parts(p)[i], p.params) {
      if i < |a| {
        assert a[i] in a;
        PartChars(p.service, '.', a[i]);
      }
    }
  }

  // ---- reading the placeholders back ----

  /** Every placeholder has a usable value in the map, and the map holds nothing else. */
  ghost predicate FullAssignment(parts: seq<string>, params: map<string, string>) {
    && params.Keys == (set n | n in Names(parts))
    && forall s | s in parts && '$' in s && s[1..] in params :: UsableValue(params[s[1..]])
  }

  predicate UsableValue(v: string) {
    v != "" && v != "*" && '$' !in v && '.' !in v && '?' !in v
  }

  lemma {:induction false} NamesHas(parts: seq<string>, s: string)
    requires s in parts && '$' in s
    ensures s[1..] in Names(parts)
  {
    if s != parts[0] {
      NamesHas(parts[1..], s);
    }
  }

  lemma {:induction false} NamesFrom(parts: seq<string>, n: string) returns (s: string)
    requires n in Names(parts)
    ensures s in parts && '$' in s && s[1..] == n
  {
    if '$' in parts[0] && parts[0][1..] == n {
      s := parts[0];
    } else {
      s := NamesFrom(parts[1..], n);
    }
  }

  /** Collecting from the printed segments gives the parameters that were printed. */
  lemma {:induction false} CollectPrinted(parts: seq<string>, endpoint: seq<string>, params: map<string, string>,
                                          m: map<string, string>)
    requires |parts| == |endpoint|
    requires forall i | 0 <= i < |parts| :: IsHole(parts[i]) ==>
      && '$' in parts[i] && parts[i][1..] in params
      && params[parts[i][1..]] == endpoint[i] != "*"
    requires forall i | 0 <= i < |parts| :: '$' in parts[i] ==> IsHole(parts[i])
    requires forall n | n in m :: n in params && m[n] == params[n]
    ensures Collect(parts, endpoint, m).Keys == m.Keys + (set n | n in Names(parts))
    ensures forall n | n in Collect(parts, endpoint, m) :: n in params && Collect(parts, endpoint, m)[n] == params[n]
  {
    if parts != [] {
      var m' := if IsHole(parts[0]) then m[parts[0][1..] := HoleValue(parts[0], endpoint[0])] else m;
      forall i | 0 <= i < |parts[1..]| ensures parts[1..][i] == parts[i + 1] && endpoint[1..][i] == endpoint[i + 1] {
      }
      CollectPrinted(parts[1..], endpoint[1..], params, m');
    }
  }

  lemma {:induction false} NamesOfPath(p: PatternData)
    requires WellFormed(p)
    ensures Names(Parts(p)) == Names(PathParts(p.generic))
  {
    HolesOfPattern(p);
    var a, b, c := Split(p.service, '.'), PathParts(p.generic), [p.httpMethod];
    forall s | s in a ensures '$' !in s { PartChars(p.service, '.', s); }
    NamesConcat(a + b, c);
    NamesConcat(a, b);
    NamesOfPlain(a);
    NamesOfPlain(c);
  }

  lemma FullMeansNoShadow(p: PatternData, params: map<string, string>)
    requires WellFormed(p) && FullAssignment(PathParts(p.generic), params)
    ensures var q := p.(params := params);
      && CleanValues(Split(p.generic, '.'), params) && NoShadow(Split(p.generic, '.'), params)
      && EndpointNameSpecific(q) == Join(SpecificParts(q), '.')
    ensures forall s | s in PathParts(p.generic) && '$' in s :: s[1..] in params && Inst(s, params) == params[s[1..]]
  {
    var parts := PathParts(p.generic);
    HolesOfPattern(p);
    forall s | s in parts && '$' in s
      ensures s[1..] in params && UsableValue(params[s[1..]]) && Sets(s, params)
    {
      NamesHas(parts, s);
      assert s[0] in s && IsHole(s);
    }
    if p.generic == "" {
      assert Split(p.generic, '.') == [""];
    }
    SpecificIsJoin(p.(params := params));
  }

  lemma NoQuestionMark(s: string)
    requires '?' !in s
    ensures Split(s, '?') == [s]
  {
    SplitOfJoin([s], '?');
  }

  /** The query of a match is the text between the first `?` and the next; without a `?` the pattern keeps its own. */
  lemma QueryIsRead(p: PatternData, path: string, query: string, more: string)
    requires '?' !in path && '?' !in query && (more == "" || more[0] == '?')
    ensures EndpointParts(path + ("?" + (query + more))) == Split(path, '.')
    ensures MatchesPattern(p, path) ==> Matched(p, path).query == p.query
    ensures var endpoint := path + ("?" + (query + more));
      MatchesPattern(p, endpoint) ==> Matched(p, endpoint).query == Some(query)
  {
    NoQuestionMark(path);
    SplitQuery(path, query, more);
    hide Split, Fits, Collect;
  }

  lemma SplitQuery(path: string, query: string, more: string)
    requires '?' !in path && '?' !in query && (more == "" || more[0] == '?')
    ensures var parts := Split(path + ("?" + (query + more)), '?');
      |parts| > 1 && parts[0] == path && parts[1] == query
  {
    hide Split;
    var endpoint := path + ("?" + (query + more));
    if more == "" {
      var parts := [path, query];
      assert parts[1..] == [query];
      assert endpoint == Join(parts, '?');
      SplitOfJoin(parts, '?');
    } else {
      var rest := Split(more[1..], '?');
      var parts := [path, query] + rest;
      assert parts == [path] + ([query] + rest) && more == ['?'] + Join(rest, '?');
      JoinOfCons(path, [query] + rest, '?');
      JoinOfCons(query, rest, '?');
      SplitOfJoin(parts, '?');
    }
  }

  lemma {:induction false} CharsOfJoin(parts: seq<string>, sep: char, c: char)
    requires c != sep && forall s | s in parts :: c !in s
    ensures c !in Join(parts, sep)
  {
    JoinChars(parts, sep, c);
  }

  lemma FilledSegmentClean(generic: string, params: map<string, string>, part: string)
    requires FullAssignment(PathParts(generic), params) && part in PathParts(generic) && '?' !in generic
    ensures '.' !in Inst(part, params) && '?' !in Inst(part, params)
  {
    assert part in Split(generic, '.');
    PartChars(generic, '.', part);
    hide Split, Names;
  }

  lemma PrintedSegmentsClean(p: PatternData, params: map<string, string>)
    requires WellFormed(p) && FullAssignment(PathParts(p.generic), params)
    ensures forall s | s in SpecificParts(p.(params := params)) :: '.' !in s && '?' !in s
  {
    hide FullAssignment, Inst, Split;
    forall s | s in SpecificParts(p.(params := params)) ensures '.' !in s && '?' !in s {
      if s in Split(p.service, '.') {
        PartChars(p.service, '.', s);
      } else if s != p.httpMethod {
        var k :| 0 <= k < |PathParts(p.generic)| && s == Inst(PathParts(p.generic)[k], params);
        FilledSegmentClean(p.generic, params, PathParts(p.generic)[k]);
      }
    }
  }

  /** The printed form of a full assignment, and how it is cut up again. */
  lemma PrintedParts(p: PatternData, params: map<string, string>)
    requires WellFormed(p) && FullAssignment(PathParts(p.generic), params)
    ensures var q := p.(params := params);
      EndpointParts(EndpointNameSpecific(q)) == SpecificParts(q) &&
          Split(EndpointNameSpecific(q), '?') == [EndpointNameSpecific(q)]
  {
    hide EndpointNameSpecific, SpecificParts;
    var q := p.(params := params);
    FullMeansNoShadow(p, params);
    PrintedSegmentsClean(p, params);
    CharsOfJoin(SpecificParts(q), '.', '?');
    NoQuestionMark(EndpointNameSpecific(q));
    assert |SpecificParts(q)| == |Parts(q)|;
    SplitOfJoin(SpecificParts(q), '.');
  }

  /**
   Printing a pattern with a full assignment and matching the text against that pattern
   gives back exactly the assignment, and therefore the same printed endpoint.
   */
  lemma PrintThenMatch(p: PatternData, params: map<string, string>)
    requires WellFormed(p) && FullAssignment(PathParts(p.generic), params)
    ensures var q := p.(params := params);
      && MatchesPattern(p, EndpointNameSpecific(q))
      && Matched(p, EndpointNameSpecific(q)) == q
  {
    var q := p.(params := params);
    PartsOfName(p);
    PrintedParts(p, params);
    NamesOfPath(p);
    PrintedFits(p, params);
    hide EndpointNameSpecific, EndpointName, SpecificParts, Parts, WellFormed;
    CollectPrinted(Parts(p), SpecificParts(q), params, map[]);
    assert Collect(Parts(p), SpecificParts(q), map[]) == params;
  }

  lemma PrintedFits(p: PatternData, params: map<string, string>)
    requires WellFormed(p) && FullAssignment(PathParts(p.generic), params)
    ensures var parts, printed := Parts(p), SpecificParts(p.(params := params));
      && Fits(parts, printed)
      && (forall i | 0 <= i < |parts| :: '$' in parts[i] ==> IsHole(parts[i]))
      && forall i | 0 <= i < |parts| :: IsHole(parts[i]) ==>
          '$' in parts[i] && parts[i][1..] in params && params[parts[i][1..]] == printed[i] != "*"
  {
    var parts, printed := Parts(p), SpecificParts(p.(params := params));
    FullMeansNoShadow(p, params);
    HolesOnly(p);
    HolesOfPattern(p);
    SpecificIsInstAll(p.(params := params));
    forall i | 0 <= i < |parts| && IsHole(parts[i])
      ensures '$' in parts[i] && parts[i][1..] in params && params[parts[i][1..]] == printed[i] != "*"
    {
      assert parts[i] in Parts(p);
      assert parts[i] in PathParts(p.generic);
    }
    forall i | 0 <= i < |parts| && !IsHole(parts[i]) ensures parts[i] == printed[i] {
      assert parts[i] in Parts(p);
    }
  }

  /** The round trip through a whole list of registered patterns. */
  lemma {:induction false} LookupRoundTrip(patterns: seq<PatternData>, j: nat, params: map<string, string>)
    requires j < |patterns| && WellFormed(patterns[j]) && FullAssignment(PathParts(patterns[j].generic), params)
    requires forall i | 0 <= i < j :: !MatchesPattern(patterns[i], EndpointNameSpecific(patterns[j].(params := params)))
    ensures Lookup(patterns, EndpointNameSpecific(patterns[j].(params := params))) ==
        Some(patterns[j].(params := params))
  {
    PrintThenMatch(patterns[j], params);
    LookupIsFirst(patterns, EndpointNameSpecific(patterns[j].(params := params)), j);
  }

  /** One usable argument for every placeholder makes a full assignment. */
  lemma BuiltIsFull(generic: string, args: seq<string>)
    requires Tidy(Split(generic, '.'), '.') && Distinct(Names(Split(generic, '.')))
    requires |args| == |Names(Split(generic, '.'))| && forall a | a in args :: UsableValue(a)
    ensures Positional(generic, args) && FullAssignment(PathParts(generic), BuildParams(generic, args))
  {
    var parts, names, params := PathParts(generic), Names(Split(generic, '.')), BuildParams(generic, args);
    assert forall i | 0 <= i < |args| :: UsableValue(args[i]);
    ArgumentsArePositional(generic, args);
    assert Names(parts) == names by {
      if generic == "" { assert Split(generic, '.') == [""]; }
    }
    forall s | s in parts && '$' in s && s[1..] in params ensures UsableValue(params[s[1..]]) {
      NamesHas(parts, s);
      hide BuildParams, Names, Split;
      var k :| 0 <= k < |names| && names[k] == s[1..];
      assert params[names[k]] == args[k] && args[k] in args;
    }
  }

  /**
   The whole way round: the parameters `newMethod` builds from one usable argument per
   placeholder are printed into the endpoint and read back from it unchanged.
   */
  lemma BuildPrintMatch(p: PatternData, args: seq<string>)
    requires WellFormed(p) && Distinct(Names(Split(p.generic, '.')))
    requires |args| == |Names(Split(p.generic, '.'))| && forall a | a in args :: UsableValue(a)
    ensures var q := p.(params := BuildParams(p.generic, args));
      && Positional(p.generic, args)
      && MatchesPattern(p, EndpointNameSpecific(q)) && Matched(p, EndpointNameSpecific(q)) == q
  {
    BuiltIsFull(p.generic, args);
    PrintThenMatch(p, BuildParams(p.generic, args));
  }

  // ---- the other direction ----

  /**
   Collecting stores, for every placeholder, what stands in its place: the last one wins, so
   distinct names keep all.
   */
  lemma {:induction false} CollectMeaning(parts: seq<string>, endpoint: seq<string>, m: map<string, string>, i: nat)
    requires |parts| <= |endpoint|
    requires forall s | s in parts :: '$' in s ==> IsHole(s)
    requires Distinct(Names(parts))
    requires i < |parts| && IsHole(parts[i])
    ensures parts[i][1..] in Collect(parts, endpoint, m)
    ensures Collect(parts, endpoint, m)[parts[i][1..]] == HoleValue(parts[i], endpoint[i])
  {
    assert parts[i][0] in parts[i];
    var m' := if IsHole(parts[0]) then m[parts[0][1..] := HoleValue(parts[0], endpoint[0])] else m;
    var rest := parts[1..];
    if IsHole(parts[0]) {
      assert parts[0][0] in parts[0];
      assert Names(parts) == [parts[0][1..]] + Names(rest);
      assert forall k | 0 <= k < |Names(rest)| ::
          Names(rest)[k] == Names(parts)[k + 1] && Names(parts)[0] != Names(parts)[k + 1];
    } else {
      assert parts[0] in parts;
      assert Names(parts) == Names(rest);
    }
    if i == 0 {
      CollectKeeps(rest, endpoint[1..], m', parts[0][1..]);
    } else {
      CollectMeaning(rest, endpoint[1..], m', i - 1);
    }
  }

  lemma {:induction false} CollectKeeps(parts: seq<string>, endpoint: seq<string>, m: map<string, string>, name: string)
    requires |parts| <= |endpoint|
    requires forall s | s in parts :: '$' in s ==> IsHole(s)
    requires name in m && name !in Names(parts)
    ensures name in Collect(parts, endpoint, m) && Collect(parts, endpoint, m)[name] == m[name]
  {
    if parts != [] {
      if IsHole(parts[0]) {
        assert parts[0][0] in parts[0];
      }
      CollectKeeps(parts[1..], endpoint[1..],
                   if IsHole(parts[0]) then m[parts[0][1..] := HoleValue(parts[0], endpoint[0])] else m, name);
    }
  }

  lemma HolesOnly(p: PatternData)
    requires WellFormed(p)
    ensures forall s | s in Parts(p) :: '$' in s <==> IsHole(s)
    ensures forall s | s in Parts(p) && IsHole(s) :: IsParam(s, '.')
  {
    HolesOfPattern(p);
    forall s | s in Parts(p) ensures ('$' in s <==> IsHole(s)) && (IsHole(s) ==> IsParam(s, '.')) {
      assert TidySegment(s, '.');
      if IsHole(s) { assert s[0] in s; }
    }
  }

  /** What a match stores for a placeholder. */
  lemma MatchedValue(p: PatternData, endpoint: string, i: nat)
    requires WellFormed(p) && Distinct(Names(Parts(p))) && MatchesPattern(p, endpoint) && i < |Parts(p)|
    ensures |EndpointParts(endpoint)| == |Parts(p)|
    ensures var part, given, params := Parts(p)[i], EndpointParts(endpoint)[i], Matched(p, endpoint).params;
      && (IsHole(part) ==> part[1..] in params && params[part[1..]] == HoleValue(part, given))
      && (!IsHole(part) ==> part == given && '$' !in part)
  {
    PartsOfName(p);
    HolesOnly(p);
    var part := Parts(p)[i];
    assert part in Parts(p);
    if IsHole(part) {
      CollectMeaning(Parts(p), EndpointParts(endpoint), map[], i);
    }
  }

  /** Every placeholder stands against a segment that is neither empty nor `*`. */
  ghost predicate Concrete(p: PatternData, endpoint: string)
    requires MatchesPattern(p, endpoint)
  {
    var parts := Split(EndpointName(p), '.');
    forall i | 0 <= i < |parts| && IsHole(parts[i]) ::
        EndpointParts(endpoint)[i] != "" && EndpointParts(endpoint)[i] != "*"
  }

  /** No placeholder that is given another segment occurs in an earlier given segment. */
  ghost predicate ReadsInOrder(p: PatternData, endpoint: string)
    requires MatchesPattern(p, endpoint)
  {
    var parts, given := Split(EndpointName(p), '.'), EndpointParts(endpoint);
    forall k, i | 0 <= k < i < |parts| && IsHole(parts[i]) && given[i] != parts[i] :: !Contains(given[k], parts[i])
  }

  // ---- the path between service and method ----

  /** A placeholder of the path holds what it was given; another segment is as given. */
  predicate HeldAt(part: string, params: map<string, string>, given: string) {
    && '.' !in part && '.' !in given
    && (IsHole(part) ==> IsParam(part, '.') && part[1..] in params && params[part[1..]] == HoleValue(part, given))
    && (!IsHole(part) ==> part == given && '$' !in part)
  }

  ghost predicate Holds(path: seq<string>, params: map<string, string>, given: seq<string>) {
    |path| == |given| && forall i | 0 <= i < |path| :: HeldAt(path[i], params, given[i])
  }

  ghost predicate PathConcrete(path: seq<string>, given: seq<string>)
    requires |path| == |given|
  {
    forall i | 0 <= i < |path| && IsHole(path[i]) :: given[i] != "" && given[i] != "*"
  }

  ghost predicate PathInOrder(path: seq<string>, given: seq<string>)
    requires |path| == |given|
  {
    forall k, i | 0 <= k < i < |path| && IsHole(path[i]) && given[i] != path[i] :: !Contains(given[k], path[i])
  }

  lemma HeldSegment(path: seq<string>, params: map<string, string>, given: seq<string>, i: nat)
    requires Holds(path, params, given) && i < |path|
    ensures Sets(path[i], params) <==> IsHole(path[i]) && given[i] != "" && given[i] != "*" && given[i] != path[i]
    ensures Sets(path[i], params) ==> params[path[i][1..]] == given[i]
    ensures !IsHole(path[i]) || (given[i] != "" && given[i] != "*") ==> Inst(path[i], params) == given[i]
  {
    if IsHole(path[i]) {
      assert path[i][0] in path[i];
    }
  }

  lemma HeldIsDotFree(path: seq<string>, params: map<string, string>, given: seq<string>)
    requires Holds(path, params, given)
    ensures DotFreeValues(path, params) && forall s | s in path || s in given :: '.' !in s
  {
    forall s | s in path && Sets(s, params) ensures '.' !in params[s[1..]] {
      var i :| 0 <= i < |path| && path[i] == s;
      HeldSegment(path, params, given, i);
    }
  }

  /** Concrete: the path prints as given exactly when it is read in order. */
  lemma ConcretePath(generic: string, params: map<string, string>, given: seq<string>)
    requires Holds(Split(generic, '.'), params, given) && PathConcrete(Split(generic, '.'), given)
    ensures InstantiateLoop(Split(generic, '.'), params, generic) == Join(given, '.')
      <==> PathInOrder(Split(generic, '.'), given)
  {
    var path := Split(generic, '.');
    HeldIsDotFree(path, params, given);
    InstantiateIff(generic, params);
    forall i | 0 <= i < |path|
      ensures Inst(path[i], params) == given[i]
      ensures Sets(path[i], params) <==> IsHole(path[i]) && given[i] != path[i]
    {
      HeldSegment(path, params, given, i);
    }
    hide Split, Holds, InstantiateLoop, Join, Sets, Inst, Contains, IsHole;
    assert InstAll(path, params) == given;
  }

  /** Not concrete: whatever is replaced, the path does not print as given. */
  lemma VaguePath(generic: string, params: map<string, string>, given: seq<string>)
    requires Holds(Split(generic, '.'), params, given) && !PathConcrete(Split(generic, '.'), given)
    ensures InstantiateLoop(Split(generic, '.'), params, generic) != Join(given, '.')
  {
    var path := Split(generic, '.');
    HeldIsDotFree(path, params, given);
    forall i | 0 <= i < |path| && Sets(path[i], params) ensures path[i] != given[i] {
      HeldSegment(path, params, given, i);
    }
    var miss :| 0 <= miss < |path| && IsHole(path[miss]) && (given[miss] == "" || given[miss] == "*");
    HeldSegment(path, params, given, miss);
    assert path[miss][0] == '$';
    hide Split, Holds, InstantiateLoop, Join, Sets, Contains, IsHole;
    MissesStay(path, params, given, miss);
    LoopOnBlocks(path, params, path);
    BlocksStayWhole(path, params, path);
    JoinInjective(BlockLoop(path, params, path), given, '.');
  }

  // ---- the whole endpoint ----

  /** One segment of the path. */
  lemma PathSegment(p: PatternData, endpoint: string, i: nat)
    requires WellFormed(p) && Distinct(Names(Parts(p))) && MatchesPattern(p, endpoint) && p.generic != ""
    requires i < |Split(p.generic, '.')|
    ensures var n := |Split(p.service, '.')|;
      && n + i < |EndpointParts(endpoint)|
      && HeldAt(Split(p.generic, '.')[i], Matched(p, endpoint).params, EndpointParts(endpoint)[n + i])
  {
    var n, path := |Split(p.service, '.')|, Split(p.generic, '.');
    hide Split, Matched, MatchesPattern, WellFormed, Names, IsHole, IsParam;
    HolesOfPattern(p);
    assert Parts(p)[n + i] == path[i] && path[i] in path;
    MatchedValue(p, endpoint, n + i);
    assert EndpointParts(endpoint)[n + i] in EndpointParts(endpoint);
  }

  /** Service and method are given as they are. */
  lemma FixedSegments(p: PatternData, endpoint: string)
    requires WellFormed(p) && Distinct(Names(Parts(p))) && MatchesPattern(p, endpoint)
    ensures var s, all := Split(p.service, '.'), EndpointParts(endpoint);
      && |all| == |Parts(p)| > |s| && all[..|s|] == s && all[|all| - 1] == p.httpMethod
  {
    var s, all := Split(p.service, '.'), EndpointParts(endpoint);
    HolesOfPattern(p);
    hide Split, EndpointParts, Matched, MatchesPattern, WellFormed, Names, IsHole;
    forall i | 0 <= i < |s| ensures i < |all| && all[i] == s[i] {
      assert Parts(p)[i] == s[i] && s[i] in s;
      MatchedValue(p, endpoint, i);
    }
    MatchedValue(p, endpoint, |Parts(p)| - 1);
  }

  /** The given endpoint cut like the pattern: service, path and method. */
  lemma GivenParts(p: PatternData, endpoint: string) returns (given: seq<string>)
    requires WellFormed(p) && Distinct(Names(Parts(p))) && MatchesPattern(p, endpoint) && p.generic != ""
    ensures EndpointParts(endpoint) == Split(p.service, '.') + given + [p.httpMethod]
    ensures Holds(Split(p.generic, '.'), Matched(p, endpoint).params, given)
  {
    var all, s, path := EndpointParts(endpoint), Split(p.service, '.'), Split(p.generic, '.');
    hide Split, Matched, MatchesPattern, WellFormed, Names, Parts, EndpointParts, HeldAt, IsHole, Fits, Distinct;
    CutLength(p);
    FixedSegments(p, endpoint);
    given := Middle(all, |s|, |path|);
    CutInThree(all, |s|, |path|);
    forall i | 0 <= i < |path|
      ensures HeldAt(path[i], Matched(p, endpoint).params, given[i])
    {
      PathSegment(p, endpoint, i);
    }
  }

  function Middle(all: seq<string>, n: nat, m: nat): (r: seq<string>)
    requires n + m <= |all|
    ensures |r| == m && forall i | 0 <= i < m :: r[i] == all[n + i]
  {
    all[n..n + m]
  }

  lemma CutInThree(all: seq<string>, n: nat, m: nat)
    requires |all| == n + m + 1
    ensures all == all[..n] + Middle(all, n, m) + [all[n + m]]
  {
  }

  lemma CutLength(p: PatternData)
    requires p.generic != ""
    ensures |Parts(p)| == |Split(p.service, '.')| + |Split(p.generic, '.')| + 1
  {
  }

  /** Printing gives the endpoint back exactly when the path does. */
  lemma PrintedIffPath(p: PatternData, endpoint: string, given: seq<string>)
    requires WellFormed(p) && MatchesPattern(p, endpoint) && p.generic != "" && |given| >= 1
    requires EndpointParts(endpoint) == Split(p.service, '.') + given + [p.httpMethod]
    ensures EndpointNameSpecific(Matched(p, endpoint)) == Split(endpoint, '?')[0] <==>
      InstantiateLoop(Split(p.generic, '.'), Matched(p, endpoint).params, p.generic) == Join(given, '.')
  {
    JoinThree(Split(p.service, '.'), given, p.httpMethod);
    hide Split, Join, InstantiateLoop, Collect;
    SameBetween(p.service + ".", InstantiateLoop(Split(p.generic, '.'), Matched(p, endpoint).params, p.generic),
                Join(given, '.'), "." + p.httpMethod);
    Around(p.service, InstantiateLoop(Split(p.generic, '.'), Matched(p, endpoint).params, p.generic), p.httpMethod);
    Around(p.service, Join(given, '.'), p.httpMethod);
  }

  lemma Around(a: string, x: string, b: string)
    ensures a + "." + x + "." + b == (a + ".") + (x + ("." + b))
  {
  }

  lemma SameBetween(a: string, x: string, y: string, b: string)
    ensures a + (x + b) == a + (y + b) <==> x == y
  {
    if a + (x + b) == a + (y + b) {
      assert (a + (x + b))[|a|..] == x + b && (a + (y + b))[|a|..] == y + b;
      assert |x| == |y| && (x + b)[..|x|] == x && (y + b)[..|y|] == y;
    }
  }

  /** Only the path has placeholders, so the conditions are about the path. */
  lemma PatternPart(p: PatternData, i: nat)
    requires WellFormed(p) && p.generic != "" && i < |Parts(p)|
    ensures var s, path, part := Split(p.service, '.'), Split(p.generic, '.'), Parts(p)[i];
      var n := |s|;
      && |Parts(p)| == n + |path| + 1
      && (IsHole(part) ==> n <= i < n + |path| && '$' in part)
      && (n <= i < n + |path| ==> part == path[i - n])
      && (i < n ==> part == s[i] && '$' !in part)
  {
    var s := Split(p.service, '.');
    HolesOfPattern(p);
    hide WellFormed, Split;
    if i < |s| {
      assert Parts(p)[i] == s[i] && s[i] in s;
      PartChars(p.service, '.', s[i]);
    }
    if IsHole(Parts(p)[i]) { assert Parts(p)[i][0] in Parts(p)[i]; }
  }

  lemma ConditionsOnParts(p: PatternData, endpoint: string)
    requires '.' !in p.httpMethod && MatchesPattern(p, endpoint)
    ensures |Parts(p)| == |EndpointParts(endpoint)|
    ensures Concrete(p, endpoint) <==> PathConcrete(Parts(p), EndpointParts(endpoint))
    ensures ReadsInOrder(p, endpoint) <==> PathInOrder(Parts(p), EndpointParts(endpoint))
  {
    PartsOfName(p);
    hide Split, Parts, EndpointParts, IsHole, Contains;
  }

  /** The part of the pattern at `i` and the given segment there, seen from the path, which starts at `n`. */
  ghost predicate OnPathAt(parts: seq<string>, all: seq<string>, path: seq<string>, given: seq<string>, n: nat,
                           i: nat)
    requires |parts| == |all| && |path| == |given| && n + |path| <= |parts| && i < |parts|
  {
    && (IsHole(parts[i]) ==> n <= i < n + |path| && '$' in parts[i])
    && (n <= i < n + |path| ==> parts[i] == path[i - n] && all[i] == given[i - n])
    && (i < n ==> '$' !in all[i])
  }

  lemma PatternOnPath(p: PatternData, s: seq<string>, given: seq<string>, i: nat)
    requires WellFormed(p) && p.generic != "" && s == Split(p.service, '.') && i < |Parts(p)|
    requires |given| == |Split(p.generic, '.')|
    ensures |s + given + [p.httpMethod]| == |Parts(p)| && |s| + |given| < |Parts(p)|
    ensures OnPathAt(Parts(p), s + given + [p.httpMethod], Split(p.generic, '.'), given, |s|, i)
  {
    hide Split, WellFormed, Parts, IsHole;
    PatternPart(p, i);
  }

  lemma ConditionsOnPath(p: PatternData, endpoint: string, given: seq<string>)
    requires WellFormed(p) && MatchesPattern(p, endpoint) && p.generic != "" && |given| == |Split(p.generic, '.')|
    requires EndpointParts(endpoint) == Split(p.service, '.') + given + [p.httpMethod]
    ensures Concrete(p, endpoint) <==> PathConcrete(Split(p.generic, '.'), given)
    ensures ReadsInOrder(p, endpoint) <==> PathInOrder(Split(p.generic, '.'), given)
  {
    ConditionsOnParts(p, endpoint);
    hide *;
    var s, path, all, parts := Split(p.service, '.'), Split(p.generic, '.'), EndpointParts(endpoint), Parts(p);
    PatternOnPath(p, s, given, 0);
    forall i: nat | i < |parts| ensures OnPathAt(parts, all, path, given, |s|, i) {
      PatternOnPath(p, s, given, i);
    }
    InOrderOnPath(parts, all, path, given, |s|);
  }

  lemma InOrderOnPath(parts: seq<string>, all: seq<string>, path: seq<string>, given: seq<string>, n: nat)
    requires |parts| == |all| && |path| == |given| && n + |path| <= |parts|
    requires forall i: nat | i < |parts| :: OnPathAt(parts, all, path, given, n, i)
    ensures PathConcrete(parts, all) <==> PathConcrete(path, given)
    ensures PathInOrder(parts, all) <==> PathInOrder(path, given)
  {
    hide IsHole, Contains;
    forall i | 0 <= i < |parts|
      ensures IsHole(parts[i]) ==> n <= i < n + |path| && '$' in parts[i]
      ensures n <= i < n + |path| ==> parts[i] == path[i - n] && all[i] == given[i - n]
      ensures i < n ==> '$' !in all[i]
    {
      assert OnPathAt(parts, all, path, given, n, i);
    }
    forall i | 0 <= i < |path| ensures path[i] == parts[n + i] && given[i] == all[n + i] {
    }
    if PathInOrder(path, given) {
      forall k, i | 0 <= k < i < |parts| && IsHole(parts[i]) && all[i] != parts[i]
        ensures !Contains(all[k], parts[i])
      {
        if k < n {
          if Contains(all[k], parts[i]) {
            ContainsChars(all[k], parts[i], '$');
          }
        } else {
          assert !Contains(given[k - n], path[i - n]);
        }
      }
    }
    if PathInOrder(parts, all) {
      forall k, i | 0 <= k < i < |path| && IsHole(path[i]) && given[i] != path[i]
        ensures !Contains(given[k], path[i])
      {
        assert !Contains(all[n + k], parts[n + i]);
      }
    }
  }

  /**
   Matching an endpoint and printing the result gives the endpoint back (without its query)
   if and only if every placeholder stands against a segment that is neither empty nor `*`,
   and none that is given another segment occurs in an earlier given segment.
   */
  lemma {:induction false} MatchThenPrint(p: PatternData, endpoint: string)
    requires WellFormed(p) && Distinct(Names(Parts(p))) && MatchesPattern(p, endpoint)
    ensures EndpointNameSpecific(Matched(p, endpoint)) == Split(endpoint, '?')[0] <==>
      Concrete(p, endpoint) && ReadsInOrder(p, endpoint)
  {
    if p.generic == "" {
      NoPathToPrint(p, endpoint);
    } else {
      var given := GivenParts(p, endpoint);
      PrintedIffPath(p, endpoint, given);
      ConditionsOnPath(p, endpoint, given);
      hide MatchesPattern, Matched, EndpointNameSpecific, WellFormed, Names, Parts, Split, InstantiateLoop,
          EndpointParts;
      if PathConcrete(Split(p.generic, '.'), given) {
        ConcretePath(p.generic, Matched(p, endpoint).params, given);
      } else {
        VaguePath(p.generic, Matched(p, endpoint).params, given);
      }
    }
  }

  lemma NoPathToPrint(p: PatternData, endpoint: string)
    requires WellFormed(p) && Distinct(Names(Parts(p))) && MatchesPattern(p, endpoint) && p.generic == ""
    ensures EndpointNameSpecific(Matched(p, endpoint)) == Split(endpoint, '?')[0]
    ensures Concrete(p, endpoint) && ReadsInOrder(p, endpoint)
  {
    PartsOfName(p);
    HolesOfPattern(p);
    var parts, given := Parts(p), EndpointParts(endpoint);
    forall i | 0 <= i < |parts| ensures !IsHole(parts[i]) && parts[i] == given[i] {
      assert i < |parts| - 1 ==> parts[i] in Split(p.service, '.');
    }
    hide Split;
    assert parts == given;
  }
}
