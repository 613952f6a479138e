/**
 Printing and matching again, for every value a segment can carry: values are client data and
 may spell placeholders.  `EndpointMatching.PrintThenMatch` is the case of values without `$`.
 */
module RoundTrip {
  import opened Basics
  import opened GoStrings
  import opened Segments
  import opened Blocks
  import opened Endpoints
  import opened ParamAssignment
  import opened Instantiation
  import opened EndpointMatching

  /** A segment of its own that is neither empty nor the wildcard. */
  predicate Carried(v: string) {
    v != "" && v != "*" && '.' !in v && '?' !in v
  }

  /** Every placeholder has such a value, and nothing else has one. */
  ghost predicate CarriedAssignment(path: seq<string>, params: map<string, string>) {
    && params.Keys == (set n | n in Names(path))
    && forall s | s in path && '$' in s && s[1..] in params :: Carried(params[s[1..]])
  }

  // ---- what the loop makes of each block ----

  /** A placeholder becomes something a segment can carry; other segments stay. */
  predicate Becomes(part: string, block: string) {
    if '$' in part then Carried(block) else block == part
  }

  lemma ReplaceCarries(block: string, part: string, value: string)
    requires Carried(block) && Carried(value) && Contains(block, part)
    ensures Carried(ReplaceFirst(block, part, value))
  {
    ReplaceChars(block, part, value, '.');
    ReplaceChars(block, part, value, '?');
    ReplaceLength(block, part, value);
    ContainsIsShorter(block, part);
    if |part| == |block| {
      WholeReplaced(block, part, value);
    }
  }

  lemma {:induction false} ReplaceLength(s: string, t: string, new_: string)
    requires Contains(s, t)
    ensures |ReplaceFirst(s, t, new_)| == |s| - |t| + |new_|
  {
    if !(t <= s) {
      ReplaceLength(s[1..], t, new_);
    }
  }

  lemma WholeReplaced(s: string, t: string, new_: string)
    requires Contains(s, t) && |s| == |t|
    ensures ReplaceFirst(s, t, new_) == new_
  {
    if t <= s {
      assert s[|t|..] == "" && new_ + "" == new_;
    } else {
      ContainsIsShorter(s[1..], t);
    }
  }

  lemma StepBecomes(path: seq<string>, cur: seq<string>, part: string, params: map<string, string>)
    requires |path| == |cur| && forall k | 0 <= k < |path| :: Becomes(path[k], cur[k])
    requires Sets(part, params) ==> Carried(params[part[1..]])
    ensures forall k | 0 <= k < |path| :: Becomes(path[k], BlockStep(cur, part, params)[k])
  {
    if Sets(part, params) {
      var k := FirstWith(cur, part);
      if k < |cur| {
        ContainsChars(cur[k], part, '$');
        assert '$' in path[k];
        ReplaceCarries(cur[k], part, params[part[1..]]);
      }
    } else {
      StepUnset(cur, part, params);
    }
  }

  lemma {:induction false} LoopBecomes(path: seq<string>, cur: seq<string>, parts: seq<string>, params: map<string,
                                       string>)
    requires |path| == |cur| && forall k | 0 <= k < |path| :: Becomes(path[k], cur[k])
    requires forall part | part in parts && Sets(part, params) :: Carried(params[part[1..]])
    ensures forall k | 0 <= k < |path| :: Becomes(path[k], BlockLoop(parts, params, cur)[k])
    decreases |parts|
  {
    if parts != [] {
      assert parts[0] in parts;
      hide BlockStep, Sets, Becomes, Carried;
      StepBecomes(path, cur, parts[0], params);
      LoopBecomes(path, BlockStep(cur, parts[0], params), parts[1..], params);
    }
  }

  /** The printed path, block by block. */
  lemma PrintedBlocks(generic: string, params: map<string, string>)
    requires Tidy(Split(generic, '.'), '.') && '?' !in generic
    requires CarriedAssignment(Split(generic, '.'), params)
    ensures var path := Split(generic, '.');
      var blocks := BlockLoop(path, params, path);
      && InstantiateLoop(path, params, generic) == Join(blocks, '.')
      && (forall k | 0 <= k < |path| :: Becomes(path[k], blocks[k]))
      && forall b | b in blocks :: '.' !in b && '?' !in b
  {
    var path := Split(generic, '.');
    var blocks := BlockLoop(path, params, path);
    LoopOnBlocks(path, params, path);
    forall k | 0 <= k < |path| ensures Becomes(path[k], path[k]) && '.' !in path[k] && '?' !in path[k] {
      assert path[k] in path && TidySegment(path[k], '.');
      PartChars(generic, '.', path[k]);
    }
    hide Split, BlockLoop, InstantiateLoop, Join;
    LoopBecomes(path, path, path, params);
    forall b | b in blocks ensures '.' !in b && '?' !in b {
      var k :| 0 <= k < |blocks| && blocks[k] == b;
      assert Becomes(path[k], b);
    }
  }

  // ---- the printed endpoint, cut again ----

  lemma PrintedCut(p: PatternData, params: map<string, string>)
    requires WellFormed(p) && p.generic != "" && CarriedAssignment(Split(p.generic, '.'), params)
    ensures var text := EndpointNameSpecific(p.(params := params));
      var path := Split(p.generic, '.');
      && EndpointParts(text) == Split(p.service, '.') + BlockLoop(path, params, path) + [p.httpMethod]
      && Split(text, '?') == [text]
  {
    var path, s := Split(p.generic, '.'), Split(p.service, '.');
    var blocks := BlockLoop(path, params, path);
    var all, text := s + blocks + [p.httpMethod], EndpointNameSpecific(p.(params := params));
    PrintedBlocks(p.generic, params);
    JoinThree(s, blocks, p.httpMethod);
    forall x | x in s ensures '.' !in x && '?' !in x {
      PartChars(p.service, '.', x);
    }
    hide BlockLoop, InstantiateLoop, Split, Join;
    assert text == Join(all, '.');
    forall x | x in all ensures '.' !in x && '?' !in x {
      assert x in s || x in blocks || x == p.httpMethod;
    }
    CharsOfJoin(all, '.', '?');
    NoQuestionMark(text);
    SplitOfJoin(all, '.');
  }

  /** Every segment of the pattern against the same segment of the printed endpoint. */
  lemma PrintedAgainst(p: PatternData, params: map<string, string>, i: nat)
    requires WellFormed(p) && p.generic != "" && CarriedAssignment(Split(p.generic, '.'), params) && i < |Parts(p)|
    ensures var text := EndpointNameSpecific(p.(params := params));
      && |EndpointParts(text)| == |Parts(p)|
      && Becomes(Parts(p)[i], EndpointParts(text)[i])
      && (IsHole(Parts(p)[i]) <==> '$' in Parts(p)[i])
  {
    var path, s := Split(p.generic, '.'), Split(p.service, '.');
    PrintedCut(p, params);
    PrintedBlocks(p.generic, params);
    HolesOnly(p);
    var part := Parts(p)[i];
    assert part in Parts(p);
    if i < |s| {
      assert s[i] in s;
      PartChars(p.service, '.', s[i]);
    }
  }

  lemma PrintedMatches(p: PatternData, params: map<string, string>)
    requires WellFormed(p) && p.generic != "" && CarriedAssignment(Split(p.generic, '.'), params)
    ensures MatchesPattern(p, EndpointNameSpecific(p.(params := params)))
  {
    var text := EndpointNameSpecific(p.(params := params));
    PrintedCut(p, params);
    PartsOfName(p);
    forall i | 0 <= i < |Parts(p)| ensures IsHole(Parts(p)[i]) || Parts(p)[i] == EndpointParts(text)[i] {
      PrintedAgainst(p, params, i);
    }
    assert |EndpointParts(text)| == |Parts(p)|;
  }

  /** A placeholder is read back as what is printed in its place. */
  lemma ReadBack(p: PatternData, params: map<string, string>, k: nat)
    requires WellFormed(p) && p.generic != "" && CarriedAssignment(Split(p.generic, '.'), params)
    requires Distinct(Names(Parts(p))) && k < |Split(p.generic, '.')| && '$' in Split(p.generic, '.')[k]
    ensures var q, path := p.(params := params), Split(p.generic, '.');
      && MatchesPattern(p, EndpointNameSpecific(q))
      && path[k][1..] in Matched(p, EndpointNameSpecific(q)).params
      && Matched(p, EndpointNameSpecific(q)).params[path[k][1..]] == BlockLoop(path, params, path)[k]
  {
    hide Split, BlockLoop, MatchesPattern, Matched, EndpointNameSpecific, WellFormed, CarriedAssignment, Names,
        EndpointParts, IsHole, Distinct;
    var n, path := |Split(p.service, '.')|, Split(p.generic, '.');
    PrintedMatches(p, params);
    PrintedCut(p, params);
    PrintedAgainst(p, params, n + k);
    assert Parts(p)[n + k] == path[k];
    MatchedValue(p, EndpointNameSpecific(p.(params := params)), n + k);
  }

  /** Undisturbed, everything is read back. */
  lemma UndisturbedReadsBack(p: PatternData, params: map<string, string>)
    requires WellFormed(p) && p.generic != "" && CarriedAssignment(Split(p.generic, '.'), params)
    requires Undisturbed(Split(p.generic, '.'), params)
    ensures var q := p.(params := params);
      MatchesPattern(p, EndpointNameSpecific(q)) && Matched(p, EndpointNameSpecific(q)) == q
  {
    var q, path := p.(params := params), Split(p.generic, '.');
    var text := EndpointNameSpecific(q);
    PrintedMatches(p, params);
    PrintedCut(p, params);
    NamesOfPath(p);
    LoopIsMeant(path, params);
    MatchedWithoutQuery(p, text);
    var parts, all := Parts(p), EndpointParts(text);
    hide *;
    forall i | 0 <= i < |parts|
      ensures |all| == |parts| && (IsHole(parts[i]) <==> '$' in parts[i])
      ensures IsHole(parts[i]) ==> parts[i][1..] in params && params[parts[i][1..]] == all[i] != "*"
    {
      UndisturbedSegment(p, params, i);
    }
    assert |parts| >= 1;
    CollectPrinted(parts, all, params, map[]);
    PathNames(p, params);
    assert Collect(parts, all, map[]) == params;
  }

  lemma PathNames(p: PatternData, params: map<string, string>)
    requires WellFormed(p) && p.generic != "" && CarriedAssignment(Split(p.generic, '.'), params)
    ensures params.Keys == (set n | n in Names(Parts(p)))
  {
    NamesOfPath(p);
  }

  lemma MatchedWithoutQuery(p: PatternData, text: string)
    requires WellFormed(p) && MatchesPattern(p, text) && Split(text, '?') == [text]
    ensures |EndpointParts(text)| == |Parts(p)|
    ensures Matched(p, text) == p.(params := Collect(Parts(p), EndpointParts(text), map[]))
  {
    PartsOfName(p);
    hide Split, Collect;
  }

  lemma UndisturbedSegment(p: PatternData, params: map<string, string>, i: nat)
    requires WellFormed(p) && p.generic != "" && CarriedAssignment(Split(p.generic, '.'), params) && i < |Parts(p)|
    requires BlockLoop(Split(p.generic, '.'), params, Split(p.generic, '.')) == InstAll(Split(p.generic, '.'), params)
    ensures var text, part := EndpointNameSpecific(p.(params := params)), Parts(p)[i];
      && |EndpointParts(text)| == |Parts(p)|
      && (IsHole(part) <==> '$' in part)
      && (IsHole(part) ==> part[1..] in params && params[part[1..]] == EndpointParts(text)[i] != "*")
  {
    var n, path := |Split(p.service, '.')|, Split(p.generic, '.');
    hide Split, BlockLoop, EndpointNameSpecific, WellFormed, EndpointParts, IsHole;
    PrintedCut(p, params);
    PrintedAgainst(p, params, i);
    if IsHole(Parts(p)[i]) {
      PathHoleAt(p, i);
      var part := path[i - n];
      NamesHas(path, part);
      assert Inst(part, params) == params[part[1..]];
    }
  }

  lemma PathHoleAt(p: PatternData, i: nat)
    requires WellFormed(p) && p.generic != "" && i < |Parts(p)| && IsHole(Parts(p)[i])
    ensures var n, path := |Split(p.service, '.')|, Split(p.generic, '.');
      && n <= i < n + |path| && Parts(p)[i] == path[i - n] && path[i - n] in path
      && '$' in path[i - n] && |path[i - n]| > 1
  {
    var n, path := |Split(p.service, '.')|, Split(p.generic, '.');
    HolesOfPattern(p);
    HolesOnly(p);
    assert Parts(p)[i] in Parts(p);
    var s := Split(p.service, '.');
    assert forall j | 0 <= j < n :: Parts(p)[j] == s[j] && s[j] in s;
  }

  /** Disturbed, some placeholder is read back as another value. */
  lemma DisturbedReadsOther(p: PatternData, params: map<string, string>)
    requires WellFormed(p) && p.generic != "" && CarriedAssignment(Split(p.generic, '.'), params)
    requires Distinct(Names(Parts(p))) && !Undisturbed(Split(p.generic, '.'), params)
    ensures var q := p.(params := params);
      MatchesPattern(p, EndpointNameSpecific(q)) && Matched(p, EndpointNameSpecific(q)) != q
  {
    var k := FirstWrong(p, params);
    MeantSegment(p, params, k);
    hide *;
    PrintedMatches(p, params);
    ReadBack(p, params, k);
  }

  /** A placeholder whose block does not come out as its value. */
  lemma FirstWrong(p: PatternData, params: map<string, string>) returns (k: nat)
    requires WellFormed(p) && p.generic != "" && CarriedAssignment(Split(p.generic, '.'), params)
    requires !Undisturbed(Split(p.generic, '.'), params)
    ensures var path := Split(p.generic, '.');
      && k < |path| && '$' in path[k] && BlockLoop(path, params, path)[k] != Inst(path[k], params)
  {
    var path := Split(p.generic, '.');
    PrintedPath(p, params);
    LoopIsMeant(path, params);
    hide Split, BlockLoop, Undisturbed, WellFormed, CarriedAssignment, Inst, InstAll, Carried;
    k := NotMeant(path, params, BlockLoop(path, params, path));
    assert Becomes(path[k], BlockLoop(path, params, path)[k]);
    MeantSegment(p, params, k);
  }

  lemma NotMeant(path: seq<string>, params: map<string, string>, blocks: seq<string>) returns (k: nat)
    requires |blocks| == |path| && blocks != InstAll(path, params)
    ensures k < |path| && blocks[k] != Inst(path[k], params)
  {
    hide Inst;
    k :| 0 <= k < |path| && blocks[k] != InstAll(path, params)[k];
  }

  lemma LoopIsMeant(path: seq<string>, params: map<string, string>)
    ensures BlockLoop(path, params, path) == InstAll(path, params) <==> Undisturbed(path, params)
  {
    assert path[0..] == path;
    BlockLoopExact(path, params, 0, path);
  }

  lemma PrintedPath(p: PatternData, params: map<string, string>)
    requires WellFormed(p) && p.generic != "" && CarriedAssignment(Split(p.generic, '.'), params)
    ensures var path := Split(p.generic, '.');
      forall k | 0 <= k < |path| :: Becomes(path[k], BlockLoop(path, params, path)[k])
  {
    hide Split, BlockLoop, CarriedAssignment, Becomes, Tidy;
    PrintedBlocks(p.generic, params);
  }

  lemma MeantSegment(p: PatternData, params: map<string, string>, k: nat)
    requires WellFormed(p) && p.generic != "" && CarriedAssignment(Split(p.generic, '.'), params)
    requires k < |Split(p.generic, '.')|
    ensures var part := Split(p.generic, '.')[k];
      && ('$' in part ==> part[1..] in params && Inst(part, params) == params[part[1..]])
      && ('$' !in part ==> Inst(part, params) == part)
  {
    var part := Split(p.generic, '.')[k];
    HolesOfPattern(p);
    assert part in Split(p.generic, '.') && part in PathParts(p.generic);
    if '$' in part {
      NamesHas(Split(p.generic, '.'), part);
      assert TidySegment(part, '.');
    }
  }

  /**
   For every full assignment of values a segment can carry: what is printed matches its pattern,
   and is read back as the same parameters if and only if no placeholder occurs in what an
   earlier segment is to become.
   */
  lemma {:induction false} PrintThenMatchIff(p: PatternData, params: map<string, string>)
    requires WellFormed(p) && Distinct(Names(Parts(p))) && CarriedAssignment(PathParts(p.generic), params)
    ensures var q := p.(params := params);
      && MatchesPattern(p, EndpointNameSpecific(q))
      && (Matched(p, EndpointNameSpecific(q)) == q <==> Undisturbed(Split(p.generic, '.'), params))
  {
    if p.generic == "" {
      assert FullAssignment(PathParts(p.generic), params);
      PrintThenMatch(p, params);
    } else if Undisturbed(Split(p.generic, '.'), params) {
      UndisturbedReadsBack(p, params);
    } else {
      DisturbedReadsOther(p, params);
    }
  }

  // ---- parameters read from a URL ----

  /** The path with every placeholder replaced by what the URL has for it. */
  function FromUrl(path: seq<string>, url: map<string, string>): (r: seq<string>)
    requires forall s | s in path && '$' in s :: s[1..] in url
  {
    seq(|path|, i requires 0 <= i < |path| => if '$' in path[i] then url[path[i][1..]] else path[i])
  }

  /** What the HTTP server makes of a URL that has a value for every placeholder, each within its segment. */
  ghost predicate ReadFromUrl(p: PatternData, url: map<string, string>, params: map<string, string>) {
    && params.Keys == (set n | n in Names(PathParts(p.generic)))
    && forall n | n in params :: n in url && params[n] == url[n] && Carried(url[n])
  }

  lemma UrlHasAll(p: PatternData, url: map<string, string>, params: map<string, string>)
    requires WellFormed(p) && ReadFromUrl(p, url, params)
    ensures CarriedAssignment(PathParts(p.generic), params)
    ensures forall s | s in PathParts(p.generic) && '$' in s :: s[1..] in url && s[1..] in params
    ensures InstAll(PathParts(p.generic), params) == FromUrl(PathParts(p.generic), url)
  {
    var path := PathParts(p.generic);
    HolesOfPattern(p);
    forall s | s in path && '$' in s ensures s[1..] in url && s[1..] in params {
      NamesHas(path, s);
    }
    forall i | 0 <= i < |path| ensures Inst(path[i], params) == FromUrl(path, url)[i] {
      assert path[i] in path;
      if '$' in path[i] {
        assert path[i][0] in path[i] && IsParam(path[i], '.') by { TidyPart(p, path[i]); }
      }
    }
  }

  lemma TidyPart(p: PatternData, part: string)
    requires WellFormed(p) && part in PathParts(p.generic) && '$' in part
    ensures IsParam(part, '.')
  {
    assert part in Split(p.generic, '.') && TidySegment(part, '.');
  }

  /**
   With parameters read from such a URL the endpoint is printed with each value in its
   placeholder's place if and only if no placeholder occurs in what an earlier segment becomes.
   */
  lemma {:induction false} HttpPrintedIff(p: PatternData, url: map<string, string>, params: map<string, string>)
    requires WellFormed(p) && p.generic != "" && ReadFromUrl(p, url, params)
    ensures forall s | s in PathParts(p.generic) && '$' in s :: s[1..] in url
    ensures EndpointParts(EndpointNameSpecific(p.(params := params)))
        == Split(p.service, '.') + FromUrl(PathParts(p.generic), url) + [p.httpMethod]
      <==> Undisturbed(PathParts(p.generic), params)
  {
    var path, s := PathParts(p.generic), Split(p.service, '.');
    UrlHasAll(p, url, params);
    PrintedCut(p, params);
    LoopIsMeant(path, params);
    hide Split, WellFormed, ReadFromUrl, CarriedAssignment, EndpointNameSpecific, EndpointParts, BlockLoop, InstAll,
        FromUrl, Undisturbed;
    SameMiddle(s, BlockLoop(path, params, path), InstAll(path, params), [p.httpMethod]);
  }

  lemma SameMiddle(a: seq<string>, b: seq<string>, c: seq<string>, d: seq<string>)
    ensures a + b + d == a + c + d <==> b == c
  {
    if a + b + d == a + c + d {
      assert |b| == |c|;
      assert (a + b + d)[|a|..|a| + |b|] == b && (a + c + d)[|a|..|a| + |c|] == c;
    }
  }
}
