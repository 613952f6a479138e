/**
 Which subscription a published subject reaches.  `SubscribeRaw`
 (v2/pkg/broker/providers/nats/provider.go) turns every `$...` run left in the printed
 endpoint into the NATS token `*`; `Publish` uses the printed endpoint as it is and
 `Request` the generic one.
 */
module Routing {
  import opened Basics
  import opened GoStrings
  import opened Segments
  import opened Blocks
  import opened Endpoints
  import opened Instantiation
  import opened ParamAssignment
  import opened EndpointMatching

  /** Length of the leading run without dots. */
  function Run(s: string): (n: nat)
    ensures n <= |s|
  {
    if s == "" || s[0] == '.' then 0 else 1 + Run(s[1..])
  }

  /** Leftmost, greedy, non-overlapping replacement of `$[^.]+` by `*`. */
  function StarPlaceholders(s: string): string
    decreases |s|
  {
    if s == "" then ""
    else if s[0] == '$' && Run(s[1..]) > 0 then "*" + StarPlaceholders(s[1..][Run(s[1..])..])
    else [s[0]] + StarPlaceholders(s[1..])
  }

  /** One segment: from its first `$` with something after it on, `*`. */
  function StarSegment(seg: string): string {
    if seg == "" then ""
    else if seg[0] == '$' && |seg| > 1 then "*"
    else [seg[0]] + StarSegment(seg[1..])
  }

  function StarAll(segs: seq<string>): (r: seq<string>)
    ensures |r| == |segs| && forall i | 0 <= i < |r| :: r[i] == StarSegment(segs[i])
  {
    if segs == [] then [] else [StarSegment(segs[0])] + StarAll(segs[1..])
  }

  lemma {:induction false} RunOfSegment(seg: string, tail: string)
    requires '.' !in seg && (tail == "" || tail[0] == '.')
    ensures Run(seg + tail) == |seg|
  {
    if seg == "" {
      assert seg + tail == tail;
    } else {
      assert (seg + tail)[1..] == seg[1..] + tail;
      RunOfSegment(seg[1..], tail);
    }
  }

  /** One character, with the rest of its segment and what follows. */
  lemma StarStep(s: string, rest: string, tail: string)
    requires s != "" && s[1..] == rest + tail && '.' !in rest && (tail == "" || tail[0] == '.')
    ensures StarPlaceholders(s) ==
      if s[0] == '$' && rest != "" then "*" + StarPlaceholders(tail) else [s[0]] + StarPlaceholders(rest + tail)
  {
    RunOfSegment(rest, tail);
    hide Run;
    assert (rest + tail)[|rest|..] == tail;
  }

  lemma {:induction false} StarOneSegment(seg: string, tail: string)
    requires '.' !in seg && (tail == "" || tail[0] == '.')
    ensures StarPlaceholders(seg + tail) == StarSegment(seg) + StarPlaceholders(tail)
  {
    hide StarPlaceholders;
    if seg == "" {
      assert seg + tail == tail;
    } else {
      var rest := seg[1..];
      assert (seg + tail)[1..] == rest + tail;
      StarStep(seg + tail, rest, tail);
      if !(seg[0] == '$' && |seg| > 1) {
        StarOneSegment(rest, tail);
        Regroup([seg[0]], StarSegment(rest), StarPlaceholders(tail));
      }
    }
  }

  /** The regular expression works one segment at a time, whatever the segments hold. */
  lemma {:induction false} StarOnSegments(segs: seq<string>)
    requires forall s | s in segs :: '.' !in s
    ensures StarPlaceholders(Join(segs, '.')) == Join(StarAll(segs), '.')
  {
    if |segs| == 1 {
      StarOneSegment(segs[0], "");
      assert segs[0] + "" == segs[0];
      assert StarAll(segs) == [StarSegment(segs[0])];
    } else if |segs| > 1 {
      var rest := segs[1..];
      var tail := ['.'] + Join(rest, '.');
      assert segs == [segs[0]] + rest;
      JoinOfCons(segs[0], rest, '.');
      StarOneSegment(segs[0], tail);
      assert tail[1..] == Join(rest, '.');
      StarOnSegments(rest);
      JoinOfCons(StarSegment(segs[0]), StarAll(rest), '.');
    }
  }

  /** A value that makes its token the wildcard. */
  predicate Widens(v: string) {
    v == "*" || (|v| > 1 && v[0] == '$')
  }

  /** A value the regular expression leaves as it is. */
  predicate Kept(v: string) {
    forall i | 0 <= i < |v| - 1 :: v[i] != '$'
  }

  lemma {:induction false} TokenOf(v: string)
    ensures StarSegment(v) == "*" <==> Widens(v)
    ensures StarSegment(v) == v <==> Kept(v)
    ensures StarSegment(v) == ">" ==> v == ">"
  {
    if v != "" && !(v[0] == '$' && |v| > 1) {
      TokenOf(v[1..]);
      assert v == [v[0]] + v[1..];
      if Kept(v) {
        assert forall i | 0 <= i < |v| - 2 :: v[1..][i] == v[i + 1];
      }
      if Kept(v[1..]) {
        assert forall i | 1 <= i < |v| - 1 :: v[i] == v[1..][i - 1];
      }
    }
  }

  lemma TidyToken(seg: string)
    requires TidySegment(seg, '.')
    ensures StarSegment(seg) == if '$' in seg then "*" else seg
  {
    TokenOf(seg);
  }

  /** NATS subject matching on tokens: `*` is any one token, a final `>` one or more. */
  predicate SubjectMatches(sub: seq<string>, pub: seq<string>) {
    if sub == [] then pub == []
    else if sub == [">"] then pub != []
    else pub != [] && (sub[0] == "*" || sub[0] == pub[0]) && SubjectMatches(sub[1..], pub[1..])
  }

  lemma {:induction false} MatchesPointwise(sub: seq<string>, pub: seq<string>)
    requires sub != [] && sub[|sub| - 1] != ">"
    ensures SubjectMatches(sub, pub) <==>
      |sub| == |pub| && forall i | 0 <= i < |sub| :: sub[i] == "*" || sub[i] == pub[i]
  {
    if pub != [] {
      if |sub| == 1 {
        assert SubjectMatches(sub[1..], pub[1..]) <==> pub[1..] == [];
      } else {
        MatchesPointwise(sub[1..], pub[1..]);
        if |sub| == |pub| {
          assert forall i | 0 < i < |sub| :: sub[i] == sub[1..][i - 1] && pub[i] == pub[1..][i - 1];
          assert forall i | 0 <= i < |sub| - 1 :: sub[1..][i] == sub[i + 1] && pub[1..][i] == pub[i + 1];
        }
      }
    }
  }

  function SubscriptionSubject(p: PatternData): string {
    StarPlaceholders(EndpointNameSpecific(p))
  }

  predicate Reaches(subject: string, p: PatternData) {
    SubjectMatches(Split(SubscriptionSubject(p), '.'), Split(subject, '.'))
  }

  // ---- the printed tokens ----

  /** A name as services have them: placeholders only in the path, and a method that is one token. */
  ghost predicate Addressable(p: PatternData) {
    '$' !in p.service && '$' !in p.httpMethod && '.' !in p.httpMethod && p.httpMethod != ">"
  }

  /** What is printed, segment by segment: the loop's own blocks between service and method. */
  function PrintedParts(p: PatternData): (r: seq<string>) {
    var path := PathParts(p.generic);
    Split(p.service, '.') + BlockLoop(path, p.params, path) + [p.httpMethod]
  }

  lemma PrintedLength(p: PatternData)
    ensures |PrintedParts(p)| == |Split(p.service, '.')| + |PathParts(p.generic)| + 1 == |Parts(p)|
    ensures PrintedParts(p)[|PrintedParts(p)| - 1] == p.httpMethod
  {
  }

  lemma PrintedIsJoin(p: PatternData)
    ensures EndpointNameSpecific(p) == Join(PrintedParts(p), '.')
  {
    var path := PathParts(p.generic);
    JoinThree(Split(p.service, '.'), BlockLoop(path, p.params, path), p.httpMethod);
    if p.generic != "" {
      LoopOnBlocks(path, p.params, path);
    }
  }

  lemma PrintedHasNoDot(p: PatternData)
    requires '.' !in p.httpMethod && DotFreeValues(PathParts(p.generic), p.params)
    ensures forall s | s in PrintedParts(p) :: '.' !in s
  {
    var path := PathParts(p.generic);
    BlocksStayWhole(path, p.params, path);
    hide BlockLoop, Split;
    forall s | s in PrintedParts(p) ensures '.' !in s {
      assert s in Split(p.service, '.') || s in BlockLoop(path, p.params, path) || s == p.httpMethod;
    }
  }

  lemma {:induction false} StarChars(seg: string)
    requires '.' !in seg
    ensures '.' !in StarSegment(seg)
  {
    if seg != "" {
      StarChars(seg[1..]);
    }
  }

  lemma TokensOfJoin(segs: seq<string>)
    requires |segs| >= 1 && forall s | s in segs :: '.' !in s
    ensures Split(Join(segs, '.'), '.') == segs
    ensures Split(StarPlaceholders(Join(segs, '.')), '.') == StarAll(segs)
  {
    SplitOfJoin(segs, '.');
    StarOnSegments(segs);
    forall i | 0 <= i < |segs| ensures '.' !in StarAll(segs)[i] {
      StarChars(segs[i]);
    }
    hide Join, Split, StarPlaceholders, StarSegment;
    SplitOfJoin(StarAll(segs), '.');
  }

  lemma PrintedTokens(p: PatternData)
    requires '.' !in p.httpMethod && DotFreeValues(PathParts(p.generic), p.params)
    ensures Split(EndpointNameSpecific(p), '.') == PrintedParts(p)
    ensures Split(SubscriptionSubject(p), '.') == StarAll(PrintedParts(p))
  {
    PrintedLength(p);
    PrintedIsJoin(p);
    PrintedHasNoDot(p);
    hide PrintedParts;
    TokensOfJoin(PrintedParts(p));
  }

  /** A segment a subscription prints accepts a segment a publication prints. */
  predicate Accepts(subscribed: string, published: string) {
    StarSegment(subscribed) == "*" || StarSegment(subscribed) == published
  }

  lemma MatchesByTokens(subscribed: seq<string>, published: seq<string>)
    requires |subscribed| == |published| >= 1 && subscribed[|subscribed| - 1] != ">"
    ensures SubjectMatches(StarAll(subscribed), published)
      <==> forall i | 0 <= i < |subscribed| :: Accepts(subscribed[i], published[i])
  {
    var tokens := StarAll(subscribed);
    TokenOf(subscribed[|subscribed| - 1]);
    MatchesPointwise(tokens, published);
    hide StarSegment;
    forall i | 0 <= i < |tokens|
      ensures (tokens[i] == "*" || tokens[i] == published[i]) <==> Accepts(subscribed[i], published[i])
    {
      assert tokens[i] == StarSegment(subscribed[i]);
    }
  }

  /**
   For any pattern and any values without dots, `$` included: what is published reaches a
   subscription of the same pattern if and only if every printed segment is accepted, whatever
   the replace-first loop made of the values.
   */
  lemma ReachesByTokens(p: PatternData, published: map<string, string>, subscribed: map<string, string>)
    requires '.' !in p.httpMethod && p.httpMethod != ">"
    requires DotFreeValues(PathParts(p.generic), published) && DotFreeValues(PathParts(p.generic), subscribed)
    ensures var (pub, sub) := (p.(params := published), p.(params := subscribed));
      && |PrintedParts(sub)| == |PrintedParts(pub)|
      && (Reaches(EndpointNameSpecific(pub), sub)
          <==> forall i | 0 <= i < |PrintedParts(sub)| :: Accepts(PrintedParts(sub)[i], PrintedParts(pub)[i]))
  {
    var (pub, sub) := (p.(params := published), p.(params := subscribed));
    PrintedLength(pub);
    PrintedLength(sub);
    PrintedTokens(pub);
    PrintedTokens(sub);
    hide PrintedParts, SubjectMatches, Accepts;
    MatchesByTokens(PrintedParts(sub), PrintedParts(pub));
  }

  // ---- token by token ----

  /** Values that stay within their segment and are printed in their place. */
  ghost predicate InPlace(p: PatternData, params: map<string, string>) {
    DotFreeValues(PathParts(p.generic), params) && Undisturbed(PathParts(p.generic), params)
  }

  lemma PrintedInPlace(p: PatternData)
    requires Undisturbed(PathParts(p.generic), p.params)
    ensures PrintedParts(p) == Split(p.service, '.') + InstAll(PathParts(p.generic), p.params) + [p.httpMethod]
  {
    var path := PathParts(p.generic);
    assert path[0..] == path;
    BlockLoopExact(path, p.params, 0, path);
  }

  lemma FixedAccepts(s: string)
    requires '$' !in s
    ensures Accepts(s, s)
  {
    TokenOf(s);
  }

  lemma ServiceAccepts(service: string)
    requires '$' !in service
    ensures forall s | s in Split(service, '.') :: Accepts(s, s)
  {
    forall s | s in Split(service, '.') ensures Accepts(s, s) {
      PartChars(service, '.', s);
      FixedAccepts(s);
    }
  }

  /**
   For values printed in their place: a publication reaches a subscription of the same pattern
   if and only if for every segment of the path the subscribed value makes the token `*`, or
   leaves a token that is the published value.
   */
  lemma RoutingIff(p: PatternData, published: map<string, string>, subscribed: map<string, string>)
    requires Addressable(p) && InPlace(p, published) && InPlace(p, subscribed)
    ensures Reaches(EndpointNameSpecific(p.(params := published)), p.(params := subscribed))
      <==> forall s | s in PathParts(p.generic) :: Accepts(Inst(s, subscribed), Inst(s, published))
  {
    ReachesByTokens(p, published, subscribed);
    PrintedInPlace(p.(params := published));
    PrintedInPlace(p.(params := subscribed));
    ServiceAccepts(p.service);
    FixedAccepts(p.httpMethod);
    hide Reaches, PrintedParts, Accepts, Inst, DotFreeValues, Undisturbed, Split;
    MiddleAccepts(Split(p.service, '.'), PathParts(p.generic), p.httpMethod, published, subscribed);
  }

  lemma MiddleAccepts(service: seq<string>, path: seq<string>, verb: string,
                      published: map<string, string>, subscribed: map<string, string>)
    requires Accepts(verb, verb) && forall s | s in service :: Accepts(s, s)
    ensures var sub, pub := service + InstAll(path, subscribed) + [verb], service + InstAll(path, published) + [verb];
      (forall i | 0 <= i < |sub| :: Accepts(sub[i], pub[i]))
        <==> forall s | s in path :: Accepts(Inst(s, subscribed), Inst(s, published))
  {
    hide Accepts, Inst;
    var n := |service|;
    var sub, pub := service + InstAll(path, subscribed) + [verb], service + InstAll(path, published) + [verb];
    forall k | 0 <= k < |path|
      ensures sub[n + k] == Inst(path[k], subscribed) && pub[n + k] == Inst(path[k], published)
    {
    }
    if forall i | 0 <= i < |sub| :: Accepts(sub[i], pub[i]) {
      forall s | s in path ensures Accepts(Inst(s, subscribed), Inst(s, published)) {
        var k :| 0 <= k < |path| && path[k] == s;
        assert Accepts(sub[n + k], pub[n + k]);
      }
    }
    if forall s | s in path :: Accepts(Inst(s, subscribed), Inst(s, published)) {
      forall i | 0 <= i < |sub| ensures Accepts(sub[i], pub[i]) {
        if n <= i < n + |path| {
          assert path[i - n] in path && sub[n + (i - n)] == Inst(path[i - n], subscribed);
        }
      }
    }
  }

  // ---- when routing is by value ----

  /** `published` gives every parameter that `subscribed` sets the same value. */
  ghost predicate Agrees(path: seq<string>, published: map<string, string>, subscribed: map<string, string>) {
    forall s | s in path && Sets(s, subscribed) :: Sets(s, published) && published[s[1..]] == subscribed[s[1..]]
  }

  /** A value that stands for itself in a subscription. */
  predicate Literal(v: string) {
    v != "*" && Kept(v)
  }

  ghost predicate LiteralValues(path: seq<string>, params: map<string, string>) {
    forall s | s in path && Sets(s, params) :: Literal(params[s[1..]])
  }

  lemma LiteralAccepts(part: string, published: map<string, string>, subscribed: map<string, string>)
    requires TidySegment(part, '.') && (Sets(part, subscribed) ==> Literal(subscribed[part[1..]]))
    ensures Accepts(Inst(part, subscribed), Inst(part, published))
      <==> (Sets(part, subscribed) ==> Sets(part, published) && published[part[1..]] == subscribed[part[1..]])
  {
    TokenOf(Inst(part, subscribed));
    if !Sets(part, subscribed) {
      assert Inst(part, subscribed) == part;
      TidyToken(part);
    }
  }

  /** The publication reaches the subscription exactly when the two agree. */
  ghost predicate ByValue(p: PatternData, published: map<string, string>, subscribed: map<string, string>) {
    var subject := EndpointNameSpecific(p.(params := published));
    Reaches(subject, p.(params := subscribed)) <==> Agrees(PathParts(p.generic), published, subscribed)
  }

  /**
   Routing is exact: for values that stand for themselves in the subscription, what is published
   on a pattern with parameters S reaches a subscription of the same pattern with parameters T
   if and only if S gives every parameter T sets the same value.
   */
  lemma RoutingExact(p: PatternData, published: map<string, string>, subscribed: map<string, string>)
    requires Addressable(p) && Tidy(PathParts(p.generic), '.')
    requires InPlace(p, published) && InPlace(p, subscribed) && LiteralValues(PathParts(p.generic), subscribed)
    ensures ByValue(p, published, subscribed)
  {
    RoutingIff(p, published, subscribed);
    hide Reaches, Accepts, Inst, Sets, Literal, TidySegment;
    forall s | s in PathParts(p.generic)
      ensures Accepts(Inst(s, subscribed), Inst(s, published))
        <==> (Sets(s, subscribed) ==> Sets(s, published) && published[s[1..]] == subscribed[s[1..]])
    {
      LiteralAccepts(s, published, subscribed);
    }
  }

  // ---- values that do not stand for themselves ----

  lemma OwnAccepts(part: string, params: map<string, string>)
    requires TidySegment(part, '.')
    ensures Accepts(Inst(part, params), Inst(part, params))
      <==> (Sets(part, params) ==> Widens(params[part[1..]]) || Kept(params[part[1..]]))
  {
    TokenOf(Inst(part, params));
    if !Sets(part, params) {
      assert Inst(part, params) == part;
      TidyToken(part);
    }
  }

  /**
   A subscription receives what is published with its very own parameters if and only if each
   of them widens its token or stays as it is: with `x$y` it listens to a literal `x*`.
   */
  lemma OwnEventIff(p: PatternData, params: map<string, string>)
    requires Addressable(p) && Tidy(PathParts(p.generic), '.') && InPlace(p, params)
    ensures Reaches(EndpointNameSpecific(p.(params := params)), p.(params := params)) <==>
      forall s | s in PathParts(p.generic) && Sets(s, params) :: Widens(params[s[1..]]) || Kept(params[s[1..]])
  {
    RoutingIff(p, params, params);
    hide Reaches, Accepts, Inst, Sets, Widens, Kept, TidySegment;
    forall s | s in PathParts(p.generic)
      ensures Accepts(Inst(s, params), Inst(s, params))
        <==> (Sets(s, params) ==> Widens(params[s[1..]]) || Kept(params[s[1..]]))
    {
      OwnAccepts(s, params);
    }
  }

  /** One parameter changed. */
  lemma OtherInst(part: string, s: string, params: map<string, string>, v: string)
    requires TidySegment(part, '.') && TidySegment(s, '.') && Sets(part, params) && v != "" && '$' !in v
    ensures Inst(s, params[part[1..] := v]) == if s == part then v else Inst(s, params)
    ensures Sets(s, params[part[1..] := v]) <==> Sets(s, params)
  {
    if LooksLikeParam(s) && s[1..] == part[1..] {
      assert s == ['$'] + s[1..] && part == ['$'] + part[1..];
    }
    assert '$' in part;
  }

  lemma OtherInPlace(p: PatternData, part: string, params: map<string, string>, v: string)
    requires Tidy(PathParts(p.generic), '.') && part in PathParts(p.generic) && Sets(part, params)
    requires InPlace(p, params) && v != "" && '$' !in v && '.' !in v
    ensures InPlace(p, params[part[1..] := v])
  {
    var path, other := PathParts(p.generic), params[part[1..] := v];
    forall s | s in path
      ensures Inst(s, other) == if s == part then v else Inst(s, params)
      ensures Sets(s, other) <==> Sets(s, params)
    {
      OtherInst(part, s, params, v);
    }
    assert forall s | s in path && Sets(s, other) :: Inst(s, other) == other[s[1..]];
    assert forall s | s in path && Sets(s, params) :: Inst(s, params) == params[s[1..]];
    hide PathParts, Inst;
    forall k, i | 0 <= k < i < |path| && Sets(path[i], other) ensures !Contains(Inst(path[k], other), path[i]) {
      if path[k] == part && Contains(v, path[i]) {
        ContainsChars(v, path[i], '$');
      }
    }
  }

  /** One widened parameter lets through what was published with another value. */
  lemma WideReaches(p: PatternData, part: string, params: map<string, string>, v: string)
    requires Addressable(p) && Tidy(PathParts(p.generic), '.') && InPlace(p, params)
    requires part in PathParts(p.generic) && Sets(part, params) && Widens(params[part[1..]])
    requires v != "" && '$' !in v && '.' !in v && v != params[part[1..]]
    requires Reaches(EndpointNameSpecific(p.(params := params)), p.(params := params))
    ensures var other := params[part[1..] := v];
      && InPlace(p, other) && !Agrees(PathParts(p.generic), other, params)
      && Reaches(EndpointNameSpecific(p.(params := other)), p.(params := params))
  {
    var path, other := PathParts(p.generic), params[part[1..] := v];
    OtherInPlace(p, part, params, v);
    RoutingIff(p, params, params);
    RoutingIff(p, other, params);
    hide Reaches, PathParts, InPlace;
    forall s | s in path ensures Accepts(Inst(s, params), Inst(s, other)) {
      OtherInst(part, s, params, v);
      TokenOf(Inst(s, params));
      hide StarSegment;
      assert Accepts(Inst(s, params), Inst(s, params));
    }
  }

  /**
   A subscription's routing is by value, whatever is published in place, if and only if every
   parameter it sets stands for itself: a `*` or a leading `$` widens it to other values, any
   other `$` before the last character loses its own.
   */
  lemma {:induction false} RoutingByValueIff(p: PatternData, subscribed: map<string, string>)
    requires Addressable(p) && Tidy(PathParts(p.generic), '.') && InPlace(p, subscribed)
    ensures (forall published | InPlace(p, published) :: ByValue(p, published, subscribed))
      <==> LiteralValues(PathParts(p.generic), subscribed)
  {
    var path := PathParts(p.generic);
    hide ByValue, InPlace, PathParts, LiteralValues;
    if LiteralValues(path, subscribed) {
      forall published | InPlace(p, published) ensures ByValue(p, published, subscribed) {
        RoutingExact(p, published, subscribed);
      }
    } else {
      var published := RoutedOtherwise(p, subscribed);
    }
  }

  /** With a value that does not stand for itself, some publication goes the wrong way. */
  lemma RoutedOtherwise(p: PatternData, subscribed: map<string, string>) returns (published: map<string, string>)
    requires Addressable(p) && Tidy(PathParts(p.generic), '.') && InPlace(p, subscribed)
    requires !LiteralValues(PathParts(p.generic), subscribed)
    ensures InPlace(p, published) && !ByValue(p, published, subscribed)
  {
    var path := PathParts(p.generic);
    var part :| part in path && Sets(part, subscribed) && !Literal(subscribed[part[1..]]);
    OwnEventIff(p, subscribed);
    hide Reaches, InPlace, PathParts, Sets, EndpointNameSpecific, Addressable;
    if Reaches(EndpointNameSpecific(p.(params := subscribed)), p.(params := subscribed)) {
      published := subscribed[part[1..] := "0"];
      WideReaches(p, part, subscribed, "0");
    } else {
      published := subscribed;
      assert Agrees(path, subscribed, subscribed);
    }
  }

  /** If every parameter set widens its token, the subscription receives whatever is published on the pattern. */
  lemma WidenedReceivesAll(p: PatternData, published: map<string, string>, subscribed: map<string, string>)
    requires Addressable(p) && Tidy(PathParts(p.generic), '.') && InPlace(p, published) && InPlace(p, subscribed)
    requires forall s | s in PathParts(p.generic) && Sets(s, subscribed) :: Widens(subscribed[s[1..]])
    ensures Reaches(EndpointNameSpecific(p.(params := published)), p.(params := subscribed))
  {
    RoutingIff(p, published, subscribed);
    hide Reaches;
    forall s | s in PathParts(p.generic) ensures Accepts(Inst(s, subscribed), Inst(s, published)) {
      TokenOf(Inst(s, subscribed));
      if !Sets(s, subscribed) {
        assert Inst(s, subscribed) == s;
        TidyToken(s);
        assert '$' !in s ==> Inst(s, published) == s;
      }
    }
  }

  lemma OneInPlace(p: PatternData, part: string, v: string)
    requires IsParam(part, '.') && p.generic == part && '.' !in v
    ensures PathParts(p.generic) == [part] && InPlace(p, map[part[1..] := v])
  {
    SplitOfJoin([part], '.');
  }

  /** An instance: on the path `$a`, a client that monitors `service.$x.EVENT` receives every event there is. */
  lemma WidenedMonitor(p: PatternData, part: string, asked: string, given: string)
    requires Addressable(p) && IsParam(part, '.') && p.generic == part && IsParam(asked, '.') && '.' !in given
    ensures Reaches(EndpointNameSpecific(p.(params := map[part[1..] := given])),
                    p.(params := map[part[1..] := asked]))
  {
    OneInPlace(p, part, given);
    OneInPlace(p, part, asked);
    WidenedReceivesAll(p, map[part[1..] := given], map[part[1..] := asked]);
  }

  /** Another: with `x$y` for `$a` it never receives the event it asked for. */
  lemma LostMonitor(p: PatternData, part: string, before: string, after: string)
    requires Addressable(p) && IsParam(part, '.') && p.generic == part
    requires before != "" && after != "" && '$' !in before && '.' !in before + after
    ensures var params := map[part[1..] := before + "$" + after];
      !Reaches(EndpointNameSpecific(p.(params := params)), p.(params := params))
  {
    var v := before + "$" + after;
    var params := map[part[1..] := v];
    OneInPlace(p, part, v);
    OwnEventIff(p, params);
    assert v[0] == before[0] && before[0] in before && v[|before|] == '$';
    assert part[0] in part && part in [part];
    assert Sets(part, params) && !Widens(v) && !Kept(v);
  }

  // ---- unset parameters ----

  /** Parameters that are empty strings are as good as none. */
  lemma {:induction false} EmptyIsUnsetInLoop(parts: seq<string>, params: map<string, string>, text: string)
    ensures InstantiateLoop(parts, params, text) ==
        InstantiateLoop(parts, map n | n in params && params[n] != "" :: params[n], text)
  {
    if parts != [] {
      EmptyIsUnsetInLoop(parts[1..], params, InstantiateStep(text, parts[0], params));
    }
  }

  lemma EmptyIsUnset(p: PatternData)
    ensures EndpointNameSpecific(p) ==
        EndpointNameSpecific(p.(params := map n | n in p.params && p.params[n] != "" :: p.params[n]))
  {
    EmptyIsUnsetInLoop(Split(p.generic, '.'), p.params, p.generic);
  }

  /** A method made without arguments prints its generic name, whatever its endpoint looks like. */
  lemma NoArgumentsPrintGeneric(p: PatternData)
    requires p.params == BuildParams(p.generic, [])
    ensures EndpointNameSpecific(p) == EndpointName(p)
  {
    var none: map<string, string> := map[];
    FillLoopMeaning(Split(p.generic, '.'), none);
    EmptyIsUnset(p);
    assert (map n | n in p.params && p.params[n] != "" :: p.params[n]) == none;
    GenericIsUnset(p);
  }

  // ---- requests and the socket's lookup ----

  /** Printing without parameters is the generic name, which is what `Request` sends to. */
  lemma GenericIsUnset(p: PatternData)
    ensures EndpointNameSpecific(p.(params := map[])) == EndpointName(p)
    ensures InPlace(p, map[])
  {
    PrintedIsJoin(p.(params := map[]));
    UnsetParts(p);
    JoinThree(Split(p.service, '.'), PathParts(p.generic), p.httpMethod);
  }

  /** The request subject reaches a subscription of its pattern exactly when every parameter that sets is widened. */
  lemma RequestRouting(p: PatternData, subscribed: map<string, string>)
    requires Addressable(p) && Tidy(PathParts(p.generic), '.') && InPlace(p, subscribed)
    ensures Reaches(EndpointName(p), p.(params := subscribed))
      <==> forall s | s in PathParts(p.generic) && Sets(s, subscribed) :: Widens(subscribed[s[1..]])
  {
    GenericIsUnset(p);
    RoutingIff(p, map[], subscribed);
    hide Reaches;
    forall s | s in PathParts(p.generic)
      ensures Accepts(Inst(s, subscribed), Inst(s, map[])) <==> (Sets(s, subscribed) ==> Widens(subscribed[s[1..]]))
    {
      assert Inst(s, map[]) == s;
      RequestAccepts(s, subscribed);
    }
  }

  lemma RequestAccepts(part: string, subscribed: map<string, string>)
    requires TidySegment(part, '.')
    ensures Accepts(Inst(part, subscribed), part) <==> (Sets(part, subscribed) ==> Widens(subscribed[part[1..]]))
  {
    var v := Inst(part, subscribed);
    TokenOf(v);
    if Sets(part, subscribed) {
      assert part[0] == '$';
    } else {
      assert v == part;
      TidyToken(part);
    }
  }

  /**
   The broker and the WebSocket lookup agree on what a pattern accepts: a concrete subject
   reaches a subscription without parameters exactly when `PatternFromEndpoint` matches it.
   */
  lemma RoutingAgreesWithLookup(p: PatternData, subject: string)
    requires WellFormed(p) && p.httpMethod != ">" && "*" !in Split(EndpointName(p), '.')
    requires '?' !in subject
    ensures Reaches(subject, p.(params := map[])) <==> MatchesPattern(p, subject)
  {
    UnsetTokens(p);
    HolesOfPattern(p);
    NoQuestionMark(subject);
    PartsOfName(p);
    hide SubscriptionSubject, Split, Fits, SubjectMatches, StarSegment, Parts;
    HoleTokens(Parts(p), Split(subject, '.'));
  }

  /** Without parameters a subscription has the tokens of the name. */
  lemma UnsetTokens(p: PatternData)
    requires '.' !in p.httpMethod
    ensures Split(SubscriptionSubject(p.(params := map[])), '.') == StarAll(Parts(p))
    ensures Parts(p)[|Parts(p)| - 1] == p.httpMethod
  {
    hide Split, SubscriptionSubject, StarAll, PathParts;
    UnsetParts(p);
    hide PrintedParts, Undisturbed;
    PrintedTokens(p.(params := map[]));
  }

  lemma UnsetParts(p: PatternData)
    ensures PrintedParts(p.(params := map[])) == Parts(p)
    ensures InPlace(p, map[])
  {
    hide Split, PathParts;
    PrintedInPlace(p.(params := map[]));
    assert InstAll(PathParts(p.generic), map[]) == PathParts(p.generic);
  }

  lemma HoleToken(part: string, given: string)
    requires TidySegment(part, '.') && part != "*"
    ensures (StarSegment(part) == "*" || StarSegment(part) == given) <==> (IsHole(part) || part == given)
  {
    TidyToken(part);
    assert part == "" || part[0] in part;
  }

  lemma HoleTokens(parts: seq<string>, given: seq<string>)
    requires Tidy(parts, '.') && parts != [] && "*" !in parts && parts[|parts| - 1] != ">"
    ensures SubjectMatches(StarAll(parts), given) <==> Fits(parts, given)
  {
    TokenOf(parts[|parts| - 1]);
    MatchesPointwise(StarAll(parts), given);
    if |parts| == |given| {
      forall i | 0 <= i < |parts|
        ensures (StarAll(parts)[i] == "*" || StarAll(parts)[i] == given[i]) <==>
            (IsHole(parts[i]) || parts[i] == given[i])
      {
        assert parts[i] in parts;
        HoleToken(parts[i], given[i]);
      }
    }
  }
}
