/**
 Endpoint patterns as values (v2/pkg/rids/pattern.go, method.go): a service name, a
 generic endpoint such as `event.$Param.one`, a method and a map of parameters.
 The functions below are the code's own string loops, statement by statement; the
 lemmas say which segment-wise substitution those loops amount to, and when.
 */
module Endpoints {
  import opened Basics
  import opened GoStrings
  import opened Segments

  datatype PatternData = PatternData(
    service: string,
    generic: string,
    httpMethod: string,
    params: map<string, string>,
    isPublic: bool,
    version: int,
    query: Option<string>)

  const EVENT := "EVENT"
  const INTERNAL := "INTERNAL"

  /** The test both loops use to recognise a parameter segment. */
  predicate LooksLikeParam(part: string) {
    '$' in part && |part| > 1
  }

  function EndpointName(p: PatternData): string {
    if |p.generic| == 0 then p.service + "." + p.httpMethod
    else p.service + "." + p.generic + "." + p.httpMethod
  }

  /** The `valid && len(param.String()) > 0` guard of the instantiation loop. */
  predicate Applies(part: string, params: map<string, string>) {
    LooksLikeParam(part) && part[1..] in params && |params[part[1..]]| > 0
  }

  function InstantiateStep(endpoint: string, part: string, params: map<string, string>): string {
    if Applies(part, params) then ReplaceFirst(endpoint, part, params[part[1..]]) else endpoint
  }

  /** The loop of `EndpointNameSpecific` over the parts not yet visited. */
  function InstantiateLoop(parts: seq<string>, params: map<string, string>, endpoint: string): string {
    if parts == [] then endpoint
    else InstantiateLoop(parts[1..], params, InstantiateStep(endpoint, parts[0], params))
  }

  lemma {:induction false} InstantiateLoopSnoc(parts: seq<string>, part: string, params: map<string, string>,
                                               endpoint: string)
    ensures InstantiateLoop(parts + [part], params, endpoint)
         == InstantiateStep(InstantiateLoop(parts, params, endpoint), part, params)
  {
    if parts == [] {
      assert parts + [part] == [part];
      assert [part][1..] == [];
    } else {
      assert (parts + [part])[1..] == parts[1..] + [part];
      InstantiateLoopSnoc(parts[1..], part, params, InstantiateStep(endpoint, parts[0], params));
    }
  }

  function EndpointNameSpecific(p: PatternData): string {
    if |p.generic| == 0 then EndpointName(p)
    else p.service + "." + InstantiateLoop(Split(p.generic, '.'), p.params, p.generic) + "." + p.httpMethod
  }

  // ---- what the loop is meant to compute ----

  /** One segment with its parameter filled in, if the map gives it a non-empty value. */
  function Inst(part: string, params: map<string, string>): string {
    if Applies(part, params) then params[part[1..]] else part
  }

  function InstAll(parts: seq<string>, params: map<string, string>): (r: seq<string>) {
    seq(|parts|, i requires 0 <= i < |parts| => Inst(parts[i], params))
  }

  /** The parameter changes the segment.  A value equal to its own `$name` (what `*` is turned into) does not. */
  predicate Sets(part: string, params: map<string, string>) {
    Applies(part, params) && params[part[1..]] != part
  }

  /** Every value used is free of `$`, or is the segment's own placeholder. */
  ghost predicate CleanValues(parts: seq<string>, params: map<string, string>) {
    forall part | part in parts && Sets(part, params) :: '$' !in params[part[1..]]
  }

  /** A placeholder that is set must not be a prefix of an earlier one that is not. */
  ghost predicate NoShadow(parts: seq<string>, params: map<string, string>) {
    forall k, i | 0 <= k < i < |parts| && Sets(parts[i], params) && !Sets(parts[k], params) ::
      !(parts[i] <= parts[k])
  }

  // ---- the loop on segments ----

  function SegmentStep(cur: seq<string>, part: string, params: map<string, string>): (r: seq<string>)
    ensures |r| == |cur|
  {
    if Applies(part, params) then SubstFirst(cur, part, params[part[1..]]) else cur
  }

  function SegmentLoop(parts: seq<string>, params: map<string, string>, cur: seq<string>): (r: seq<string>)
    ensures |r| == |cur|
  {
    if parts == [] then cur else SegmentLoop(parts[1..], params, SegmentStep(cur, parts[0], params))
  }

  /** Where `SubstFirst` acts: the first segment that starts with the parameter. */
  lemma {:induction false} SubstFirstAt(segs: seq<string>, param: string, value: string, i: nat)
    requires i <= |segs|
    requires forall k | 0 <= k < i :: !(param <= segs[k])
    ensures i < |segs| && param <= segs[i] ==>
        SubstFirst(segs, param, value) == segs[i := SubstOne(segs[i], param, value)]
    ensures i == |segs| ==> SubstFirst(segs, param, value) == segs
  {
    if i > 0 {
      SubstFirstAt(segs[1..], param, value, i - 1);
    }
  }

  /** A segment is left as it is, or loses its `$` for good. */
  predicate Settles(before: string, after: string) {
    after == before || ('$' in before && '$' !in after)
  }

  /** `SubstFirst` leaves segments free of `$` alone and keeps the list tidy. */
  lemma {:induction false} SubstFirstTidy(segs: seq<string>, param: string, value: string, sep: char)
    requires Tidy(segs, sep) && IsParam(param, sep)
    requires '$' !in value || value == param
    ensures Tidy(SubstFirst(segs, param, value), sep)
    ensures forall k | 0 <= k < |segs| :: Settles(segs[k], SubstFirst(segs, param, value)[k])
  {
    if segs != [] {
      var rest := segs[1..];
      SubstFirstTidy(rest, param, value, sep);
      assert TidySegment(segs[0], sep);
      if param <= segs[0] {
        assert '$' !in segs[0][|param|..] by {
          assert forall c | c in segs[0][|param|..] :: c in segs[0][1..];
        }
        assert TidySegment(SubstOne(segs[0], param, value), sep) by {
          if value == param { assert SubstOne(segs[0], param, value) == segs[0]; }
        }
        assert segs[0][0] == '$';
      }
    }
  }

  lemma StepOnSegments(cur: seq<string>, part: string, params: map<string, string>, sep: char)
    requires Tidy(cur, sep) && TidySegment(part, sep) && CleanValues([part], params)
    ensures InstantiateStep(Join(cur, sep), part, params) == Join(SegmentStep(cur, part, params), sep)
    ensures Tidy(SegmentStep(cur, part, params), sep)
    ensures forall k | 0 <= k < |cur| :: Settles(cur[k], SegmentStep(cur, part, params)[k])
  {
    if Applies(part, params) {
      var value := params[part[1..]];
      assert part in [part];
      ReplaceOnSegments(cur, sep, part, value);
      SubstFirstTidy(cur, part, value, sep);
    }
  }

  /** The string loop is the segment loop. */
  lemma {:induction false} LoopOnSegments(parts: seq<string>, params: map<string, string>, cur: seq<string>, sep: char)
    requires Tidy(parts, sep) && Tidy(cur, sep) && CleanValues(parts, params)
    ensures InstantiateLoop(parts, params, Join(cur, sep)) == Join(SegmentLoop(parts, params, cur), sep)
    ensures forall k | 0 <= k < |cur| :: Settles(cur[k], SegmentLoop(parts, params, cur)[k])
  {
    if parts != [] {
      StepOnSegments(cur, parts[0], params, sep);
      LoopOnSegments(parts[1..], params, SegmentStep(cur, parts[0], params), sep);
    }
  }

  /** The first `i` segments are filled in, the others untouched. */
  ghost predicate DoneUpTo(parts: seq<string>, params: map<string, string>, i: nat, cur: seq<string>) {
    && i <= |parts| == |cur|
    && forall k | 0 <= k < |parts| :: cur[k] == if k < i then Inst(parts[k], params) else parts[k]
  }

  ghost predicate NoShadowUpTo(parts: seq<string>, params: map<string, string>, i: nat)
    requires i <= |parts|
  {
    forall k, j | 0 <= k < j < i && Sets(parts[j], params) && !Sets(parts[k], params) :: !(parts[j] <= parts[k])
  }

  /** At the first difference one list has lost a placeholder the other still has. */
  ghost predicate Spoiled(got: seq<string>, meant: seq<string>) {
    |got| == |meant| && exists k :: SpoiledAt(got, meant, k)
  }

  predicate SpoiledAt(got: seq<string>, meant: seq<string>, k: int)
    requires |got| == |meant|
  {
    0 <= k < |got| && got[..k] == meant[..k] && '$' !in got[k] && "$" <= meant[k]
  }

  /** Such lists do not even join to the same text. */
  lemma {:induction false} SpoiledTexts(got: seq<string>, meant: seq<string>, k: nat)
    requires |got| == |meant| && SpoiledAt(got, meant, k)
    ensures Join(got, '.') != Join(meant, '.')
  {
    if k == 0 {
      assert Join(meant, '.')[0] == '$';
      assert got[0] != "" ==> Join(got, '.')[0] == got[0][0] && got[0][0] in got[0];
    } else {
      assert got[0] == got[..k][0] == meant[..k][0] == meant[0];
      assert got[1..][..k - 1] == got[..k][1..] == meant[..k][1..] == meant[1..][..k - 1];
      SpoiledTexts(got[1..], meant[1..], k - 1);
      SameHead(got[0], Join(got[1..], '.'), Join(meant[1..], '.'));
    }
  }

  lemma SameHead(head: string, a: string, b: string)
    requires a != b
    ensures head + "." + a != head + "." + b
  {
    var n := |head| + 1;
    assert (head + "." + a)[n..] == a && (head + "." + b)[n..] == b;
  }

  /**
   With the first `i` segments done, the rest of the loop yields the substitution exactly
   when no later set placeholder is a prefix of an earlier unset one; otherwise it spoils it.
   */
  lemma {:induction false} SegmentLoopExact(parts: seq<string>, params: map<string, string>, i: nat, cur: seq<string>)
    requires Tidy(parts, '.') && CleanValues(parts, params)
    requires Tidy(cur, '.') && DoneUpTo(parts, params, i, cur) && NoShadowUpTo(parts, params, i)
    ensures SegmentLoop(parts[i..], params, cur) == InstAll(parts, params) <==> NoShadow(parts, params)
    ensures !NoShadow(parts, params) ==> Spoiled(SegmentLoop(parts[i..], params, cur), InstAll(parts, params))
    decreases |parts| - i, 1
  {
    if i == |parts| {
      AllDone(parts, params, cur);
    } else if Sets(parts[i], params) && exists k :: 0 <= k < i && parts[i] <= cur[k] {
      ShadowSpoils(parts, params, i, cur);
    } else {
      SegmentLoopStep(parts, params, i, cur);
    }
  }

  lemma {:induction false} SegmentLoopStep(parts: seq<string>, params: map<string, string>, i: nat, cur: seq<string>)
    requires Tidy(parts, '.') && CleanValues(parts, params)
    requires Tidy(cur, '.') && DoneUpTo(parts, params, i, cur) && NoShadowUpTo(parts, params, i) && i < |parts|
    requires Sets(parts[i], params) ==> forall k | 0 <= k < i :: !(parts[i] <= cur[k])
    ensures SegmentLoop(parts[i..], params, cur) == InstAll(parts, params) <==> NoShadow(parts, params)
    ensures !NoShadow(parts, params) ==> Spoiled(SegmentLoop(parts[i..], params, cur), InstAll(parts, params))
    decreases |parts| - i, 0
  {
    StepInPlace(parts, params, i, cur);
    OwnPart(parts, params, i);
    hide SegmentLoop, Spoiled, NoShadow, NoShadowUpTo, DoneUpTo, CleanValues, Sets;
    StepOnSegments(cur, parts[i], params, '.');
    SegmentLoopUnfold(parts, params, i, cur);
    SegmentLoopExact(parts, params, i + 1, SegmentStep(cur, parts[i], params));
  }

  lemma OwnPart(parts: seq<string>, params: map<string, string>, i: nat)
    requires Tidy(parts, '.') && CleanValues(parts, params) && i < |parts|
    ensures TidySegment(parts[i], '.') && CleanValues([parts[i]], params)
  {
    assert parts[i] in parts;
  }

  lemma SegmentLoopUnfold(parts: seq<string>, params: map<string, string>, i: nat, cur: seq<string>)
    requires i < |parts|
    ensures SegmentLoop(parts[i..], params, cur) ==
        SegmentLoop(parts[i + 1..], params, SegmentStep(cur, parts[i], params))
  {
    assert parts[i..][1..] == parts[i + 1..];
  }

  lemma AllDone(parts: seq<string>, params: map<string, string>, cur: seq<string>)
    requires DoneUpTo(parts, params, |parts|, cur) && NoShadowUpTo(parts, params, |parts|)
    ensures SegmentLoop(parts[|parts|..], params, cur) == InstAll(parts, params)
    ensures NoShadow(parts, params)
  {
    assert cur == InstAll(parts, params);
    assert parts[|parts|..] == [];
  }

  /** When no earlier segment is hit, a step fills in its own segment and nothing else. */
  lemma StepInPlace(parts: seq<string>, params: map<string, string>, i: nat, cur: seq<string>)
    requires DoneUpTo(parts, params, i, cur) && NoShadowUpTo(parts, params, i) && i < |parts|
    requires Sets(parts[i], params) ==> forall k | 0 <= k < i :: !(parts[i] <= cur[k])
    ensures DoneUpTo(parts, params, i + 1, SegmentStep(cur, parts[i], params))
    ensures NoShadowUpTo(parts, params, i + 1)
  {
    var part := parts[i];
    if Sets(part, params) {
      var value := params[part[1..]];
      SubstFirstAt(cur, part, value, i);
      assert SubstOne(part, part, value) == value + part[|part|..] == value;
      forall k | 0 <= k < i && !Sets(parts[k], params) ensures !(part <= parts[k]) {
        assert cur[k] == parts[k];
      }
    } else if Applies(part, params) {
      SelfStep(cur, part);
    }
  }

  lemma {:induction false} SelfStep(cur: seq<string>, part: string)
    ensures SubstFirst(cur, part, part) == cur
  {
    if cur != [] {
      SelfStep(cur[1..], part);
      assert part <= cur[0] ==> SubstOne(cur[0], part, part) == cur[0];
    }
  }

  /** Once a set placeholder hits an earlier segment, that segment is wrong for good. */
  lemma ShadowSpoils(parts: seq<string>, params: map<string, string>, i: nat, cur: seq<string>)
    requires Tidy(parts, '.') && CleanValues(parts, params) && i < |parts|
    requires Tidy(cur, '.') && DoneUpTo(parts, params, i, cur)
    requires Sets(parts[i], params) && exists k :: 0 <= k < i && parts[i] <= cur[k]
    ensures SegmentLoop(parts[i..], params, cur) != InstAll(parts, params)
    ensures Spoiled(SegmentLoop(parts[i..], params, cur), InstAll(parts, params))
    ensures !NoShadow(parts, params)
  {
    var part := parts[i];
    var k := FirstHit(cur, part, i);
    HitIsUnset(parts, params, i, k, cur);
    OwnPart(parts, params, i);
    var next := SegmentStep(cur, part, params);
    StepOnSegments(cur, part, params, '.');
    SegmentLoopUnfold(parts, params, i, cur);
    LoopOnSegments(parts[i + 1..], params, next, '.');
    var got, meant := SegmentLoop(parts[i..], params, cur), InstAll(parts, params);
    forall j | 0 <= j <= k
      ensures got[j] == meant[j] || ('$' !in got[j] && "$" <= meant[j])
    {
      EarlierSettles(parts, params, i, j, cur, next[j], got[j]);
    }
    assert got[k] == next[k] != meant[k];
    FirstDifference(got, meant, k);
  }

  /** The segment that is hit has no value of its own. */
  lemma HitIsUnset(parts: seq<string>, params: map<string, string>, i: nat, k: nat, cur: seq<string>)
    requires Tidy(parts, '.') && CleanValues(parts, params) && Tidy(cur, '.') && DoneUpTo(parts, params, i, cur)
    requires k < i < |parts| && Sets(parts[i], params) && parts[i] <= cur[k]
    requires forall j | 0 <= j < k :: !(parts[i] <= cur[j])
    ensures cur[k] == parts[k] == InstAll(parts, params)[k] && "$" <= parts[k]
    ensures !NoShadow(parts, params)
    ensures '$' !in SegmentStep(cur, parts[i], params)[k]
  {
    var part := parts[i];
    assert part in parts && parts[k] in parts && cur[k] in cur;
    assert part[0] == '$' && cur[k][0] == '$' && cur[k][0] in cur[k];
    assert !Sets(parts[k], params);
    var value := params[part[1..]];
    SubstFirstAt(cur, part, value, k);
    assert '$' !in cur[k][|part|..] by {
      assert forall c | c in cur[k][|part|..] :: c in cur[k][1..];
    }
  }

  /** A segment already dealt with keeps its value, or loses a placeholder it should keep. */
  lemma EarlierSettles(parts: seq<string>, params: map<string, string>, i: nat, j: nat, cur: seq<string>,
                       next: string, got: string)
    requires Tidy(parts, '.') && CleanValues(parts, params) && DoneUpTo(parts, params, i, cur) && j < i
    requires Settles(cur[j], next) && Settles(next, got)
    ensures got == InstAll(parts, params)[j] || ('$' !in got && "$" <= InstAll(parts, params)[j])
  {
    assert parts[j] in parts && TidySegment(parts[j], '.');
  }

  lemma {:induction false} FirstDifference(got: seq<string>, meant: seq<string>, k: nat)
    requires |got| == |meant| && k < |got| && got[k] != meant[k]
    requires forall j | 0 <= j <= k :: got[j] == meant[j] || ('$' !in got[j] && "$" <= meant[j])
    ensures Spoiled(got, meant)
  {
    if got[..k] == meant[..k] {
      assert SpoiledAt(got, meant, k);
    } else {
      var j :| 0 <= j < k && got[..k][j] != meant[..k][j];
      FirstDifference(got, meant, j);
    }
  }

  lemma {:induction false} FirstHit(cur: seq<string>, part: string, i: nat) returns (k: nat)
    requires i <= |cur| && exists j :: 0 <= j < i && part <= cur[j]
    ensures k < i && part <= cur[k]
    ensures forall j | 0 <= j < k :: !(part <= cur[j])
  {
    k := 0;
    while !(part <= cur[k])
      invariant k < i
      invariant forall j | 0 <= j < k :: !(part <= cur[j])
      invariant exists j :: k <= j < i && part <= cur[j]
      decreases i - k
    {
      k := k + 1;
    }
  }

  /**
   For values without `$`, dots included, `EndpointNameSpecific`'s replace-first loop is
   segment-wise substitution if and only if no set placeholder is a prefix of an earlier
   unset one.
   */
  lemma {:induction false} InstantiateExact(generic: string, params: map<string, string>)
    requires Tidy(Split(generic, '.'), '.')
    requires CleanValues(Split(generic, '.'), params)
    ensures InstantiateLoop(Split(generic, '.'), params, generic) == Join(InstAll(Split(generic, '.'), params), '.')
      <==> NoShadow(Split(generic, '.'), params)
  {
    var parts := Split(generic, '.');
    var got, meant := SegmentLoop(parts, params, parts), InstAll(parts, params);
    LoopOnSegments(parts, params, parts, '.');
    assert parts[0..] == parts;
    SegmentLoopExact(parts, params, 0, parts);
    hide SegmentLoop, InstAll, InstantiateLoop, NoShadow, CleanValues;
    if Spoiled(got, meant) {
      var k :| SpoiledAt(got, meant, k);
      SpoiledTexts(got, meant, k);
    }
  }

  /** The condition matters: an unset `$ab` before a set `$a` is rewritten in its place. */
  lemma {:induction false} ShadowedPlaceholder(name: string, more: string, value: string)
    requires IsParam(name, '.') && more != "" && '$' !in more && '.' !in more && '$' !in value && value != ""
    ensures InstantiateLoop([name + more, name], map[name[1..] := value], name + more + "." + name) ==
        value + more + "." + name
  {
    var long, params := name + more, map[name[1..] := value];
    var parts, text := [long, name], long + "." + name;
    assert long[1..] == name[1..] + more;
    assert |long[1..]| != |name[1..]|;
    assert InstantiateStep(text, long, params) == text;
    var rest := more + "." + name;
    assert text == name + rest;
    assert text[|name|..] == rest;
    assert value + rest == value + more + "." + name;
    assert parts[1..] == [name] && [name][1..] == [];
    assert InstantiateLoop(parts, params, text) == InstantiateLoop([name], params, text)
        == InstantiateLoop([], params, InstantiateStep(text, name, params));
  }
}
