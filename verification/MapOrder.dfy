/**
 The substitution loops that range over a Go map: v1 `Publish` and `Monitor`
 (pkg/service/providers/nats/nats-provider.go), `EndpointHTTP` (pkg/rids/base.go) and the
 route rewriting of `httpSetup` (v2/pkg/spike/http-server.go).  Go fixes no iteration
 order, so the result must not depend on it.
 */
module MapOrder {
  import opened Basics
  import opened GoStrings
  import opened Segments
  import opened Blocks

  /** One pass over the map in the order `keys`. */
  function SubstituteInOrder(endpoint: string, keys: seq<string>, params: map<string, string>): string
    requires forall k | k in keys :: k in params
    decreases |keys|
  {
    if keys == [] then endpoint
    else SubstituteInOrder(ReplaceAll(endpoint, "$" + keys[0], params[keys[0]]), keys[1..], params)
  }

  /** `keys` lists the map's keys, each once. */
  ghost predicate IsOrder(keys: seq<string>, params: map<string, string>) {
    && (forall k :: k in keys <==> k in params)
    && forall i, j | 0 <= i < j < |keys| :: keys[i] != keys[j]
  }

  /** The loop of all four places; the order of the map is whatever the choice below makes it. */
  method SubstituteParams(endpoint: string, params: map<string, string>) returns (r: string)
    ensures exists keys :: IsOrder(keys, params) && r == SubstituteInOrder(endpoint, keys, params)
  {
    r := endpoint;
    var todo := params.Keys;
    ghost var done: seq<string> := [];
    while todo != {}
      invariant todo <= params.Keys
      invariant forall k :: k in done <==> k in params.Keys - todo
      invariant forall i, j | 0 <= i < j < |done| :: done[i] != done[j]
      invariant r == SubstituteInOrder(endpoint, done, params)
      decreases |todo|
    {
      var key :| key in todo;
      r := ReplaceAll(r, "$" + key, params[key]);
      InOrderSnoc(endpoint, done, key, params);
      assert key !in done;
      assert forall i | 0 <= i < |done| :: done[i] in done;
      done := done + [key];
      todo := todo - {key};
    }
    assert IsOrder(done, params);
  }

  lemma {:induction false} InOrderSnoc(endpoint: string, keys: seq<string>, key: string, params: map<string, string>)
    requires key in params && forall k | k in keys :: k in params
    ensures SubstituteInOrder(endpoint, keys + [key], params)
         == ReplaceAll(SubstituteInOrder(endpoint, keys, params), "$" + key, params[key])
    decreases |keys|
  {
    if keys == [] {
      assert keys + [key] == [key] && [key][1..] == [];
    } else {
      assert (keys + [key])[1..] == keys[1..] + [key];
      InOrderSnoc(ReplaceAll(endpoint, "$" + keys[0], params[keys[0]]), keys[1..], key, params);
    }
  }

  /** The segment-wise meaning: a placeholder with an entry becomes its value. */
  function SubstKey(seg: string, params: map<string, string>): string {
    if '$' in seg && |seg| > 0 && seg[1..] in params then params[seg[1..]] else seg
  }

  function SubstKeys(segs: seq<string>, params: map<string, string>): seq<string> {
    seq(|segs|, i requires 0 <= i < |segs| => SubstKey(segs[i], params))
  }

  /** Names are usable as placeholders; values may be anything a client sends. */
  ghost predicate Named(params: map<string, string>, sep: char) {
    forall k | k in params :: IsParam("$" + k, sep)
  }

  /** The name has a value other than its own placeholder, which is replaced by itself. */
  predicate Active(k: string, params: map<string, string>) {
    k in params && params[k] != "$" + k
  }

  /** What the name `k` makes of a segment that starts with it. */
  function Hit(seg: string, k: string, params: map<string, string>): string
    requires k in params && "$" + k <= seg
  {
    params[k] + seg[|k| + 1..]
  }

  /** What a name makes of the segment holds no other name's placeholder. */
  ghost predicate Calm(seg: string, params: map<string, string>) {
    forall k, l | Active(k, params) && Active(l, params) && k != l && "$" + k <= seg ::
      !Contains(Hit(seg, k, params), "$" + l)
  }

  /** Every name the segment starts with makes the segment's own value of it. */
  ghost predicate Harmless(seg: string, params: map<string, string>) {
    forall k | Active(k, params) && "$" + k <= seg :: Hit(seg, k, params) == SubstKey(seg, params)
  }

  /** All names the segment starts with make the same of it. */
  ghost predicate Unanimous(seg: string, params: map<string, string>) {
    forall k, l | Active(k, params) && Active(l, params) && "$" + k <= seg && "$" + l <= seg ::
      Hit(seg, k, params) == Hit(seg, l, params)
  }

  /** The segment starts with one name at most. */
  ghost predicate OneStarter(seg: string, params: map<string, string>) {
    forall k, l | Active(k, params) && Active(l, params) && "$" + k <= seg && "$" + l <= seg :: k == l
  }

  // ---- the loop, segment by segment ----

  /** One segment through the loop. */
  function Fold(seg: string, keys: seq<string>, params: map<string, string>): string
    requires forall k | k in keys :: k in params
    decreases |keys|
  {
    if keys == [] then seg else Fold(ReplaceAll(seg, "$" + keys[0], params[keys[0]]), keys[1..], params)
  }

  function FoldAll(segs: seq<string>, keys: seq<string>, params: map<string, string>): (r: seq<string>)
    requires forall k | k in keys :: k in params
  {
    seq(|segs|, i requires 0 <= i < |segs| => Fold(segs[i], keys, params))
  }

  /** The loop on the text is the loop on each segment, for any segments and any values. */
  lemma {:induction false} InOrderIsFold(segs: seq<string>, keys: seq<string>, params: map<string, string>, sep: char)
    requires Named(params, sep) && forall k | k in keys :: k in params
    ensures SubstituteInOrder(Join(segs, sep), keys, params) == Join(FoldAll(segs, keys, params), sep)
    decreases |keys|
  {
    if keys == [] {
      assert FoldAll(segs, keys, params) == segs;
    } else {
      var param, value := "$" + keys[0], params[keys[0]];
      assert IsParam(param, sep);
      var next := ReplaceAllBlocks(segs, param, value);
      ReplaceAllOnBlocks(segs, param, value, sep);
      hide IsParam, ReplaceAll;
      InOrderIsFold(next, keys[1..], params, sep);
      assert FoldAll(next, keys[1..], params) == FoldAll(segs, keys, params);
    }
  }

  lemma {:induction false} FoldConcat(seg: string, a: seq<string>, b: seq<string>, params: map<string, string>)
    requires forall k | k in a + b :: k in params
    ensures Fold(seg, a + b, params) == Fold(Fold(seg, a, params), b, params)
    decreases |a|
  {
    hide ReplaceAll;
    if a == [] {
      assert a + b == b;
    } else {
      assert (a + b)[1..] == a[1..] + b;
      FoldConcat(ReplaceAll(seg, "$" + a[0], params[a[0]]), a[1..], b, params);
    }
  }

  /** What one name makes of a tidy segment, whatever its value. */
  lemma OneName(seg: string, k: string, params: map<string, string>, sep: char)
    requires TidySegment(seg, sep) && IsParam("$" + k, sep) && k in params
    ensures ReplaceAll(seg, "$" + k, params[k]) ==
      if Active(k, params) && "$" + k <= seg then Hit(seg, k, params) else seg
  {
    ReplaceOneSegment(seg, "", sep, "$" + k, params[k]);
    assert seg + "" == seg;
    if k in params && !Active(k, params) {
      ReplaceAllBySelf(seg, "$" + k);
    }
  }

  /** A text that holds no name with a value of its own passes through unchanged. */
  lemma {:induction false} FoldStill(text: string, keys: seq<string>, params: map<string, string>)
    requires forall k | k in keys :: k in params
    requires forall k | k in keys && Active(k, params) :: !Contains(text, "$" + k)
    ensures Fold(text, keys, params) == text
    decreases |keys|
  {
    if keys != [] {
      if Active(keys[0], params) {
        ReplaceAllMissing(text, "$" + keys[0], params[keys[0]]);
      } else {
        ReplaceAllBySelf(text, "$" + keys[0]);
      }
      FoldStill(text, keys[1..], params);
    }
  }

  /** The first name of the order that a calm segment starts with decides; without one nothing happens. */
  lemma {:induction false} FoldIsFirstHit(seg: string, keys: seq<string>, params: map<string, string>, sep: char)
    returns (first: nat)
    requires TidySegment(seg, sep) && Named(params, sep) && Calm(seg, params)
    requires Distinct(keys) && forall k | k in keys :: k in params
    ensures first <= |keys| && forall i | 0 <= i < first :: !(Active(keys[i], params) && "$" + keys[i] <= seg)
    ensures first < |keys| ==> (Active(keys[first], params) && "$" + keys[first] <= seg
                                && Fold(seg, keys, params) == Hit(seg, keys[first], params))
    ensures first == |keys| ==> Fold(seg, keys, params) == seg
    decreases |keys|
  {
    hide Hit, TidySegment, Active, IsParam, Contains, ReplaceAll;
    if keys == [] {
      first := 0;
    } else {
      OneName(seg, keys[0], params, sep);
      if Active(keys[0], params) && "$" + keys[0] <= seg {
        assert forall k | k in keys[1..] :: k != keys[0];
        FoldStill(Hit(seg, keys[0], params), keys[1..], params);
        first := 0;
      } else {
        first := FoldIsFirstHit(seg, keys[1..], params, sep);
        first := first + 1;
      }
    }
  }

  // ---- orders ----

  lemma {:induction false} SomeOrder(todo: set<string>) returns (keys: seq<string>)
    ensures forall k :: k in keys <==> k in todo
    ensures forall i, j | 0 <= i < j < |keys| :: keys[i] != keys[j]
  {
    if todo == {} {
      keys := [];
    } else {
      var k :| k in todo;
      var rest := SomeOrder(todo - {k});
      keys := [k] + rest;
      assert forall i | 0 <= i < |rest| :: rest[i] in rest;
    }
  }

  /** Go may start with any key it likes. */
  lemma OrderStartingWith(k: string, params: map<string, string>) returns (keys: seq<string>)
    requires k in params
    ensures IsOrder(keys, params) && keys != [] && keys[0] == k
  {
    var rest := SomeOrder(params.Keys - {k});
    keys := [k] + rest;
    assert forall i | 0 <= i < |rest| :: rest[i] in rest;
  }

  /** An order that starts with a name the segment starts with shows what that name makes of it. */
  lemma StartDecides(seg: string, k: string, keys: seq<string>, params: map<string, string>, sep: char)
    requires TidySegment(seg, sep) && Named(params, sep) && Calm(seg, params)
    requires Active(k, params) && "$" + k <= seg && IsOrder(keys, params) && keys != [] && keys[0] == k
    ensures Fold(seg, keys, params) == Hit(seg, k, params)
  {
    var first := FoldIsFirstHit(seg, keys, params, sep);
  }

  /** Or it may end with any two. */
  lemma OrderEndingIn(k: string, l: string, params: map<string, string>) returns (rest: seq<string>)
    requires k in params && l in params && k != l
    ensures IsOrder(rest + [k, l], params)
    ensures forall x | x in rest :: x in params && x != k && x != l
  {
    rest := SomeOrder(params.Keys - {k, l});
    assert forall i | 0 <= i < |rest| :: rest[i] in rest;
    var keys := rest + [k, l];
    assert keys[|rest|] == k && keys[|rest| + 1] == l;
    assert forall x :: x in keys <==> x in rest || x == k || x == l;
  }

  // ---- when the order does not matter ----

  /** Segments and names as the code's callers have them; values may hold `$` and the separator. */
  ghost predicate OrderSafe(segs: seq<string>, params: map<string, string>, sep: char) {
    Tidy(segs, sep) && Named(params, sep) && forall s | s in segs :: Calm(s, params) && Harmless(s, params)
  }

  lemma HarmlessFold(seg: string, keys: seq<string>, params: map<string, string>, sep: char)
    requires TidySegment(seg, sep) && Named(params, sep) && IsOrder(keys, params)
    requires Calm(seg, params) && Harmless(seg, params)
    ensures Fold(seg, keys, params) == SubstKey(seg, params)
  {
    var first := FoldIsFirstHit(seg, keys, params, sep);
    hide Calm;
    if '$' in seg && seg[1..] in params {
      assert seg == "$" + seg[1..];
      var i :| 0 <= i < |keys| && keys[i] == seg[1..];
      assert "$" + keys[i] <= seg;
    }
  }

  /**
   For every iteration order the loop gives the segment-wise substitution, whatever the values
   hold, when every name a placeholder starts with makes the same of it as its own name and no
   other name occurs in that.
   */
  lemma OrderIndependent(segs: seq<string>, params: map<string, string>, keys: seq<string>, sep: char)
    requires OrderSafe(segs, params, sep) && IsOrder(keys, params)
    ensures SubstituteInOrder(Join(segs, sep), keys, params) == Join(SubstKeys(segs, params), sep)
  {
    InOrderIsFold(segs, keys, params, sep);
    forall i | 0 <= i < |segs| ensures Fold(segs[i], keys, params) == SubstKey(segs[i], params) {
      HarmlessFold(segs[i], keys, params, sep);
    }
    assert FoldAll(segs, keys, params) == SubstKeys(segs, params);
  }

  /** Without a proper prefix among the names every segment is harmless. */
  lemma NoPrefixIsHarmless(seg: string, params: map<string, string>)
    requires forall k | k in params && "$" + k <= seg :: "$" + k == seg
    ensures Harmless(seg, params)
  {
    forall k | Active(k, params) && "$" + k <= seg ensures Hit(seg, k, params) == SubstKey(seg, params) {
      assert seg == "$" + k && seg[1..] == k && seg[0] in seg;
      assert seg[|k| + 1..] == "" && params[k] + "" == params[k];
    }
  }

  /** Values without `$`. */
  ghost predicate Plain(params: map<string, string>) {
    forall k | k in params :: '$' !in params[k]
  }

  /** They leave no placeholder to another name. */
  lemma PlainIsCalm(seg: string, params: map<string, string>, sep: char)
    requires TidySegment(seg, sep) && Named(params, sep) && Plain(params)
    ensures Calm(seg, params)
  {
    forall k, l | Active(k, params) && Active(l, params) && k != l && "$" + k <= seg
      ensures !Contains(Hit(seg, k, params), "$" + l)
    {
      assert IsParam("$" + k, sep) && seg[0] == '$' && seg[0] in seg;
      assert '$' !in seg[|k| + 1..] by { assert forall c | c in seg[|k| + 1..] :: c in seg[1..]; }
      assert '$' in "$" + l by { assert ("$" + l)[0] == '$'; }
      if Contains(Hit(seg, k, params), "$" + l) {
        ContainsChars(Hit(seg, k, params), "$" + l, '$');
      }
    }
  }

  // ---- exactly when ----

  /** Texts whose segments and values do not hold the separator: equal texts have equal segments. */
  ghost predicate Separated(segs: seq<string>, params: map<string, string>, sep: char) {
    && |segs| >= 1 && Tidy(segs, sep) && Named(params, sep)
    && (forall s | s in segs :: sep !in s)
    && forall k | k in params :: sep !in params[k]
  }

  /**
   Every segment starts with one name at most, or what its names make of it holds no other name:
   two names of which one's value feeds the other can undo each other's work.
   */
  ghost predicate Decided(segs: seq<string>, params: map<string, string>) {
    forall s | s in segs :: OneStarter(s, params) || Calm(s, params)
  }

  /** Every order makes the same text of the segments. */
  ghost predicate OrdersAgree(segs: seq<string>, params: map<string, string>, sep: char) {
    forall a, b | IsOrder(a, params) && IsOrder(b, params) ::
      SubstituteInOrder(Join(segs, sep), a, params) == SubstituteInOrder(Join(segs, sep), b, params)
  }

  /** Every order makes the segment-wise substitution of them. */
  ghost predicate OrdersMeant(segs: seq<string>, params: map<string, string>, sep: char) {
    forall keys | IsOrder(keys, params) ::
      SubstituteInOrder(Join(segs, sep), keys, params) == Join(SubstKeys(segs, params), sep)
  }

  lemma {:induction false} FoldChars(seg: string, keys: seq<string>, params: map<string, string>, sep: char)
    requires sep !in seg && (forall k | k in params :: sep !in params[k]) && forall k | k in keys :: k in params
    ensures sep !in Fold(seg, keys, params)
    decreases |keys|
  {
    if keys != [] {
      ReplaceAllChars(seg, "$" + keys[0], params[keys[0]], sep);
      FoldChars(ReplaceAll(seg, "$" + keys[0], params[keys[0]]), keys[1..], params, sep);
    }
  }

  lemma FoldHasNoSeparator(segs: seq<string>, keys: seq<string>, params: map<string, string>, sep: char)
    requires Separated(segs, params, sep) && forall k | k in keys :: k in params
    ensures forall s | s in FoldAll(segs, keys, params) :: sep !in s
  {
    forall i | 0 <= i < |segs| ensures sep !in Fold(segs[i], keys, params) {
      FoldChars(segs[i], keys, params, sep);
    }
  }

  lemma KeysHaveNoSeparator(segs: seq<string>, params: map<string, string>, sep: char)
    requires Separated(segs, params, sep)
    ensures forall s | s in SubstKeys(segs, params) :: sep !in s
  {
    forall i | 0 <= i < |segs| ensures sep !in SubstKey(segs[i], params) {
      assert segs[i] in segs;
    }
  }

  /** What one order makes of the text fixes what it makes of each segment. */
  lemma TextFixesSegments(segs: seq<string>, keys: seq<string>, params: map<string, string>, sep: char,
                          meant: seq<string>)
    requires Separated(segs, params, sep) && IsOrder(keys, params) && |meant| == |segs|
    requires forall s | s in meant :: sep !in s
    ensures SubstituteInOrder(Join(segs, sep), keys, params) == Join(meant, sep) <==>
        FoldAll(segs, keys, params) == meant
  {
    InOrderIsFold(segs, keys, params, sep);
    FoldHasNoSeparator(segs, keys, params, sep);
    JoinInjective(FoldAll(segs, keys, params), meant, sep);
  }

  /** Two orders that make different things of one segment make different texts. */
  lemma SegmentsRace(segs: seq<string>, i: nat, a: seq<string>, b: seq<string>, params: map<string, string>, sep: char)
    requires Separated(segs, params, sep) && IsOrder(a, params) && IsOrder(b, params) && i < |segs|
    requires Fold(segs[i], a, params) != Fold(segs[i], b, params)
    ensures !OrdersAgree(segs, params, sep)
  {
    hide Fold, SubstituteInOrder;
    InOrderIsFold(segs, b, params, sep);
    FoldHasNoSeparator(segs, b, params, sep);
    TextFixesSegments(segs, a, params, sep, FoldAll(segs, b, params));
    assert FoldAll(segs, a, params)[i] != FoldAll(segs, b, params)[i];
  }

  /** In a calm segment two names that make different things of it race for the first place ... */
  lemma StartersRace(seg: string, params: map<string, string>, sep: char) returns (a: seq<string>, b: seq<string>)
    requires TidySegment(seg, sep) && Named(params, sep) && Calm(seg, params) && !Unanimous(seg, params)
    ensures IsOrder(a, params) && IsOrder(b, params) && Fold(seg, a, params) != Fold(seg, b, params)
  {
    var k, l :| Active(k, params) && Active(l, params) && "$" + k <= seg && "$" + l <= seg
      && Hit(seg, k, params) != Hit(seg, l, params);
    a := OrderStartingWith(k, params);
    b := OrderStartingWith(l, params);
    StartDecides(seg, k, a, params, sep);
    StartDecides(seg, l, b, params, sep);
  }

  /** ... and a name that occurs in what the only other one makes of it races for the last. */
  lemma FeedersRace(seg: string, params: map<string, string>, sep: char) returns (a: seq<string>, b: seq<string>)
    requires TidySegment(seg, sep) && Named(params, sep) && OneStarter(seg, params) && !Calm(seg, params)
    ensures IsOrder(a, params) && IsOrder(b, params) && Fold(seg, a, params) != Fold(seg, b, params)
  {
    var k, l :| Active(k, params) && Active(l, params) && k != l && "$" + k <= seg
      && Contains(Hit(seg, k, params), "$" + l);
    var rest := OrderEndingIn(k, l, params);
    var other := OrderEndingIn(l, k, params);
    a, b := rest + [k, l], other + [l, k];
    assert forall x | x in rest || x in other || x == l :: x in params && !(Active(x, params) && "$" + x <= seg);
    hide Calm, Contains, Hit;
    LastTwo(seg, rest, k, l, params, sep);
    LastTwo(seg, other, l, k, params, sep);
    ReplaceAllChanges(Hit(seg, k, params), "$" + l, params[l]);
  }

  /** Names the segment does not start with leave it as it is. */
  lemma {:induction false} FoldPasses(seg: string, keys: seq<string>, params: map<string, string>, sep: char)
    requires TidySegment(seg, sep) && Named(params, sep)
    requires forall x | x in keys :: x in params && !(Active(x, params) && "$" + x <= seg)
    ensures Fold(seg, keys, params) == seg
    decreases |keys|
  {
    hide TidySegment, IsParam, Active, Hit, ReplaceAll;
    if keys != [] {
      OneName(seg, keys[0], params, sep);
      FoldPasses(seg, keys[1..], params, sep);
    }
  }

  /** After such names, two more. */
  lemma LastTwo(seg: string, rest: seq<string>, k: string, l: string, params: map<string, string>, sep: char)
    requires TidySegment(seg, sep) && Named(params, sep) && k in params && l in params
    requires forall x | x in rest :: x in params && !(Active(x, params) && "$" + x <= seg)
    ensures Fold(seg, rest + [k, l], params) ==
      ReplaceAll(if Active(k, params) && "$" + k <= seg then Hit(seg, k, params) else seg, "$" + l, params[l])
    ensures !(Active(l, params) && "$" + l <= seg) && !(Active(k, params) && "$" + k <= seg) ==>
      Fold(seg, rest + [k, l], params) == seg
    ensures Active(l, params) && "$" + l <= seg && !(Active(k, params) && "$" + k <= seg) ==>
      Fold(seg, rest + [k, l], params) == Hit(seg, l, params)
  {
    hide TidySegment, Hit, Active, ReplaceAll, Fold;
    FoldPasses(seg, rest, params, sep);
    FoldConcat(seg, rest, [k, l], params);
    OneName(seg, k, params, sep);
    OneName(seg, l, params, sep);
    FoldTwo(seg, k, l, params);
  }

  lemma FoldTwo(seg: string, k: string, l: string, params: map<string, string>)
    requires k in params && l in params
    ensures Fold(seg, [k, l], params) == ReplaceAll(ReplaceAll(seg, "$" + k, params[k]), "$" + l, params[l])
  {
    hide ReplaceAll;
    var next := ReplaceAll(seg, "$" + k, params[k]);
    assert [k, l][1..] == [l] && [l][1..] == [];
    assert Fold(seg, [k, l], params) == Fold(next, [l], params);
    assert Fold(next, [l], params) == Fold(ReplaceAll(next, "$" + l, params[l]), [], params);
  }

  /**
   For any values without the separator, `$` included: two iteration orders can give two
   different texts if and only if two names that the same segment starts with make different
   things of it, or another name occurs in what one of them makes of it.
   */
  lemma {:induction false} OrdersRaceIff(segs: seq<string>, params: map<string, string>, sep: char)
    requires Separated(segs, params, sep) && Decided(segs, params)
    ensures OrdersAgree(segs, params, sep) <==> forall s | s in segs :: Calm(s, params) && Unanimous(s, params)
  {
    hide Calm, Unanimous, OneStarter, OrdersAgree, Fold;
    if i :| 0 <= i < |segs| && !(Calm(segs[i], params) && Unanimous(segs[i], params)) {
      var a, b: seq<string>;
      if Calm(segs[i], params) {
        a, b := StartersRace(segs[i], params, sep);
      } else {
        a, b := FeedersRace(segs[i], params, sep);
      }
      SegmentsRace(segs, i, a, b, params, sep);
    } else {
      CalmOrdersAgree(segs, params, sep);
    }
  }

  /** The "if" needs neither of the two conditions: values may hold the separator as well. */
  lemma CalmOrdersAgree(segs: seq<string>, params: map<string, string>, sep: char)
    requires Tidy(segs, sep) && Named(params, sep)
    requires forall i | 0 <= i < |segs| :: Calm(segs[i], params) && Unanimous(segs[i], params)
    ensures OrdersAgree(segs, params, sep)
  {
    hide Calm, Unanimous, Fold, SubstituteInOrder, TidySegment;
    forall a, b | IsOrder(a, params) && IsOrder(b, params)
      ensures SubstituteInOrder(Join(segs, sep), a, params) == SubstituteInOrder(Join(segs, sep), b, params)
    {
      InOrderIsFold(segs, a, params, sep);
      InOrderIsFold(segs, b, params, sep);
      forall i | 0 <= i < |segs| ensures Fold(segs[i], a, params) == Fold(segs[i], b, params) {
        SameFold(segs[i], a, b, params, sep);
      }
      assert FoldAll(segs, a, params) == FoldAll(segs, b, params);
    }
  }

  lemma SameFold(seg: string, a: seq<string>, b: seq<string>, params: map<string, string>, sep: char)
    requires TidySegment(seg, sep) && Named(params, sep) && IsOrder(a, params) && IsOrder(b, params)
    requires Calm(seg, params) && Unanimous(seg, params)
    ensures Fold(seg, a, params) == Fold(seg, b, params)
  {
    var first := FoldIsFirstHit(seg, a, params, sep);
    var second := FoldIsFirstHit(seg, b, params, sep);
    hide Calm, Fold;
    assert first < |a| ==> a[first] in b;
    assert second < |b| ==> b[second] in a;
  }

  /**
   Likewise every order gives the segment-wise substitution if and only if every name a segment
   starts with makes the segment's own value of it, and no other name occurs in that.
   */
  lemma {:induction false} OrderIndependentIff(segs: seq<string>, params: map<string, string>, sep: char)
    requires Separated(segs, params, sep) && Decided(segs, params)
    ensures OrdersMeant(segs, params, sep) <==> forall s | s in segs :: Calm(s, params) && Harmless(s, params)
  {
    if forall s | s in segs :: Calm(s, params) && Harmless(s, params) {
      forall keys | IsOrder(keys, params)
        ensures SubstituteInOrder(Join(segs, sep), keys, params) == Join(SubstKeys(segs, params), sep)
      {
        OrderIndependent(segs, params, keys, sep);
      }
    } else if OrdersMeant(segs, params, sep) {
      MeantAgree(segs, params, sep);
      OrdersRaceIff(segs, params, sep);
      hide Calm, Unanimous;
      var i :| 0 <= i < |segs| && !Harmless(segs[i], params);
      NotMeant(segs, i, params, sep);
    }
  }

  lemma MeantAgree(segs: seq<string>, params: map<string, string>, sep: char)
    requires OrdersMeant(segs, params, sep)
    ensures OrdersAgree(segs, params, sep)
  {
  }

  lemma NotMeant(segs: seq<string>, i: nat, params: map<string, string>, sep: char)
    requires Separated(segs, params, sep) && i < |segs| && Calm(segs[i], params) && !Harmless(segs[i], params)
    ensures !OrdersMeant(segs, params, sep)
  {
    var k :| Active(k, params) && "$" + k <= segs[i] && Hit(segs[i], k, params) != SubstKey(segs[i], params);
    var keys := OrderStartingWith(k, params);
    StartDecides(segs[i], k, keys, params, sep);
    KeysHaveNoSeparator(segs, params, sep);
    TextFixesSegments(segs, keys, params, sep, SubstKeys(segs, params));
    hide Calm, Harmless, Fold, Hit, SubstKey;
    assert FoldAll(segs, keys, params)[i] != SubstKeys(segs, params)[i];
  }

  /** For values without `$` nothing is left undecided, and the names alone can disagree. */
  lemma PlainOrdersRaceIff(segs: seq<string>, params: map<string, string>, sep: char)
    requires Separated(segs, params, sep) && Plain(params)
    ensures OrdersAgree(segs, params, sep) <==> forall s | s in segs :: Unanimous(s, params)
    ensures OrdersMeant(segs, params, sep) <==> forall s | s in segs :: Harmless(s, params)
  {
    forall s | s in segs ensures Calm(s, params) {
      PlainIsCalm(s, params, sep);
    }
    hide Calm, Unanimous, Harmless, OrdersAgree, OrdersMeant;
    OrdersRaceIff(segs, params, sep);
    OrderIndependentIff(segs, params, sep);
  }

  function RouteSegment(seg: string): string {
    if '$' in seg then "{" + seg[1..] + "}" else seg
  }

  function Braces(names: set<string>): map<string, string> {
    map n | n in names :: "{" + n + "}"
  }

  /** `httpSetup` turns every placeholder into chi's `{name}`, in every order. */
  lemma HttpRoutePattern(segs: seq<string>, names: set<string>, keys: seq<string>)
    requires Tidy(segs, '/') && forall s | s in segs && '$' in s :: s[1..] in names
    requires forall n | n in names :: IsParam("$" + n, '/')
    requires forall k, s | k in names && s in segs && '$' in s && "$" + k <= s :: "$" + k == s
    requires IsOrder(keys, Braces(names))
    ensures SubstituteInOrder(Join(segs, '/'), keys, Braces(names))
         == Join(seq(|segs|, i requires 0 <= i < |segs| => RouteSegment(segs[i])), '/')
  {
    forall n | n in names ensures '$' !in Braces(names)[n] {
      assert ("$" + n)[1..] == n;
    }
    forall s | s in segs ensures Calm(s, Braces(names)) && Harmless(s, Braces(names)) {
      PlainIsCalm(s, Braces(names), '/');
      if '$' in s {
        NoPrefixIsHarmless(s, Braces(names));
      } else {
        assert s == "" || s[0] in s;
      }
    }
    OrderIndependent(segs, Braces(names), keys, '/');
    var route := seq(|segs|, i requires 0 <= i < |segs| => RouteSegment(segs[i]));
    forall i | 0 <= i < |segs| ensures SubstKey(segs[i], Braces(names)) == route[i] {
      assert segs[i] in segs && TidySegment(segs[i], '/');
    }
    assert SubstKeys(segs, Braces(names)) == route;
  }

  /** An instance: with names `n` and `n + rest` the order decides which value is printed, whenever the two differ. */
  lemma {:induction false} PrefixNamesRace(n: string, rest: string, short: string, long: string)
    requires IsParam("$" + n, '.') && rest != "" && '$' !in rest && '.' !in rest
    requires '$' !in short && '$' !in long
    ensures var params, text := map[n := short, n + rest := long], "$" + (n + rest);
      && IsOrder([n, n + rest], params) && IsOrder([n + rest, n], params)
      && SubstituteInOrder(text, [n, n + rest], params) == short + rest
      && SubstituteInOrder(text, [n + rest, n], params) == long
  {
    var params, text := map[n := short, n + rest := long], "$" + (n + rest);
    var a, b := [n, n + rest], [n + rest, n];
    assert text == ("$" + n) + rest && text[|n| + 1..] == rest;
    assert |n| != |n + rest|;
    assert text[1..] == n + rest && ("$" + n)[1..] == n;
    assert Named(params, '.') && Plain(params) && TidySegment(text, '.');
    PlainIsCalm(text, params, '.');
    assert IsOrder(a, params) && IsOrder(b, params);
    StartDecides(text, n, a, params, '.');
    StartDecides(text, n + rest, b, params, '.');
    assert text[|n + rest| + 1..] == "" && long + "" == long;
    InOrderIsFold([text], a, params, '.');
    InOrderIsFold([text], b, params, '.');
  }

  lemma PairFolds(s: string, t: string, keys: seq<string>, params: map<string, string>)
    requires Named(params, '.') && forall k | k in keys :: k in params
    ensures SubstituteInOrder(s + "." + t, keys, params) == Fold(s, keys, params) + "." + Fold(t, keys, params)
  {
    var segs := [s, t];
    assert segs[1..] == [t];
    InOrderIsFold(segs, keys, params, '.');
    hide Fold, SubstituteInOrder;
    var done := FoldAll(segs, keys, params);
    assert done == [Fold(s, keys, params), Fold(t, keys, params)] && done[1..] == [Fold(t, keys, params)];
  }

  /**
   An instance without prefixes among the names: a value that spells another placeholder is
   replaced in its turn or not, as the order has it.
   */
  lemma ValueRaces(a: string, b: string, x: string)
    requires IsParam("$" + a, '.') && IsParam("$" + b, '.') && !(a <= b) && !(b <= a) && '$' !in x
    ensures var pa, pb := "$" + a, "$" + b;
      var params := map[a := pb, b := x];
      && IsOrder([a, b], params) && IsOrder([b, a], params)
      && SubstituteInOrder(pa + "." + pb, [a, b], params) == x + "." + x
      && SubstituteInOrder(pa + "." + pb, [b, a], params) == pb + "." + x
  {
    var pa, pb := "$" + a, "$" + b;
    var params := map[a := pb, b := x];
    RaceNames(a, b, x, params);
    RaceHits(a, b, x, params);
    hide IsOrder, Active, Hit, ReplaceAll, Fold, SubstituteInOrder, IsParam, TidySegment;
    PairFolds(pa, pb, [a, b], params);
    PairFolds(pa, pb, [b, a], params);
    BothOrders(pa, a, b, params);
    BothOrders(pb, b, a, params);
  }

  lemma RaceNames(a: string, b: string, x: string, params: map<string, string>)
    requires IsParam("$" + a, '.') && IsParam("$" + b, '.') && !(a <= b) && !(b <= a) && '$' !in x
    requires params == map[a := "$" + b, b := x]
    ensures IsOrder([a, b], params) && IsOrder([b, a], params) && Named(params, '.')
    ensures Active(a, params) && Active(b, params)
    ensures TidySegment("$" + a, '.') && TidySegment("$" + b, '.')
    ensures !("$" + a <= "$" + b) && !("$" + b <= "$" + a)
  {
    var pb := "$" + b;
    assert [a, b][0] == a && [a, b][1] == b && [b, a][0] == b;
    assert pb[0] in pb;
    StartsAsNames(a, b);
    StartsAsNames(b, a);
  }

  lemma RaceHits(a: string, b: string, x: string, params: map<string, string>)
    requires a != b && b != "" && '$' !in x && params == map[a := "$" + b, b := x]
    ensures Hit("$" + a, a, params) == "$" + b && Hit("$" + b, b, params) == x
    ensures ReplaceAll("$" + b, "$" + b, x) == x && ReplaceAll(x, "$" + a, "$" + b) == x
  {
    var pa, pb := "$" + a, "$" + b;
    assert pa[|a| + 1..] == "" && pb[|b| + 1..] == "" && pb + "" == pb && x + "" == x;
    assert pa[0] in pa;
    if Contains(x, pa) {
      ContainsChars(x, pa, '$');
    }
    ReplaceAllMissing(x, pa, pb);
    WholeReplaced(pb, x);
  }

  lemma StartsAsNames(a: string, b: string)
    ensures "$" + a <= "$" + b <==> a <= b
  {
    assert ("$" + a)[1..] == a && ("$" + b)[1..] == b;
  }

  lemma WholeReplaced(t: string, x: string)
    requires t != ""
    ensures ReplaceAll(t, t, x) == x
  {
    assert t[|t|..] == "" && x + "" == x;
  }

  /** A segment that starts with `k` alone, through both orders of two names. */
  lemma BothOrders(seg: string, k: string, l: string, params: map<string, string>)
    requires TidySegment(seg, '.') && Named(params, '.') && k in params && l in params
    requires Active(k, params) && "$" + k <= seg && !("$" + l <= seg)
    ensures Fold(seg, [k, l], params) == ReplaceAll(Hit(seg, k, params), "$" + l, params[l])
    ensures Fold(seg, [l, k], params) == Hit(seg, k, params)
  {
    hide Hit, Fold, ReplaceAll, IsParam;
    LastTwo(seg, [], k, l, params, '.');
    LastTwo(seg, [], l, k, params, '.');
    assert [] + [k, l] == [k, l] && [] + [l, k] == [l, k];
  }

  /**
   Why a segment may not start with two names that feed each other: with `n` = `$nm` and
   `nm` = `$n` (here `m` is `more`) every order makes of a longer placeholder what it was,
   though each name makes another thing of it first.
   */
  lemma FeedersCanAgree(n: string, more: string, rest: string)
    requires IsParam("$" + n, '.') && more != "" && '$' !in more + rest && '.' !in more + rest
    ensures var params, seg := map[n := "$" + (n + more), n + more := "$" + n], "$" + (n + more + rest);
      && !Calm(seg, params) && !OneStarter(seg, params)
      && SubstituteInOrder(seg, [n, n + more], params) == seg
      && SubstituteInOrder(seg, [n + more, n], params) == seg
  {
    var nm := n + more;
    var params, seg := map[n := "$" + nm, nm := "$" + n], "$" + (nm + rest);
    assert |n| != |nm| && ("$" + n)[1..] == n && ("$" + nm)[1..] == nm;
    assert Active(n, params) && Active(nm, params) && Named(params, '.');
    hide Active, Hit, ReplaceAll, Contains, IsParam;
    assert seg == "$" + (n + (more + rest));
    ThereAndBack(n, nm, more + rest, params);
    assert "$" + nm + rest == seg;
    ThereAndBack(nm, n, rest, params);
    Grown(n, more + rest, params);
    FeedsOn(seg, n, nm, more + rest, params);
  }

  /** Two names that stand for each other's placeholders, one after the other. */
  lemma ThereAndBack(k: string, l: string, rest: string, params: map<string, string>)
    requires Named(params, '.') && Active(k, params) && Active(l, params) && '$' !in rest && '.' !in rest
    requires params[k] == "$" + l && params[l] == "$" + k
    ensures SubstituteInOrder("$" + (k + rest), [k, l], params) == "$" + (k + rest)
  {
    assert k in params && l in params && IsParam("$" + k, '.') && IsParam("$" + l, '.');
    hide Active, Hit, ReplaceAll, SubstituteInOrder, Fold, IsParam;
    Grown(k, rest, params);
    Grown(l, rest, params);
    OneSegment("$" + (k + rest), [k, l], params);
    FoldTwo("$" + (k + rest), k, l, params);
    Regroup("$", l, rest);
    Regroup("$", k, rest);
  }

  lemma FeedsOn(seg: string, k: string, l: string, rest: string, params: map<string, string>)
    requires Active(k, params) && Active(l, params) && k != l && "$" + k <= seg
    requires Hit(seg, k, params) == "$" + l + rest
    ensures !Calm(seg, params)
  {
    assert "$" + l <= "$" + l + rest;
  }

  lemma OneSegment(seg: string, keys: seq<string>, params: map<string, string>)
    requires Named(params, '.') && forall k | k in keys :: k in params
    ensures SubstituteInOrder(seg, keys, params) == Fold(seg, keys, params)
  {
    InOrderIsFold([seg], keys, params, '.');
  }

  /** A name at the start of a longer one. */
  lemma Grown(k: string, rest: string, params: map<string, string>)
    requires IsParam("$" + k, '.') && '$' !in rest && '.' !in rest && Active(k, params)
    ensures "$" + k <= "$" + (k + rest) && Hit("$" + (k + rest), k, params) == params[k] + rest
    ensures ReplaceAll("$" + (k + rest), "$" + k, params[k]) == params[k] + rest
  {
    var seg := "$" + (k + rest);
    assert ("$" + k)[1..] == k && seg[1..] == k + rest && seg[|k| + 1..] == rest;
    assert forall c | c in k + rest :: c in k || c in rest;
    OneName(seg, k, params, '.');
  }
}
