/**
 `NewPatternFromV1` (v2/pkg/rids/pattern.go): the values of a version-1 call's parameter map
 are collected in Go's map order and handed to `newMethod`, which assigns them by position.
 */
module V1Pattern {
  import opened Basics
  import opened GoStrings
  import opened Segments
  import opened Endpoints
  import opened ParamAssignment
  import opened ArgumentOrder
  import opened PatternObjects
  import Order = MapOrder

  /** The values as one order of the keys collects them. */
  function ValuesInOrder(keys: seq<string>, params: map<string, string>): (r: seq<string>)
    requires forall k | k in keys :: k in params
    ensures |r| == |keys| && forall i | 0 <= i < |r| :: r[i] == params[keys[i]]
  {
    seq(|keys|, i requires 0 <= i < |keys| => params[keys[i]])
  }

  /** What the path's method gets as its parameters in one order. */
  function BuiltInOrder(path: string, keys: seq<string>, params: map<string, string>): map<string, string>
    requires forall k | k in keys :: k in params
  {
    BuildParams(path, ValuesInOrder(keys, params))
  }

  lemma CollectMore(done: seq<string>, key: string, params: map<string, string>)
    requires Distinct(done) && key !in done && key in params && forall k | k in done :: k in params
    ensures Distinct(done + [key]) && forall k :: k in done + [key] <==> k in done || k == key
    ensures ValuesInOrder(done + [key], params) == ValuesInOrder(done, params) + [params[key]]
  {
    assert forall i | 0 <= i < |done| :: done[i] in done;
  }

  /** The pattern made of the endpoint when the map is read in this order. */
  ghost predicate MadeInOrder(p: PatternData, endpoint: string, keys: seq<string>, params: map<string, string>) {
    var parts := Split(endpoint, '.');
    var path := Join(parts[1..], '.');
    && Order.IsOrder(keys, params)
    && p == PatternData(parts[0], path, "", BuiltInOrder(path, keys, params), false, 1, None)
  }

  method NewPatternFromV1(endpoint: string, params: map<string, string>) returns (p: Pattern?)
    ensures p == null <==> '.' !in endpoint
    ensures p != null ==> fresh(p) && fresh(p.methodValue)
    ensures p != null ==> exists keys :: MadeInOrder(p.Value(), endpoint, keys, params)
  {
    var parts := Split(endpoint, '.');
    SplitsAtDots(endpoint);
    if |parts| < 2 {
      return null;
    }
    var path := Join(parts[1..], '.');
    var values: seq<string> := [];
    var todo := params.Keys;
    ghost var done: seq<string> := [];
    assert values == ValuesInOrder(done, params);
    hide Split, Join, ValuesInOrder;
    while todo != {}
      invariant todo <= params.Keys
      invariant forall k :: k in done <==> k in params.Keys - todo
      invariant Distinct(done)
      invariant values == ValuesInOrder(done, params)
      decreases |todo|
    {
      var key :| key in todo;
      values := values + [params[key]];
      CollectMore(done, key, params);
      done := done + [key];
      todo := todo - {key};
    }
    var m := new Method(parts[0], path, 1, values);
    p := new Pattern(m, None);
    assert MadeInOrder(p.Value(), endpoint, done, params);
  }

  lemma {:induction false} SplitsAtDots(s: string)
    ensures |Split(s, '.')| >= 2 <==> '.' in s
  {
    if s != "" {
      SplitsAtDots(s[1..]);
    }
  }

  // ---- when the order does not matter ----

  ghost predicate AllEqual(params: map<string, string>) {
    forall k, l | k in params && l in params :: params[k] == params[l]
  }

  ghost predicate OrdersBuildSame(path: string, params: map<string, string>) {
    forall a, b | Order.IsOrder(a, params) && Order.IsOrder(b, params) ::
      BuiltInOrder(path, a, params) == BuiltInOrder(path, b, params)
  }

  /** Every order builds the very parameters of the call. */
  ghost predicate OrdersKeep(path: string, params: map<string, string>) {
    forall keys | Order.IsOrder(keys, params) :: BuiltInOrder(path, keys, params) == params
  }

  lemma {:induction false} OrderLength(keys: seq<string>, todo: set<string>)
    requires Distinct(keys) && forall k :: k in keys <==> k in todo
    ensures |keys| == |todo|
  {
    if keys != [] {
      var rest := keys[1..];
      forall k ensures k in rest <==> k in todo - {keys[0]} {
        assert k in rest ==> exists i :: 0 <= i < |rest| && rest[i] == k == keys[i + 1];
        assert k in keys && k != keys[0] ==> k in rest;
      }
      OrderLength(rest, todo - {keys[0]});
    }
  }

  /** Equal values come out the same in every order, whatever they hold. */
  lemma EqualValuesBuildSame(path: string, params: map<string, string>)
    requires AllEqual(params)
    ensures OrdersBuildSame(path, params)
  {
    forall a, b | Order.IsOrder(a, params) && Order.IsOrder(b, params)
      ensures BuiltInOrder(path, a, params) == BuiltInOrder(path, b, params)
    {
      OrderLength(a, params.Keys);
      OrderLength(b, params.Keys);
      forall i | 0 <= i < |a| ensures params[a[i]] == params[b[i]] {
        assert a[i] in a && b[i] in b;
      }
      assert ValuesInOrder(a, params) == ValuesInOrder(b, params);
    }
  }

  lemma BuiltByPosition(path: string, keys: seq<string>, params: map<string, string>)
    requires Tidy(Split(path, '.'), '.') && Distinct(Names(Split(path, '.')))
    requires Order.IsOrder(keys, params) && Order.Plain(params)
    ensures Positional(path, ValuesInOrder(keys, params))
  {
    hide Split, Names, Tidy, Distinct;
    forall i | 0 <= i < |keys| ensures '$' !in ValuesInOrder(keys, params)[i] {
      assert keys[i] in keys;
    }
    ArgumentsArePositional(path, ValuesInOrder(keys, params));
  }

  /**
   For values without `$` every order builds the same parameters if and only if there is no
   placeholder to fill or all values are equal.
   */
  lemma {:induction false} V1OrdersAgreeIff(path: string, params: map<string, string>)
    requires Tidy(Split(path, '.'), '.') && Distinct(Names(Split(path, '.'))) && Order.Plain(params)
    ensures OrdersBuildSame(path, params) <==> Names(Split(path, '.')) == [] || AllEqual(params)
  {
    var names := Names(Split(path, '.'));
    hide Split, Names, Tidy, BuildParams;
    if AllEqual(params) {
      EqualValuesBuildSame(path, params);
    } else if names == [] {
      NothingToBuild(path, params);
    } else {
      var k, l :| k in params && l in params && params[k] != params[l];
      var a := Order.OrderStartingWith(k, params);
      var b := Order.OrderStartingWith(l, params);
      BuiltByPosition(path, a, params);
      BuiltByPosition(path, b, params);
      assert BuiltInOrder(path, a, params)[names[0]] == params[k];
      assert BuiltInOrder(path, b, params)[names[0]] == params[l];
    }
  }

  lemma NothingToBuild(path: string, params: map<string, string>)
    requires Tidy(Split(path, '.'), '.') && Order.Plain(params) && Names(Split(path, '.')) == []
    ensures OrdersBuildSame(path, params)
  {
    hide Split, Names, Tidy, BuildParams;
    forall a, b | Order.IsOrder(a, params) && Order.IsOrder(b, params)
      ensures BuiltInOrder(path, a, params) == BuiltInOrder(path, b, params)
    {
      BuiltByPosition(path, a, params);
      BuiltByPosition(path, b, params);
    }
  }

  /**
   Hence a call that gives each placeholder of its endpoint a value comes out with its own
   parameters in every order if and only if all the values are equal.
   */
  lemma {:induction false} V1KeepsParamsIff(path: string, params: map<string, string>)
    requires Tidy(Split(path, '.'), '.') && Distinct(Names(Split(path, '.'))) && Order.Plain(params)
    requires params.Keys == (set n | n in Names(Split(path, '.')))
    ensures OrdersKeep(path, params) <==> AllEqual(params)
  {
    hide Split, Tidy, BuildParams, Names, BuiltInOrder, OrdersBuildSame;
    if AllEqual(params) {
      forall keys | Order.IsOrder(keys, params) ensures BuiltInOrder(path, keys, params) == params {
        EqualValuesKept(path, keys, params);
      }
    } else if OrdersKeep(path, params) {
      AlwaysSame(path, params);
      V1OrdersAgreeIff(path, params);
    }
  }

  lemma AlwaysSame(path: string, params: map<string, string>)
    requires OrdersKeep(path, params)
    ensures OrdersBuildSame(path, params)
  {
    hide BuiltInOrder;
  }

  lemma EqualValuesKept(path: string, keys: seq<string>, params: map<string, string>)
    requires Tidy(Split(path, '.'), '.') && Distinct(Names(Split(path, '.'))) && Order.Plain(params)
    requires params.Keys == (set n | n in Names(Split(path, '.')))
    requires AllEqual(params) && Order.IsOrder(keys, params)
    ensures BuiltInOrder(path, keys, params) == params
  {
    var names, values := Names(Split(path, '.')), ValuesInOrder(keys, params);
    BuiltByPosition(path, keys, params);
    hide Split, Tidy, BuildParams, Names, Positional, GivenByPosition, Order.Plain;
    PositionalGives(path, values);
    OrderLength(names, params.Keys);
    OrderLength(keys, params.Keys);
    OwnValues(names, keys, params, BuiltInOrder(path, keys, params));
  }

  lemma OwnValues(names: seq<string>, keys: seq<string>, params: map<string, string>, built: map<string, string>)
    requires |names| == |keys| && (forall n :: n in names <==> n in params) && forall k | k in keys :: k in params
    requires AllEqual(params) && GivenByPosition(names, ValuesInOrder(keys, params), built)
    ensures built == params
  {
    forall n | n in params ensures n in built && built[n] == params[n] {
      var i :| 0 <= i < |names| && names[i] == n;
      assert keys[i] in keys;
    }
  }
}
