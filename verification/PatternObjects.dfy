/**
 The `method` and `pattern` objects of v2/pkg/rids and the code that copies them per
 request.  The loops are the code's; each is tied to its function in `Endpoints`,
 `ParamAssignment` or `EndpointMatching`.  No method that serves a request has a
 `modifies` clause: what is registered stays as it is.
 */
module PatternObjects {
  import opened Basics
  import opened GoStrings
  import opened Endpoints
  import opened ParamAssignment
  import opened EndpointMatching

  class Method {
    var serviceName: string
    var genericEndpoint: string
    var httpMethod: string
    var params: map<string, string>
    var isPublic: bool
    var version: int

    function Value(query: Option<string>): PatternData
      reads this
    {
      PatternData(serviceName, genericEndpoint, httpMethod, params, isPublic, version, query)
    }

    /** An INTERNAL method is never public: every setter keeps this. */
    predicate InternalIsPrivate()
      reads this
    {
      httpMethod == INTERNAL ==> !isPublic
    }

    /** `newMethod`: positional assignment of the arguments to the `$name` segments. */
    constructor (service: string, endpoint: string, ver: int, args: seq<string>)
      ensures Value(None) == PatternData(service, endpoint, "", BuildParams(endpoint, args), false, ver, None)
      ensures InternalIsPrivate()
    {
      serviceName, genericEndpoint, httpMethod, isPublic, version := service, endpoint, "", false, ver;
      var m: map<string, string> := map[];
      var text := endpoint;
      var parts := Split(text, '.');
      hide AssignLoop, FillLoop, Split, FirstParam;
      assert args[0..] == args;
      AssignLoopDone(args[|args|..]);
      for a := 0 to |args|
        invariant parts == Split(text, '.')
        invariant AssignLoop(args[a..], text, m) == AssignLoop(args, endpoint, map[])
      {
        AssignLoopNext(args, a, text, m);
        var i := 0;
        while i < |parts| && !LooksLikeParam(parts[i])
          invariant i <= |parts|
          invariant forall k | 0 <= k < i :: !LooksLikeParam(parts[k])
        {
          i := i + 1;
        }
        FirstParamAt(parts, i);
        if i < |parts| {
          m := m[parts[i][1..] := args[a]];
          text := ReplaceFirst(text, parts[i], args[a]);
          parts := Split(text, '.');
        }
      }
      assert AssignLoop(args, endpoint, map[]) == (m, text);
      ghost var afterArgs := m;
      assert parts[0..] == parts;
      for i := 0 to |parts|
        invariant FillLoop(parts[i..], m) == FillLoop(parts, afterArgs)
      {
        FillLoopNext(parts, i, m);
        if '$' in parts[i] && parts[i][1..] !in m {
          m := m[parts[i][1..] := ""];
        }
      }
      FillLoopDone(parts[|parts|..], m);
      params := m;
    }

    constructor Copy(other: Method)
      ensures Value(None) == other.Value(None)
    {
      serviceName, genericEndpoint, httpMethod := other.serviceName, other.genericEndpoint, other.httpMethod;
      params, isPublic, version := other.params, other.isPublic, other.version;
    }

    method Public()
      requires InternalIsPrivate()
      modifies this`isPublic
      ensures InternalIsPrivate()
      ensures isPublic == (httpMethod != INTERNAL)
    {
      if httpMethod != INTERNAL {
        isPublic := true;
      }
    }

    /** `Get`, `Post`, `Put`, `Patch`, `Delete` and `Event`: the pattern shares this method object. */
    method WithVerb(verb: string) returns (p: Pattern)
      requires verb != INTERNAL
      modifies this`httpMethod
      ensures httpMethod == verb && InternalIsPrivate()
      ensures fresh(p) && p.methodValue == this && p.query == None
    {
      httpMethod := verb;
      p := new Pattern(this, None);
    }

    method Internal() returns (p: Pattern)
      modifies this`httpMethod, this`isPublic
      ensures httpMethod == INTERNAL && !isPublic && InternalIsPrivate()
      ensures fresh(p) && p.methodValue == this && p.query == None
    {
      isPublic := false;
      httpMethod := INTERNAL;
      p := new Pattern(this, None);
    }
  }

  class Pattern {
    var methodValue: Method
    var query: Option<string>

    function Value(): PatternData
      reads this, methodValue
    {
      methodValue.Value(query)
    }

    constructor (m: Method, q: Option<string>)
      ensures methodValue == m && query == q
    {
      methodValue, query := m, q;
    }

    /** The replace-first loop over the segments of the generic endpoint. */
    method EndpointNameSpecific() returns (r: string)
      ensures r == Endpoints.EndpointNameSpecific(Value())
    {
      var p := Value();
      if |p.generic| == 0 {
        return EndpointName(p);
      }
      var endpoint := p.generic;
      var parts := Split(endpoint, '.');
      for i := 0 to |parts|
        invariant InstantiateLoop(parts[i..], p.params, endpoint) == InstantiateLoop(parts, p.params, p.generic)
      {
        assert parts[i..][1..] == parts[i + 1..];
        if '$' in parts[i] && |parts[i]| > 1 {
          var name := parts[i][1..];
          if name in p.params && |p.params[name]| > 0 {
            endpoint := ReplaceFirst(endpoint, parts[i], p.params[name]);
          }
        }
      }
      assert parts[|parts|..] == [];
      r := p.service + "." + endpoint + "." + p.httpMethod;
    }

    /** A copy with a method object of its own. */
    method Clone() returns (c: Pattern)
      ensures fresh(c) && fresh(c.methodValue)
      ensures c.Value() == Value()
    {
      var m := new Method.Copy(methodValue);
      c := new Pattern(m, query);
    }

    /** Installs the parameters in a copy of the method; the old method object keeps its own. */
    method SetParams(params: map<string, string>)
      modifies this`methodValue
      ensures fresh(methodValue)
      ensures Value() == old(Value()).(params := params)
    {
      var m := new Method.Copy(methodValue);
      m.params := params;
      methodValue := m;
    }

    method Query(q: string)
      modifies this`query
      ensures Value() == old(Value()).(query := Some(q))
    {
      query := Some(q);
    }
  }

  function PatternValues(patterns: seq<Pattern>): (r: seq<PatternData>)
    reads patterns, set p | p in patterns :: p.methodValue
    ensures |r| == |patterns| && forall i | 0 <= i < |r| :: r[i] == patterns[i].Value()
  {
    if patterns == [] then [] else [patterns[0].Value()] + PatternValues(patterns[1..])
  }

  /** The segment loop for one pattern, with its early exit. */
  method MatchParts(parts: seq<string>, endpoint: seq<string>) returns (matches: bool, params: map<string, string>)
    requires |parts| == |endpoint|
    ensures matches == Fits(parts, endpoint)
    ensures matches ==> params == Collect(parts, endpoint, map[])
  {
    matches, params := true, map[];
    for i := 0 to |parts|
      invariant matches && forall k | 0 <= k < i :: IsHole(parts[k]) || parts[k] == endpoint[k]
      invariant Collect(parts[i..], endpoint[i..], params) == Collect(parts, endpoint, map[])
    {
      assert parts[i..][1..] == parts[i + 1..] && endpoint[i..][1..] == endpoint[i + 1..];
      if "$" <= parts[i] {
        var key := parts[i][1..];
        if endpoint[i] == "*" {
          params := params[key := parts[i]];
        } else {
          params := params[key := endpoint[i]];
        }
      } else if parts[i] != endpoint[i] {
        matches := false;
        return;
      }
    }
  }

  /** The body of the pattern loop: a clone with the parameters and query read from the endpoint, or nothing. */
  method TryPattern(p: Pattern, specificEndpoint: string) returns (r: Pattern?)
    ensures r != null <==> MatchesPattern(old(p.Value()), specificEndpoint)
    ensures r != null ==> fresh(r) && fresh(r.methodValue) && r.Value() == Matched(old(p.Value()), specificEndpoint)
  {
    r := null;
    var parts := Split(EndpointName(p.Value()), '.');
    var queryParts := Split(specificEndpoint, '?');
    var endpointParts := Split(queryParts[0], '.');
    if |parts| != |endpointParts| {
      return;
    }
    var matches, params := MatchParts(parts, endpointParts);
    if matches {
      r := p.Clone();
      r.SetParams(params);
      if |queryParts| > 1 {
        r.Query(queryParts[1]);
      }
    }
  }

  /** `PatternFromEndpoint`: the lookup on the registered patterns' values, on objects of its own. */
  method PatternFromEndpoint(patterns: seq<Pattern>, specificEndpoint: string) returns (r: Pattern?)
    ensures r == null <==> Lookup(old(PatternValues(patterns)), specificEndpoint) == None
    ensures r != null ==>
      && fresh(r) && fresh(r.methodValue)
      && Lookup(old(PatternValues(patterns)), specificEndpoint) == Some(r.Value())
  {
    hide MatchesPattern, Matched, Lookup;
    ghost var all := PatternValues(patterns);
    r := null;
    for j := 0 to |patterns|
      invariant r == null
      invariant forall p | p in patterns :: p.Value() == old(p.Value())
      invariant forall i | 0 <= i < j :: !MatchesPattern(all[i], specificEndpoint)
    {
      r := TryPattern(patterns[j], specificEndpoint);
      if r != null {
        LookupIsFirst(all, specificEndpoint, j);
        return;
      }
    }
    LookupIsFirst(all, specificEndpoint, |patterns|);
  }

  /** The loop over the pattern's parameters; the order of the map does not matter. */
  method ReadUrl(names: set<string>, url: map<string, string>) returns (params: map<string, string>)
    ensures forall n :: n in params <==> n in names && n in url && url[n] != ""
    ensures forall n | n in params :: params[n] == url[n]
  {
    params := map[];
    var todo := names;
    while todo != {}
      invariant todo <= names
      invariant forall n :: n in params <==> n in names - todo && n in url && url[n] != ""
      invariant forall n | n in params :: params[n] == url[n]
      decreases |todo|
    {
      var name :| name in todo;
      if name in url && url[name] != "" {
        params := params[name := url[name]];
      }
      todo := todo - {name};
    }
  }

  /**
   The clone-then-set prologue of `httpHandler` (v2/pkg/spike/http-server.go): a name of the
   pattern is set exactly if the URL gives it a value that is not empty, and then to that value.
   */
  method HttpPattern(p: Pattern, url: map<string, string>, query: string) returns (r: Pattern)
    ensures fresh(r) && fresh(r.methodValue)
    ensures r.Value() == p.Value().(params := r.Value().params, query := Some(query))
    ensures forall n :: n in r.Value().params <==> n in p.Value().params && n in url && url[n] != ""
    ensures forall n | n in r.Value().params :: r.Value().params[n] == url[n]
  {
    var params := ReadUrl(p.methodValue.params.Keys, url);
    r := p.Clone();
    r.SetParams(params);
    r.Query(query);
  }

  datatype Incoming = Socket(endpoint: string) | Http(index: nat, url: map<string, string>, query: string)

  /** Any sequence of socket lookups and HTTP requests leaves every registered pattern as it was. */
  method ServeAll(patterns: seq<Pattern>, requests: seq<Incoming>)
    ensures forall p | p in patterns :: p.methodValue == old(p.methodValue) && p.Value() == old(p.Value())
  {
    for i := 0 to |requests| {
      match requests[i] {
        case Socket(endpoint) => var _ := PatternFromEndpoint(patterns, endpoint);
        case Http(index, url, query) =>
          if index < |patterns| {
            var r := HttpPattern(patterns[index], url, query);
            r.SetParams(map[]);
          }
      }
    }
  }
}
