/**
 When `newMethod` (v2/pkg/rids/method.go) hands its arguments out by position although they
 spell placeholders themselves: the order in which the placeholders get their arguments.
 */
module ArgumentOrder {
  import opened Basics
  import opened GoStrings
  import opened Segments
  import opened Endpoints
  import opened ParamAssignment

  function Takers(arg: string): seq<string> {
    TakerNames(Split(arg, '.'))
  }

  /** The placeholders the arguments are given to, one after the other. */
  function Targets(stack: seq<string>, args: seq<string>): (r: seq<string>)
    ensures |r| <= |args|
    decreases |args|
  {
    if stack == [] || args == [] then [] else [stack[0]] + Targets(Takers(args[0]) + stack[1..], args[1..])
  }

  lemma {:induction false} TargetsAssign(stack: seq<string>, args: seq<string>, m: map<string, string>)
    ensures StackRun(stack, args, m).0 == AssignNames(Targets(stack, args), args, m)
    ensures Consumed(stack, args) == |Targets(stack, args)|
    decreases |args|
  {
    if stack != [] && args != [] {
      hide TakerNames, Split;
      TargetsAssign(Takers(args[0]) + stack[1..], args[1..], m[stack[0] := args[0]]);
    }
  }

  /** No placeholder is passed over while there are arguments. */
  lemma {:induction false} TargetsSuffice(stack: seq<string>, args: seq<string>)
    ensures |stack| <= |args| ==> |Targets(stack, args)| >= |stack|
    ensures |args| <= |stack| ==> |Targets(stack, args)| == |args|
    decreases |args|
  {
    if stack != [] && args != [] {
      hide TakerNames, Split;
      TargetsSuffice(Takers(args[0]) + stack[1..], args[1..]);
    }
  }

  /** What is left on the stack was there before or was brought by an argument that was given away. */
  predicate Brought(args: seq<string>, n: string, i: nat) {
    i < |args| && n in Takers(args[i])
  }

  lemma {:induction false} LeftFrom(stack: seq<string>, args: seq<string>, m: map<string, string>, n: string)
    requires n in StackRun(stack, args, m).1
    ensures n in stack || exists i: nat :: i < |Targets(stack, args)| && Brought(args, n, i)
    decreases |args|
  {
    if stack != [] && args != [] {
      hide TakerNames, Split;
      var next := Takers(args[0]) + stack[1..];
      LeftFrom(next, args[1..], m[stack[0] := args[0]], n);
      if n in Takers(args[0]) {
        assert Brought(args, n, 0);
      } else if n !in stack {
        var i: nat :| i < |Targets(next, args[1..])| && Brought(args[1..], n, i);
        assert Brought(args, n, i + 1);
      }
    }
  }

  /** The placeholders below those that were given away stay. */
  lemma {:induction false} LeftHolds(stack: seq<string>, args: seq<string>, m: map<string, string>, k: nat)
    requires |Targets(stack, args)| <= k < |stack|
    ensures stack[k] in StackRun(stack, args, m).1
    decreases |args|
  {
    if stack != [] && args != [] {
      hide TakerNames, Split;
      var pushed := Takers(args[0]);
      hide Takers;
      MovesDown(pushed, stack, k);
      LeftHolds(pushed + stack[1..], args[1..], m[stack[0] := args[0]], |pushed| + k - 1);
    }
  }

  lemma MovesDown(pushed: seq<string>, stack: seq<string>, k: nat)
    requires 1 <= k < |stack|
    ensures |pushed| + k - 1 < |pushed + stack[1..]| && (pushed + stack[1..])[|pushed| + k - 1] == stack[k]
  {
  }

  /** The last argument given to a name is the one it keeps. */
  lemma {:induction false} LastWins(names: seq<string>, args: seq<string>, m: map<string, string>, i: nat)
    returns (j: nat)
    requires i < |names| <= |args|
    ensures i <= j < |names| && names[j] == names[i]
    ensures names[i] in AssignNames(names, args, m) && AssignNames(names, args, m)[names[i]] == args[j]
  {
    var m' := m[names[0] := args[0]];
    if i > 0 {
      j := LastWins(names[1..], args[1..], m', i - 1);
      j := j + 1;
    } else if names[0] in names[1..] {
      var k :| 0 <= k < |names[1..]| && names[1..][k] == names[0];
      j := LastWins(names[1..], args[1..], m', k);
      j := j + 1;
    } else {
      NotAssigned(names[1..], args[1..], m', names[0]);
      j := 0;
    }
  }

  lemma {:induction false} NotAssigned(names: seq<string>, args: seq<string>, m: map<string, string>, n: string)
    ensures n !in names ==> (n in AssignNames(names, args, m) <==> n in m)
    ensures n !in names && n in m ==> AssignNames(names, args, m)[n] == m[n]
  {
    if names != [] && args != [] {
      NotAssigned(names[1..], args[1..], m[names[0] := args[0]], n);
    }
  }

  // ---- in turn ----

  /** Each argument given away goes to the endpoint's own placeholder of its place. */
  predicate InTurn(names: seq<string>, args: seq<string>) {
    Targets(names, args) <= names
  }

  lemma TakerOrForeign(names: seq<string>, arg: string, n: string)
    requires n in Takers(arg)
    ensures n in names || BringsForeign(names, arg)
  {
    var parts := Split(arg, '.');
    NamesAreTakers(parts);
    NamesContain(parts, n);
    hide TakerNames, Split;
    var part :| part in parts && '$' in part && part[1..] == n;
    assert ForeignPart(names, arg, part) || n in names;
  }

  lemma BareIsForeign(names: seq<string>, args: seq<string>, i: nat)
    requires i < |args| && i < |names| && "" !in names && HasBareMark(args[i])
    ensures SomeForeign(names, args)
  {
    assert ForeignPart(names, args[i], "$") by { assert '$' in "$" && "$"[1..] == ""; }
  }

  /** What the stack leaves behind when the arguments go in turn and bring nothing foreign. */
  lemma InTurnStack(names: seq<string>, args: seq<string>)
    requires Distinct(names) && InTurn(names, args) && !SomeForeign(names, args)
    ensures var (m, left) := StackRun(names, args, map[]);
      && (forall n :: n in names <==> n in m || n in left)
      && forall k | 0 <= k < |names| :: if k < |args| then names[k] in m && m[names[k]] == args[k] else names[k] !in m
  {
    var targets := Targets(names, args);
    var (m, left) := StackRun(names, args, map[]);
    var none: map<string, string> := map[];
    TargetsAssign(names, args, none);
    TargetsSuffice(names, args);
    AssignNamesMeaning(targets, args, none);
    hide StackRun, AssignNames, InTurn, Takers;
    assert targets == names[..|targets|];
    forall k | 0 <= k < |names| && k >= |args| ensures names[k] !in m {
      assert forall j | 0 <= j < |targets| :: targets[j] == names[j];
    }
    forall n | n in left ensures n in names {
      LeftFrom(names, args, none, n);
      if i: nat :| i < |targets| && Brought(args, n, i) {
        TakerOrForeign(names, args[i], n);
      }
    }
    forall n | n in names ensures n in m || n in left {
      var k :| 0 <= k < |names| && names[k] == n;
      if k >= |targets| {
        LeftHolds(names, args, none, k);
      } else {
        assert targets[k] == n;
      }
    }
  }

  /** Arguments in turn that bring nothing foreign are handed out by position, whatever else they spell. */
  lemma {:induction false} InTurnIsPositional(endpoint: string, args: seq<string>)
    requires Tidy(Split(endpoint, '.'), '.') && Distinct(Names(Split(endpoint, '.')))
    requires var names := Names(Split(endpoint, '.')); InTurn(names, args) && !SomeForeign(names, args)
    ensures Positional(endpoint, args)
  {
    var parts := Split(endpoint, '.');
    var names := Names(parts);
    NamesTake(parts);
    NamesAreTakers(parts);
    TidyHasNoBare(parts);
    BuildIsStack(endpoint, args);
    TargetsAssign(names, args, map[]);
    InTurnStack(names, args);
    forall k | 0 <= k < Consumed(names, args) ensures !HasBareMark(args[k]) {
      if HasBareMark(args[k]) {
        BareIsForeign(names, args, k);
      }
    }
    hide Split, Names, TakerNames, StackRun, BuildParams, Consumed, Targets, HasBareMark, SomeForeign;
  }

  lemma TidyHasNoBare(parts: seq<string>)
    requires Tidy(parts, '.')
    ensures "$" !in parts
  {
    assert !TidySegment("$", '.') by { assert '$' in "$"; }
  }

  /** The arguments can be told apart from one another and from no argument. */
  ghost predicate Telling(args: seq<string>) {
    Distinct(args) && "" !in args
  }

  /** What was assigned, and the empty string for other names. */
  ghost predicate Completes(built: map<string, string>, m: map<string, string>) {
    forall n :: (n in m ==> n in built && built[n] == m[n]) && (n in built && n !in m ==> built[n] == "")
  }

  ghost predicate GivenByPosition(names: seq<string>, args: seq<string>, built: map<string, string>) {
    && (forall n :: n in built ==> n in names)
    && forall i | 0 <= i < |names| :: names[i] in built && built[names[i]] == if i < |args| then args[i] else ""
  }

  lemma PositionalGives(endpoint: string, args: seq<string>)
    requires Positional(endpoint, args)
    ensures GivenByPosition(Names(Split(endpoint, '.')), args, BuildParams(endpoint, args))
  {
    hide Names, Split, BuildParams;
    var names := Names(Split(endpoint, '.'));
    forall i | 0 <= i < |names| ensures names[i] in BuildParams(endpoint, args).Keys {
    }
  }

  /** What is built for a tidy endpoint, in terms of the placeholders the arguments went to. */
  lemma BuiltFromTargets(endpoint: string, args: seq<string>)
    requires Tidy(Split(endpoint, '.'), '.')
    ensures var names, built := Names(Split(endpoint, '.')), BuildParams(endpoint, args);
      Completes(built, AssignNames(Targets(names, args), args, map[]))
  {
    NamesTake(Split(endpoint, '.'));
    BuildIsStack(endpoint, args);
    hide Split, Names, TakerNames, StackRun, BuildParams, Consumed, Targets, HasBareMark, AssignNames;
    TargetsAssign(Names(Split(endpoint, '.')), args, map[]);
  }

  /** Handed out by position, such arguments went in turn. */
  lemma {:induction false} PositionalIsInTurn(endpoint: string, args: seq<string>)
    requires Tidy(Split(endpoint, '.'), '.') && Distinct(Names(Split(endpoint, '.'))) && Telling(args)
    requires Positional(endpoint, args)
    ensures InTurn(Names(Split(endpoint, '.')), args)
  {
    hide *;
    var names, built := Names(Split(endpoint, '.')), BuildParams(endpoint, args);
    var targets := Targets(names, args);
    BuiltFromTargets(endpoint, args);
    PositionalGives(endpoint, args);
    forall k: nat | k < |targets| ensures SameAt(targets, names, k) {
      InItsPlace(names, args, targets, built, k);
    }
    PrefixByIndex(names, args, targets);
  }

  predicate SameAt(a: seq<string>, b: seq<string>, k: nat) {
    k < |a| && k < |b| && a[k] == b[k]
  }

  lemma PrefixByIndex(names: seq<string>, args: seq<string>, targets: seq<string>)
    requires targets == Targets(names, args)
    requires forall k: nat | k < |targets| :: SameAt(targets, names, k)
    ensures InTurn(names, args)
  {
    if targets != [] {
      assert SameAt(targets, names, |targets| - 1);
    }
    forall k: nat | k < |targets| ensures k < |names| && targets[k] == names[k] {
      assert SameAt(targets, names, k);
    }
  }

  /** One target, when every argument ended up in its own place. */
  lemma InItsPlace(names: seq<string>, args: seq<string>, targets: seq<string>, built: map<string, string>, k: nat)
    requires k < |targets| <= |args| && Telling(args)
    requires Completes(built, AssignNames(targets, args, map[])) && GivenByPosition(names, args, built)
    ensures SameAt(targets, names, k)
  {
    hide AssignNames;
    var none: map<string, string> := map[];
    var j := LastWins(targets, args, none, k);
    assert args[j] in args;
    assert targets[k] in names;
    var i :| 0 <= i < |names| && names[i] == targets[k];
    assert i == j >= k;
    assert args[k] in args && names[k] in AssignNames(targets, args, none);
    NotAssigned(targets, args, none, names[k]);
    var q :| 0 <= q < |targets| && targets[q] == names[k];
    var last := LastWins(targets, args, none, q);
    assert last == k;
  }

  /**
   For a tidy endpoint and arguments that are neither empty nor alike, `$` included: they are
   handed out by position if and only if none that meets a placeholder brings a name the
   endpoint does not have, and each goes to the placeholder of its place.
   */
  lemma {:induction false} PositionalIffInTurn(endpoint: string, args: seq<string>)
    requires Tidy(Split(endpoint, '.'), '.') && Distinct(Names(Split(endpoint, '.'))) && Telling(args)
    ensures var names := Names(Split(endpoint, '.'));
      Positional(endpoint, args) <==> InTurn(names, args) && !SomeForeign(names, args)
  {
    var names := Names(Split(endpoint, '.'));
    hide Positional, InTurn, Telling, Split, Names, Tidy, Distinct, BringsForeign;
    if Positional(endpoint, args) {
      PositionalIsInTurn(endpoint, args);
      if i :| 0 <= i < |args| && i < |names| && BringsForeign(names, args[i]) {
        ForeignSpoils(endpoint, args, i);
      }
    } else if InTurn(names, args) && !SomeForeign(names, args) {
      InTurnIsPositional(endpoint, args);
    }
  }
}
