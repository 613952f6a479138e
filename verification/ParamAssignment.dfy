/**
 How `newMethod` (v2/pkg/rids/method.go) hands its positional arguments to the `$name`
 segments of an endpoint: for each argument it looks for the first segment holding a `$`,
 records the argument under that name and replaces the segment in the text it keeps
 re-splitting.
 */
module ParamAssignment {
  import opened Basics
  import opened GoStrings
  import opened Segments
  import opened Blocks
  import opened Endpoints

  /** Index of the first part the loop accepts, or the number of parts. */
  function FirstParam(parts: seq<string>): (i: nat)
    ensures i <= |parts|
    ensures forall k | 0 <= k < i :: !LooksLikeParam(parts[k])
    ensures i < |parts| ==> LooksLikeParam(parts[i])
  {
    if parts == [] || LooksLikeParam(parts[0]) then 0 else 1 + FirstParam(parts[1..])
  }

  /** The first loop: the map and the text it leaves. */
  function AssignLoop(args: seq<string>, endpoint: string, m: map<string, string>): (map<string, string>, string) {
    if args == [] then (m, endpoint)
    else
      var parts := Split(endpoint, '.');
      var i := FirstParam(parts);
      if i == |parts| then AssignLoop(args[1..], endpoint, m)
      else AssignLoop(args[1..], ReplaceFirst(endpoint, parts[i], args[0]), m[parts[i][1..] := args[0]])
  }

  /** The second loop: names still without a value get the empty string. */
  function FillLoop(parts: seq<string>, m: map<string, string>): map<string, string> {
    if parts == [] then m
    else FillLoop(parts[1..], if '$' in parts[0] && parts[0][1..] !in m then m[parts[0][1..] := ""] else m)
  }

  function BuildParams(endpoint: string, args: seq<string>): map<string, string> {
    var (m, rest) := AssignLoop(args, endpoint, map[]);
    FillLoop(Split(rest, '.'), m)
  }

  /** One round of each loop. */
  lemma AssignLoopNext(args: seq<string>, a: nat, text: string, m: map<string, string>)
    requires a < |args|
    ensures var parts := Split(text, '.');
      var i := FirstParam(parts);
      AssignLoop(args[a..], text, m) ==
        if i == |parts| then AssignLoop(args[a + 1..], text, m)
        else AssignLoop(args[a + 1..], ReplaceFirst(text, parts[i], args[a]), m[parts[i][1..] := args[a]])
  {
    assert args[a..][1..] == args[a + 1..];
  }

  lemma AssignLoopDone(none: seq<string>)
    requires none == []
    ensures forall text, m :: AssignLoop(none, text, m) == (m, text)
  {
  }

  lemma FillLoopNext(parts: seq<string>, i: nat, m: map<string, string>)
    requires i < |parts|
    ensures FillLoop(parts[i..], m) ==
      if '$' in parts[i] && parts[i][1..] !in m then FillLoop(parts[i + 1..], m[parts[i][1..] := ""])
      else FillLoop(parts[i + 1..], m)
  {
    assert parts[i..][1..] == parts[i + 1..];
  }

  lemma FillLoopDone(none: seq<string>, m: map<string, string>)
    requires none == []
    ensures FillLoop(none, m) == m
  {
  }

  lemma FirstParamAt(parts: seq<string>, i: nat)
    requires i <= |parts| && forall k | 0 <= k < i :: !LooksLikeParam(parts[k])
    requires i < |parts| ==> LooksLikeParam(parts[i])
    ensures FirstParam(parts) == i
  {
    hide LooksLikeParam;
  }

  /** The placeholder names of an endpoint, in order. */
  function Names(parts: seq<string>): seq<string> {
    if parts == [] then []
    else if '$' in parts[0] then [parts[0][1..]] + Names(parts[1..])
    else Names(parts[1..])
  }

  lemma {:induction false} NamesConcat(a: seq<string>, b: seq<string>)
    ensures Names(a + b) == Names(a) + Names(b)
  {
    if a == [] {
      assert a + b == b;
    } else {
      assert (a + b)[1..] == a[1..] + b;
      NamesConcat(a[1..], b);
    }
  }

  lemma {:induction false} NamesOfPlain(parts: seq<string>)
    requires forall s | s in parts :: '$' !in s
    ensures Names(parts) == []
  {
    if parts != [] {
      NamesOfPlain(parts[1..]);
    }
  }

  lemma {:induction false} NamesContain(parts: seq<string>, name: string)
    ensures name in Names(parts) <==> exists part :: part in parts && '$' in part && part[1..] == name
  {
    if parts != [] {
      NamesContain(parts[1..], name);
    }
  }

  /** Splitting a part in place does not change the joined text. */
  lemma {:induction false} JoinFlatten(a: seq<string>, inner: seq<string>, b: seq<string>, sep: char)
    requires |inner| >= 1
    ensures Join(a + [Join(inner, sep)] + b, sep) == Join(a + inner + b, sep)
  {
    var whole, flat := a + [Join(inner, sep)] + b, a + inner + b;
    if a == [] {
      if b == [] {
        assert whole == [Join(inner, sep)] && flat == inner;
      } else {
        assert whole == [Join(inner, sep)] + b && flat == inner + b;
        JoinConcat(inner, b, sep);
        JoinConcat([Join(inner, sep)], b, sep);
      }
    } else {
      assert whole[1..] == a[1..] + [Join(inner, sep)] + b;
      assert flat[1..] == a[1..] + inner + b;
      JoinFlatten(a[1..], inner, b, sep);
    }
  }

  /** A part the loop passes over does not contain the part it looks for. */
  lemma PassedOver(part: string, param: string)
    requires LooksLikeParam(param) && !LooksLikeParam(part)
    ensures !Contains(part, param)
  {
    if Contains(part, param) {
      ContainsChars(part, param, '$');
      ContainsIsShorter(part, param);
    }
  }

  /** Whatever the parts hold, the replacement hits exactly the part that was looked for. */
  lemma ReplaceHitsPart(parts: seq<string>, i: nat, arg: string)
    requires i < |parts| && LooksLikeParam(parts[i]) && '.' !in parts[i]
    requires forall k | 0 <= k < i :: !LooksLikeParam(parts[k])
    ensures ReplaceFirst(Join(parts, '.'), parts[i], arg) == Join(parts[i := arg], '.')
  {
    var param := parts[i];
    ReplaceOnBlocks(parts, param, arg);
    forall k | 0 <= k < i ensures !Contains(parts[k], param) {
      PassedOver(parts[k], param);
    }
    ContainsItself(param);
    assert param[|param|..] == "" && arg + "" == arg;
    hide Contains;
    assert FirstWith(parts, param) == i;
  }

  lemma UpdateAsConcat(parts: seq<string>, i: nat, s: string)
    requires i < |parts|
    ensures parts[i := s] == parts[..i] + [s] + parts[i + 1..]
  {
  }

  /** The parts after one round, for any text and any argument: the argument's own parts stand where the part stood. */
  lemma PartsAfterRound(endpoint: string, arg: string)
    requires FirstParam(Split(endpoint, '.')) < |Split(endpoint, '.')|
    ensures var parts := Split(endpoint, '.');
      var i := FirstParam(parts);
      Split(ReplaceFirst(endpoint, parts[i], arg), '.') == parts[..i] + Split(arg, '.') + parts[i + 1..]
  {
    var parts, inner := Split(endpoint, '.'), Split(arg, '.');
    var i := FirstParam(parts);
    assert parts[i] in parts;
    ReplaceHitsPart(parts, i, arg);
    UpdateAsConcat(parts, i, arg);
    JoinFlatten(parts[..i], inner, parts[i + 1..], '.');
    var next := parts[..i] + inner + parts[i + 1..];
    forall s | s in next ensures '.' !in s {
      assert s in parts || s in inner;
    }
    SplitOfJoin(next, '.');
  }

  /** In a tidy text what stands before the first placeholder is plain. */
  lemma BeforeFirstParam(parts: seq<string>)
    requires Tidy(parts, '.') && FirstParam(parts) < |parts|
    ensures IsParam(parts[FirstParam(parts)], '.')
    ensures forall s | s in parts[..FirstParam(parts)] :: '$' !in s
  {
    var i := FirstParam(parts);
    assert parts[i] in parts && TidySegment(parts[i], '.');
    forall s | s in parts[..i] ensures '$' !in s {
      assert s in parts && TidySegment(s, '.');
    }
  }

  lemma NamesOfReplaced(a: seq<string>, inner: seq<string>, b: seq<string>)
    requires forall s | s in a :: '$' !in s
    requires forall s | s in inner :: '$' !in s
    requires Tidy(b, '.')
    ensures Tidy(a + inner + b, '.') && Names(a + inner + b) == Names(b)
  {
    NamesConcat(a + inner, b);
    NamesOfPlain(a + inner);
  }

  /** One round with a `$`-free argument consumes exactly the first placeholder, whatever dots it holds. */
  lemma ConsumeFirst(endpoint: string, arg: string)
    requires Tidy(Split(endpoint, '.'), '.') && '$' !in arg
    requires FirstParam(Split(endpoint, '.')) < |Split(endpoint, '.')|
    ensures var parts := Split(endpoint, '.');
      var next := Split(ReplaceFirst(endpoint, parts[FirstParam(parts)], arg), '.');
      && Tidy(next, '.')
      && Names(parts) == [parts[FirstParam(parts)][1..]] + Names(next)
  {
    var parts := Split(endpoint, '.');
    var i := FirstParam(parts);
    PartsAfterRound(endpoint, arg);
    BeforeFirstParam(parts);
    forall s | s in Split(arg, '.') ensures '$' !in s {
      PartChars(arg, '.', s);
    }
    assert forall s | s in parts[i + 1..] :: s in parts;
    NamesOfReplaced(parts[..i], Split(arg, '.'), parts[i + 1..]);
    NamesFromFirst(parts, i);
  }

  lemma {:induction false} NamesFromFirst(parts: seq<string>, i: nat)
    requires i < |parts| && '$' in parts[i]
    requires forall s | s in parts[..i] :: '$' !in s
    ensures Names(parts) == [parts[i][1..]] + Names(parts[i + 1..])
  {
    if i > 0 {
      assert parts[0] in parts[..i];
      assert parts[1..][..i - 1] == parts[..i][1..];
      assert parts[1..][i..] == parts[i + 1..];
      NamesFromFirst(parts[1..], i - 1);
    }
  }

  lemma {:induction false} PartChars(s: string, sep: char, part: string)
    requires part in Split(s, sep)
    ensures forall c | c in part :: c in s
  {
    if s != "" {
      var rest := Split(s[1..], sep);
      if part in rest {
        PartChars(s[1..], sep, part);
      } else if s[0] != sep {
        PartChars(s[1..], sep, rest[0]);
      }
    }
  }

  /** No placeholder left means no name left. */
  lemma {:induction false} NoParamNoNames(parts: seq<string>)
    requires Tidy(parts, '.') && FirstParam(parts) == |parts|
    ensures Names(parts) == []
  {
    forall s | s in parts ensures '$' !in s {
      var k :| 0 <= k < |parts| && s == parts[k];
      assert TidySegment(s, '.');
    }
    NamesOfPlain(parts);
  }

  /** The first loop on names alone. */
  function AssignNames(names: seq<string>, args: seq<string>, m: map<string, string>): map<string, string> {
    if names == [] || args == [] then m
    else AssignNames(names[1..], args[1..], m[names[0] := args[0]])
  }

  function Unassigned(names: seq<string>, args: seq<string>): seq<string> {
    if |args| <= |names| then names[|args|..] else []
  }

  /** Arguments for which no placeholder is left change nothing. */
  lemma {:induction false} NothingLeft(args: seq<string>, endpoint: string, m: map<string, string>)
    requires FirstParam(Split(endpoint, '.')) == |Split(endpoint, '.')|
    ensures AssignLoop(args, endpoint, m) == (m, endpoint)
  {
    if args != [] {
      NothingLeft(args[1..], endpoint, m);
    }
  }

  /** The arguments that find a placeholder of the endpoint's own hold no `$`. */
  ghost predicate PlainArguments(names: seq<string>, args: seq<string>) {
    forall i | 0 <= i < |args| && i < |names| :: '$' !in args[i]
  }

  /** The first loop pairs arguments with names in order and leaves the other names in the text. */
  lemma {:induction false} AssignLoopPairs(args: seq<string>, endpoint: string, m: map<string, string>)
    requires Tidy(Split(endpoint, '.'), '.')
    requires PlainArguments(Names(Split(endpoint, '.')), args)
    ensures AssignLoop(args, endpoint, m).0 == AssignNames(Names(Split(endpoint, '.')), args, m)
    ensures Names(Split(AssignLoop(args, endpoint, m).1, '.')) == Unassigned(Names(Split(endpoint, '.')), args)
  {
    var parts := Split(endpoint, '.');
    var names := Names(parts);
    if args == [] {
      assert Unassigned(names, args) == names;
    } else if FirstParam(parts) == |parts| {
      NoParamNoNames(parts);
      NothingLeft(args, endpoint, m);
    } else {
      var i := FirstParam(parts);
      NamesContain(parts, parts[i][1..]);
      ConsumeFirst(endpoint, args[0]);
      var next := ReplaceFirst(endpoint, parts[i], args[0]);
      var rest := Names(Split(next, '.'));
      hide Split, Names, FirstParam, LooksLikeParam;
      assert names[1..] == rest;
      PlainTail(names, args);
      AssignLoopPairs(args[1..], next, m[parts[i][1..] := args[0]]);
      assert Unassigned(rest, args[1..]) == Unassigned(names, args);
    }
  }

  lemma PlainTail(names: seq<string>, args: seq<string>)
    requires names != [] && args != [] && PlainArguments(names, args)
    ensures PlainArguments(names[1..], args[1..])
  {
    assert forall i | 0 <= i < |args[1..]| && i < |names[1..]| :: args[1..][i] == args[i + 1];
  }

  lemma {:induction false} AssignNamesMeaning(names: seq<string>, args: seq<string>, m: map<string, string>)
    requires Distinct(names)
    ensures var r := AssignNames(names, args, m);
      && (forall k | 0 <= k < |names| && k < |args| :: names[k] in r && r[names[k]] == args[k])
      && (forall n | n in m && n !in names :: n in r && r[n] == m[n])
      && (forall n | n in r :: n in m || n in names)
      && (forall k | |args| <= k < |names| && names[k] !in m :: names[k] !in r)
  {
    if names != [] && args != [] {
      var m' := m[names[0] := args[0]];
      var rest := names[1..];
      assert forall k | 0 <= k < |rest| :: rest[k] == names[k + 1] && names[0] != names[k + 1];
      AssignNamesMeaning(rest, args[1..], m');
      var r := AssignNames(names, args, m);
      forall k | 0 <= k < |names| && k < |args| ensures names[k] in r && r[names[k]] == args[k] {
        if k > 0 {
          assert names[k] == rest[k - 1] && args[k] == args[1..][k - 1];
        } else {
          assert names[0] !in rest && names[0] in m';
        }
      }
      forall k | |args| <= k < |names| && names[k] !in m ensures names[k] !in r {
        assert names[k] == rest[k - 1];
      }
    }
  }

  lemma {:induction false} FillLoopMeaning(parts: seq<string>, m: map<string, string>)
    ensures forall n | n in FillLoop(parts, m) :: n in m || n in Names(parts)
    ensures forall n | n in m || n in Names(parts) ::
      n in FillLoop(parts, m) && FillLoop(parts, m)[n] == if n in m then m[n] else ""
  {
    if parts != [] {
      var name := parts[0][if |parts[0]| > 0 then 1 else 0..];
      var m' := if '$' in parts[0] && name !in m then m[name := ""] else m;
      FillLoopMeaning(parts[1..], m');
      assert FillLoop(parts, m) == FillLoop(parts[1..], m');
      assert forall n :: n in Names(parts) <==> (n in Names(parts[1..]) || ('$' in parts[0] && n == name));
    }
  }

  /** Every placeholder has its own argument, or the empty string when there is none, and nothing else is recorded. */
  ghost predicate Positional(endpoint: string, args: seq<string>) {
    var names := Names(Split(endpoint, '.'));
    && BuildParams(endpoint, args).Keys == (set n | n in names)
    && forall k | 0 <= k < |names| :: BuildParams(endpoint, args)[names[k]] == if k < |args| then args[k] else ""
  }

  /**
   `newMethod` gives the i-th argument to the i-th placeholder, the empty string to the
   placeholders without one, and records nothing else: for any number of arguments, dots
   included, and distinct placeholder names.  Arguments beyond the last placeholder may hold
   anything, the others no `$`.
   */
  lemma {:induction false} ArgumentsArePositional(endpoint: string, args: seq<string>)
    requires Tidy(Split(endpoint, '.'), '.')
    requires Distinct(Names(Split(endpoint, '.')))
    requires PlainArguments(Names(Split(endpoint, '.')), args)
    ensures Positional(endpoint, args)
  {
    var names := Names(Split(endpoint, '.'));
    var (m, rest) := AssignLoop(args, endpoint, map[]);
    AssignLoopPairs(args, endpoint, map[]);
    FillLoopMeaning(Split(rest, '.'), m);
    PairsAreComplete(names, args);
    hide AssignLoop, FillLoop, AssignNames, Names, Split;
  }

  /** Every name is either paired with an argument or left over. */
  lemma PairsAreComplete(names: seq<string>, args: seq<string>)
    requires Distinct(names)
    ensures var m := AssignNames(names, args, map[]);
      && (forall n :: n in names <==> n in m || n in Unassigned(names, args))
      && forall k | 0 <= k < |names| :: if k < |args| then names[k] in m && m[names[k]] == args[k] else names[k] !in m
  {
    AssignNamesMeaning(names, args, map[]);
    forall n | n in names ensures n in AssignNames(names, args, map[]) || n in Unassigned(names, args) {
      var k :| 0 <= k < |names| && n == names[k];
      if k >= |args| {
        assert n == Unassigned(names, args)[k - |args|];
      }
    }
  }

  // ---- arguments that hold a `$` ----

  /** The argument brings a name the endpoint does not have. */
  ghost predicate BringsForeign(names: seq<string>, arg: string) {
    exists part :: ForeignPart(names, arg, part)
  }

  predicate ForeignPart(names: seq<string>, arg: string, part: string) {
    part in Split(arg, '.') && '$' in part && part[1..] !in names
  }

  /** The name is recorded, or still stands in the text. */
  ghost predicate Pending(name: string, text: string, m: map<string, string>) {
    name in m || name in Names(Split(text, '.'))
  }

  lemma SplicedMembers(parts: seq<string>, i: nat, inner: seq<string>, part: string)
    requires i < |parts|
    ensures part in parts <==> part == parts[i] || part in parts[..i] || part in parts[i + 1..]
    ensures part in parts[..i] + inner + parts[i + 1..] <==>
      part in parts[..i] || part in inner || part in parts[i + 1..]
  {
    assert parts == parts[..i] + [parts[i]] + parts[i + 1..];
  }

  /** A round loses no name: the part it takes out is recorded under its own. */
  lemma RoundKeepsPending(name: string, text: string, m: map<string, string>, arg: string)
    requires FirstParam(Split(text, '.')) < |Split(text, '.')| && Pending(name, text, m)
    ensures var part := Split(text, '.')[FirstParam(Split(text, '.'))];
      Pending(name, ReplaceFirst(text, part, arg), m[part[1..] := arg])
  {
    hide Split, Names, FirstParam, ReplaceFirst;
    var parts := Split(text, '.');
    var i := FirstParam(parts);
    PartsAfterRound(text, arg);
    NamesContain(parts, name);
    var next := parts[..i] + Split(arg, '.') + parts[i + 1..];
    NamesContain(next, name);
    if name !in m && name != parts[i][1..] {
      var part :| part in parts && '$' in part && part[1..] == name;
      SplicedMembers(parts, i, Split(arg, '.'), part);
    }
  }

  lemma {:induction false} LoopKeepsPending(name: string, args: seq<string>, text: string, m: map<string, string>)
    requires Pending(name, text, m)
    ensures Pending(name, AssignLoop(args, text, m).1, AssignLoop(args, text, m).0)
  {
    if args != [] {
      var parts := Split(text, '.');
      var i := FirstParam(parts);
      if i == |parts| {
        LoopKeepsPending(name, args[1..], text, m);
      } else {
        RoundKeepsPending(name, text, m, args[0]);
        hide Split, Names, LooksLikeParam, ReplaceFirst;
        LoopKeepsPending(name, args[1..], ReplaceFirst(text, parts[i], args[0]), m[parts[i][1..] := args[0]]);
      }
    }
  }

  // ---- the loop as a stack of names ----

  /** The names of the parts that can take an argument, in order. */
  function TakerNames(parts: seq<string>): seq<string> {
    if parts == [] then [] else TakerName(parts[0]) + TakerNames(parts[1..])
  }

  function TakerName(part: string): seq<string> {
    if LooksLikeParam(part) then [part[1..]] else []
  }

  lemma {:induction false} TakerNamesConcat(a: seq<string>, b: seq<string>)
    ensures TakerNames(a + b) == TakerNames(a) + TakerNames(b)
  {
    hide TakerName;
    if a == [] {
      assert a + b == b;
    } else {
      assert (a + b)[1..] == a[1..] + b;
      TakerNamesConcat(a[1..], b);
      Regroup(TakerName(a[0]), TakerNames(a[1..]), TakerNames(b));
    }
  }

  lemma {:induction false} NoTakerNames(parts: seq<string>)
    requires forall s | s in parts :: !LooksLikeParam(s)
    ensures TakerNames(parts) == []
  {
    if parts != [] {
      NoTakerNames(parts[1..]);
    }
  }

  lemma OneTakerName(part: string)
    requires LooksLikeParam(part)
    ensures TakerNames([part]) == [part[1..]]
  {
    assert [part][1..] == [];
  }

  lemma NoTakersBefore(parts: seq<string>)
    ensures forall s | s in parts[..FirstParam(parts)] :: !LooksLikeParam(s)
  {
    hide LooksLikeParam;
    forall s | s in parts[..FirstParam(parts)] ensures !LooksLikeParam(s) {
      var k :| 0 <= k < FirstParam(parts) && parts[k] == s;
    }
  }

  lemma TakerNamesAround(before: seq<string>, inner: seq<string>, after: seq<string>)
    requires forall s | s in before :: !LooksLikeParam(s)
    ensures TakerNames(before + inner + after) == TakerNames(inner) + TakerNames(after)
  {
    hide TakerNames, LooksLikeParam;
    NoTakerNames(before);
    TakerNamesConcat(before + inner, after);
    TakerNamesConcat(before, inner);
  }

  lemma ReplacedTakerNames(parts: seq<string>, i: nat, inner: seq<string>)
    requires i == FirstParam(parts) < |parts|
    ensures TakerNames(parts) == [parts[i][1..]] + TakerNames(parts[i + 1..])
    ensures TakerNames(parts[..i] + inner + parts[i + 1..]) == TakerNames(inner) + TakerNames(parts[i + 1..])
  {
    hide TakerNames, FirstParam, LooksLikeParam;
    var before, after := parts[..i], parts[i + 1..];
    NoTakersBefore(parts);
    OneTakerName(parts[i]);
    TakerNamesAround(before, [parts[i]], after);
    TakerNamesAround(before, inner, after);
    assert parts == before + [parts[i]] + after;
  }

  /** A round pops one name and pushes those of the argument. */
  lemma RoundOnNames(text: string, arg: string)
    requires FirstParam(Split(text, '.')) < |Split(text, '.')|
    ensures var parts := Split(text, '.');
      var part, names := parts[FirstParam(parts)], TakerNames(parts);
      && names != [] && names[0] == part[1..]
      && TakerNames(Split(ReplaceFirst(text, part, arg), '.')) == TakerNames(Split(arg, '.')) + names[1..]
  {
    var parts := Split(text, '.');
    hide Split, TakerNames, LooksLikeParam, FirstParam, ReplaceFirst;
    PartsAfterRound(text, arg);
    ReplacedTakerNames(parts, FirstParam(parts), Split(arg, '.'));
  }
  /** Each argument goes to the name on top, and leaves its own names in that one's place. */
  function StackRun(stack: seq<string>, args: seq<string>, m: map<string, string>): (map<string, string>, seq<string>)
    decreases |args|
  {
    if stack == [] || args == [] then (m, stack)
    else StackRun(TakerNames(Split(args[0], '.')) + stack[1..], args[1..], m[stack[0] := args[0]])
  }

  /** For any text and any arguments, the loop is the stack machine. */
  lemma {:induction false} LoopIsStack(args: seq<string>, text: string, m: map<string, string>)
    ensures var (filled, rest) := AssignLoop(args, text, m);
      (filled, TakerNames(Split(rest, '.'))) == StackRun(TakerNames(Split(text, '.')), args, m)
  {
    var parts := Split(text, '.');
    var i := FirstParam(parts);
    if args == [] {
    } else if i == |parts| {
      assert forall s | s in parts :: !LooksLikeParam(s);
      NoTakerNames(parts);
      NothingLeft(args, text, m);
    } else {
      RoundOnNames(text, args[0]);
      hide Split, TakerNames, LooksLikeParam, ReplaceFirst, FirstParam;
      LoopIsStack(args[1..], ReplaceFirst(text, parts[i], args[0]), m[parts[i][1..] := args[0]]);
    }
  }

  /** How many of the arguments find a name on the stack. */
  function Consumed(stack: seq<string>, args: seq<string>): (n: nat)
    ensures n <= |args|
    decreases |args|
  {
    if stack == [] || args == [] then 0
    else 1 + Consumed(TakerNames(Split(args[0], '.')) + stack[1..], args[1..])
  }

  /** A part that is a bare `$` can take no argument, but is recorded under the empty name. */
  predicate HasBareMark(text: string) {
    "$" in Split(text, '.')
  }

  lemma BareOrTaker(part: string)
    ensures '$' in part <==> LooksLikeParam(part) || part == "$"
    ensures LooksLikeParam(part) ==> part[1..] != ""
    ensures part == "$" ==> part[1..] == "" && !LooksLikeParam(part)
  {
    if |part| == 1 {
      assert part == [part[0]];
    }
    assert '$' in "$";
  }

  lemma {:induction false} NamesAreTakers(parts: seq<string>)
    ensures forall n :: n in Names(parts) <==> n in TakerNames(parts) || (n == "" && "$" in parts)
    ensures "" !in TakerNames(parts)
    ensures "$" !in parts ==> Names(parts) == TakerNames(parts)
  {
    if parts != [] {
      BareOrTaker(parts[0]);
      hide LooksLikeParam;
      NamesAreTakers(parts[1..]);
    }
  }

  lemma RoundKeepsBare(text: string, arg: string)
    requires FirstParam(Split(text, '.')) < |Split(text, '.')|
    ensures HasBareMark(ReplaceFirst(text, Split(text, '.')[FirstParam(Split(text, '.'))], arg))
      <==> HasBareMark(text) || HasBareMark(arg)
  {
    var parts := Split(text, '.');
    var i := FirstParam(parts);
    PartsAfterRound(text, arg);
    assert parts[i] != "$";
    SplicedMembers(parts, i, Split(arg, '.'), "$");
    hide Split, LooksLikeParam, ReplaceFirst, FirstParam;
  }

  /** A bare `$` in the endpoint or in an argument that is consumed stays to the end. */
  lemma {:induction false} LoopKeepsBare(args: seq<string>, text: string, m: map<string, string>)
    ensures HasBareMark(AssignLoop(args, text, m).1) <==>
      (HasBareMark(text)
       || exists k :: 0 <= k < Consumed(TakerNames(Split(text, '.')), args) && HasBareMark(args[k]))
  {
    var parts := Split(text, '.');
    var i := FirstParam(parts);
    if args == [] {
    } else if i == |parts| {
      NoTakers(parts);
      NothingLeft(args, text, m);
    } else {
      var next, rest := ReplaceFirst(text, parts[i], args[0]), args[1..];
      RoundOnNames(text, args[0]);
      RoundKeepsBare(text, args[0]);
      hide Split, TakerNames, LooksLikeParam, ReplaceFirst, FirstParam, HasBareMark;
      LoopKeepsBare(rest, next, m[parts[i][1..] := args[0]]);
      FirstOrLater(args, Consumed(TakerNames(Split(next, '.')), rest));
    }
  }

  lemma FirstOrLater(args: seq<string>, n: nat)
    requires n < |args|
    ensures (exists k :: 0 <= k < n + 1 && HasBareMark(args[k])) <==>
      (HasBareMark(args[0]) || exists k :: 0 <= k < n && HasBareMark(args[1..][k]))
  {
    hide HasBareMark;
    var rest := args[1..];
    assert forall k | 0 <= k < n :: rest[k] == args[k + 1];
    assert forall k | 1 <= k < n + 1 :: args[k] == rest[k - 1];
  }

  /**
   `newMethod` for any endpoint and any arguments: what the stack machine assigns, the empty
   string for the names it leaves on the stack, and the empty name if a bare `$` is left.
   */
  lemma {:induction false} BuildIsStack(endpoint: string, args: seq<string>)
    ensures var (m, left) := StackRun(TakerNames(Split(endpoint, '.')), args, map[]);
      var bare := HasBareMark(endpoint)
        || exists k :: 0 <= k < Consumed(TakerNames(Split(endpoint, '.')), args) && HasBareMark(args[k]);
      && (forall n :: n in BuildParams(endpoint, args) <==> n in m || n in left || (n == "" && bare))
      && forall n | n in BuildParams(endpoint, args) :: BuildParams(endpoint, args)[n] == if n in m then m[n] else ""
  {
    var (m, rest) := AssignLoop(args, endpoint, map[]);
    LoopIsStack(args, endpoint, map[]);
    LoopKeepsBare(args, endpoint, map[]);
    NamesAreTakers(Split(rest, '.'));
    FillLoopMeaning(Split(rest, '.'), m);
    hide AssignLoop, FillLoop, Names, TakerNames, Split, StackRun, Consumed;
  }

  lemma {:induction false} NoTakers(parts: seq<string>)
    requires FirstParam(parts) == |parts|
    ensures TakerNames(parts) == []
  {
    assert forall s | s in parts :: !LooksLikeParam(s);
    NoTakerNames(parts);
  }

  /** In a tidy text every name can take an argument. */
  lemma {:induction false} NamesTake(parts: seq<string>)
    requires Tidy(parts, '.')
    ensures TakerNames(parts) == Names(parts)
  {
    assert !TidySegment("$", '.') by { assert '$' in "$"; }
    NamesAreTakers(parts);
  }

  /** A name an argument brings into the text is never lost again. */
  lemma {:induction false} BroughtNameStays(args: seq<string>, text: string, m: map<string, string>, i: nat,
                                            part: string)
    requires i < |args| && i < |TakerNames(Split(text, '.'))|
    requires part in Split(args[i], '.') && '$' in part
    ensures Pending(part[1..], AssignLoop(args, text, m).1, AssignLoop(args, text, m).0)
  {
    hide Split, TakerNames, Names, ReplaceFirst, FirstParam, Pending;
    var parts := Split(text, '.');
    var first := FirstParam(parts);
    if first == |parts| {
      NoTakers(parts);
    } else {
      var next := ReplaceFirst(text, parts[first], args[0]);
      var m' := m[parts[first][1..] := args[0]];
      if i == 0 {
        BroughtAtOnce(text, args[0], part, m');
        LoopKeepsPending(part[1..], args[1..], next, m');
      } else {
        RoundOnNames(text, args[0]);
        BroughtNameStays(args[1..], next, m', i - 1, part);
      }
    }
  }

  lemma BroughtAtOnce(text: string, arg: string, part: string, m: map<string, string>)
    requires FirstParam(Split(text, '.')) < |Split(text, '.')| && part in Split(arg, '.') && '$' in part
    ensures Pending(part[1..], ReplaceFirst(text, Split(text, '.')[FirstParam(Split(text, '.'))], arg), m)
  {
    var parts := Split(text, '.');
    var i := FirstParam(parts);
    PartsAfterRound(text, arg);
    var next := parts[..i] + Split(arg, '.') + parts[i + 1..];
    assert part in next;
    NamesContain(next, part[1..]);
  }

  /** One argument that meets a placeholder and brings a foreign name spoils the assignment, whatever the others are. */
  lemma {:induction false} ForeignSpoils(endpoint: string, args: seq<string>, i: nat)
    requires Tidy(Split(endpoint, '.'), '.')
    requires i < |args| && i < |Names(Split(endpoint, '.'))|
    requires BringsForeign(Names(Split(endpoint, '.')), args[i])
    ensures !Positional(endpoint, args)
  {
    var names := Names(Split(endpoint, '.'));
    var part :| ForeignPart(names, args[i], part);
    NamesTake(Split(endpoint, '.'));
    BroughtNameStays(args, endpoint, map[], i, part);
    var (m, rest) := AssignLoop(args, endpoint, map[]);
    FillLoopMeaning(Split(rest, '.'), m);
    hide AssignLoop, FillLoop, Names, Split;
    assert part[1..] in BuildParams(endpoint, args);
  }

  /** Among the arguments that meet a placeholder, one brings a foreign name. */
  ghost predicate SomeForeign(names: seq<string>, args: seq<string>) {
    exists i :: 0 <= i < |args| && i < |names| && BringsForeign(names, args[i])
  }

  /**
   Exactly when the assignment is positional: unless the only `$` in the arguments that meet
   placeholders spell placeholders of this very endpoint, it is positional if and only if
   those arguments hold no `$` at all.
   */
  lemma {:induction false} PositionalIff(endpoint: string, args: seq<string>)
    requires Tidy(Split(endpoint, '.'), '.') && Distinct(Names(Split(endpoint, '.')))
    requires var names := Names(Split(endpoint, '.'));
      PlainArguments(names, args) || SomeForeign(names, args)
    ensures Positional(endpoint, args) <==> PlainArguments(Names(Split(endpoint, '.')), args)
    ensures Positional(endpoint, args) <==> !SomeForeign(Names(Split(endpoint, '.')), args)
  {
    var names := Names(Split(endpoint, '.'));
    if PlainArguments(names, args) {
      ArgumentsArePositional(endpoint, args);
    }
    if SomeForeign(names, args) {
      var i :| 0 <= i < |args| && i < |names| && BringsForeign(names, args[i]);
      ForeignSpoils(endpoint, args, i);
    }
  }

  lemma MarkLeads(part: string)
    requires '$' in part && '$' !in part[1..]
    ensures part[0] == '$'
  {
    assert part == [part[0]] + part[1..];
  }

  /** In a tidy endpoint only its own placeholders are `$` parts that bring nothing foreign. */
  lemma OwnOrForeign(parts: seq<string>, arg: string, part: string)
    requires Tidy(parts, '.') && part in Split(arg, '.') && '$' in part
    ensures BringsForeign(Names(parts), arg) || part in parts
  {
    if part[1..] in Names(parts) {
      NamesContain(parts, part[1..]);
      var own :| own in parts && '$' in own && own[1..] == part[1..];
      assert TidySegment(own, '.');
      MarkLeads(part);
      assert own == ['$'] + own[1..] && part == ['$'] + part[1..];
    } else {
      assert ForeignPart(Names(parts), arg, part);
    }
  }

  lemma PositionalPair(endpoint: string, x: string, y: string, a: string, b: string)
    requires Names(Split(endpoint, '.')) == [a, b]
    ensures var built := BuildParams(endpoint, [x, y]);
      Positional(endpoint, [x, y]) <==>
        (forall n :: n in built <==> n == a || n == b) && built[a] == x && built[b] == y
  {
    hide BuildParams, Names, Split;
    var built, names := BuildParams(endpoint, [x, y]), [a, b];
    assert names[0] == a && names[1] == b;
    assert forall n :: n in names <==> n == a || n == b;
    if forall n :: n in built <==> n == a || n == b {
      assert built.Keys == (set n | n in names);
    }
  }

  /** The remaining arguments can go either way: on the path `a.b`, `b`'s own placeholder and `y` are positional ... */
  lemma LaterPlaceholderIsPositional(a: string, b: string, y: string)
    requires IsParam(a, '.') && IsParam(b, '.') && a != b && '$' !in y
    ensures Positional(a + "." + b, [b, y])
  {
    OwnPair(a, b);
    BuildIsStackOnPair(a, b, b, y);
    TwoRounds(a[1..], b[1..], b, b[1..], y);
    hide StackRun, BuildParams, Split, Names, TakerNames, IsParam, Positional;
    PositionalPair(a + "." + b, b, y, a[1..], b[1..]);
  }

  /** ... `a`'s own and `y` never are. */
  lemma OwnPlaceholderIsNot(a: string, b: string, y: string)
    requires IsParam(a, '.') && IsParam(b, '.') && a != b && '$' !in y
    ensures !Positional(a + "." + b, [a, y])
  {
    OwnPair(a, b);
    BuildIsStackOnPair(a, b, a, y);
    TwoRounds(a[1..], b[1..], a, a[1..], y);
    assert a[0] in a;
    hide StackRun, BuildParams, Split;
    var names := Names(Split(a + "." + b, '.'));
    assert names[0] == a[1..] && BuildParams(a + "." + b, [a, y])[a[1..]] == y != a;
  }

  lemma TwoRounds(a: string, b: string, x: string, top: string, y: string)
    requires TakerNames(Split(x, '.')) == [top] && '$' !in y
    ensures StackRun([a, b], [x, y], map[]) == (map[a := x][top := y], [b])
  {
    PlainHasNoTakers(y);
    hide TakerNames, Split;
    var m0: map<string, string> := map[];
    OneRound(a, [b], x, [y], m0);
    assert [top] + [b] == [top, b] == [top] + [b];
    OneRound(top, [b], y, [], m0[a := x]);
    assert [] + [b] == [b];
  }

  lemma OneRound(top: string, rest: seq<string>, arg: string, more: seq<string>, m: map<string, string>)
    ensures StackRun([top] + rest, [arg] + more, m)
      == StackRun(TakerNames(Split(arg, '.')) + rest, more, m[top := arg])
  {
    hide TakerNames, Split;
    assert ([top] + rest)[1..] == rest && ([arg] + more)[1..] == more;
  }

  lemma OwnPair(a: string, b: string)
    requires IsParam(a, '.') && IsParam(b, '.') && a != b
    ensures Split(a + "." + b, '.') == [a, b] && Split(a, '.') == [a] && Split(b, '.') == [b]
    ensures Names([a, b]) == TakerNames([a, b]) == [a[1..], b[1..]]
    ensures TakerNames([a]) == [a[1..]] && TakerNames([b]) == [b[1..]]
    ensures a[1..] != b[1..]
  {
    SplitPair(a, b);
    SplitOfJoin([a], '.');
    SplitOfJoin([b], '.');
    hide Split;
    assert a[0] in a && b[0] in b;
    OneTakerName(a);
    OneTakerName(b);
    TakerNamesConcat([a], [b]);
    hide TakerNames;
    assert [a, b] == [a] + [b] && [a[1..], b[1..]] == [a[1..]] + [b[1..]];
    NamesPair(a, b);
    assert a == ['$'] + a[1..] && b == ['$'] + b[1..];
  }

  lemma NamesPair(a: string, b: string)
    requires '$' in a && '$' in b
    ensures Names([a, b]) == [a[1..], b[1..]]
  {
    assert [a, b][1..] == [b] && [b][1..] == [];
    assert Names([b]) == [b[1..]];
  }

  lemma PlainHasNoTakers(y: string)
    requires '$' !in y
    ensures TakerNames(Split(y, '.')) == [] && !HasBareMark(y)
  {
    forall s | s in Split(y, '.') ensures '$' !in s {
      PartChars(y, '.', s);
    }
    NoTakerNames(Split(y, '.'));
    assert '$' in "$";
  }

  lemma BuildIsStackOnPair(a: string, b: string, x: string, y: string)
    requires IsParam(a, '.') && IsParam(b, '.') && a != b && '$' !in y && (x == a || x == b)
    ensures var (m, left) := StackRun([a[1..], b[1..]], [x, y], map[]);
      var built := BuildParams(a + "." + b, [x, y]);
      && (forall n :: n in built <==> n in m || n in left)
      && forall n | n in built :: built[n] == if n in m then m[n] else ""
  {
    OwnPair(a, b);
    PlainHasNoTakers(y);
    BuildIsStack(a + "." + b, [x, y]);
    hide Consumed, StackRun, BuildParams, Split, TakerNames;
  }

  lemma AssignRound(args: seq<string>, a: string, b: string, m: map<string, string>)
    requires args != [] && IsParam(a, '.') && '.' !in b
    ensures AssignLoop(args, a + "." + b, m) == AssignLoop(args[1..], args[0] + "." + b, m[a[1..] := args[0]])
  {
    SplitPair(a, b);
    assert FirstParam([a, b]) == 0;
    var rest := "." + b;
    assert a + "." + b == a + rest && args[0] + "." + b == args[0] + rest;
    assert (a + rest)[|a|..] == rest;
  }

  /** The condition matters: an argument that looks like a placeholder takes the next argument itself. */
  lemma DollarArgumentIsReassigned(a: string, b: string, x: string, y: string)
    requires IsParam(a, '.') && IsParam(b, '.') && IsParam(x, '.') && '$' !in y && '.' !in y
    requires b != a && b != x
    ensures BuildParams(a + "." + b, [x, y]) == map[a[1..] := x][x[1..] := y][b[1..] := ""]
  {
    var args, m1 := [x, y], map[a[1..] := x];
    var m := m1[x[1..] := y];
    AssignRound(args, a, b, map[]);
    assert args[1..] == [y];
    AssignRound([y], x, b, m1);
    SplitPair(y, b);
    assert AssignLoop(args, a + "." + b, map[]) == AssignLoop([y], x + "." + b, m1) == AssignLoop([], y + "." + b, m);
    assert b == ['$'] + b[1..] && a == ['$'] + a[1..] && x == ['$'] + x[1..];
    FillPair(y, b, m);
  }

  lemma FillPair(y: string, b: string, m: map<string, string>)
    requires '$' !in y && IsParam(b, '.') && b[1..] !in m
    ensures FillLoop([y, b], m) == m[b[1..] := ""]
  {
    assert [y, b][1..] == [b] && [b][1..] == [];
    assert b[0] in b;
    assert FillLoop([y, b], m) == FillLoop([b], m) == FillLoop([], m[b[1..] := ""]);
  }

  lemma SplitPair(a: string, b: string)
    requires '.' !in a && '.' !in b
    ensures Split(a + "." + b, '.') == [a, b]
  {
    assert Join([a, b], '.') == a + "." + b by { assert [a, b][1..] == [b]; }
    SplitOfJoin([a, b], '.');
  }
}
