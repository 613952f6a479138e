/**
 When the replace-first loop of `EndpointNameSpecific` (v2/pkg/rids/pattern.go) prints what it
 is meant to print, for any endpoint and any values: values come from clients, and a value
 that spells a placeholder is replaced in its turn.
 */
module Instantiation {
  import opened Basics
  import opened GoStrings
  import opened Segments
  import opened Blocks
  import opened Endpoints

  // ---- the loop on blocks ----

  function BlockStep(cur: seq<string>, part: string, params: map<string, string>): (r: seq<string>)
    ensures |r| == |cur|
  {
    if Applies(part, params) then ReplaceBlock(cur, part, params[part[1..]]) else cur
  }

  function BlockLoop(parts: seq<string>, params: map<string, string>, cur: seq<string>): (r: seq<string>)
    ensures |r| == |cur|
  {
    if parts == [] then cur else BlockLoop(parts[1..], params, BlockStep(cur, parts[0], params))
  }

  /** The loop on the text is the loop on the blocks, whatever the values are. */
  lemma {:induction false} LoopOnBlocks(parts: seq<string>, params: map<string, string>, cur: seq<string>)
    requires forall part | part in parts :: '.' !in part
    ensures InstantiateLoop(parts, params, Join(cur, '.')) == Join(BlockLoop(parts, params, cur), '.')
  {
    if parts != [] {
      hide Join, ReplaceBlock, ReplaceFirst;
      if Applies(parts[0], params) {
        ReplaceOnBlocks(cur, parts[0], params[parts[0][1..]]);
      }
      LoopOnBlocks(parts[1..], params, BlockStep(cur, parts[0], params));
    }
  }

  /** A placeholder whose value is itself changes nothing. */
  lemma StepUnset(cur: seq<string>, part: string, params: map<string, string>)
    requires !Sets(part, params)
    ensures BlockStep(cur, part, params) == cur
  {
    if Applies(part, params) {
      var k := FirstWith(cur, part);
      if k < |cur| {
        ReplaceBySelf(cur[k], part);
      }
    }
  }

  // ---- counting differences ----

  /** At how many places two lists differ. */
  function Diff(a: seq<string>, b: seq<string>): nat
    requires |a| == |b|
  {
    if a == [] then 0 else (if a[0] != b[0] then 1 else 0) + Diff(a[1..], b[1..])
  }

  lemma {:induction false} DiffUpdate(a: seq<string>, b: seq<string>, k: nat, x: string)
    requires |a| == |b| && k < |a|
    ensures Diff(a[k := x], b) + (if a[k] != b[k] then 1 else 0) == Diff(a, b) + if x != b[k] then 1 else 0
  {
    if k > 0 {
      assert a[k := x][1..] == a[1..][k - 1 := x];
      DiffUpdate(a[1..], b[1..], k - 1, x);
    } else {
      assert a[k := x][1..] == a[1..];
    }
  }

  lemma {:induction false} DiffTail(a: seq<string>, b: seq<string>, i: nat)
    requires |a| == |b| && i <= |a|
    ensures Diff(a, b) >= Diff(a[i..], b[i..])
  {
    if i > 0 {
      assert a[1..][i - 1..] == a[i..] && b[1..][i - 1..] == b[i..];
      DiffTail(a[1..], b[1..], i - 1);
    } else {
      assert a[0..] == a && b[0..] == b;
    }
  }

  lemma {:induction false} DiffOfSame(a: seq<string>)
    ensures Diff(a, a) == 0
  {
    if a != [] {
      DiffOfSame(a[1..]);
    }
  }

  /** How many of the parts have a value other than themselves. */
  function SetCount(parts: seq<string>, params: map<string, string>): nat {
    if parts == [] then 0 else (if Sets(parts[0], params) then 1 else 0) + SetCount(parts[1..], params)
  }

  /** One step mends at most one place, and only a set placeholder does. */
  lemma StepMends(cur: seq<string>, part: string, params: map<string, string>, goal: seq<string>)
    requires |cur| == |goal|
    ensures Diff(BlockStep(cur, part, params), goal) + (if Sets(part, params) then 1 else 0) >= Diff(cur, goal)
  {
    if Sets(part, params) {
      var k := FirstWith(cur, part);
      if k < |cur| {
        DiffUpdate(cur, goal, k, ReplaceFirst(cur[k], part, params[part[1..]]));
      }
    } else {
      StepUnset(cur, part, params);
    }
  }

  lemma {:induction false} LoopMends(parts: seq<string>, params: map<string, string>, cur: seq<string>,
                                     goal: seq<string>)
    requires |cur| == |goal|
    ensures Diff(BlockLoop(parts, params, cur), goal) + SetCount(parts, params) >= Diff(cur, goal)
  {
    if parts != [] {
      hide BlockStep, Sets, Diff;
      StepMends(cur, parts[0], params, goal);
      LoopMends(parts[1..], params, BlockStep(cur, parts[0], params), goal);
    }
  }

  /** Every set part differs from the goal, and so does one that is not set, if there is one at `miss`. */
  lemma {:induction false} DiffAtLeast(parts: seq<string>, params: map<string, string>, goal: seq<string>, miss: nat)
    requires |parts| == |goal|
    requires forall k | 0 <= k < |parts| && Sets(parts[k], params) :: parts[k] != goal[k]
    requires miss < |parts| ==> !Sets(parts[miss], params) && parts[miss] != goal[miss]
    ensures Diff(parts, goal) >= SetCount(parts, params) + if miss < |parts| then 1 else 0
  {
    if parts != [] {
      hide Sets;
      var rest, tail := parts[1..], goal[1..];
      assert forall k | 0 <= k < |rest| :: rest[k] == parts[k + 1] && tail[k] == goal[k + 1];
      DiffAtLeast(rest, params, tail, if miss == 0 then |rest| else miss - 1);
    }
  }

  /** A part that should change but has no value to change to is never made right, whatever else is replaced. */
  lemma {:induction false} MissesStay(parts: seq<string>, params: map<string, string>, goal: seq<string>, miss: nat)
    requires |parts| == |goal| && miss < |parts|
    requires forall k | 0 <= k < |parts| && Sets(parts[k], params) :: parts[k] != goal[k]
    requires !Sets(parts[miss], params) && parts[miss] != goal[miss]
    ensures BlockLoop(parts, params, parts) != goal
  {
    DiffAtLeast(parts, params, goal, miss);
    LoopMends(parts, params, parts, goal);
    DiffOfSame(goal);
  }

  // ---- exactly when the blocks come out right ----

  /** No set placeholder occurs in what an earlier segment is to become. */
  ghost predicate Undisturbed(parts: seq<string>, params: map<string, string>) {
    forall k, i | 0 <= k < i < |parts| && Sets(parts[i], params) :: !Contains(Inst(parts[k], params), parts[i])
  }

  ghost predicate UndisturbedUpTo(parts: seq<string>, params: map<string, string>, n: nat)
    requires n <= |parts|
  {
    forall k, i | 0 <= k < i < n && Sets(parts[i], params) :: !Contains(Inst(parts[k], params), parts[i])
  }

  /** With nothing hit before it, a part becomes its own value. */
  lemma StepInOrder(parts: seq<string>, params: map<string, string>, i: nat, cur: seq<string>)
    requires DoneUpTo(parts, params, i, cur) && i < |parts|
    requires Sets(parts[i], params) ==> forall k | 0 <= k < i :: !Contains(cur[k], parts[i])
    ensures DoneUpTo(parts, params, i + 1, BlockStep(cur, parts[i], params))
  {
    var part := parts[i];
    if Sets(part, params) {
      ContainsItself(part);
      assert FirstWith(cur, part) == i;
      assert part[|part|..] == "" && params[part[1..]] + "" == params[part[1..]];
    } else {
      StepUnset(cur, part, params);
    }
  }

  /** A part that is hit too early makes one place wrong more than can be mended. */
  lemma StepTooEarly(parts: seq<string>, params: map<string, string>, i: nat, cur: seq<string>)
    requires DoneUpTo(parts, params, i, cur) && i < |parts|
    requires Sets(parts[i], params) && exists k :: 0 <= k < i && Contains(cur[k], parts[i])
    ensures BlockLoop(parts[i..], params, cur) != InstAll(parts, params)
    ensures !Undisturbed(parts, params)
  {
    var goal, part := InstAll(parts, params), parts[i];
    var k := FirstWith(cur, part);
    var value := params[part[1..]];
    assert cur[k] == goal[k] == Inst(parts[k], params);
    ReplaceChanges(cur[k], part, value);
    DiffUpdate(cur, goal, k, ReplaceFirst(cur[k], part, value));
    DiffBefore(parts, params, i, cur);
    assert parts[i..][1..] == parts[i + 1..];
    LoopMends(parts[i + 1..], params, BlockStep(cur, part, params), goal);
    DiffOfSame(goal);
  }

  lemma DiffBefore(parts: seq<string>, params: map<string, string>, i: nat, cur: seq<string>)
    requires DoneUpTo(parts, params, i, cur) && i < |parts|
    ensures Diff(cur, InstAll(parts, params)) >= SetCount(parts[i..], params)
  {
    var goal, rest := InstAll(parts, params), parts[i..];
    assert cur[i..] == rest;
    forall k | 0 <= k < |rest| && Sets(rest[k], params) ensures rest[k] != goal[i..][k] {
      assert rest[k] == parts[i + k] && goal[i..][k] == Inst(parts[i + k], params);
    }
    DiffAtLeast(rest, params, goal[i..], |rest|);
    DiffTail(cur, goal, i);
  }

  /** One undisturbed round. */
  lemma BlockRound(parts: seq<string>, params: map<string, string>, i: nat, cur: seq<string>)
    requires DoneUpTo(parts, params, i, cur) && i < |parts| && UndisturbedUpTo(parts, params, i)
    requires Sets(parts[i], params) ==> forall k | 0 <= k < i :: !Contains(cur[k], parts[i])
    ensures DoneUpTo(parts, params, i + 1, BlockStep(cur, parts[i], params))
    ensures UndisturbedUpTo(parts, params, i + 1)
    ensures BlockLoop(parts[i..], params, cur) == BlockLoop(parts[i + 1..], params, BlockStep(cur, parts[i], params))
  {
    StepInOrder(parts, params, i, cur);
    assert parts[i..][1..] == parts[i + 1..];
    hide BlockStep, Sets, Contains, Inst;
    assert forall k | 0 <= k < i :: cur[k] == Inst(parts[k], params);
  }

  /** For any parts and any values: the blocks come out right if and only if nothing is disturbed. */
  lemma {:induction false} BlockLoopExact(parts: seq<string>, params: map<string, string>, i: nat, cur: seq<string>)
    requires DoneUpTo(parts, params, i, cur) && UndisturbedUpTo(parts, params, i)
    ensures BlockLoop(parts[i..], params, cur) == InstAll(parts, params) <==> Undisturbed(parts, params)
    decreases |parts| - i
  {
    hide BlockStep, BlockLoop, Sets, Contains, Inst;
    if i == |parts| {
      NothingToDo(parts, params, cur);
    } else if Sets(parts[i], params) && exists k :: 0 <= k < i && Contains(cur[k], parts[i]) {
      StepTooEarly(parts, params, i, cur);
    } else {
      BlockRound(parts, params, i, cur);
      BlockLoopExact(parts, params, i + 1, BlockStep(cur, parts[i], params));
    }
  }

  lemma NothingToDo(parts: seq<string>, params: map<string, string>, cur: seq<string>)
    requires DoneUpTo(parts, params, |parts|, cur)
    ensures BlockLoop(parts[|parts|..], params, cur) == InstAll(parts, params)
  {
    assert parts[|parts|..] == [] && cur == InstAll(parts, params);
  }

  // ---- exactly when the text comes out right ----

  /** Undisturbed, the text is the segment-wise substitution, for any endpoint and any values. */
  lemma {:induction false} InstantiateSafe(generic: string, params: map<string, string>)
    requires Undisturbed(Split(generic, '.'), params)
    ensures InstantiateLoop(Split(generic, '.'), params, generic) == Join(InstAll(Split(generic, '.'), params), '.')
  {
    var parts := Split(generic, '.');
    LoopOnBlocks(parts, params, parts);
    assert parts[0..] == parts;
    BlockLoopExact(parts, params, 0, parts);
  }

  /** Values that stay within one segment. */
  ghost predicate DotFreeValues(parts: seq<string>, params: map<string, string>) {
    forall part | part in parts && Sets(part, params) :: '.' !in params[part[1..]]
  }

  lemma {:induction false} BlocksStayWhole(parts: seq<string>, params: map<string, string>, cur: seq<string>)
    requires DotFreeValues(parts, params) && forall s | s in cur :: '.' !in s
    ensures forall s | s in BlockLoop(parts, params, cur) :: '.' !in s
  {
    if parts != [] {
      var part := parts[0];
      var next := BlockStep(cur, part, params);
      if Sets(part, params) {
        var k := FirstWith(cur, part);
        if k < |cur| {
          assert cur[k] in cur;
          ReplaceChars(cur[k], part, params[part[1..]], '.');
        }
      } else {
        StepUnset(cur, part, params);
      }
      BlocksStayWhole(parts[1..], params, next);
    }
  }

  lemma InstWhole(parts: seq<string>, params: map<string, string>)
    requires DotFreeValues(parts, params) && forall s | s in parts :: '.' !in s
    ensures forall s | s in InstAll(parts, params) :: '.' !in s
  {
    forall i | 0 <= i < |parts| ensures '.' !in Inst(parts[i], params) {
      assert parts[i] in parts;
    }
  }

  /**
   For any endpoint and any values without dots, `$` included, the printed text is the
   segment-wise substitution if and only if no set placeholder occurs in what an earlier
   segment is to become: neither in an unset placeholder nor in a value.
   */
  lemma {:induction false} InstantiateIff(generic: string, params: map<string, string>)
    requires DotFreeValues(Split(generic, '.'), params)
    ensures InstantiateLoop(Split(generic, '.'), params, generic) == Join(InstAll(Split(generic, '.'), params), '.')
      <==> Undisturbed(Split(generic, '.'), params)
  {
    var parts := Split(generic, '.');
    LoopOnBlocks(parts, params, parts);
    assert parts[0..] == parts;
    BlockLoopExact(parts, params, 0, parts);
    BlocksStayWhole(parts, params, parts);
    InstWhole(parts, params);
    JoinInjective(BlockLoop(parts, params, parts), InstAll(parts, params), '.');
  }

  lemma PairJoins(a: string, b: string)
    ensures Join([a, b], '.') == a + "." + b
  {
    assert [a, b][1..] == [b];
  }

  lemma WholeBlockReplaced(t: string, other: string, new_: string)
    requires t != ""
    ensures ReplaceBlock([t, other], t, new_) == [new_, other]
  {
    ContainsItself(t);
    assert t[|t|..] == "" && new_ + "" == new_;
    assert ReplaceFirst(t, t, new_) == new_;
  }

  /** Two placeholders, the first of them with the second as its value. */
  lemma PairLoop(a: string, b: string, params: map<string, string>)
    requires IsParam(a, '.') && IsParam(b, '.')
    requires Applies(a, params) && Applies(b, params) && params[a[1..]] == b
    ensures InstantiateLoop([a, b], params, a + "." + b) == params[b[1..]] + "." + b
    ensures InstAll([a, b], params) == [b, params[b[1..]]]
  {
    var parts, x := [a, b], params[b[1..]];
    PairJoins(a, b);
    PairJoins(x, b);
    WholeBlockReplaced(a, b, b);
    WholeBlockReplaced(b, b, x);
    LoopOnBlocks(parts, params, parts);
    hide InstantiateLoop, ReplaceBlock, Applies, Join;
    assert parts[1..] == [b] && [b][1..] == [];
    assert BlockLoop(parts, params, parts) == BlockLoop([b], params, [b, b]);
    assert BlockLoop([b], params, [b, b]) == BlockLoop([], params, [x, b]);
  }

  lemma PairDisturbs(a: string, b: string, params: map<string, string>)
    requires Applies(a, params) && Applies(b, params) && params[a[1..]] == b && |params[b[1..]]| > |b|
    ensures !Undisturbed([a, b], params)
  {
    var parts := [a, b];
    ContainsItself(b);
    hide Contains;
    assert Sets(parts[1], params) && Contains(Inst(parts[0], params), parts[1]);
  }

  lemma PairApplies(a: string, b: string, x: string)
    requires IsParam(a, '.') && IsParam(b, '.') && a != b && x != ""
    ensures var params := map[a[1..] := b, b[1..] := x];
      && Applies(a, params) && Applies(b, params) && params[a[1..]] == b && params[b[1..]] == x
  {
    assert a == ['$'] + a[1..] && b == ['$'] + b[1..];
    assert a[0] in a && b[0] in b;
  }

  /** The failing input: a value that spells a later placeholder is filled in with that one's value. */
  lemma ValueSpellsPlaceholder(a: string, b: string, x: string)
    requires IsParam(a, '.') && IsParam(b, '.') && a != b && x != "" && '.' !in x
    requires x != b
    ensures var parts, params := [a, b], map[a[1..] := b, b[1..] := x];
      && InstantiateLoop(parts, params, a + "." + b) == x + "." + b
      && Join(InstAll(parts, params), '.') == b + "." + x
  {
    PairApplies(a, b, x);
    PairLoop(a, b, map[a[1..] := b, b[1..] := x]);
    PairJoins(b, x);
  }

  /**
   Why the values may not hold dots: two segments printed wrong can still make the right text.
   With the path `a.b`, `a` = `b` and `b` = `b.b` (each name standing for its placeholder) the
   loop disturbs the first value and prints `b.b.b`, which is also what it should print.
   */
  lemma DottedCoincidence(a: string, b: string)
    requires IsParam(a, '.') && IsParam(b, '.') && a != b
    ensures var parts, params := [a, b], map[a[1..] := b, b[1..] := b + "." + b];
      && !Undisturbed(parts, params)
      && InstantiateLoop(parts, params, a + "." + b) == Join(InstAll(parts, params), '.')
  {
    var x := b + "." + b;
    var parts, params := [a, b], map[a[1..] := b, b[1..] := x];
    PairApplies(a, b, x);
    PairLoop(a, b, params);
    PairJoins(b, x);
    PairDisturbs(a, b, params);
    hide *;
    Regroup(b + ".", b, ".");
    Regroup(b + ".", b + ".", b);
  }

  // ---- placeholders left over ----

  /** How many blocks hold a `$`. */
  function Holes(blocks: seq<string>): nat {
    if blocks == [] then 0 else (if '$' in blocks[0] then 1 else 0) + Holes(blocks[1..])
  }

  lemma {:induction false} HolesUpdate(blocks: seq<string>, k: nat, x: string)
    requires k < |blocks|
    ensures Holes(blocks[k := x]) + 1 >= Holes(blocks)
  {
    if k > 0 {
      assert blocks[k := x][1..] == blocks[1..][k - 1 := x];
      HolesUpdate(blocks[1..], k - 1, x);
    } else {
      assert blocks[k := x][1..] == blocks[1..];
    }
  }

  lemma StepHoles(cur: seq<string>, part: string, params: map<string, string>)
    ensures Holes(BlockStep(cur, part, params)) + (if Sets(part, params) then 1 else 0) >= Holes(cur)
  {
    if Sets(part, params) {
      var k := FirstWith(cur, part);
      if k < |cur| {
        HolesUpdate(cur, k, ReplaceFirst(cur[k], part, params[part[1..]]));
      }
    } else {
      StepUnset(cur, part, params);
    }
  }

  lemma {:induction false} LoopHoles(parts: seq<string>, params: map<string, string>, cur: seq<string>)
    ensures Holes(BlockLoop(parts, params, cur)) + SetCount(parts, params) >= Holes(cur)
  {
    if parts != [] {
      hide BlockStep, Sets, Holes;
      StepHoles(cur, parts[0], params);
      LoopHoles(parts[1..], params, BlockStep(cur, parts[0], params));
    }
  }

  lemma {:induction false} UnsetCounts(parts: seq<string>, params: map<string, string>, part: string)
    ensures Holes(parts) >= SetCount(parts, params)
    ensures part in parts && '$' in part && !Sets(part, params) ==> Holes(parts) >= SetCount(parts, params) + 1
  {
    if parts != [] {
      assert Sets(parts[0], params) ==> '$' in parts[0];
      hide Sets;
      UnsetCounts(parts[1..], params, part);
    }
  }

  lemma {:induction false} HolesInText(blocks: seq<string>)
    requires Holes(blocks) >= 1
    ensures '$' in Join(blocks, '.')
  {
    if '$' !in blocks[0] {
      HolesInText(blocks[1..]);
    }
  }

  /** With one placeholder unset a `$` stays in the printed text, for any endpoint and any values. */
  lemma {:induction false} UnsetStays(generic: string, params: map<string, string>, part: string)
    requires part in Split(generic, '.') && '$' in part && !Sets(part, params)
    ensures '$' in InstantiateLoop(Split(generic, '.'), params, generic)
  {
    var parts := Split(generic, '.');
    LoopOnBlocks(parts, params, parts);
    LoopHoles(parts, params, parts);
    UnsetCounts(parts, params, part);
    HolesInText(BlockLoop(parts, params, parts));
  }
}
