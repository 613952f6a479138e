/**
 `Base.Migrate` (pkg/models/migration/base.go): reads the highest recorded version of a
 service once, then runs and records every listed version above it.
 */
module Migrations {
  import opened Basics
  import Text = TimeoutText

  datatype SchemaRow = SchemaRow(service: string, version: int)

  /** One entry of the list: the name of its type, and how its `Migrate` and `Save` will go. */
  datatype Version = Version(typeName: string, migrates: bool, saves: bool)

  /** An entry with the number its name stands for. */
  datatype Item = Item(index: int, migrates: bool, saves: bool)

  /** `ReplaceAllString` with `[^\d]`: the digits of a name, in order. */
  function OnlyDigits(name: string): (r: string)
    ensures forall i | 0 <= i < |r| :: Text.IsDigit(r[i])
  {
    if name == "" then "" else (if Text.IsDigit(name[0]) then [name[0]] else "") + OnlyDigits(name[1..])
  }

  /** `strconv.Atoi` of them; without digits, or beyond 64 bits, the code panics. */
  function NumberOf(name: string): Option<int> {
    var digits := OnlyDigits(name);
    if digits == "" || Text.DigitsValue(digits) > Text.MAX_INT64 then None else Some(Text.DigitsValue(digits))
  }

  datatype Result = Completed | SaveError | Panicked

  /** The versions recorded for a service, in insertion order.  A condition on an empty name selects every row. */
  function Recorded(rows: seq<SchemaRow>, service: string): seq<int> {
    if rows == [] then [] else Selected(rows[0], service) + Recorded(rows[1..], service)
  }

  function Selected(row: SchemaRow, service: string): seq<int> {
    if service == "" || row.service == service then [row.version] else []
  }

  /** `Order("version DESC").First`: the highest version, 0 when there is none. */
  function Highest(versions: seq<int>): int {
    if |versions| == 0 then 0
    else if |versions| == 1 then versions[0]
    else var h := Highest(versions[1..]); if versions[0] > h then versions[0] else h
  }

  /** The version a run starts from: the code ignores a failed read and takes the zero row. */
  function ReadVersion(versions: seq<int>, sees: bool): int {
    if sees then Highest(versions) else 0
  }

  function Indexes(items: seq<Item>): (r: seq<int>)
    ensures |r| == |items| && forall i | 0 <= i < |r| :: r[i] == items[i].index
  {
    seq(|items|, i requires 0 <= i < |items| => items[i].index)
  }

  /** The versions a run records, and how it ends. */
  function Run(items: seq<Item>, schema: int): (seq<int>, Result) {
    if items == [] then ([], Completed)
    else if schema < items[0].index then
      if !items[0].migrates then ([], Panicked)
      else if !items[0].saves then ([], SaveError)
      else var (rest, r) := Run(items[1..], schema); ([items[0].index] + rest, r)
    else Run(items[1..], schema)
  }

  /** The loop itself, which reads each number when it comes to it. */
  function RunNamed(list: seq<Version>, schema: int): (seq<int>, Result) {
    if list == [] then ([], Completed)
    else match NumberOf(list[0].typeName)
      case None => ([], Panicked)
      case Some(index) =>
        if schema < index then
          if !list[0].migrates then ([], Panicked)
          else if !list[0].saves then ([], SaveError)
          else var (rest, r) := RunNamed(list[1..], schema); ([index] + rest, r)
        else RunNamed(list[1..], schema)
  }

  function Tagged(service: string, versions: seq<int>): seq<SchemaRow> {
    seq(|versions|, i requires 0 <= i < |versions| => SchemaRow(service, versions[i]))
  }

  lemma TaggedMore(service: string, versions: seq<int>, version: int)
    ensures Tagged(service, versions + [version]) == Tagged(service, versions) + [SchemaRow(service, version)]
  {
  }

  /** The loop has recorded `done` and stands before the i-th version. */
  predicate Behind(list: seq<Version>, schema: int, done: seq<int>, i: nat)
    requires i <= |list|
  {
    var (rest, r) := RunNamed(list[i..], schema);
    RunNamed(list, schema) == (done + rest, r)
  }

  lemma RunStarts(list: seq<Version>, schema: int)
    ensures Behind(list, schema, [], 0)
  {
    assert list[0..] == list && [] + RunNamed(list, schema).0 == RunNamed(list, schema).0;
  }

  lemma RunGoesOn(list: seq<Version>, schema: int, done: seq<int>, i: nat)
    requires i < |list| && Behind(list, schema, done, i)
    ensures match NumberOf(list[i].typeName)
      case None => RunNamed(list, schema) == (done, Panicked)
      case Some(index) =>
        if index <= schema then Behind(list, schema, done, i + 1)
        else if !list[i].migrates then RunNamed(list, schema) == (done, Panicked)
        else if !list[i].saves then RunNamed(list, schema) == (done, SaveError)
        else Behind(list, schema, done + [index], i + 1)
  {
    hide NumberOf;
    assert list[i..][1..] == list[i + 1..] && done + [] == done;
    var (rest, r) := RunNamed(list[i + 1..], schema);
    if NumberOf(list[i].typeName).Some? {
      Regroup(done, [NumberOf(list[i].typeName).value], rest);
    }
  }

  lemma RunEnds(list: seq<Version>, schema: int, done: seq<int>)
    requires Behind(list, schema, done, |list|)
    ensures RunNamed(list, schema) == (done, Completed)
  {
    assert done + [] == done;
  }

  class SchemaTable {
    var rows: seq<SchemaRow>

    constructor ()
      ensures rows == []
    {
      rows := [];
    }

    /** The loop of `Migrate`, inserting one row per applied version; `sees` says how its one read goes. */
    method Migrate(service: string, list: seq<Version>, sees: bool) returns (r: Result)
      modifies this
      ensures var (versions, result) := RunNamed(list, ReadVersion(Recorded(old(rows), service), sees));
        rows == old(rows) + Tagged(service, versions) && r == result
    {
      var schema := 0;
      if sees {
        schema := Highest(Recorded(rows, service));
      }
      ghost var done: seq<int> := [];
      assert Tagged(service, done) == [];
      RunStarts(list, schema);
      hide RunNamed, Behind, Tagged, NumberOf, Highest, Recorded;
      for i := 0 to |list|
        invariant rows == old(rows) + Tagged(service, done)
        invariant Behind(list, schema, done, i)
      {
        RunGoesOn(list, schema, done, i);
        var index := NumberOf(list[i].typeName);
        if index == None {
          return Panicked;
        }
        if schema < index.value {
          if !list[i].migrates {
            return Panicked;
          }
          if !list[i].saves {
            return SaveError;
          }
          rows := rows + [SchemaRow(service, index.value)];
          TaggedMore(service, done, index.value);
          Regroup(old(rows), Tagged(service, done), [SchemaRow(service, index.value)]);
          done := done + [index.value];
        }
      }
      RunEnds(list, schema, done);
      r := Completed;
    }
  }

  // ---- names and numbers ----

  /** The list up to the first name without a number. */
  function Numbered(list: seq<Version>): seq<Item> {
    if list == [] || NumberOf(list[0].typeName) == None then []
    else [Item(NumberOf(list[0].typeName).value, list[0].migrates, list[0].saves)] + Numbered(list[1..])
  }

  lemma {:induction false} NumberedMeaning(list: seq<Version>)
    ensures |Numbered(list)| <= |list|
    ensures forall i | 0 <= i < |Numbered(list)| ::
      && NumberOf(list[i].typeName) == Some(Numbered(list)[i].index)
      && Numbered(list)[i].migrates == list[i].migrates && Numbered(list)[i].saves == list[i].saves
    ensures |Numbered(list)| < |list| ==> NumberOf(list[|Numbered(list)|].typeName) == None
  {
    hide NumberOf;
    if list != [] && NumberOf(list[0].typeName).Some? {
      NumberedMeaning(list[1..]);
    }
  }

  /** A run goes by the numbers up to the first name without one, and panics there if it gets that far. */
  lemma {:induction false} NamedRunIsRun(list: seq<Version>, schema: int)
    ensures RunNamed(list, schema).0 == Run(Numbered(list), schema).0
    ensures RunNamed(list, schema).1 ==
      if |Numbered(list)| < |list| && Run(Numbered(list), schema).1 == Completed then Panicked
      else Run(Numbered(list), schema).1
  {
    hide NumberOf;
    if list != [] && NumberOf(list[0].typeName).Some? {
      NamedRunIsRun(list[1..], schema);
      assert Numbered(list)[1..] == Numbered(list[1..]);
    }
  }

  lemma {:induction false} OnlyDigitsConcat(a: string, b: string)
    ensures OnlyDigits(a + b) == OnlyDigits(a) + OnlyDigits(b)
  {
    if a == "" {
      assert a + b == b;
    } else {
      assert (a + b)[1..] == a[1..] + b;
      OnlyDigitsConcat(a[1..], b);
    }
  }

  lemma {:induction false} OnlyDigitsOfDigits(s: string)
    ensures (forall i | 0 <= i < |s| :: Text.IsDigit(s[i])) ==> OnlyDigits(s) == s
    ensures (forall i | 0 <= i < |s| :: !Text.IsDigit(s[i])) ==> OnlyDigits(s) == ""
  {
    if s != "" {
      OnlyDigitsOfDigits(s[1..]);
      assert s == [s[0]] + s[1..];
    }
  }

  /** A name without digits has none, and panics the run. */
  lemma NameWithoutNumber(name: string)
    requires forall i | 0 <= i < |name| :: !Text.IsDigit(name[i])
    ensures NumberOf(name) == None
  {
    OnlyDigitsOfDigits(name);
  }

  /** A name with one number in it stands for that number, wherever it is. */
  lemma {:induction false} NameHasNumber(before: string, n: nat, after: string)
    requires forall i | 0 <= i < |before| :: !Text.IsDigit(before[i])
    requires forall i | 0 <= i < |after| :: !Text.IsDigit(after[i])
    ensures NumberOf(before + Text.Digits(n) + after) == if n <= Text.MAX_INT64 then Some(n) else None
  {
    Text.DigitsRoundTrip(n);
    var digits := Text.Digits(n);
    OnlyDigitsConcat(before + digits, after);
    OnlyDigitsConcat(before, digits);
    OnlyDigitsOfDigits(before);
    OnlyDigitsOfDigits(after);
    OnlyDigitsOfDigits(digits);
    hide OnlyDigits, Text.Digits, Text.DigitsValue, Text.IsDigit;
    assert OnlyDigits(before + digits + after) == "" + digits + "" == digits;
  }

  // ---- ascending lists ----

  ghost predicate Ascending(versions: seq<int>) {
    && (forall i | 0 <= i < |versions| :: versions[i] > 0)
    && forall i, j | 0 <= i < j < |versions| :: versions[i] < versions[j]
  }

  /** The last of the first `n` versions, 0 for none. */
  function Top(versions: seq<int>, n: nat): int
    requires n <= |versions|
  {
    if n == 0 then 0 else versions[n - 1]
  }

  lemma {:induction false} HighestIsTop(versions: seq<int>, n: nat)
    requires Ascending(versions) && n <= |versions|
    ensures Highest(versions[..n]) == Top(versions, n)
  {
    if n > 1 {
      var tail := versions[1..];
      assert Ascending(tail) by {
        assert forall i | 0 <= i < |tail| :: tail[i] == versions[i + 1];
      }
      assert versions[..n][1..] == tail[..n - 1];
      HighestIsTop(tail, n - 1);
    }
  }

  lemma {:induction false} RecordedConcat(a: seq<SchemaRow>, b: seq<SchemaRow>, service: string)
    ensures Recorded(a + b, service) == Recorded(a, service) + Recorded(b, service)
  {
    hide Selected;
    if a == [] {
      assert a + b == b;
    } else {
      RecordedConcat(a[1..], b, service);
      RecordedCons(a[0], a[1..] + b, service);
      RecordedCons(a[0], a[1..], service);
      hide Recorded;
      assert a + b == [a[0]] + (a[1..] + b) && a == [a[0]] + a[1..];
    }
  }

  lemma RecordedCons(row: SchemaRow, rest: seq<SchemaRow>, service: string)
    ensures Recorded([row] + rest, service) == Selected(row, service) + Recorded(rest, service)
  {
    hide Selected;
    assert ([row] + rest)[1..] == rest;
  }

  lemma {:induction false} RecordedTagged(service: string, versions: seq<int>, other: string)
    ensures Recorded(Tagged(service, versions), other) == if other == "" || other == service then versions else []
  {
    if versions == [] {
      assert Tagged(service, versions) == [];
    } else {
      assert Tagged(service, versions) == [SchemaRow(service, versions[0])] + Tagged(service, versions[1..]);
      RecordedTagged(service, versions[1..], other);
      RecordedCons(SchemaRow(service, versions[0]), Tagged(service, versions[1..]), other);
      hide Recorded, Tagged;
      assert versions == [versions[0]] + versions[1..];
    }
  }

  /**
   With the first `n` versions recorded, a run from item `i` on records the pending ones in order,
   up to the first failure.
   */
  lemma {:induction false} RunAppendsInOrder(items: seq<Item>, schema: int, n: nat, i: nat) returns (m: nat)
    requires Ascending(Indexes(items)) && n <= |items| && i <= |items| && schema == Top(Indexes(items), n)
    ensures (if i < n then n else i) <= m <= |items|
    ensures Run(items[i..], schema).0 == Indexes(items)[if i < n then n else i..m]
    ensures Run(items[i..], schema).1 == Completed <==> m == |items|
    ensures (forall k | n <= k < |items| :: items[k].migrates && items[k].saves) ==> m == |items|
    decreases |items| - i
  {
    if i == |items| {
      m := i;
    } else {
      assert items[i..][1..] == items[i + 1..] && items[i..][0] == items[i];
      var v := Indexes(items);
      assert schema < items[i].index <==> i >= n by {
        assert v[i] == items[i].index;
        if i < n - 1 { assert v[i] < v[n - 1]; }
        if i >= n > 0 { assert v[n - 1] < v[i]; }
      }
      if i >= n && !(items[i].migrates && items[i].saves) {
        m := i;
        assert v[i..i] == [];
      } else {
        m := RunAppendsInOrder(items, schema, n, i + 1);
        if i >= n {
          assert v[i..m] == [v[i]] + v[i + 1..m];
        }
      }
    }
  }

  lemma RecordedAfter(rows: seq<SchemaRow>, service: string, versions: seq<int>, other: string)
    ensures Recorded(rows + Tagged(service, versions), other)
         == Recorded(rows, other) + (if other == "" || other == service then versions else [])
  {
    RecordedConcat(rows, Tagged(service, versions), other);
    RecordedTagged(service, versions, other);
  }

  /**
   If the recorded versions of a service are a prefix of an ascending list, a run extends them
   to a longer prefix of it, unless its read fails with something recorded; it completes exactly
   when they become the whole list, which it does when no step fails.  Rerunning or extending
   the list therefore applies exactly the missing suffix.
   */
  lemma {:induction false} MigrateExtendsPrefix(rows: seq<SchemaRow>, service: string, items: seq<Item>, sees: bool,
                                                n: nat)
    returns (m: nat)
    requires Ascending(Indexes(items)) && n <= |items| && service != "" && (sees || n == 0)
    requires Recorded(rows, service) == Indexes(items)[..n]
    ensures n <= m <= |items|
    ensures var (versions, result) := Run(items, ReadVersion(Recorded(rows, service), sees));
      && versions == Indexes(items)[n..m]
      && Recorded(rows + Tagged(service, versions), service) == Indexes(items)[..m]
      && (result == Completed <==> m == |items|)
    ensures (forall k | n <= k < |items| :: items[k].migrates && items[k].saves) ==> m == |items|
  {
    var v := Indexes(items);
    HighestIsTop(v, n);
    assert items[0..] == items;
    m := RunAppendsInOrder(items, Top(v, n), n, 0);
    RecordedAfter(rows, service, v[n..m], service);
    assert v[..n] + v[n..m] == v[..m];
  }

  ghost predicate AllSucceed(items: seq<Item>) {
    forall it | it in items :: it.migrates && it.saves
  }

  /**
   After a failed read a run that does not fail applies and records the whole list again, so
   the recorded versions stay a prefix of the list if and only if none was recorded before.
   */
  lemma {:induction false} BlindRunRepeats(rows: seq<SchemaRow>, service: string, items: seq<Item>, n: nat)
    requires Ascending(Indexes(items)) && items != [] && AllSucceed(items) && n <= |items| && service != ""
    requires Recorded(rows, service) == Indexes(items)[..n]
    ensures var after := Recorded(rows + Tagged(service, Run(items, ReadVersion(Recorded(rows, service), false)).0),
        service);
      && after == Indexes(items)[..n] + Indexes(items)
      && (after <= Indexes(items) <==> n == 0)
  {
    var v := Indexes(items);
    BlindRun(items);
    RecordedAfter(rows, service, v, service);
    var after := v[..n] + v;
    assert |after| == n + |v|;
    assert n == 0 ==> after == v;
  }

  /** Starting from 0 every version of an ascending list is pending. */
  lemma BlindRun(items: seq<Item>)
    requires Ascending(Indexes(items)) && AllSucceed(items)
    ensures Run(items, 0).0 == Indexes(items)
  {
    assert items[0..] == items;
    var m := RunAppendsInOrder(items, 0, 0, 0);
    assert forall k | 0 <= k < |items| :: items[k] in items;
    assert Indexes(items)[0..m] == Indexes(items);
  }

  /** A run for one service leaves the rows of every other service alone. */
  lemma OtherServicesKept(rows: seq<SchemaRow>, service: string, items: seq<Item>, sees: bool, other: string)
    requires other != service && other != ""
    ensures var versions := Run(items, ReadVersion(Recorded(rows, service), sees)).0;
      Recorded(rows + Tagged(service, versions), other) == Recorded(rows, other)
  {
    var versions := Run(items, ReadVersion(Recorded(rows, service), sees)).0;
    RecordedAfter(rows, service, versions, other);
    assert Recorded(rows, other) + [] == Recorded(rows, other);
  }

  // ---- any list ----

  lemma {:induction false} RunRecordsAbove(items: seq<Item>, schema: int, v: int)
    requires AllSucceed(items)
    ensures Run(items, schema).1 == Completed
    ensures v in Run(items, schema).0 <==> v in Indexes(items) && v > schema
  {
    if items != [] {
      assert Indexes(items) == [items[0].index] + Indexes(items[1..]);
      RunRecordsAbove(items[1..], schema, v);
    }
  }

  /**
   For a list in any order, a run without failures leaves every listed version recorded if and
   only if each listed version not above the highest recorded one was already recorded: the
   version is read once, so a lower one that was left out is never made up for.
   */
  lemma CompleteIff(rows: seq<SchemaRow>, service: string, items: seq<Item>)
    requires AllSucceed(items)
    ensures var before := Recorded(rows, service);
      var after := Recorded(rows + Tagged(service, Run(items, Highest(before)).0), service);
      (forall v | v in Indexes(items) :: v in after) <==>
          (forall v | v in Indexes(items) && v <= Highest(before) :: v in before)
  {
    var before := Recorded(rows, service);
    var versions := Run(items, Highest(before)).0;
    RecordedAfter(rows, service, versions, service);
    forall v ensures v in versions <==> v in Indexes(items) && v > Highest(before) {
      RunRecordsAbove(items, Highest(before), v);
    }
  }
}
