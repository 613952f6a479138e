/**
 The few functions of Go's `strings` package that the broker's string loops are
 made of.  A Go string is a sequence of bytes; each `char` here stands for one.
 */
module GoStrings {

  /** `strings.Join(parts, sep)` for a separator of one character. */
  function Join(parts: seq<string>, sep: char): string {
    if |parts| == 0 then ""
    else if |parts| == 1 then parts[0]
    else parts[0] + [sep] + Join(parts[1..], sep)
  }

  /** `strings.Split(s, sep)`: at least one part, no part holds the separator, and joining undoes it. */
  function Split(s: string, sep: char): (parts: seq<string>)
    ensures |parts| >= 1
    ensures forall p | p in parts :: sep !in p
    ensures Join(parts, sep) == s
  {
    if s == "" then [""]
    else
      var rest := Split(s[1..], sep);
      if s[0] == sep then
        [""] + rest
      else
        var parts := [[s[0]] + rest[0]] + rest[1..];
        assert parts[1..] == rest[1..];
        parts
  }

  /** Joining parts without the separator and splitting again gives the same parts. */
  lemma {:induction false} SplitOfJoin(parts: seq<string>, sep: char)
    requires |parts| >= 1
    requires forall p | p in parts :: sep !in p
    ensures Split(Join(parts, sep), sep) == parts
    decreases |parts|, |parts[0]|
  {
    var s := Join(parts, sep);
    if parts[0] == "" {
      if |parts| > 1 {
        assert s == [sep] + Join(parts[1..], sep);
        assert s[1..] == Join(parts[1..], sep);
        SplitOfJoin(parts[1..], sep);
      }
    } else {
      var shorter := [parts[0][1..]] + parts[1..];
      assert shorter[1..] == parts[1..];
      assert s[1..] == Join(shorter, sep);
      assert s[0] == parts[0][0] && parts[0][0] in parts[0];
      forall p | p in shorter ensures sep !in p {
        assert p in parts[1..] || p == parts[0][1..];
        assert parts[0] in parts && forall x | x in parts[0][1..] :: x in parts[0];
      }
      SplitOfJoin(shorter, sep);
      assert [s[0]] + shorter[0] == parts[0];
    }
  }

  /** Two lists of separator-free parts that join to the same string are the same list. */
  lemma JoinInjective(a: seq<string>, b: seq<string>, sep: char)
    requires |a| >= 1 && |b| >= 1
    requires forall p | p in a :: sep !in p
    requires forall p | p in b :: sep !in p
    ensures Join(a, sep) == Join(b, sep) <==> a == b
  {
    SplitOfJoin(a, sep);
    SplitOfJoin(b, sep);
  }

  lemma {:induction false} JoinConcat(a: seq<string>, b: seq<string>, sep: char)
    requires |a| >= 1 && |b| >= 1
    ensures Join(a + b, sep) == Join(a, sep) + [sep] + Join(b, sep)
  {
    if |a| == 1 {
      assert (a + b)[1..] == b;
    } else {
      assert (a + b)[1..] == a[1..] + b;
      JoinConcat(a[1..], b, sep);
    }
  }

  lemma {:induction false} JoinChars(parts: seq<string>, sep: char, c: char)
    requires c != sep
    requires forall p | p in parts :: c !in p
    ensures c !in Join(parts, sep)
  {
    if |parts| > 1 {
      JoinChars(parts[1..], sep, c);
    }
  }

  /** `strings.Replace(s, old, new, 1)`: the leftmost occurrence, if there is one. */
  function ReplaceFirst(s: string, old_: string, new_: string): string {
    if old_ <= s then new_ + s[|old_|..]
    else if s == "" then ""
    else [s[0]] + ReplaceFirst(s[1..], old_, new_)
  }

  /** `strings.ReplaceAll(s, old, new)` for a non-empty `old`: left to right, not overlapping. */
  function ReplaceAll(s: string, old_: string, new_: string): string
    requires old_ != ""
  {
    if s == "" then ""
    else if old_ <= s then new_ + ReplaceAll(s[|old_|..], old_, new_)
    else [s[0]] + ReplaceAll(s[1..], old_, new_)
  }

  /** True when `old_` starts at position `i` of `s`. */
  predicate OccursAt(s: string, old_: string, i: nat) {
    i <= |s| && old_ <= s[i..]
  }

  lemma OccursInRest(s: string, old_: string, j: nat)
    requires s != ""
    ensures OccursAt(s[1..], old_, j) <==> OccursAt(s, old_, j + 1)
  {
    if j < |s| {
      assert s[1..][j..] == s[j + 1..];
    }
  }

  /** What `ReplaceFirst` means: exactly the leftmost occurrence is replaced ... */
  lemma {:induction false} ReplaceFirstAt(a: string, b: string, old_: string, new_: string)
    requires forall j: nat | j < |a| :: !OccursAt(a + (old_ + b), old_, j)
    ensures ReplaceFirst(a + (old_ + b), old_, new_) == a + (new_ + b)
  {
    var s := a + (old_ + b);
    if a == "" {
      assert s == old_ + b;
    } else {
      assert !OccursAt(s, old_, 0) && s[0..] == s;
      assert s[1..] == a[1..] + (old_ + b);
      forall j: nat | j < |a| - 1 ensures !OccursAt(s[1..], old_, j) {
        OccursInRest(s, old_, j);
      }
      ReplaceFirstAt(a[1..], b, old_, new_);
      assert [a[0]] + (a[1..] + (new_ + b)) == a + (new_ + b);
    }
  }

  /** ... and without an occurrence nothing changes. */
  lemma {:induction false} ReplaceFirstNone(s: string, old_: string, new_: string)
    requires forall j: nat :: !OccursAt(s, old_, j)
    ensures ReplaceFirst(s, old_, new_) == s
  {
    assert !OccursAt(s, old_, 0) && s[0..] == s;
    if s != "" {
      forall j: nat ensures !OccursAt(s[1..], old_, j) {
        OccursInRest(s, old_, j);
      }
      ReplaceFirstNone(s[1..], old_, new_);
    }
  }

  lemma NoPrefix(a: string, b: string, mark: char, old_: string)
    requires a != "" && old_ != "" && old_[0] == mark && mark !in a
    ensures !(old_ <= a + b)
  {
    assert (a + b)[0] == a[0] && a[0] in a;
  }

  /** A search text that starts with `mark` cannot start inside a stretch free of `mark`. */
  lemma {:induction false} ReplaceFirstSkips(a: string, b: string, mark: char, old_: string, new_: string)
    requires old_ != "" && old_[0] == mark && mark !in a
    ensures ReplaceFirst(a + b, old_, new_) == a + ReplaceFirst(b, old_, new_)
  {
    if a == "" {
      assert a + b == b;
    } else {
      NoPrefix(a, b, mark, old_);
      ReplaceFirstSkips(a[1..], b, mark, old_, new_);
      var rest := ReplaceFirst(b, old_, new_);
      assert (a + b)[1..] == a[1..] + b;
      assert [a[0]] + (a[1..] + rest) == a + rest;
    }
  }

  lemma {:induction false} ReplaceAllSkips(a: string, b: string, mark: char, old_: string, new_: string)
    requires old_ != "" && old_[0] == mark && mark !in a
    ensures ReplaceAll(a + b, old_, new_) == a + ReplaceAll(b, old_, new_)
  {
    if a == "" {
      assert a + b == b;
    } else {
      NoPrefix(a, b, mark, old_);
      ReplaceAllSkips(a[1..], b, mark, old_, new_);
      var rest := ReplaceAll(b, old_, new_);
      assert (a + b)[1..] == a[1..] + b;
      assert [a[0]] + (a[1..] + rest) == a + rest;
    }
  }

  lemma ReplaceSkips(a: string, b: string, mark: char, old_: string, new_: string)
    requires old_ != "" && old_[0] == mark && mark !in a
    ensures ReplaceFirst(a + b, old_, new_) == a + ReplaceFirst(b, old_, new_)
    ensures ReplaceAll(a + b, old_, new_) == a + ReplaceAll(b, old_, new_)
  {
    ReplaceFirstSkips(a, b, mark, old_, new_);
    ReplaceAllSkips(a, b, mark, old_, new_);
  }

  /** Replacing a text by itself changes nothing. */
  lemma {:induction false} ReplaceBySelf(s: string, old_: string)
    ensures ReplaceFirst(s, old_, old_) == s
  {
    if !(old_ <= s) && s != "" {
      ReplaceBySelf(s[1..], old_);
    }
  }
}
