/**
 `Replace(…, 1)` and `ReplaceAll` on a text made of blocks joined by a separator.  A search
 text without the separator never reaches over the end of a block, whatever the blocks hold,
 separators included.
 */
module Blocks {
  import opened Basics
  import opened GoStrings
  import opened Segments

  /** `strings.Contains`. */
  predicate Contains(s: string, t: string) {
    t <= s || (s != "" && Contains(s[1..], t))
  }

  lemma {:induction false} ContainsIsOccurs(s: string, t: string)
    ensures Contains(s, t) <==> exists j: nat :: OccursAt(s, t, j)
  {
    assert s[0..] == s;
    assert t <= s ==> OccursAt(s, t, 0);
    if s != "" {
      ContainsIsOccurs(s[1..], t);
      if j: nat :| OccursAt(s[1..], t, j) {
        OccursInRest(s, t, j);
      }
      if j: nat :| OccursAt(s, t, j) {
        if j > 0 {
          OccursInRest(s, t, j - 1);
        }
      }
    }
  }

  lemma ContainsItself(s: string)
    ensures Contains(s, s)
  {
  }

  lemma {:induction false} ContainsChars(s: string, t: string, c: char)
    requires Contains(s, t) && c in t
    ensures c in s
  {
    if t <= s {
      var k :| 0 <= k < |t| && t[k] == c;
      assert s[k] == c;
    } else {
      ContainsChars(s[1..], t, c);
    }
  }

  lemma {:induction false} ContainsIsShorter(s: string, t: string)
    requires Contains(s, t)
    ensures |t| <= |s|
  {
    if !(t <= s) {
      ContainsIsShorter(s[1..], t);
    }
  }

  /** Replacing a text that occurs by a different one changes the string. */
  lemma {:induction false} ReplaceChanges(s: string, old_: string, new_: string)
    requires Contains(s, old_) && old_ != new_
    ensures ReplaceFirst(s, old_, new_) != s
  {
    if old_ <= s {
      assert s == old_ + s[|old_|..];
      OtherHead(new_, old_, s[|old_|..]);
    } else {
      ReplaceChanges(s[1..], old_, new_);
      assert s == [s[0]] + s[1..];
    }
  }

  lemma OtherHead(a: string, b: string, tail: string)
    requires a != b
    ensures a + tail != b + tail
  {
    assert |a| == |b| ==> (a + tail)[..|a|] == a && (b + tail)[..|b|] == b;
  }

  lemma {:induction false} ReplaceMissing(s: string, old_: string, new_: string)
    requires !Contains(s, old_)
    ensures ReplaceFirst(s, old_, new_) == s
  {
    if s != "" {
      ReplaceMissing(s[1..], old_, new_);
      assert s == [s[0]] + s[1..];
    }
  }

  /** Neither string brings a character the result has. */
  lemma {:induction false} ReplaceChars(s: string, old_: string, new_: string, c: char)
    requires c !in s && c !in new_
    ensures c !in ReplaceFirst(s, old_, new_)
  {
    if old_ <= s {
      assert forall x | x in s[|old_|..] :: x in s;
    } else if s != "" {
      assert s[0] in s && forall x | x in s[1..] :: x in s;
      ReplaceChars(s[1..], old_, new_, c);
    }
  }

  // ---- one block in front of a tail ----

  /** A text without the separator cannot begin in the block and end beyond it. */
  lemma PrefixStaysInBlock(block: string, tail: string, t: string, sep: char)
    requires sep !in t && (tail == "" || tail[0] == sep)
    ensures t <= block + tail <==> t <= block
  {
    if |t| > |block| {
      assert t[|block|] in t;
      assert tail != "" ==> (block + tail)[|block|] == sep;
    }
  }

  lemma {:induction false} ReplaceInBlock(block: string, tail: string, t: string, new_: string)
    requires '.' !in t && (tail == "" || tail[0] == '.') && Contains(block, t)
    ensures ReplaceFirst(block + tail, t, new_) == ReplaceFirst(block, t, new_) + tail
  {
    PrefixStaysInBlock(block, tail, t, '.');
    if t <= block {
      assert (block + tail)[|t|..] == block[|t|..] + tail;
      assert new_ + (block[|t|..] + tail) == (new_ + block[|t|..]) + tail;
    } else {
      ReplaceInBlock(block[1..], tail, t, new_);
      assert (block + tail)[1..] == block[1..] + tail;
      assert [block[0]] + (ReplaceFirst(block[1..], t, new_) + tail)
          == ([block[0]] + ReplaceFirst(block[1..], t, new_)) + tail;
    }
  }

  lemma {:induction false} ReplaceAfterBlock(block: string, tail: string, t: string, new_: string)
    requires '.' !in t && (tail == "" || tail[0] == '.') && !Contains(block, t)
    ensures ReplaceFirst(block + tail, t, new_) == block + ReplaceFirst(tail, t, new_)
  {
    PrefixStaysInBlock(block, tail, t, '.');
    if block == "" {
      assert block + tail == tail;
    } else {
      ReplaceAfterBlock(block[1..], tail, t, new_);
      assert (block + tail)[1..] == block[1..] + tail;
      assert block == [block[0]] + block[1..];
      assert [block[0]] + (block[1..] + ReplaceFirst(tail, t, new_)) == block + ReplaceFirst(tail, t, new_);
    }
  }

  lemma ReplaceAfterDot(rest: string, t: string, new_: string)
    requires t != "" && '.' !in t
    ensures ReplaceFirst("." + rest, t, new_) == "." + ReplaceFirst(rest, t, new_)
  {
    assert t[0] in t && ("." + rest)[0] == '.' && ("." + rest)[1..] == rest;
  }

  // ---- all blocks ----

  /** The first block that contains the text, or the number of blocks. */
  function FirstWith(blocks: seq<string>, t: string): (k: nat)
    ensures k <= |blocks|
    ensures forall j | 0 <= j < k :: !Contains(blocks[j], t)
    ensures k < |blocks| ==> Contains(blocks[k], t)
  {
    if blocks == [] || Contains(blocks[0], t) then 0 else 1 + FirstWith(blocks[1..], t)
  }

  /** That block with the replacement made in it. */
  function ReplaceBlock(blocks: seq<string>, t: string, new_: string): (r: seq<string>)
    ensures |r| == |blocks|
  {
    var k := FirstWith(blocks, t);
    if k == |blocks| then blocks else blocks[k := ReplaceFirst(blocks[k], t, new_)]
  }

  lemma ReplaceBlockOfCons(block: string, rest: seq<string>, t: string, new_: string)
    ensures ReplaceBlock([block] + rest, t, new_) ==
      if Contains(block, t) then [ReplaceFirst(block, t, new_)] + rest else [block] + ReplaceBlock(rest, t, new_)
  {
    hide Contains, ReplaceFirst;
    var blocks := [block] + rest;
    assert blocks[0] == block && blocks[1..] == rest;
    var k := FirstWith(rest, t);
    assert !Contains(block, t) ==> FirstWith(blocks, t) == 1 + k;
    if !Contains(block, t) && k < |rest| {
      assert blocks[1 + k] == rest[k];
    }
  }

  /** The replacement in the text is the replacement in the first block that contains it. */
  lemma {:induction false} ReplaceOnBlocks(blocks: seq<string>, t: string, new_: string)
    requires t != "" && '.' !in t
    ensures ReplaceFirst(Join(blocks, '.'), t, new_) == Join(ReplaceBlock(blocks, t, new_), '.')
  {
    if blocks != [] {
      var block, rest := blocks[0], blocks[1..];
      assert blocks == [block] + rest;
      ReplaceBlockOfCons(block, rest, t, new_);
      if rest == [] {
        LastBlock(block, t, new_);
      } else {
        ReplaceOnBlocks(rest, t, new_);
        FrontBlock(block, rest, t, new_);
      }
    }
  }

  lemma LastBlock(block: string, t: string, new_: string)
    ensures ReplaceFirst(block, t, new_) == if Contains(block, t) then ReplaceFirst(block, t, new_) else block
  {
    if !Contains(block, t) {
      ReplaceMissing(block, t, new_);
    }
  }

  lemma FrontBlock(block: string, rest: seq<string>, t: string, new_: string)
    requires t != "" && '.' !in t && |rest| >= 1
    requires ReplaceFirst(Join(rest, '.'), t, new_) == Join(ReplaceBlock(rest, t, new_), '.')
    ensures ReplaceFirst(Join([block] + rest, '.'), t, new_) == Join(
      if Contains(block, t) then [ReplaceFirst(block, t, new_)] + rest else [block] + ReplaceBlock(rest, t, new_), '.')
  {
    hide Join, ReplaceFirst, ReplaceBlock, Contains;
    var tail := ['.'] + Join(rest, '.');
    JoinOfCons(block, rest, '.');
    if Contains(block, t) {
      ReplaceInBlock(block, tail, t, new_);
      JoinOfCons(ReplaceFirst(block, t, new_), rest, '.');
    } else {
      ReplaceAfterBlock(block, tail, t, new_);
      ReplaceAfterDot(Join(rest, '.'), t, new_);
      JoinOfCons(block, ReplaceBlock(rest, t, new_), '.');
    }
  }

  // ---- `ReplaceAll` ----

  lemma {:induction false} ReplaceAllOverBlock(block: string, tail: string, t: string, new_: string, sep: char)
    requires t != "" && sep !in t && (tail == "" || tail[0] == sep)
    ensures ReplaceAll(block + tail, t, new_) == ReplaceAll(block, t, new_) + ReplaceAll(tail, t, new_)
    decreases |block|
  {
    PrefixStaysInBlock(block, tail, t, sep);
    var rest := ReplaceAll(tail, t, new_);
    if block == "" {
      assert block + tail == tail;
    } else if t <= block {
      assert (block + tail)[|t|..] == block[|t|..] + tail;
      ReplaceAllOverBlock(block[|t|..], tail, t, new_, sep);
      Regroup(new_, ReplaceAll(block[|t|..], t, new_), rest);
    } else {
      assert (block + tail)[1..] == block[1..] + tail;
      ReplaceAllOverBlock(block[1..], tail, t, new_, sep);
      Regroup([block[0]], ReplaceAll(block[1..], t, new_), rest);
    }
  }

  function ReplaceAllBlocks(blocks: seq<string>, t: string, new_: string): (r: seq<string>)
    requires t != ""
  {
    seq(|blocks|, i requires 0 <= i < |blocks| => ReplaceAll(blocks[i], t, new_))
  }

  /** It works on every block for itself. */
  lemma {:induction false} ReplaceAllOnBlocks(blocks: seq<string>, t: string, new_: string, sep: char)
    requires t != "" && sep !in t
    ensures ReplaceAll(Join(blocks, sep), t, new_) == Join(ReplaceAllBlocks(blocks, t, new_), sep)
  {
    if |blocks| > 1 {
      var block, rest := blocks[0], blocks[1..];
      var tail := [sep] + Join(rest, sep);
      assert blocks == [block] + rest;
      assert ReplaceAllBlocks(blocks, t, new_) == [ReplaceAll(block, t, new_)] + ReplaceAllBlocks(rest, t, new_);
      hide ReplaceAll;
      JoinOfCons(block, rest, sep);
      ReplaceAllOverBlock(block, tail, t, new_, sep);
      assert t[0] in t;
      ReplaceAfterHead(sep, Join(rest, sep), t, new_);
      ReplaceAllOnBlocks(rest, t, new_, sep);
      JoinOfCons(ReplaceAll(block, t, new_), ReplaceAllBlocks(rest, t, new_), sep);
    }
  }

  lemma {:induction false} ReplaceAllMissing(s: string, t: string, new_: string)
    requires t != "" && !Contains(s, t)
    ensures ReplaceAll(s, t, new_) == s
  {
    if s != "" {
      ReplaceAllMissing(s[1..], t, new_);
      assert s == [s[0]] + s[1..];
    }
  }

  lemma {:induction false} ReplaceAllBySelf(s: string, t: string)
    requires t != ""
    ensures ReplaceAll(s, t, t) == s
    decreases |s|
  {
    if t <= s {
      ReplaceAllBySelf(s[|t|..], t);
    } else if s != "" {
      ReplaceAllBySelf(s[1..], t);
    }
  }

  lemma {:induction false} ReplaceAllLength(s: string, t: string, new_: string)
    requires t != ""
    ensures |new_| >= |t| ==> |ReplaceAll(s, t, new_)| >= |s| + if Contains(s, t) then |new_| - |t| else 0
    ensures |new_| <= |t| ==> |ReplaceAll(s, t, new_)| <= |s| + if Contains(s, t) then |new_| - |t| else 0
    decreases |s|
  {
    if t <= s {
      ReplaceAllLength(s[|t|..], t, new_);
    } else if s != "" {
      ReplaceAllLength(s[1..], t, new_);
    }
  }

  /** Replacing a text that occurs by a different one changes the string. */
  lemma {:induction false} ReplaceAllChanges(s: string, t: string, new_: string)
    requires t != "" && Contains(s, t) && t != new_
    ensures ReplaceAll(s, t, new_) != s
  {
    if |new_| != |t| {
      ReplaceAllLength(s, t, new_);
    } else if t <= s {
      assert s[..|t|] == t && ReplaceAll(s, t, new_)[..|t|] == new_;
    } else {
      ReplaceAllChanges(s[1..], t, new_);
      assert s == [s[0]] + s[1..];
    }
  }

  lemma {:induction false} ReplaceAllChars(s: string, t: string, new_: string, c: char)
    requires t != "" && c !in s && c !in new_
    ensures c !in ReplaceAll(s, t, new_)
    decreases |s|
  {
    if t <= s && s != "" {
      assert forall x | x in s[|t|..] :: x in s;
      ReplaceAllChars(s[|t|..], t, new_, c);
    } else if s != "" {
      assert s[0] in s && forall x | x in s[1..] :: x in s;
      ReplaceAllChars(s[1..], t, new_, c);
    }
  }
}
