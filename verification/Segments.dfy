/**
 Endpoint texts seen as lists of segments.  The code rewrites the joined text; the
 lemmas here say what that does to the segments.
 */
module Segments {
  import opened GoStrings

  /** A `$name` segment: one leading `$`, a non-empty name, no separator. */
  predicate IsParam(seg: string, sep: char) {
    |seg| > 1 && seg[0] == '$' && '$' !in seg[1..] && sep !in seg
  }

  /** A segment is either plain text without `$` or a `$name` segment. */
  predicate TidySegment(seg: string, sep: char) {
    '$' !in seg || IsParam(seg, sep)
  }

  ghost predicate Tidy(segs: seq<string>, sep: char) {
    sep != '$' && forall s | s in segs :: TidySegment(s, sep)
  }

  /** One segment with `param` replaced in it, when it starts with it. */
  function SubstOne(seg: string, param: string, value: string): string {
    if param <= seg then value + seg[|param|..] else seg
  }

  /** Replaces `param` in the first segment it is a prefix of. */
  function SubstFirst(segs: seq<string>, param: string, value: string): (r: seq<string>)
    ensures |r| == |segs|
  {
    if segs == [] then []
    else if param <= segs[0] then [SubstOne(segs[0], param, value)] + segs[1..]
    else [segs[0]] + SubstFirst(segs[1..], param, value)
  }

  /** Replaces `param` in every segment it is a prefix of. */
  function SubstAll(segs: seq<string>, param: string, value: string): (r: seq<string>)
    ensures |r| == |segs|
    ensures forall k | 0 <= k < |segs| ::
      r[k] == SubstOne(segs[k], param, value)
  {
    if segs == [] then []
    else [SubstOne(segs[0], param, value)] + SubstAll(segs[1..], param, value)
  }

  /** A parameter name never reaches past the end of a segment. */
  lemma PrefixStaysInSegment(seg: string, tail: string, param: string, sep: char)
    requires IsParam(param, sep)
    requires tail == "" || tail[0] == sep
    ensures param <= seg + tail <==> param <= seg
  {
    if |param| > |seg| {
      assert param[|seg|] in param && param[|seg|] != sep;
      assert tail != "" ==> (seg + tail)[|seg|] == sep;
    }
  }

  /** What the two `Replace` calls do when the text starts with a segment that holds `param`. */
  lemma ReplaceHit(seg: string, tail: string, sep: char, param: string, value: string)
    requires TidySegment(seg, sep) && IsParam(param, sep) && param <= seg
    ensures ReplaceFirst(seg + tail, param, value) == SubstOne(seg, param, value) + tail
    ensures ReplaceAll(seg + tail, param, value) == SubstOne(seg, param, value) + ReplaceAll(tail, param, value)
  {
    var s, rest := seg + tail, seg[|param|..];
    assert param <= s;
    assert s[|param|..] == rest + tail;
    assert value + (rest + tail) == (value + rest) + tail;
    assert '$' !in rest by {
      assert forall c | c in rest :: c in seg[1..];
    }
    ReplaceSkips(rest, tail, '$', param, value);
    var done := ReplaceAll(tail, param, value);
    assert value + (rest + done) == (value + rest) + done;
  }

  /** ... and when the segment does not hold it. */
  lemma ReplaceMiss(seg: string, tail: string, sep: char, param: string, value: string)
    requires TidySegment(seg, sep) && IsParam(param, sep) && !(param <= seg)
    requires tail == "" || tail[0] == sep
    ensures ReplaceFirst(seg + tail, param, value) == seg + ReplaceFirst(tail, param, value)
    ensures ReplaceAll(seg + tail, param, value) == seg + ReplaceAll(tail, param, value)
  {
    if '$' !in seg {
      ReplaceSkips(seg, tail, '$', param, value);
    } else {
      PrefixStaysInSegment(seg, tail, param, sep);
      hide ReplaceFirst, ReplaceAll;
      var rest := seg[1..];
      assert seg == [seg[0]] + rest && seg + tail == [seg[0]] + (rest + tail);
      ReplaceSkips(rest, tail, '$', param, value);
      ReplaceAfterHead(seg[0], rest + tail, param, value);
      HeadJoins(seg[0], rest, ReplaceFirst(tail, param, value));
      HeadJoins(seg[0], rest, ReplaceAll(tail, param, value));
    }
  }

  lemma HeadJoins(c: char, rest: string, t: string)
    ensures [c] + (rest + t) == ([c] + rest) + t
  {
  }

  lemma ReplaceAfterHead(c: char, t: string, param: string, value: string)
    requires param != "" && !(param <= [c] + t)
    ensures ReplaceFirst([c] + t, param, value) == [c] + ReplaceFirst(t, param, value)
    ensures ReplaceAll([c] + t, param, value) == [c] + ReplaceAll(t, param, value)
  {
    assert ([c] + t)[1..] == t;
  }

  lemma JoinOfCons(head: string, rest: seq<string>, sep: char)
    requires |rest| >= 1
    ensures Join([head] + rest, sep) == head + ([sep] + Join(rest, sep))
  {
    assert ([head] + rest)[1..] == rest;
    assert head + [sep] + Join(rest, sep) == head + ([sep] + Join(rest, sep));
  }

  /** Both `Replace` calls work one segment at a time on tidy segments. */
  lemma {:induction false} ReplaceOnSegments(segs: seq<string>, sep: char, param: string, value: string)
    requires Tidy(segs, sep)
    requires IsParam(param, sep)
    ensures ReplaceFirst(Join(segs, sep), param, value) == Join(SubstFirst(segs, param, value), sep)
    ensures ReplaceAll(Join(segs, sep), param, value) == Join(SubstAll(segs, param, value), sep)
  {
    if |segs| == 1 {
      ReplaceOneSegment(segs[0], "", sep, param, value);
      assert segs[0] + "" == segs[0];
      assert SubstAll(segs, param, value) == [SubstOne(segs[0], param, value)] == SubstFirst(segs, param, value);
    } else if |segs| > 1 {
      var seg, rest := segs[0], segs[1..];
      var tail := [sep] + Join(rest, sep);
      assert segs == [seg] + rest;
      JoinOfCons(seg, rest, sep);
      ReplaceOnSegments(rest, sep, param, value);
      ReplaceSkips([sep], Join(rest, sep), '$', param, value);
      ReplaceOneSegment(seg, tail, sep, param, value);
      JoinOfCons(SubstOne(seg, param, value), SubstAll(rest, param, value), sep);
      JoinOfCons(SubstOne(seg, param, value), rest, sep);
      JoinOfCons(seg, SubstFirst(rest, param, value), sep);
    }
  }

  lemma ReplaceOneSegment(seg: string, tail: string, sep: char, param: string, value: string)
    requires TidySegment(seg, sep) && IsParam(param, sep)
    requires tail == "" || tail[0] == sep
    ensures ReplaceFirst(seg + tail, param, value) ==
      if param <= seg then SubstOne(seg, param, value) + tail else seg + ReplaceFirst(tail, param, value)
    ensures ReplaceAll(seg + tail, param, value) == SubstOne(seg, param, value) + ReplaceAll(tail, param, value)
  {
    if param <= seg {
      ReplaceHit(seg, tail, sep, param, value);
    } else {
      ReplaceMiss(seg, tail, sep, param, value);
    }
  }
}
