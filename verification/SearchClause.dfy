/**
 `CallRequest.Search` (pkg/service/request/request.go): builds a where clause by writing one
 `?` per word and column and then replacing the first `?` until none is left.
 */
module SearchClause {
  import opened Basics
  import opened GoStrings

  const NOT_DELETED := "deleted_at IS NULL"

  function JoinWith(parts: seq<string>, sep: string): string {
    if |parts| == 0 then ""
    else if |parts| == 1 then parts[0]
    else parts[0] + (sep + JoinWith(parts[1..], sep))
  }

  /** How many `?` a text holds. */
  function Marks(s: string): nat {
    if s == "" then 0 else (if s[0] == '?' then 1 else 0) + Marks(s[1..])
  }

  /** The replacement loop; `None` is the index panic on an empty parameter list. */
  function FillLoop(where_: string, params: seq<string>): Option<string>
    decreases |params|
  {
    if '?' !in where_ then Some(where_)
    else if params == [] then None
    else FillLoop(ReplaceFirst(where_, "?", params[0]), params[1..])
  }

  /** The same text written in one pass: the k-th `?` becomes the k-th parameter. */
  function Interleave(template: string, params: seq<string>): string
    decreases |template|
  {
    if template == "" then ""
    else if template[0] == '?' && params != [] then params[0] + Interleave(template[1..], params[1..])
    else [template[0]] + Interleave(template[1..], params)
  }

  lemma {:induction false} MarksConcat(a: string, b: string)
    ensures Marks(a + b) == Marks(a) + Marks(b)
  {
    if a == "" {
      assert a + b == b;
    } else {
      assert (a + b)[1..] == a[1..] + b;
      MarksConcat(a[1..], b);
    }
  }

  lemma {:induction false} MarksZero(s: string)
    ensures Marks(s) == 0 <==> '?' !in s
  {
    if s != "" {
      MarksZero(s[1..]);
      assert s == [s[0]] + s[1..];
    }
  }

  /** Cuts a text at its first `?`. */
  lemma {:induction false} FirstMark(s: string) returns (a: string, b: string)
    requires '?' in s
    ensures '?' !in a && s == a + ("?" + b)
  {
    if s[0] == '?' {
      a, b := "", s[1..];
    } else {
      assert s == [s[0]] + s[1..];
      a, b := FirstMark(s[1..]);
      a := [s[0]] + a;
    }
  }

  lemma ReplaceMark(a: string, b: string, value: string)
    requires '?' !in a
    ensures ReplaceFirst(a + ("?" + b), "?", value) == a + (value + b)
    ensures Marks(a + ("?" + b)) == 1 + Marks(b)
    ensures Marks(a + (value + b)) == Marks(value) + Marks(b)
  {
    ReplaceSkips(a, "?" + b, '?', "?", value);
    assert ("?" + b)[1..] == b;
    MarksConcat(a, "?" + b);
    MarksConcat(a, value + b);
    MarksConcat(value, b);
    MarksZero(a);
  }

  lemma {:induction false} InterleaveSkips(a: string, b: string, params: seq<string>)
    requires '?' !in a
    ensures Interleave(a + b, params) == a + Interleave(b, params)
  {
    if a == "" {
      assert a + b == b;
    } else {
      assert (a + b)[1..] == a[1..] + b;
      InterleaveSkips(a[1..], b, params);
    }
  }

  ghost predicate MarkFree(params: seq<string>) {
    forall p | p in params :: '?' !in p
  }

  /**
   With at least as many `?` as parameters the loop succeeds exactly when there are as many
   and no parameter brings a new one; it then gives the one-pass text.
   */
  lemma {:induction false} FillLoopExact(where_: string, params: seq<string>)
    requires Marks(where_) >= |params|
    ensures FillLoop(where_, params).Some? <==> Marks(where_) == |params| && MarkFree(params)
    ensures FillLoop(where_, params).Some? ==> FillLoop(where_, params).value == Interleave(where_, params)
    decreases |params|
  {
    MarksZero(where_);
    if params == [] {
      if '?' !in where_ {
        InterleaveSkips(where_, "", []);
        assert where_ + "" == where_;
      }
    } else {
      var a, b := FirstMark(where_);
      var value, rest := params[0], params[1..];
      ReplaceMark(a, b, value);
      FillLoopExact(a + (value + b), rest);
      MarksZero(value);
      assert MarkFree(params) <==> '?' !in value && MarkFree(rest) by {
        assert params == [value] + rest;
      }
      if FillLoop(where_, params).Some? {
        InterleaveSkips(a, "?" + b, params);
        assert ("?" + b)[1..] == b;
        InterleaveSkips(a, value + b, rest);
        InterleaveSkips(value, b, rest);
      }
    }
  }

  lemma InterleaveMark(v: string, t: string, params: seq<string>)
    ensures Interleave("?" + t, [v] + params) == v + Interleave(t, params)
  {
    assert ("?" + t)[1..] == t && ([v] + params)[1..] == params;
  }

  lemma InterleaveChar(c: char, t: string, params: seq<string>)
    requires c != '?'
    ensures Interleave([c] + t, params) == [c] + Interleave(t, params)
  {
    assert ([c] + t)[1..] == t;
  }

  /** Interleaving splits at any point of the template. */
  lemma {:induction false} InterleaveConcat(x: string, y: string, px: seq<string>, py: seq<string>)
    requires Marks(x) == |px|
    ensures Interleave(x + y, px + py) == Interleave(x, px) + Interleave(y, py)
    decreases |x|
  {
    if x == "" {
      assert x + y == y && px + py == py;
    } else {
      var c, rest := x[0], x[1..];
      MarksOfTail(x);
      hide Marks, Interleave;
      assert x == [c] + rest && x + y == [c] + (rest + y);
      if c == '?' {
        var v, others := px[0], px[1..];
        assert px == [v] + others && px + py == [v] + (others + py);
        InterleaveConcat(rest, y, others, py);
        InterleaveMark(v, rest + y, others + py);
        InterleaveMark(v, rest, others);
        Regroup(v, Interleave(rest, others), Interleave(y, py));
      } else {
        InterleaveConcat(rest, y, px, py);
        InterleaveChar(c, rest + y, px + py);
        InterleaveChar(c, rest, px);
        Regroup([c], Interleave(rest, px), Interleave(y, py));
      }
    }
  }

  lemma MarksOfTail(x: string)
    requires x != ""
    ensures Marks(x) == (if x[0] == '?' then 1 else 0) + Marks(x[1..])
  {
  }

  // ---- the template and its parameters ----

  function Repeat(v: string, n: nat): (r: seq<string>)
    ensures |r| == n && forall p | p in r :: p == v
  {
    if n == 0 then [] else [v] + Repeat(v, n - 1)
  }

  function LikeAll(columns: seq<string>): (r: seq<string>)
    ensures |r| == |columns| && forall i | 0 <= i < |r| :: r[i] == columns[i] + " LIKE ?"
  {
    if columns == [] then [] else [columns[0] + " LIKE ?"] + LikeAll(columns[1..])
  }

  function Quoted(word: string): string {
    "'%" + word + "%'"
  }

  function WordParams(words: seq<string>, n: nat): seq<string> {
    if words == [] then [] else Repeat(Quoted(words[0]), n) + WordParams(words[1..], n)
  }

  function Condition(columns: seq<string>): string {
    "(" + (JoinWith(LikeAll(columns), " OR ") + ")")
  }

  function Clause(body: string): string {
    NOT_DELETED + " AND (" + (body + ")")
  }

  function Template(words: seq<string>, columns: seq<string>): string {
    Clause(JoinWith(Repeat(Condition(columns), |words|), " AND "))
  }

  // ---- direct construction ----

  function WordColumns(word: string, columns: seq<string>): (r: seq<string>)
    ensures |r| == |columns| && forall i | 0 <= i < |r| :: r[i] == columns[i] + " LIKE " + Quoted(word)
  {
    if columns == [] then [] else [columns[0] + " LIKE " + Quoted(word)] + WordColumns(word, columns[1..])
  }

  function WordCondition(word: string, columns: seq<string>): string {
    "(" + (JoinWith(WordColumns(word, columns), " OR ") + ")")
  }

  function WordConditions(words: seq<string>, columns: seq<string>): (r: seq<string>)
    ensures |r| == |words| && forall i | 0 <= i < |r| :: r[i] == WordCondition(words[i], columns)
  {
    if words == [] then [] else [WordCondition(words[0], columns)] + WordConditions(words[1..], columns)
  }

  /** Each word against each column: OR inside, AND outside. */
  function DirectClause(words: seq<string>, columns: seq<string>): string {
    Clause(JoinWith(WordConditions(words, columns), " AND "))
  }

  function ColumnMarks(columns: seq<string>): nat {
    if columns == [] then 0 else Marks(columns[0]) + ColumnMarks(columns[1..])
  }

  lemma {:induction false} ColumnMarksZero(columns: seq<string>)
    ensures ColumnMarks(columns) == 0 <==> MarkFree(columns)
  {
    if columns != [] {
      MarksZero(columns[0]);
      ColumnMarksZero(columns[1..]);
      assert columns == [columns[0]] + columns[1..];
    }
  }

  lemma LikeMarks(column: string)
    ensures Marks(column + " LIKE ?") == Marks(column) + 1
  {
    MarksConcat(column, " LIKE ?");
    ReplaceMark(" LIKE ", "", "");
    assert " LIKE ?" == " LIKE " + ("?" + "");
  }

  lemma {:induction false} ConditionMarks(columns: seq<string>)
    ensures Marks(JoinWith(LikeAll(columns), " OR ")) == |columns| + ColumnMarks(columns)
  {
    if |columns| == 1 {
      LikeMarks(columns[0]);
    } else if |columns| > 1 {
      LikeMarks(columns[0]);
      var rest := JoinWith(LikeAll(columns[1..]), " OR ");
      assert LikeAll(columns)[1..] == LikeAll(columns[1..]);
      ConditionMarks(columns[1..]);
      MarksZero(" OR ");
      MarksConcat(" OR ", rest);
      MarksConcat(columns[0] + " LIKE ?", " OR " + rest);
    }
  }

  /** `n` times `k`, as a sum. */
  function Times(n: nat, k: nat): nat {
    if n == 0 then 0 else k + Times(n - 1, k)
  }

  lemma {:induction false} TimesIsProduct(n: nat, k: nat)
    ensures Times(n, k) == n * k
  {
    if n > 0 {
      TimesIsProduct(n - 1, k);
      assert n * k == k + (n - 1) * k;
    }
  }

  lemma {:induction false} TimesGrows(n: nat, k: nat, more: nat)
    ensures Times(n, k + more) >= Times(n, k)
    ensures n > 0 ==> (Times(n, k + more) == Times(n, k) <==> more == 0)
  {
    if n > 0 {
      TimesGrows(n - 1, k, more);
    }
  }

  lemma {:induction false} RepeatMarks(s: string, n: nat)
    ensures Marks(JoinWith(Repeat(s, n), " AND ")) == Times(n, Marks(s))
  {
    if n == 1 {
      assert Times(1, Marks(s)) == Marks(s) + Times(0, Marks(s));
    }
    if n > 1 {
      assert Repeat(s, n)[1..] == Repeat(s, n - 1);
      RepeatMarks(s, n - 1);
      MarksZero(" AND ");
      MarksConcat(" AND ", JoinWith(Repeat(s, n - 1), " AND "));
      MarksConcat(s, " AND " + JoinWith(Repeat(s, n - 1), " AND "));
    }
  }

  lemma Wrapped(pre: string, s: string, post: string)
    requires '?' !in pre && '?' !in post
    ensures Marks(pre + (s + post)) == Marks(s)
  {
    MarksConcat(pre, s + post);
    MarksConcat(s, post);
    MarksZero(pre);
    MarksZero(post);
  }

  lemma OneConditionMarks(columns: seq<string>)
    ensures Marks(Condition(columns)) == |columns| + ColumnMarks(columns)
  {
    ConditionMarks(columns);
    Wrapped("(", JoinWith(LikeAll(columns), " OR "), ")");
  }

  lemma TemplateMarks(words: seq<string>, columns: seq<string>, k: nat)
    requires Marks(Condition(columns)) == k
    ensures Marks(Template(words, columns)) == Times(|words|, k)
  {
    hide Marks, Condition, Clause, Repeat, JoinWith;
    RepeatMarks(Condition(columns), |words|);
    ClauseMarks(JoinWith(Repeat(Condition(columns), |words|), " AND "));
  }

  lemma ClauseMarks(body: string)
    ensures Marks(Clause(body)) == Marks(body)
  {
    assert '?' !in NOT_DELETED + " AND (";
    Wrapped(NOT_DELETED + " AND (", body, ")");
  }

  lemma QuotedMarks(word: string)
    ensures '?' in Quoted(word) <==> '?' in word
  {
    MarksConcat("'%" + word, "%'");
    MarksConcat("'%", word);
    MarksZero(Quoted(word));
    MarksZero(word);
    MarksZero("'%");
    MarksZero("%'");
  }

  lemma {:induction false} WordParamsLength(words: seq<string>, n: nat)
    ensures |WordParams(words, n)| == Times(|words|, n)
  {
    if words != [] {
      WordParamsLength(words[1..], n);
    }
  }

  lemma {:induction false} WordParamsClean(words: seq<string>, n: nat)
    ensures MarkFree(WordParams(words, n)) <==> n == 0 || MarkFree(words)
  {
    if words != [] {
      var mine, others := Repeat(Quoted(words[0]), n), WordParams(words[1..], n);
      WordParamsClean(words[1..], n);
      QuotedMarks(words[0]);
      assert MarkFree(words) <==> '?' !in words[0] && MarkFree(words[1..]) by {
        assert words == [words[0]] + words[1..];
      }
      assert MarkFree(mine + others) <==> MarkFree(mine) && MarkFree(others) by {
        assert forall p :: p in mine + others <==> p in mine || p in others;
      }
      if n > 0 {
        assert mine[0] in mine;
      }
    }
  }

  lemma {:induction false} FilledColumns(word: string, columns: seq<string>)
    requires MarkFree(columns)
    ensures Interleave(JoinWith(LikeAll(columns), " OR "), Repeat(Quoted(word), |columns|))
         == JoinWith(WordColumns(word, columns), " OR ")
  {
    if columns != [] {
      assert columns[0] in columns;
      FilledColumn(columns[0], Quoted(word));
      if |columns| > 1 {
        var tail := columns[1..];
        FilledColumns(word, tail);
        assert LikeAll(columns)[1..] == LikeAll(tail);
        assert WordColumns(word, columns)[1..] == WordColumns(word, tail);
        FilledHead(columns[0] + " LIKE ?", " OR ", JoinWith(LikeAll(tail), " OR "), Quoted(word), |tail|);
      } else {
        assert Repeat(Quoted(word), 1) == [Quoted(word)];
      }
    }
  }

  lemma FilledHead(head: string, sep: string, rest: string, v: string, n: nat)
    requires Marks(head) == 1 && '?' !in sep
    ensures Interleave(head + (sep + rest), Repeat(v, n + 1)) ==
        Interleave(head, [v]) + (sep + Interleave(rest, Repeat(v, n)))
  {
    InterleaveConcat(head, sep + rest, [v], Repeat(v, n));
    InterleaveSkips(sep, rest, Repeat(v, n));
  }

  lemma FilledColumn(column: string, v: string)
    requires '?' !in column
    ensures Interleave(column + " LIKE ?", [v]) == column + " LIKE " + v
    ensures Marks(column + " LIKE ?") == 1
  {
    LikeMarks(column);
    MarksZero(column);
    var a := column + " LIKE ";
    assert column + " LIKE ?" == a + "?";
    InterleaveSkips(a, "?", [v]);
    assert "?"[1..] == "";
    assert Interleave("?", [v]) == v + Interleave("", []) == v;
  }

  lemma FilledWrapped(pre: string, s: string, post: string, params: seq<string>)
    requires '?' !in pre && '?' !in post && Marks(s) == |params|
    ensures Interleave(pre + (s + post), params) == pre + (Interleave(s, params) + post)
  {
    InterleaveSkips(pre, s + post, params);
    assert params + [] == params;
    InterleaveConcat(s, post, params, []);
    InterleaveSkips(post, "", []);
    assert post + "" == post;
  }

  lemma FilledCondition(word: string, columns: seq<string>)
    requires MarkFree(columns)
    ensures Interleave(Condition(columns), Repeat(Quoted(word), |columns|)) == WordCondition(word, columns)
    ensures Marks(Condition(columns)) == |columns|
  {
    ColumnMarksZero(columns);
    ConditionMarks(columns);
    OneConditionMarks(columns);
    FilledColumns(word, columns);
    FilledWrapped("(", JoinWith(LikeAll(columns), " OR "), ")", Repeat(Quoted(word), |columns|));
  }

  lemma {:induction false} FilledConditions(words: seq<string>, columns: seq<string>)
    requires MarkFree(columns)
    ensures Interleave(JoinWith(Repeat(Condition(columns), |words|), " AND "), WordParams(words, |columns|))
         == JoinWith(WordConditions(words, columns), " AND ")
  {
    if words != [] {
      var c, n := Condition(columns), |columns|;
      var mine := Repeat(Quoted(words[0]), n);
      FilledCondition(words[0], columns);
      if |words| > 1 {
        var others := WordParams(words[1..], n);
        var rest := JoinWith(Repeat(c, |words| - 1), " AND ");
        assert Repeat(c, |words|)[1..] == Repeat(c, |words| - 1);
        assert WordConditions(words, columns)[1..] == WordConditions(words[1..], columns);
        FilledConditions(words[1..], columns);
        InterleaveConcat(c, " AND " + rest, mine, others);
        InterleaveSkips(" AND ", rest, others);
      } else {
        assert WordParams(words, n) == mine + [] == mine;
      }
    }
  }

  /** When the parameters fit, the loop's text is the direct construction. */
  lemma FilledTemplate(words: seq<string>, columns: seq<string>)
    requires MarkFree(columns)
    ensures Interleave(Template(words, columns), WordParams(words, |columns|)) == DirectClause(words, columns)
  {
    var body, params := JoinWith(Repeat(Condition(columns), |words|), " AND "), WordParams(words, |columns|);
    FilledConditions(words, columns);
    assert Marks(body) == |params| by {
      FilledCondition("", columns);
      RepeatMarks(Condition(columns), |words|);
      WordParamsLength(words, |columns|);
    }
    ClauseFilled(body, params);
  }

  lemma ClauseFilled(body: string, params: seq<string>)
    requires Marks(body) == |params|
    ensures Interleave(Clause(body), params) == Clause(Interleave(body, params))
  {
    assert '?' !in NOT_DELETED + " AND (";
    FilledWrapped(NOT_DELETED + " AND (", body, ")", params);
  }

  lemma {:induction false} JoinWithConcat(a: seq<string>, b: seq<string>, sep: string)
    requires a != [] && b != []
    ensures JoinWith(a + b, sep) == JoinWith(a, sep) + (sep + JoinWith(b, sep))
  {
    if |a| == 1 {
      assert (a + b)[1..] == b;
    } else {
      assert (a + b)[1..] == a[1..] + b;
      JoinWithConcat(a[1..], b, sep);
      Regroup(sep, JoinWith(a[1..], sep), sep + JoinWith(b, sep));
      Regroup(a[0], sep + JoinWith(a[1..], sep), sep + JoinWith(b, sep));
    }
  }

  /** The clause as text: one word on one column. */
  lemma OneWordOneColumn(word: string, column: string)
    ensures DirectClause([word], [column]) ==
      "deleted_at IS NULL AND (" + (("(" + ((column + " LIKE " + ("'%" + word + "%'")) + ")")) + ")")
  {
    assert WordColumns(word, [column]) == [column + " LIKE " + Quoted(word)];
    assert WordConditions([word], [column]) == [WordCondition(word, [column])];
  }

  /** Further columns join with OR inside the parentheses of a word, further words with AND outside them. */
  lemma MoreWordsAndColumns(words: seq<string>, columns: seq<string>, word: string, column: string)
    requires words != [] && columns != []
    ensures JoinWith(WordColumns(word, columns + [column]), " OR ") ==
      JoinWith(WordColumns(word, columns), " OR ") + (" OR " + (column + " LIKE " + ("'%" + word + "%'")))
    ensures JoinWith(WordConditions(words + [word], columns), " AND ") ==
      JoinWith(WordConditions(words, columns), " AND ")
        + (" AND " + ("(" + (JoinWith(WordColumns(word, columns), " OR ") + ")")))
  {
    var c, w := [column + " LIKE " + Quoted(word)], [WordCondition(word, columns)];
    assert WordColumns(word, columns + [column]) == WordColumns(word, columns) + c;
    assert WordConditions(words + [word], columns) == WordConditions(words, columns) + w;
    JoinWithConcat(WordColumns(word, columns), c, " OR ");
    JoinWithConcat(WordConditions(words, columns), w, " AND ");
  }

  /** The index panic: there is a column, and a word or a column holds a `?`. */
  ghost predicate Panics(words: seq<string>, columns: seq<string>) {
    columns != [] && !(MarkFree(words) && MarkFree(columns))
  }

  /**
   The loop panics if and only if there is a column and some word or column holds `?`;
   otherwise it gives the directly constructed clause after words times columns replacements.
   */
  lemma {:induction false} SearchExact(words: seq<string>, columns: seq<string>)
    requires words != []
    ensures FillLoop(Template(words, columns), WordParams(words, |columns|))
         == if Panics(words, columns) then None else Some(DirectClause(words, columns))
    ensures !Panics(words, columns) ==> Marks(Template(words, columns)) == |WordParams(words, |columns|)|
  {
    TemplateCounts(words, columns);
    WordParamsClean(words, |columns|);
    FillLoopExact(Template(words, columns), WordParams(words, |columns|));
    if MarkFree(columns) {
      FilledTemplate(words, columns);
    }
  }

  lemma TemplateTotal(words: seq<string>, columns: seq<string>)
    ensures Marks(Template(words, columns)) == Times(|words|, |columns| + ColumnMarks(columns))
  {
    hide Marks, Template, Condition, ColumnMarks, Times;
    OneConditionMarks(columns);
    TemplateMarks(words, columns, |columns| + ColumnMarks(columns));
  }

  lemma CompareCounts(words: seq<string>, columns: seq<string>, total: nat)
    requires words != [] && total == Times(|words|, |columns| + ColumnMarks(columns))
    ensures total >= |WordParams(words, |columns|)|
    ensures total == |WordParams(words, |columns|)| <==> MarkFree(columns)
  {
    ColumnMarksZero(columns);
    WordParamsLength(words, |columns|);
    TimesGrows(|words|, |columns|, ColumnMarks(columns));
  }

  lemma TemplateCounts(words: seq<string>, columns: seq<string>)
    requires words != []
    ensures Marks(Template(words, columns)) >= |WordParams(words, |columns|)|
    ensures Marks(Template(words, columns)) == |WordParams(words, |columns|)| <==> MarkFree(columns)
  {
    TemplateTotal(words, columns);
    CompareCounts(words, columns, Marks(Template(words, columns)));
  }

  /** The first loop of `Search`, in place. */
  method AppendLike(columns: array<string>)
    modifies columns
    ensures columns[..] == LikeAll(old(columns[..]))
  {
    ghost var given := columns[..];
    for i := 0 to columns.Length
      invariant forall k | 0 <= k < i :: columns[k] == LikeAll(given)[k]
      invariant forall k | i <= k < columns.Length :: columns[k] == given[k]
    {
      var like := columns[i] + " LIKE ?";
      assert LikeAll(given)[i] == like;
      columns[i] := like;
    }
  }

  /** One condition per word, all alike. */
  method Conditions(columns: array<string>, n: nat, ghost given: seq<string>) returns (r: seq<string>)
    requires columns[..] == LikeAll(given)
    ensures r == Repeat(Condition(given), n)
  {
    r := [];
    for i := 0 to n
      invariant r == Repeat(Condition(given), i)
    {
      RepeatSnoc(Condition(given), i);
      r := r + ["(" + (JoinWith(columns[..], " OR ") + ")")];
    }
  }

  method ListParams(words: seq<string>, n: nat) returns (params: seq<string>)
    ensures params == WordParams(words, n)
  {
    params := [];
    for i := 0 to |words|
      invariant params == WordParams(words[..i], n)
    {
      ghost var before := params;
      for j := 0 to n
        invariant params == before + Repeat(Quoted(words[i]), j)
      {
        RepeatSnoc(Quoted(words[i]), j);
        params := params + ["'%" + words[i] + "%'"];
      }
      assert words[..i + 1] == words[..i] + [words[i]];
      WordParamsSnoc(words[..i], words[i], n);
    }
    assert words[..|words|] == words;
  }

  lemma {:induction false} WordParamsSnoc(words: seq<string>, word: string, n: nat)
    ensures WordParams(words + [word], n) == WordParams(words, n) + Repeat(Quoted(word), n)
  {
    if words == [] {
      assert [word][1..] == [];
      assert WordParams([word], n) == Repeat(Quoted(word), n) + [];
    } else {
      assert (words + [word])[1..] == words[1..] + [word];
      WordParamsSnoc(words[1..], word, n);
    }
  }

  /** The replace-until-none-left loop. */
  method FillMarks(template: string, given: seq<string>) returns (r: Option<string>, replaced: nat)
    requires Marks(template) >= |given|
    ensures r == FillLoop(template, given)
    ensures r.Some? ==> replaced == Marks(template)
  {
    var where_, params := template, given;
    replaced := 0;
    while '?' in where_
      invariant FillLoop(where_, params) == FillLoop(template, given)
      invariant Marks(where_) >= |params|
      invariant replaced + |params| == |given|
      decreases |params|
    {
      if params == [] {
        return None, replaced;
      }
      MarksAfter(where_, params[0]);
      where_ := ReplaceFirst(where_, "?", params[0]);
      params := params[1..];
      replaced := replaced + 1;
    }
    FillLoopExact(where_, params);
    FillLoopExact(template, given);
    MarksZero(where_);
    r := Some(where_);
  }

  /** `Search`: the columns are changed in place, then the clause is filled in. */
  method Search(search: string, columns: array<string>) returns (r: Option<string>, replaced: nat)
    modifies columns
    ensures search == "" ==> r == Some("deleted_at IS NULL") && columns[..] == old(columns[..])
    ensures search != "" ==>
      && columns[..] == LikeAll(old(columns[..]))
      && r == (if Panics(Split(search, ' '), old(columns[..])) then None
          else Some(DirectClause(Split(search, ' '), old(columns[..]))))
    ensures search != "" && r.Some? ==> replaced == |Split(search, ' ')| * columns.Length
  {
    if search == "" {
      return Some(NOT_DELETED), 0;
    }
    ghost var given := columns[..];
    AppendLike(columns);
    var words := Split(search, ' ');
    var conditions := Conditions(columns, |words|, given);
    var params := ListParams(words, columns.Length);
    TemplateCounts(words, given);
    SearchExact(words, given);
    WordParamsLength(words, |given|);
    TimesIsProduct(|words|, |given|);
    r, replaced := FillMarks(NOT_DELETED + " AND (" + (JoinWith(conditions, " AND ") + ")"), params);
  }

  lemma MarksAfter(where_: string, value: string)
    requires '?' in where_
    ensures Marks(ReplaceFirst(where_, "?", value)) == Marks(where_) - 1 + Marks(value)
  {
    var a, b := FirstMark(where_);
    ReplaceMark(a, b, value);
  }

  lemma {:induction false} RepeatSnoc(v: string, n: nat)
    ensures Repeat(v, n + 1) == Repeat(v, n) + [v]
  {
    if n > 0 {
      RepeatSnoc(v, n - 1);
    }
  }
}
