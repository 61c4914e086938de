/** The names graphs, ODE solvers and iterators give their values when they
  * lay them out as table columns: the text of the formula's comment, which
  * is the part after its first `'`, trimmed, with every white-space
  * character turned into `_`; a formula without a comment is named by its
  * own text. */
module ColumnNames {
  import opened Wrappers
  import opened Strs

  /** `s.replace(/\s/g, '_')`. */
  function Underscored(s: string): (r: string)
    ensures |r| == |s|
    ensures forall i :: 0 <= i < |s| ==> r[i] == if IsSpace(s[i]) then '_' else s[i]
  {
    if s == [] then [] else [if IsSpace(s[0]) then '_' else s[0]] + Underscored(s[1..])
  }

  lemma {:induction false} QuoteCounted(s: string)
    ensures Count(s, '\'') > 0 <==> '\'' in s
  {
    if s != [] {
      QuoteCounted(s[1..]);
      assert s == [s[0]] + s[1..];
    }
  }

  /** The name the comment of a formula gives: defined exactly when the
    * formula has a `'`, and then free of white space and of quotes. */
  function CommentName(formula: string): (r: Option<string>)
    ensures r.Some? <==> '\'' in formula
    ensures r.Some? ==> forall i :: 0 <= i < |r.value| ==> !IsSpace(r.value[i]) && r.value[i] != '\''
  {
    var parts := Split(formula, '\'');
    SplitLength(formula, '\'');
    QuoteCounted(formula);
    if |parts| > 1 then
      var p := parts[1];
      var t := TrimStart(p);
      var u := TrimEnd(t);
      assert forall i :: 0 <= i < |u| ==> u[i] == p[|p| - |t| + i];
      Some(Underscored(u))
    else None
  }

  /** `columnNameForAxis` and `columnNameForRecorded`: the comment's name,
    * else the formula's own text unless only a comment will do. */
  function ColumnName(formula: string, commentOnly: bool): (r: Option<string>)
    ensures r.None? <==> commentOnly && '\'' !in formula
    ensures '\'' !in formula && !commentOnly ==> r == Some(formula)
    ensures '\'' in formula ==> r == CommentName(formula)
  {
    var comment := CommentName(formula);
    if comment.Some? then comment else if commentOnly then None else Some(formula)
  }

  /** The comment is the text between the first quote and the next one (or
    * the end): its name is that text trimmed and underscored, whatever
    * comes after. */
  lemma CommentBetweenQuotes(code: string, comment: string, rest: string)
    requires '\'' !in code && '\'' !in comment
    requires rest == [] || rest[0] == '\''
    ensures CommentName(code + "'" + comment + rest) == Some(Underscored(Trim(comment)))
  {
    var s := code + "'" + comment + rest;
    assert s == code + ['\''] + (comment + rest);
    SplitPrefix(code, comment + rest, '\'');
    if rest == [] {
      assert comment + rest == comment;
      SplitNoSep(comment, '\'');
    } else {
      assert comment + rest == comment + ['\''] + rest[1..];
      SplitPrefix(comment, rest[1..], '\'');
    }
    assert Split(s, '\'')[1] == comment;
  }

  /** A comment whose words are separated by single spaces is named by
    * those words joined with `_`. */
  lemma CommentWordsJoined(code: string, a: string, b: string)
    requires '\'' !in code && '\'' !in a && '\'' !in b
    requires a != [] && b != [] && forall i :: 0 <= i < |a| ==> !IsSpace(a[i])
    requires forall i :: 0 <= i < |b| ==> !IsSpace(b[i])
    ensures CommentName(code + "'" + a + " " + b) == Some(a + "_" + b)
  {
    var comment := a + " " + b;
    assert code + "'" + a + " " + b == code + "'" + comment + [];
    CommentBetweenQuotes(code, comment, []);
    assert comment[0] == a[0] && comment[|comment| - 1] == b[|b| - 1];
    TrimKeepsInner(comment);
    UnderscoredJoin(a, b);
  }

  lemma {:induction false} UnderscoredPlain(s: string)
    requires forall i :: 0 <= i < |s| ==> !IsSpace(s[i])
    ensures Underscored(s) == s
  {
    if s != [] {
      UnderscoredPlain(s[1..]);
      assert s == [s[0]] + s[1..];
    }
  }

  lemma {:induction false} UnderscoredConcat(a: string, b: string)
    ensures Underscored(a + b) == Underscored(a) + Underscored(b)
  {
    var whole := Underscored(a + b);
    var parts := Underscored(a) + Underscored(b);
    forall i | 0 <= i < |whole|
      ensures whole[i] == parts[i]
    {
      if i < |a| {
        assert (a + b)[i] == a[i];
        assert parts[i] == Underscored(a)[i];
      } else {
        assert (a + b)[i] == b[i - |a|];
        assert parts[i] == Underscored(b)[i - |a|];
      }
    }
    assert |whole| == |parts|;
  }

  lemma UnderscoredJoin(a: string, b: string)
    requires forall i :: 0 <= i < |a| ==> !IsSpace(a[i])
    requires forall i :: 0 <= i < |b| ==> !IsSpace(b[i])
    ensures Underscored(a + " " + b) == a + "_" + b
  {
    UnderscoredConcat(a + " ", b);
    UnderscoredConcat(a, " ");
    UnderscoredPlain(a);
    UnderscoredPlain(b);
    assert Underscored(" ") == "_";
  }
}
