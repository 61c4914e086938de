/** The text handling the two command interpreters share, character for
  * character: picking the next term of a command, splitting a script into
  * command lines with `;` separators and `_` line continuation, splitting an
  * argument string into words, and the default `sort` of names. */
module CommandText {
  import opened Strs

  predicate IsQuote(c: char) { c == '\'' || c == '"' }

  predicate Trimmed(s: string)
  {
    s == [] || (!IsSpace(s[0]) && !IsSpace(s[|s| - 1]))
  }

  /** `c` occurs nowhere in `s`. */
  predicate Lacks(s: string, c: char)
  {
    forall i :: 0 <= i < |s| ==> s[i] != c
  }

  predicate NoSpace(s: string)
  {
    forall i :: 0 <= i < |s| ==> !IsSpace(s[i])
  }

  /** Text trimmed of white space at both ends, as `getNextTerm` trims each
    * term it returns. */
  function Term(s: string): (r: string)
    ensures Trimmed(r) && |r| <= |s|
    ensures Trimmed(s) ==> r == s
    ensures Lacks(s, ' ') ==> Lacks(r, ' ')
  {
    TrimTrimmed(s);
    if Lacks(s, ' ') then TrimNoChar(s, ' '); Trim(s) else Trim(s)
  }

  lemma TrimTrimmed(s: string)
    ensures Trimmed(s) ==> Trim(s) == s
  {
    if Trimmed(s) { TrimKeepsInner(s); }
  }

  /** Trimming removes characters without adding any. */
  lemma TrimNoChar(s: string, c: char)
    requires Lacks(s, c)
    ensures Lacks(Trim(s), c)
  {
    var t := TrimStart(s);
    SliceLacks(s, |s| - |t|, |s|, c);
    var r := TrimEnd(t);
    SliceLacks(t, 0, |r|, c);
  }

  lemma SliceLacks(s: string, i: nat, j: nat, c: char)
    requires Lacks(s, c) && i <= j <= |s|
    ensures Lacks(s[i..j], c)
  {
    forall k | 0 <= k < j - i ensures s[i..j][k] != c {
      assert s[i..j][k] == s[i + k];
    }
  }

  /** A space in front of trimmed text is trimmed away. */
  lemma TermAfterSpace(rest: string)
    requires Trimmed(rest)
    ensures Term(" " + rest) == rest
  {
    var s := " " + rest;
    assert s[0] == ' ' && IsSpace(s[0]);
    assert s[1..] == rest;
    assert TrimStart(s) == TrimStart(s[1..]);
    assert TrimStart(rest) == rest;
    assert TrimEnd(rest) == rest;
    assert Trim(s) == rest;
  }

  /** `getNextTerm(expression)`: a quoted first term runs to the matching
    * quote, an unquoted one to the first space; the result has one element
    * only when the opening quote is never closed, and an unquoted expression
    * without a space has an empty rest. */
  function NextTerm(expression: string): (r: seq<string>)
    ensures |r| == 1 || |r| == 2
    ensures Trimmed(r[0]) && (|r| == 2 ==> Trimmed(r[1]))
    ensures |r| == 1 <==> Unterminated(Term(expression))
    ensures !StartsWithQuote(Term(expression)) ==> Lacks(r[0], ' ')
  {
    var e := Term(expression);
    if StartsWithQuote(e) then QuotedTerm(e) else SpacedTerm(e)
  }

  predicate StartsWithQuote(e: string)
  {
    e != [] && IsQuote(e[0])
  }

  /** An opening quote with no matching quote after it. */
  predicate Unterminated(e: string)
  {
    StartsWithQuote(e) && forall j :: 1 <= j < |e| ==> e[j] != e[0]
  }

  function QuotedTerm(e: string): (r: seq<string>)
    requires StartsWithQuote(e)
    ensures |r| == 1 || |r| == 2
    ensures Trimmed(r[0]) && (|r| == 2 ==> Trimmed(r[1]))
    ensures |r| == 1 <==> Unterminated(e)
  {
    var close := IndexOf(e, e[0], 1);
    if close >= 0 then TermPair(e[1..close], e[close + 1..])
    else [Term(e[1..])]
  }

  /** The two trimmed terms on either side of a split point. */
  function TermPair(a: string, b: string): (r: seq<string>)
    ensures |r| == 2 && Trimmed(r[0]) && Trimmed(r[1])
    ensures Lacks(a, ' ') ==> Lacks(r[0], ' ')
  {
    [Term(a), Term(b)]
  }

  function SpacedTerm(e: string): (r: seq<string>)
    requires !StartsWithQuote(e)
    ensures |r| == 2
    ensures Trimmed(e) ==> Trimmed(r[0]) && Trimmed(r[1])
    ensures Lacks(r[0], ' ')
    ensures !Unterminated(e)
  {
    var space := IndexOf(e, ' ', 0);
    if space >= 0 then
      TermPair(e[..space], e[space + 1..])
    else
      [e, ""]
  }

  /** An unquoted word followed by a space and trimmed text splits there. */
  lemma NextTermOfWord(w: string, rest: string)
    requires w != [] && NoSpace(w) && !IsQuote(w[0])
    requires rest != [] && Trimmed(rest)
    ensures NextTerm(w + " " + rest) == [w, rest]
  {
    var e := w + " " + rest;
    assert Trimmed(e) by {
      assert e[0] == w[0] && e[|e| - 1] == rest[|rest| - 1];
    }
    assert e[|w|] == ' ';
    forall i | 0 <= i < |w|
      ensures e[i] != ' '
    {
      assert e[i] == w[i];
    }
    IndexOfFirst(e, ' ', |w|);
    assert e[..|w|] == w && e[|w| + 1..] == rest;
    assert Trimmed(w);
  }

  /** A word alone is the verb with an empty rest. */
  lemma NextTermOfLoneWord(w: string)
    requires w != [] && NoSpace(w) && !IsQuote(w[0])
    ensures NextTerm(w) == [w, ""]
  {
    assert Term(w) == w;
    assert IndexOf(w, ' ', 0) == -1;
  }

  /** Quoting a term that contains spaces gives it back whole. */
  lemma NextTermQuoted(q: char, a: string, rest: string)
    requires IsQuote(q) && Lacks(a, q) && Trimmed(a)
    requires rest != [] && Trimmed(rest)
    ensures NextTerm([q] + a + [q] + " " + rest) == [a, rest]
  {
    var e := [q] + a + [q] + " " + rest;
    assert e[0] == q && e[|e| - 1] == rest[|rest| - 1];
    assert e[|a| + 1] == q;
    assert e[1..|a| + 1] == a;
    assert e[|a| + 2..] == " " + rest;
    QuotedAt(e, q, a, rest);
  }

  lemma QuotedAt(e: string, q: char, a: string, rest: string)
    requires IsQuote(q) && Lacks(a, q) && Trimmed(a) && Trimmed(rest)
    requires |e| == |a| + 3 + |rest| && e[0] == q && e[|a| + 1] == q && Trimmed(e)
    requires e[1..|a| + 1] == a && e[|a| + 2..] == " " + rest
    ensures NextTerm(e) == [a, rest]
  {
    TrimmedQuoted(e);
    assert IndexOf(e, q, 1) == |a| + 1 by {
      forall i | 1 <= i < |a| + 1 ensures e[i] != q { assert e[i] == e[1..|a| + 1][i - 1]; }
    }
    assert QuotedTerm(e) == TermPair(a, " " + rest);
    TermAfterSpace(rest);
  }

  /** Trimmed text that opens with a quote is read as a quoted term. */
  lemma TrimmedQuoted(e: string)
    requires Trimmed(e) && StartsWithQuote(e)
    ensures NextTerm(e) == QuotedTerm(e)
  {
    assert Term(e) == e;
  }

  /** An opening quote that is never closed leaves one term and no rest. */
  lemma NextTermUnterminated(q: char, a: string)
    requires IsQuote(q) && Lacks(a, q) && Trimmed(a)
    ensures NextTerm([q] + a) == [a]
  {
    var e := [q] + a;
    assert e[0] == q && e[|e| - 1] == (if a == [] then q else a[|a| - 1]);
    assert Term(e) == e;
    assert e[1..] == a;
    assert IndexOf(e, q, 1) == -1 by {
      forall j | 1 <= j < |e| ensures e[j] != q { assert e[j] == a[j - 1]; }
    }
  }

  // ---------------------------------------------------------------------
  // Splitting an argument string into words

  /** The first position at or after `from` where `%` is followed by `s`. */
  function PercentS(s: string, from: nat): (r: int)
    decreases |s| - from
    ensures r == -1 || (from <= r && r + 1 < |s| && s[r] == '%' && s[r + 1] == 's')
  {
    if from + 1 >= |s| then -1
    else if s[from] == '%' && s[from + 1] == 's' then from
    else PercentS(s, from + 1)
  }

  /** The end of the run of `s` characters starting at `i`. */
  function RunOfS(s: string, i: nat): (r: nat)
    requires i <= |s|
    decreases |s| - i
    ensures i <= r <= |s| && (r == |s| || s[r] != 's')
  {
    if i < |s| && s[i] == 's' then RunOfS(s, i + 1) else i
  }

  /** `splitArgsString` as the engine writes it: `args.replace(/%s+/, ' ')`
    * replaces the first literal `%` followed by `s` characters, so runs of
    * white space are left as they are, then the text splits at each space. */
  function SplitArgsAsWritten(args: string): (r: seq<string>)
    ensures |r| >= 1
  {
    var p := PercentS(args, 0);
    var replaced := if p < 0 then args else args[..p] + " " + args[RunOfS(args, p + 1)..];
    Split(replaced, ' ')
  }

  /** Every run of white space reduced to one space. */
  function CollapseSpace(s: string): (r: string)
    decreases |s|
  {
    if s == [] then []
    else if IsSpace(s[0]) then
      var t := TrimStart(s);
      assert |t| < |s|;
      " " + CollapseSpace(t)
    else [s[0]] + CollapseSpace(s[1..])
  }

  /** The reduced text is empty exactly when the text is, is never longer,
    * starts with a space exactly when the text starts with white space, and
    * holds no white space but single plain spaces. */
  lemma {:induction false} CollapseSpaceShape(s: string)
    decreases |s|
    ensures var r := CollapseSpace(s);
            && |r| <= |s| && (r == [] <==> s == [])
            && (s != [] ==> (r[0] == ' ' <==> IsSpace(s[0])))
            && (forall k :: 0 <= k < |r| ==> r[k] == ' ' || !IsSpace(r[k]))
            && (forall k :: 0 <= k < |r| - 1 ==> !(r[k] == ' ' && r[k + 1] == ' '))
  {
    if s != [] {
      if IsSpace(s[0]) {
        var t := TrimStart(s);
        assert |t| < |s|;
        CollapseSpaceShape(t);
        var c := CollapseSpace(t);
        assert CollapseSpace(s) == " " + c;
        assert c != [] ==> c[0] != ' ';
      } else {
        CollapseSpaceShape(s[1..]);
        assert CollapseSpace(s) == [s[0]] + CollapseSpace(s[1..]);
      }
    }
  }

  /** `splitArgsString` with the white-space reduction its comment describes:
    * every run of white space separates two words. */
  function SplitArgs(args: string): (r: seq<string>)
    ensures |r| >= 1
    ensures forall k :: 0 <= k < |r| ==> Lacks(r[k], ' ')
  {
    Split(CollapseSpace(args), ' ')
  }

  lemma {:induction false} CollapseNoSpace(s: string)
    requires NoSpace(s)
    ensures CollapseSpace(s) == s
  {
    if s != [] {
      CollapseNoSpace(s[1..]);
      assert [s[0]] + s[1..] == s;
    }
  }

  lemma {:induction false} CollapseWordThenRest(w: string, t: string)
    requires NoSpace(w)
    ensures CollapseSpace(w + t) == w + CollapseSpace(t)
  {
    if w == [] {
      assert w + t == t;
    } else {
      var s := w + t;
      assert !IsSpace(w[0]);
      assert NoSpace(w[1..]) by { assert forall i :: 0 <= i < |w[1..]| ==> w[1..][i] == w[i + 1]; }
      CollapseWordThenRest(w[1..], t);
      assert s[0] == w[0];
      assert s[1..] == w[1..] + t;
      calc {
        CollapseSpace(s);
        [w[0]] + CollapseSpace(w[1..] + t);
        [w[0]] + (w[1..] + CollapseSpace(t));
        ([w[0]] + w[1..]) + CollapseSpace(t);
        { assert [w[0]] + w[1..] == w; }
        w + CollapseSpace(t);
      }
    }
  }

  lemma GapThenWord(gap: string, b: string)
    requires gap != [] && forall i :: 0 <= i < |gap| ==> IsSpace(gap[i])
    requires b != [] && NoSpace(b)
    ensures CollapseSpace(gap + b) == " " + b
  {
    GapTrimmed(gap, b);
    CollapseNoSpace(b);
  }

  lemma {:induction false} GapTrimmed(gap: string, b: string)
    requires forall i :: 0 <= i < |gap| ==> IsSpace(gap[i])
    requires b != [] && !IsSpace(b[0])
    ensures TrimStart(gap + b) == b
  {
    if gap != [] {
      GapTrimmed(gap[1..], b);
      assert (gap + b)[1..] == gap[1..] + b;
    } else {
      assert gap + b == b;
    }
  }

  /** Two words separated by any run of white space are two arguments. */
  lemma SplitArgsGap(a: string, gap: string, b: string)
    requires a != [] && NoSpace(a) && b != [] && NoSpace(b)
    requires gap != [] && forall i :: 0 <= i < |gap| ==> IsSpace(gap[i])
    ensures SplitArgs(a + gap + b) == [a, b]
  {
    assert a + gap + b == a + (gap + b);
    CollapseWordThenRest(a, gap + b);
    GapThenWord(gap, b);
    assert CollapseSpace(a + gap + b) == a + [' '] + b;
    SplitPrefix(a, b, ' ');
    SplitNoSep(b, ' ');
  }

  /** Non-empty words joined by single spaces split back into the same words. */
  lemma SplitArgsJoin(words: seq<string>)
    requires |words| >= 1
    requires forall k :: 0 <= k < |words| ==> words[k] != [] && NoSpace(words[k])
    ensures SplitArgs(Join(words, ' ')) == words
  {
    CollapseJoin(words);
    SplitJoin(words, ' ');
  }

  lemma {:induction false} CollapseJoin(words: seq<string>)
    requires |words| >= 1
    requires forall k :: 0 <= k < |words| ==> words[k] != [] && NoSpace(words[k])
    ensures CollapseSpace(Join(words, ' ')) == Join(words, ' ')
  {
    if |words| == 1 {
      CollapseNoSpace(words[0]);
    } else {
      var j := Join(words[1..], ' ');
      CollapseJoin(words[1..]);
      assert j[..|words[1]|] == words[1] by { JoinStartsWithFirst(words[1..]); }
      assert j[0] == words[1][0];
      GapTrimmed(" ", j);
      assert words[0] + [' '] + j == words[0] + (" " + j);
      CollapseWordThenRest(words[0], " " + j);
    }
  }

  lemma JoinStartsWithFirst(words: seq<string>)
    requires |words| >= 1
    ensures |Join(words, ' ')| >= |words[0]| && Join(words, ' ')[..|words[0]|] == words[0]
  {
    if |words| > 1 {
      assert Join(words, ' ') == words[0] + ([' '] + Join(words[1..], ' '));
    }
  }

  /** Two spaces between words give an empty middle argument as written,
    * and two arguments once white space is reduced. */
  lemma DoubleSpaceCounterexample()
    ensures SplitArgsAsWritten("_x  y") == ["_x", "", "y"]
    ensures SplitArgs("_x  y") == ["_x", "y"]
  {
    DoubleSpaceAsWritten();
    assert "_x" + "  " + "y" == "_x  y";
    SplitArgsGap("_x", "  ", "y");
  }

  lemma DoubleSpaceAsWritten()
    ensures SplitArgsAsWritten("_x  y") == ["_x", "", "y"]
  {
    assert PercentS("_x  y", 0) == -1;
    assert "_x  y" == "_x" + [' '] + ("" + [' '] + "y");
    SplitPrefix("_x", "" + [' '] + "y", ' ');
    SplitPrefix("", "y", ' ');
    SplitNoSep("y", ' ');
  }

  // ---------------------------------------------------------------------
  // Splitting a script into commands

  /** The first `;` at or after `from` with a character other than `;` on
    * each side: where the pattern `([^;]);([^;])` first matches. */
  function LoneSemicolon(s: string, from: nat): (r: int)
    decreases |s| - from
    ensures r == -1 || (from <= r && 0 < r < |s| - 1 && s[r] == ';' && s[r - 1] != ';' && s[r + 1] != ';')
  {
    if from + 1 >= |s| then -1
    else if from > 0 && s[from] == ';' && s[from - 1] != ';' && s[from + 1] != ';' then from
    else LoneSemicolon(s, from + 1)
  }

  /** The first `;;` at or after `from`. */
  function DoubleSemicolon(s: string, from: nat): (r: int)
    decreases |s| - from
    ensures r == -1 || (from <= r && r + 1 < |s| && s[r] == ';' && s[r + 1] == ';')
  {
    if from + 1 >= |s| then -1
    else if s[from] == ';' && s[from + 1] == ';' then from
    else DoubleSemicolon(s, from + 1)
  }

  /** The separator rewriting of `processCommandString` as written: without
    * the `g` flag each `replace` acts on the first match only, so only the
    * first lone `;` becomes a line break and only the first `;;` becomes `;`. */
  function SeparateAsWritten(s: string): (r: string)
    ensures |r| <= |s|
    ensures Lacks(s, ';') ==> r == s
  {
    var i := LoneSemicolon(s, 0);
    var t := if i < 0 then s else s[..i] + "\n" + s[i + 1..];
    var j := DoubleSemicolon(t, 0);
    if j < 0 then t else t[..j] + t[j + 1..]
  }

  /** The separator rewriting its comment describes: every `;` separates two
    * commands, and `;;` stands for one literal `;`. */
  function Separate(s: string): (r: string)
  {
    if s == [] then []
    else if s[0] == ';' && |s| >= 2 && s[1] == ';' then ";" + Separate(s[2..])
    else if s[0] == ';' then "\n" + Separate(s[1..])
    else [s[0]] + Separate(s[1..])
  }

  /** A character other than `;` is kept as it is. */
  lemma SeparateKeeps(c: char, rest: string)
    requires c != ';'
    ensures Separate([c] + rest) == [c] + Separate(rest)
  {
    assert ([c] + rest)[1..] == rest;
  }

  lemma {:induction false} SeparatePlain(a: string, t: string)
    requires Lacks(a, ';')
    ensures Separate(a + t) == a + Separate(t)
  {
    if a == [] {
      assert a + t == t;
    } else {
      SeparatePlain(a[1..], t);
      assert a + t == [a[0]] + (a[1..] + t);
      SeparateKeeps(a[0], a[1..] + t);
      assert [a[0]] + (a[1..] + Separate(t)) == a + Separate(t);
    }
  }

  /** Commands joined with `;` come apart at each `;`. */
  lemma {:induction false} SeparateJoin(cmds: seq<string>)
    requires |cmds| >= 1
    requires forall k :: 0 <= k < |cmds| ==> cmds[k] != [] && Lacks(cmds[k], ';')
    ensures Separate(Join(cmds, ';')) == Join(cmds, '\n')
  {
    if |cmds| == 1 {
      SeparatePlain(cmds[0], []);
      assert cmds[0] + [] == cmds[0];
    } else {
      var j := Join(cmds[1..], ';');
      SeparateJoin(cmds[1..]);
      JoinStartsWith(cmds[1..], ';');
      assert j[0] == cmds[1][0] && j[0] != ';';
      var t := [';'] + j;
      assert t[1..] == j;
      assert Separate(t) == "\n" + Separate(j);
      assert Join(cmds, ';') == cmds[0] + t;
      SeparatePlain(cmds[0], t);
    }
  }

  lemma JoinStartsWith(words: seq<string>, sep: char)
    requires |words| >= 1
    ensures |Join(words, sep)| >= |words[0]| && Join(words, sep)[..|words[0]|] == words[0]
  {
    if |words| > 1 {
      assert Join(words, sep) == words[0] + ([sep] + Join(words[1..], sep));
    }
  }

  /** Commands separated by `;` become lines of their own. */
  lemma SeparatedLines(cmds: seq<string>)
    requires |cmds| >= 1
    requires forall k :: 0 <= k < |cmds| ==> cmds[k] != [] && Lacks(cmds[k], ';') && Lacks(cmds[k], '\n')
    ensures Split(Separate(Join(cmds, ';')), '\n') == cmds
  {
    SeparateJoin(cmds);
    forall k | 0 <= k < |cmds| ensures '\n' !in cmds[k] {
      assert Lacks(cmds[k], '\n');
    }
    SplitJoin(cmds, '\n');
  }

  /** Three commands separated by `;`: as written the second separator stays. */
  lemma SemicolonCounterexample()
    ensures Split(SeparateAsWritten("a;b;c"), '\n') == ["a", "b;c"]
    ensures Split(Separate("a;b;c"), '\n') == ["a", "b", "c"]
  {
    SemicolonAsWritten();
    SemicolonSeparated();
  }

  /** The corrected rewriting of `a;b;c`: three lines. */
  lemma SemicolonSeparated()
    ensures Split(Separate("a;b;c"), '\n') == ["a", "b", "c"]
  {
    var cmds := ["a", "b", "c"];
    forall k | 0 <= k < |cmds|
      ensures cmds[k] != [] && Lacks(cmds[k], ';') && Lacks(cmds[k], '\n')
    {
      assert |cmds[k]| == 1;
    }
    assert cmds[1..] == ["b", "c"] && cmds[1..][1..] == ["c"];
    assert Join(["b", "c"], ';') == "b" + ";" + "c";
    assert Join(cmds, ';') == "a" + ";" + "b;c";
    SeparatedLines(cmds);
  }

  lemma SemicolonAsWritten()
    ensures Split(SeparateAsWritten("a;b;c"), '\n') == ["a", "b;c"]
  {
    assert LoneSemicolon("a;b;c", 0) == 1;
    var t := "a\nb;c";
    assert "a;b;c"[..1] + "\n" + "a;b;c"[2..] == t;
    assert DoubleSemicolon(t, 0) == -1;
    assert t == "a" + ['\n'] + "b;c";
    SplitPrefix("a", "b;c", '\n');
    SplitNoSep("b;c", '\n');
  }

  // ---------------------------------------------------------------------
  // Line continuation

  /** The commands a script's lines make, and a continued command left open
    * after the last line. */
  datatype Script = Script(commands: seq<string>, continued: string)

  predicate EndsWithUnderscore(s: string)
  {
    |s| >= 1 && s[|s| - 1] == '_'
  }

  predicate EndsWithTwoUnderscores(s: string)
  {
    |s| >= 2 && s[|s| - 2] == '_' && s[|s| - 1] == '_'
  }

  function NonBlank(cmd: string): (r: seq<string>)
    ensures r == [] <==> cmd == []
  {
    if |cmd| > 0 then [cmd] else []
  }

  /** One pass of the loop of `processCommandString` over the lines of a
    * script, apart from running the command: with line continuation a line
    * ending in `_` is joined to the next with a line break, one ending in
    * `__` keeps one `_` and is complete, and blank commands are skipped. */
  function Extend(a: Script, line: string, continuation: bool): (r: Script)
    ensures NoBlank(a.commands) ==> NoBlank(r.commands)
    ensures !continuation ==> r.continued == ""
    ensures a.commands <= r.commands
  {
    var cmd := a.continued + Term(line);
    if !continuation then Script(a.commands + NonBlank(cmd), "")
    else if EndsWithTwoUnderscores(cmd) then Script(a.commands + NonBlank(cmd[..|cmd| - 1]), "")
    else if EndsWithUnderscore(cmd) then Script(a.commands, cmd[..|cmd| - 1] + "\n")
    else Script(a.commands + NonBlank(cmd), "")
  }

  predicate NoBlank(cmds: seq<string>)
  {
    forall k :: 0 <= k < |cmds| ==> cmds[k] != []
  }

  /** The commands the lines of a script make, in order, and the continued
    * command left open after the last line. */
  function Assemble(lines: seq<string>, continuation: bool): (r: Script)
    decreases |lines|
    ensures !continuation ==> r.continued == ""
    ensures NoBlank(r.commands)
  {
    if lines == [] then Script([], "")
    else Extend(Assemble(lines[..|lines| - 1], continuation), lines[|lines| - 1], continuation)
  }

  lemma AssembleTwo(x: string, y: string, continuation: bool)
    ensures Assemble([x, y], continuation)
            == Extend(Extend(Script([], ""), x, continuation), y, continuation)
  {
    var lines := [x, y];
    assert lines[..1] == [x] && lines[1] == y;
    AssembleOne(x, continuation);
  }

  lemma AssembleOne(x: string, continuation: bool)
    ensures Assemble([x], continuation) == Extend(Script([], ""), x, continuation)
  {
    var one: seq<string> := [x];
    assert one[..0] == [];
  }

  /** The non-blank trimmed lines, in order. */
  function NonBlankTerms(lines: seq<string>): (r: seq<string>)
    decreases |lines|
  {
    if lines == [] then []
    else NonBlankTerms(lines[..|lines| - 1]) + NonBlank(Term(lines[|lines| - 1]))
  }

  /** Without line continuation every non-blank line is one command. */
  lemma {:induction false} AssembleWithoutContinuation(lines: seq<string>)
    ensures Assemble(lines, false) == Script(NonBlankTerms(lines), "")
  {
    if lines != [] {
      AssembleWithoutContinuation(lines[..|lines| - 1]);
      var last := Term(lines[|lines| - 1]);
      assert "" + last == last;
    }
  }

  /** When no line ends in `_`, continuation changes nothing. */
  lemma {:induction false} AssembleWithoutUnderscores(lines: seq<string>)
    requires forall k :: 0 <= k < |lines| ==> !EndsWithUnderscore(Term(lines[k]))
    ensures Assemble(lines, true) == Script(NonBlankTerms(lines), "")
  {
    if lines != [] {
      AssembleWithoutUnderscores(lines[..|lines| - 1]);
      var last := Term(lines[|lines| - 1]);
      assert "" + last == last;
    }
  }

  /** A line ending in `_` is joined to the next line with a line break. */
  lemma ContinuedLine(a: string, b: string)
    requires a != [] && Trimmed(a) && a[|a| - 1] != '_'
    requires b != [] && Trimmed(b) && b[|b| - 1] != '_'
    ensures Assemble([a + "_", b], true) == Script([a + "\n" + b], "")
  {
    AssembleTwo(a + "_", b, true);
    TrailingStep(a);
    var cmd := a + "\n" + b;
    assert Term(b) == b;
    assert cmd[|cmd| - 1] == b[|b| - 1];
  }

  lemma TrailingStep(a: string)
    requires a != [] && Trimmed(a) && a[|a| - 1] != '_'
    ensures Extend(Script([], ""), a + "_", true) == Script([], a + "\n")
  {
    var line := a + "_";
    assert line[0] == a[0] && line[|line| - 1] == '_';
    WholeLine(line);
    var cmd := "" + Term(line);
    assert !EndsWithTwoUnderscores(cmd) by { assert cmd[|cmd| - 2] == a[|a| - 1]; }
    assert EndsWithUnderscore(cmd);
    assert cmd[..|cmd| - 1] == a;
  }

  /** A trimmed line read with nothing continued is the command text itself. */
  lemma WholeLine(line: string)
    requires Trimmed(line)
    ensures "" + Term(line) == line
  {
  }

  /** A last line ending in `_` leaves a continued command behind. */
  lemma TrailingContinuation(a: string)
    requires a != [] && Trimmed(a) && a[|a| - 1] != '_'
    ensures Assemble([a + "_"], true) == Script([], a + "\n")
  {
    AssembleOne(a + "_", true);
    TrailingStep(a);
  }

  /** A line ending in `__` is complete and keeps one `_`. */
  lemma EscapedUnderscore(a: string)
    requires Trimmed(a)
    ensures Assemble([a + "__"], true) == Script([a + "_"], "")
  {
    AssembleOne(a + "__", true);
    EscapedStep(a);
  }

  lemma EscapedStep(a: string)
    requires Trimmed(a)
    ensures Extend(Script([], ""), a + "__", true) == Script([a + "_"], "")
  {
    var line := a + "__";
    TwoUnderscores(a);
    assert line[0] == (if a == [] then '_' else a[0]) && line[|line| - 1] == '_';
    WholeLine(line);
    ExtendEscaped(line, a + "_");
  }

  lemma TwoUnderscores(a: string)
    ensures a + "__" == (a + "_") + "_"
  {
    assert |a + "__"| == |(a + "_") + "_"|;
    forall i | 0 <= i < |a + "__"| ensures (a + "__")[i] == ((a + "_") + "_")[i] {
    }
  }

  /** A command text ending in `__` is complete without its last `_`. */
  lemma ExtendEscaped(line: string, kept: string)
    requires "" + Term(line) == kept + "_" && kept != [] && kept[|kept| - 1] == '_'
    ensures Extend(Script([], ""), line, true) == Script([kept], "")
  {
    CompletedCommand("" + Term(line), kept);
  }

  lemma CompletedCommand(cmd: string, kept: string)
    requires cmd == kept + "_" && kept != [] && kept[|kept| - 1] == '_'
    ensures EndsWithTwoUnderscores(cmd) && NonBlank(cmd[..|cmd| - 1]) == [kept]
  {
    assert cmd[|cmd| - 2] == '_';
    assert cmd[..|cmd| - 1] == kept;
  }

  /** A blank line adds no command and ends no continuation early. */
  lemma BlankLine(lines: seq<string>, blank: string)
    requires Term(blank) == [] && Assemble(lines, true).continued == ""
    ensures Assemble(lines + [blank], true) == Assemble(lines, true)
  {
    var all := lines + [blank];
    assert all[..|all| - 1] == lines;
    assert "" + [] == "";
  }

  /** The commands a whole script text makes, before any of them runs:
    * trimmed, separated at `;` and split into lines. */
  function ScriptLines(commands: string): (r: seq<string>)
    ensures Term(commands) == [] ==> r == []
    ensures forall k :: 0 <= k < |r| ==> '\n' !in r[k]
    ensures Term(commands) != [] && Lacks(Term(commands), ';') && '\n' !in Term(commands) ==> r == [Term(commands)]
  {
    var t := Term(commands);
    if |t| == 0 then []
    else
      assert Lacks(t, ';') && '\n' !in t ==> Split(Separate(t), '\n') == [t] by {
        if Lacks(t, ';') && '\n' !in t {
          SeparatePlain(t, []);
          assert t + [] == t;
          SplitNoSep(t, '\n');
        }
      }
      Split(Separate(t), '\n')
  }

  // ---------------------------------------------------------------------
  // The default `sort` of names

  /** `a` sorts no later than `b`: character codes compared in order, a
    * prefix first. */
  predicate Below(a: string, b: string)
    decreases |a|
  {
    a == [] || (b != [] && (a[0] < b[0] || (a[0] == b[0] && Below(a[1..], b[1..]))))
  }

  lemma {:induction false} BelowTotal(a: string, b: string)
    ensures Below(a, b) || Below(b, a)
    decreases |a|
  {
    if a != [] && b != [] && a[0] == b[0] {
      BelowTotal(a[1..], b[1..]);
    }
  }

  lemma {:induction false} BelowAntisymmetric(a: string, b: string)
    requires Below(a, b) && Below(b, a)
    ensures a == b
    decreases |a|
  {
    if a != [] {
      BelowAntisymmetric(a[1..], b[1..]);
      assert a == [a[0]] + a[1..] && b == [b[0]] + b[1..];
    }
  }

  lemma {:induction false} BelowTransitive(a: string, b: string, c: string)
    requires Below(a, b) && Below(b, c)
    ensures Below(a, c)
    decreases |a|
  {
    if a != [] && a[0] == b[0] && b[0] == c[0] {
      BelowTransitive(a[1..], b[1..], c[1..]);
    }
  }

  lemma AntisymmetricAll()
    ensures forall a, b :: Below(a, b) && Below(b, a) ==> a == b
  {
    forall a, b | Below(a, b) && Below(b, a) ensures a == b {
      BelowAntisymmetric(a, b);
    }
  }

  lemma {:induction false} LeastExists(names: set<string>)
    requires names != {}
    ensures exists m :: m in names && forall x :: x in names ==> Below(m, x)
    decreases |names|
  {
    var y :| y in names;
    if names == {y} {
      var l := ExtendLeast({}, y, y);
    } else {
      var rest := names - {y};
      LeastExists(rest);
      var m :| m in rest && forall x :: x in rest ==> Below(m, x);
      var l := ExtendLeast(rest, m, y);
      assert rest + {y} == names;
    }
  }

  /** The first of a set and one more name sorts first in the larger set,
    * or that name does. */
  lemma ExtendLeast(rest: set<string>, m: string, y: string) returns (l: string)
    requires m == y || m in rest
    requires forall x :: x in rest ==> Below(m, x)
    ensures l in rest + {y} && forall x :: x in rest + {y} ==> Below(l, x)
  {
    BelowTotal(m, y);
    if Below(m, y) {
      l := m;
    } else {
      l := y;
      forall x | x in rest + {y} ensures Below(y, x) {
        if x != y { BelowTransitive(y, m, x); } else { BelowTotal(y, y); }
      }
    }
  }

  /** The name that sorts first. */
  function Least(names: set<string>): (m: string)
    requires names != {}
    ensures m in names && forall x :: x in names ==> Below(m, x)
  {
    LeastExists(names);
    AntisymmetricAll();
    var m :| m in names && forall x :: x in names ==> Below(m, x); m
  }

  predicate Ascending(r: seq<string>)
  {
    forall i, j :: 0 <= i < j < |r| ==> Below(r[i], r[j]) && r[i] != r[j]
  }

  /** `names.sort()` on distinct names: every name once, in ascending order. */
  function SortedSet(names: set<string>): (r: seq<string>)
    decreases |names|
    ensures |r| == |names|
    ensures forall x :: x in names <==> x in r
    ensures Ascending(r)
  {
    if names == {} then []
    else
      var m := Least(names);
      var rest := SortedSet(names - {m});
      ConsSorted(m, rest, names);
      [m] + rest
  }

  /** The first name followed by the sorted others lists the names in
    * ascending order. */
  lemma ConsSorted(m: string, rest: seq<string>, names: set<string>)
    requires m in names && forall x :: x in names ==> Below(m, x)
    requires |rest| == |names - {m}| && (forall x :: x in names - {m} <==> x in rest) && Ascending(rest)
    ensures |[m] + rest| == |names| && (forall x :: x in names <==> x in [m] + rest) && Ascending([m] + rest)
  {
    assert |names| == |names - {m}| + 1;
    forall x ensures x in names <==> x in [m] + rest {
      if x != m {
        assert x in [m] + rest <==> x in rest;
      }
    }
    forall y | y in rest ensures Below(m, y) && y != m {
      assert y in names - {m};
    }
    ConsAscending(m, rest);
  }

  lemma ConsAscending(m: string, rest: seq<string>)
    requires Ascending(rest) && forall y :: y in rest ==> Below(m, y) && y != m
    ensures Ascending([m] + rest)
  {
    var r := [m] + rest;
    forall i, j | 0 <= i < j < |r| ensures Below(r[i], r[j]) && r[i] != r[j] {
      assert r[j] == rest[j - 1] && rest[j - 1] in rest;
      if i > 0 {
        assert r[i] == rest[i - 1];
      }
    }
  }

  /** Sorting is determined by the names alone: any ascending listing of the
    * same names is the sorted one. */
  lemma {:induction false} AscendingUnique(r: seq<string>, names: set<string>)
    requires Ascending(r) && forall x :: x in names <==> x in r
    ensures r == SortedSet(names)
    decreases |r|
  {
    if r == [] {
      assert names == {};
    } else {
      assert r[0] in r;
      var m := Least(names);
      var k :| 0 <= k < |r| && r[k] == m;
      if k != 0 {
        assert Below(r[0], m);
        BelowAntisymmetric(r[0], m);
      }
      var rest := names - {m};
      forall x ensures x in rest <==> x in r[1..] {
        if x in r[1..] {
          var j :| 0 <= j < |r[1..]| && r[1..][j] == x;
          assert r[j + 1] == x;
        }
        if x in rest {
          var j :| 0 <= j < |r| && r[j] == x;
          assert j != 0;
          assert r[1..][j - 1] == x;
        }
      }
      AscendingUnique(r[1..], rest);
    }
  }
}
