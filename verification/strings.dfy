/** String helpers standing in for the JavaScript string methods the engine
  * calls: `toLowerCase`, `split` on one character, `join`, `trim`, `indexOf`
  * and the decimal rendering of a counter. */
module Strs {

  import opened Wrappers

  predicate IsUpper(c: char) { 'A' <= c <= 'Z' }

  function LowerChar(c: char): (r: char)
    ensures !IsUpper(r)
    ensures !IsUpper(c) ==> r == c
  {
    if IsUpper(c) then (c as int + 32) as char else c
  }

  /** ASCII lower-casing, used for every case-insensitive dictionary key. */
  function Lower(s: string): (r: string)
    ensures |r| == |s|
    ensures forall i :: 0 <= i < |s| ==> r[i] == LowerChar(s[i])
  {
    if s == [] then [] else [LowerChar(s[0])] + Lower(s[1..])
  }

  lemma LowerIdempotent(s: string)
    ensures Lower(Lower(s)) == Lower(s)
  {
    assert forall i :: 0 <= i < |s| ==> LowerChar(LowerChar(s[i])) == LowerChar(s[i]);
  }

  lemma LowerConcat(a: string, b: string)
    ensures Lower(a + b) == Lower(a) + Lower(b)
  {
  }

  predicate IsSpace(c: char) { c == ' ' || c == '\t' || c == '\n' || c == '\r' || c == '\U{C}' || c == '\U{B}' }

  predicate IsDigit(c: char) { '0' <= c <= '9' }

  predicate IsLetter(c: char) { 'a' <= c <= 'z' || 'A' <= c <= 'Z' }

  /** Characters matched by the regular-expression class `\w`. */
  predicate IsWordChar(c: char) { IsLetter(c) || IsDigit(c) || c == '_' }

  function TrimStart(s: string): (r: string)
    ensures |r| <= |s| && r == s[|s| - |r|..]
    ensures r == [] || !IsSpace(r[0])
    ensures forall i :: 0 <= i < |s| - |r| ==> IsSpace(s[i])
  {
    if s != [] && IsSpace(s[0]) then TrimStart(s[1..]) else s
  }

  function TrimEnd(s: string): (r: string)
    ensures |r| <= |s| && r == s[..|r|]
    ensures r == [] || !IsSpace(r[|r| - 1])
    ensures forall i :: |r| <= i < |s| ==> IsSpace(s[i])
  {
    if s != [] && IsSpace(s[|s| - 1]) then TrimEnd(s[..|s| - 1]) else s
  }

  /** `String.prototype.trim`: white space removed at both ends. */
  function Trim(s: string): (r: string)
    ensures |r| <= |s|
    ensures r == [] || (!IsSpace(r[0]) && !IsSpace(r[|r| - 1]))
  {
    TrimEnd(TrimStart(s))
  }

  lemma TrimKeepsInner(s: string)
    requires s == [] || (!IsSpace(s[0]) && !IsSpace(s[|s| - 1]))
    ensures Trim(s) == s
  {
  }

  /** `s.split(sep)` for a one-character separator. */
  function Split(s: string, sep: char): (r: seq<string>)
    ensures |r| >= 1
    ensures forall k :: 0 <= k < |r| ==> sep !in r[k]
  {
    if s == [] then [""]
    else
      var rest := Split(s[1..], sep);
      if s[0] == sep then [""] + rest else [[s[0]] + rest[0]] + rest[1..]
  }

  /** `parts.join(sep)`. */
  function Join(parts: seq<string>, sep: char): (r: string)
    requires |parts| >= 1
  {
    if |parts| == 1 then parts[0] else parts[0] + [sep] + Join(parts[1..], sep)
  }

  /** Splitting and joining again gives back the original text. */
  lemma {:induction false} JoinSplit(s: string, sep: char)
    ensures Join(Split(s, sep), sep) == s
  {
    if s != [] {
      JoinSplit(s[1..], sep);
      var rest := Split(s[1..], sep);
      if s[0] != sep {
        if |rest| > 1 {
          assert Join(rest, sep) == rest[0] + [sep] + Join(rest[1..], sep);
          assert ([[s[0]] + rest[0]] + rest[1..])[1..] == rest[1..];
        }
      }
    }
  }

  /** Joining parts free of the separator and splitting again gives back the parts. */
  lemma {:induction false} SplitJoin(parts: seq<string>, sep: char)
    requires |parts| >= 1
    requires forall k :: 0 <= k < |parts| ==> sep !in parts[k]
    ensures Split(Join(parts, sep), sep) == parts
  {
    if |parts| == 1 {
      SplitNoSep(parts[0], sep);
    } else {
      SplitJoin(parts[1..], sep);
      SplitPrefix(parts[0], Join(parts[1..], sep), sep);
      assert [parts[0]] + parts[1..] == parts;
    }
  }

  lemma {:induction false} SplitNoSep(s: string, sep: char)
    requires sep !in s
    ensures Split(s, sep) == [s]
  {
    if s != [] {
      SplitNoSep(s[1..], sep);
      assert [s[0]] + s[1..] == s;
    }
  }

  lemma {:induction false} SplitPrefix(a: string, b: string, sep: char)
    requires sep !in a
    ensures Split(a + [sep] + b, sep) == [a] + Split(b, sep)
  {
    if a == [] {
      assert a + [sep] + b == [sep] + b;
      assert ([sep] + b)[1..] == b;
    } else {
      SplitPrefix(a[1..], b, sep);
      assert (a + [sep] + b)[1..] == a[1..] + [sep] + b;
      assert [a[0]] + a[1..] == a;
    }
  }

  /** Splitting text that joins `a` and `b` with a separator splits `a` and `b` separately. */
  lemma {:induction false} SplitConcat(a: string, b: string, sep: char)
    ensures Split(a + [sep] + b, sep) == Split(a, sep) + Split(b, sep)
  {
    if a == [] {
      assert [] + [sep] + b == [sep] + b;
      assert ([sep] + b)[1..] == b;
    } else {
      var s := a + [sep] + b;
      SplitConcat(a[1..], b, sep);
      assert s[1..] == a[1..] + [sep] + b;
      SplitCons(a, s, sep, Split(b, sep));
    }
  }

  /** One unfolding of `Split` on two texts with the same first character. */
  lemma {:induction false} SplitCons(a: string, s: string, sep: char, tail: seq<string>)
    requires a != [] && s != [] && a[0] == s[0]
    requires Split(s[1..], sep) == Split(a[1..], sep) + tail
    ensures Split(s, sep) == Split(a, sep) + tail
  {
    var head := Split(a[1..], sep);
    var rest := Split(s[1..], sep);
    if a[0] != sep {
      var x := [s[0]] + head[0];
      assert Split(s, sep) == [x] + rest[1..];
      assert Split(a, sep) == [x] + head[1..];
      ConsAppend(x, head, rest, tail);
    } else {
      assert Split(s, sep) == [""] + rest;
      assert Split(a, sep) == [""] + head;
      assert [""] + (head + tail) == ([""] + head) + tail;
    }
  }

  /** Putting a part in front of the parts after the first. */
  lemma ConsAppend(x: string, head: seq<string>, rest: seq<string>, tail: seq<string>)
    requires |head| >= 1 && rest == head + tail
    ensures [x] + rest[1..] == ([x] + head[1..]) + tail
  {
    assert rest[1..] == head[1..] + tail;
  }

  /** `s.split(/\s/)`: every single white-space character separates two parts. */
  function SplitSpace(s: string): (r: seq<string>)
    ensures |r| >= 1
    ensures forall k :: 0 <= k < |r| ==> forall i :: 0 <= i < |r[k]| ==> !IsSpace(r[k][i])
  {
    if s == [] then [""]
    else
      var rest := SplitSpace(s[1..]);
      if IsSpace(s[0]) then [""] + rest else [[s[0]] + rest[0]] + rest[1..]
  }

  /** Text without white space is one part. */
  lemma {:induction false} SplitSpaceNone(s: string)
    requires forall i :: 0 <= i < |s| ==> !IsSpace(s[i])
    ensures SplitSpace(s) == [s]
  {
    if s != [] {
      SplitSpaceNone(s[1..]);
      assert [s[0]] + s[1..] == s;
    }
  }

  /** A space after a word starts the next part. */
  lemma {:induction false} SplitSpacePrefix(a: string, b: string)
    requires forall i :: 0 <= i < |a| ==> !IsSpace(a[i])
    ensures SplitSpace(a + " " + b) == [a] + SplitSpace(b)
  {
    if a == [] {
      assert a + " " + b == " " + b;
      assert (" " + b)[1..] == b;
    } else {
      SplitSpacePrefix(a[1..], b);
      assert (a + " " + b)[1..] == a[1..] + " " + b;
      assert [a[0]] + a[1..] == a;
    }
  }

  /** `s.split(/\s+/)`: every run of white space separates two parts. */
  function SplitSpaces(s: string): (r: seq<string>)
    ensures |r| >= 1
    ensures forall k :: 0 <= k < |r| ==> forall i :: 0 <= i < |r[k]| ==> !IsSpace(r[k][i])
  {
    if s == [] then [""]
    else
      var rest := SplitSpaces(s[1..]);
      if IsSpace(s[0]) then (if |s| > 1 && IsSpace(s[1]) then rest else [""] + rest)
      else [[s[0]] + rest[0]] + rest[1..]
  }

  /** Text without white space is one part. */
  lemma {:induction false} SplitSpacesNone(s: string)
    requires forall i :: 0 <= i < |s| ==> !IsSpace(s[i])
    ensures SplitSpaces(s) == [s]
  {
    if s != [] {
      SplitSpacesNone(s[1..]);
      assert [s[0]] + s[1..] == s;
    }
  }

  /** One space after a word, before text that does not start with white
    * space, starts the next part. */
  lemma {:induction false} SplitSpacesPrefix(a: string, b: string)
    requires forall i :: 0 <= i < |a| ==> !IsSpace(a[i])
    requires b == [] || !IsSpace(b[0])
    ensures SplitSpaces(a + " " + b) == [a] + SplitSpaces(b)
  {
    if a == [] {
      assert a + " " + b == " " + b;
      assert (" " + b)[1..] == b;
    } else {
      SplitSpacesPrefix(a[1..], b);
      assert (a + " " + b)[1..] == a[1..] + " " + b;
      assert [a[0]] + a[1..] == a;
    }
  }

  /** `s.substring(a, b)`: both ends clamped to 0..|s| and swapped when out of order. */
  function Substring(s: string, a: int, b: int): (r: string)
    ensures 0 <= a <= b <= |s| ==> r == s[a..b]
    ensures |r| <= |s|
  {
    var lo := if a < 0 then 0 else if a > |s| then |s| else a;
    var hi := if b < 0 then 0 else if b > |s| then |s| else b;
    if lo <= hi then s[lo..hi] else s[hi..lo]
  }

  /** `s.replace(/c/g, '')`: every occurrence of `c` removed. */
  function Without(s: string, c: char): (r: string)
    ensures c !in r
    ensures |r| == |s| - Count(s, c)
  {
    if s == [] then [] else (if s[0] == c then [] else [s[0]]) + Without(s[1..], c)
  }

  /** Number of occurrences of `c` in `s`. */
  function Count(s: string, c: char): nat
  {
    if s == [] then 0 else (if s[0] == c then 1 else 0) + Count(s[1..], c)
  }

  /** `split` yields one more part than there are separators. */
  lemma {:induction false} SplitLength(s: string, sep: char)
    ensures |Split(s, sep)| == Count(s, sep) + 1
  {
    if s != [] { SplitLength(s[1..], sep); }
  }

  /** `s.indexOf(c, from)`: the first position at or after `from` holding `c`, or -1. */
  function IndexOf(s: string, c: char, from: nat): (r: int)
    decreases |s| - from
    ensures r == -1 || (from <= r < |s| && s[r] == c)
    ensures r == -1 ==> forall i :: from <= i < |s| ==> s[i] != c
    ensures r >= 0 ==> forall i :: from <= i < r ==> s[i] != c
  {
    if from >= |s| then -1
    else if s[from] == c then from
    else IndexOf(s, c, from + 1)
  }

  /** The first `c` of `s` is at `k`. */
  lemma IndexOfFirst(s: string, c: char, k: nat)
    requires k < |s| && s[k] == c
    requires forall i :: 0 <= i < k ==> s[i] != c
    ensures IndexOf(s, c, 0) == k
  {
  }

  function DigitChar(d: nat): (r: char)
    requires d < 10
    ensures IsDigit(r)
  {
    ('0' as int + d) as char
  }

  /** Decimal rendering of a counter, as template literals produce it. */
  function NatToString(n: nat): (r: string)
    ensures |r| >= 1
    ensures forall i :: 0 <= i < |r| ==> IsDigit(r[i])
  {
    if n < 10 then [DigitChar(n)] else NatToString(n / 10) + [DigitChar(n % 10)]
  }

  /** Parsing a rendered counter gives it back (so different counters give different names). */
  function DigitsValue(s: string): (r: nat)
    requires forall i :: 0 <= i < |s| ==> IsDigit(s[i])
  {
    if s == [] then 0
    else
      assert IsDigit(s[|s| - 1]);
      10 * DigitsValue(s[..|s| - 1]) + (s[|s| - 1] as int - '0' as int)
  }

  lemma {:induction false} NatToStringRoundTrip(n: nat)
    ensures DigitsValue(NatToString(n)) == n
  {
    if n >= 10 {
      NatToStringRoundTrip(n / 10);
      var s := NatToString(n);
      assert s[..|s| - 1] == NatToString(n / 10);
    }
  }

  lemma NatToStringInjective(a: nat, b: nat)
    requires NatToString(a) == NatToString(b)
    ensures a == b
  {
    NatToStringRoundTrip(a);
    NatToStringRoundTrip(b);
  }

  /** `String(n)` for an integer: a minus sign before the digits of a negative number. */
  function IntToString(n: int): (r: string)
    ensures |r| >= 1
    ensures forall i :: 0 <= i < |r| ==> IsDigit(r[i]) || r[i] == '-'
  {
    if n < 0 then "-" + NatToString(-n) else NatToString(n)
  }

  /** The longest prefix of `s` made of decimal digits. */
  function LeadingDigits(s: string): (r: string)
    ensures |r| <= |s| && r == s[..|r|]
    ensures forall i :: 0 <= i < |r| ==> IsDigit(s[i])
    ensures |r| == |s| || !IsDigit(s[|r|])
  {
    if s == [] || !IsDigit(s[0]) then [] else [s[0]] + LeadingDigits(s[1..])
  }

  /** `parseInt(s)`: leading white space, an optional sign, then the longest run of
    * decimal digits; `None` stands for NaN (no digit at all). */
  function ParseInt(s: string): (r: Option<int>)
  {
    var t := TrimStart(s);
    var signed := t != [] && (t[0] == '-' || t[0] == '+');
    var u := ParseUnsigned(if signed then t[1..] else t);
    if u.None? then None
    else if signed && t[0] == '-' then Some(-(u.value as int))
    else Some(u.value as int)
  }

  function ParseUnsigned(t: string): (r: Option<nat>)
  {
    var d := LeadingDigits(t);
    if d == [] then None else Some(DigitsValue(d))
  }

  /** Parsing the rendering of an integer gives the integer back. */
  lemma IntToStringRoundTrip(n: int)
    ensures ParseInt(IntToString(n)) == Some(n)
  {
    var m: nat := if n < 0 then -n else n;
    var d := NatToString(m);
    NatToStringRoundTrip(m);
    LeadingDigitsOfDigits(d);
    assert ParseUnsigned(d) == Some(m);
    if n < 0 {
      ParseNegativeDigits(d, m);
    } else {
      ParseDigits(d, m);
    }
  }

  lemma ParseDigits(d: string, m: nat)
    requires d != [] && IsDigit(d[0]) && ParseUnsigned(d) == Some(m)
    ensures ParseInt(d) == Some(m as int)
  {
    assert !IsSpace(d[0]) && d[0] != '-' && d[0] != '+';
    assert TrimStart(d) == d;
    var u := ParseUnsigned(d);
    assert ParseInt(d) == Some(u.value as int);
  }

  lemma ParseNegativeDigits(d: string, m: nat)
    requires ParseUnsigned(d) == Some(m)
    ensures ParseInt("-" + d) == Some(-(m as int))
  {
    var s := "-" + d;
    assert TrimStart(s) == s;
    assert s[1..] == d;
  }

  lemma {:induction false} LeadingDigitsOfDigits(s: string)
    requires forall i :: 0 <= i < |s| ==> IsDigit(s[i])
    ensures LeadingDigits(s) == s
  {
    if s != [] { LeadingDigitsOfDigits(s[1..]); }
  }
}
