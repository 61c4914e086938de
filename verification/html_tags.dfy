/** The `<mm>…</mm>` tags of an HTML page tool (`MMHtmlPage`): where the
  * regular expression `<mm>.*?</mm>` (global, without the `s` flag) finds
  * them, the formula text inside each, the page with every tag replaced by
  * the HTML of its formula's value, and the list of tag formulas that grows
  * to cover every tag. */
module HtmlTags {
  import opened Wrappers

  const OpenTag: string := "<mm>"
  const CloseTag: string := "</mm>"

  /** The characters `.` does not match in a regular expression. */
  predicate IsLineTerminator(c: char)
  {
    c == '\n' || c == '\r' || c == '\U{2028}' || c == '\U{2029}'
  }

  /** `<mm>` begins at p. */
  predicate OpenAt(s: string, p: nat)
  {
    p + 4 <= |s| && s[p..p + 4] == OpenTag
  }

  /** `</mm>` begins at e. */
  predicate CloseAt(s: string, e: nat)
  {
    e + 5 <= |s| && s[e..e + 5] == CloseTag
  }

  /** `</mm>` at e, with only characters `.` matches from q up to it. */
  predicate Closes(s: string, q: nat, e: nat)
  {
    q <= e && CloseAt(s, e)
    && forall k :: q <= k < e ==> !IsLineTerminator(s[k])
  }

  /** Where the lazy `.*?</mm>` that begins at q stops: at the first
    * `</mm>`, unless a line terminator comes first. */
  function CloseFrom(s: string, q: nat): (r: Option<nat>)
    decreases |s| - q
    ensures r.Some? ==> Closes(s, q, r.value)
    ensures r.Some? ==> forall k :: q <= k < r.value ==> !CloseAt(s, k)
  {
    if CloseAt(s, q) then Some(q)
    else if q >= |s| || IsLineTerminator(s[q]) then None
    else CloseFrom(s, q + 1)
  }

  /** `CloseFrom` misses no closing tag: whenever one can be reached, the
    * match ends there or earlier (and so, by its contract, at the first one). */
  lemma {:induction false} CloseFromFindsFirst(s: string, q: nat, e: nat)
    requires Closes(s, q, e)
    ensures CloseFrom(s, q).Some? && CloseFrom(s, q).value <= e
    decreases e - q
  {
    if !CloseAt(s, q) {
      assert q != e;
      assert !IsLineTerminator(s[q]);
      CloseFromFindsFirst(s, q + 1, e);
    }
  }

  /** The end of the tag that begins at p, if one does. */
  function TagAt(s: string, p: nat): (r: Option<nat>)
    ensures r.Some? ==> p + 9 <= r.value <= |s| && OpenAt(s, p) && CloseAt(s, r.value - 5)
    ensures r.Some? ==> forall k :: p + 4 <= k < r.value - 5 ==> !IsLineTerminator(s[k])
  {
    if OpenAt(s, p) then
      match CloseFrom(s, p + 4)
      case Some(e) => Some(e + 5)
      case None => None
    else None
  }

  /** The next match at or after `from`: its start and its end. */
  function NextTag(s: string, from: nat): (r: Option<(nat, nat)>)
    decreases |s| - from
    ensures r.Some? ==> from <= r.value.0 && r.value.0 + 9 <= r.value.1 <= |s|
    ensures r.Some? ==> TagAt(s, r.value.0) == Some(r.value.1)
  {
    if from >= |s| then None
    else
      match TagAt(s, from)
      case Some(e) => Some((from, e))
      case None => NextTag(s, from + 1)
  }

  /** The match is the leftmost one: no tag starts between `from` and it,
    * and when there is none, no tag starts anywhere from `from` on. */
  lemma {:induction false} NextTagIsFirst(s: string, from: nat)
    ensures var r := NextTag(s, from);
      (r.Some? ==> forall p :: from <= p < r.value.0 ==> TagAt(s, p).None?)
      && (r.None? ==> forall p :: from <= p < |s| ==> TagAt(s, p).None?)
    decreases |s| - from
  {
    if from < |s| && TagAt(s, from).None? {
      NextTagIsFirst(s, from + 1);
    }
  }

  /** The formula text of the tag from a to b: the match without its
    * 4-character opening and 5-character closing tags. */
  function TagText(s: string, a: nat, b: nat): string
    requires a + 9 <= b <= |s|
  {
    s[a + 4..b - 5]
  }

  /** What a tag becomes: the HTML of its formula's value, or nothing when
    * the formula gives no value. */
  function Shown(v: Option<string>): string
  {
    if v.Some? then v.value else ""
  }

  /** The text from `from` on, every tag replaced by what `valueOf` gives
    * for its formula text. */
  function Expanded(s: string, from: nat, valueOf: string -> Option<string>): (r: string)
    requires from <= |s|
    decreases |s| - from
  {
    match NextTag(s, from)
    case None => s[from..]
    case Some((a, b)) => s[from..a] + Shown(valueOf(TagText(s, a, b))) + Expanded(s, b, valueOf)
  }

  /** The formula texts of the tags from `from` on, in order. */
  function TagTexts(s: string, from: nat): (r: seq<string>)
    requires from <= |s|
    decreases |s| - from
  {
    match NextTag(s, from)
    case None => []
    case Some((a, b)) => [TagText(s, a, b)] + TagTexts(s, b)
  }

  /** A tag's formula text never holds a line terminator. */
  lemma {:induction false} TagTextsOnOneLine(s: string, from: nat)
    requires from <= |s|
    ensures forall i, k :: 0 <= i < |TagTexts(s, from)| && 0 <= k < |TagTexts(s, from)[i]| ==>
              !IsLineTerminator(TagTexts(s, from)[i][k])
    decreases |s| - from
  {
    match NextTag(s, from)
    case None =>
    case Some((a, b)) =>
      TagTextsOnOneLine(s, b);
      var t := TagText(s, a, b);
      assert forall k :: 0 <= k < |t| ==> t[k] == s[a + 4 + k];
  }

  /** Text with no `<mm>` in it comes out unchanged, with no tag formulas. */
  lemma {:induction false} NoTagsUnchanged(s: string, from: nat, valueOf: string -> Option<string>)
    requires from <= |s|
    requires forall p :: from <= p ==> !OpenAt(s, p)
    ensures Expanded(s, from, valueOf) == s[from..]
    ensures TagTexts(s, from) == []
  {
    match NextTag(s, from)
    case None =>
    case Some((a, b)) =>
      assert false;
  }

  /** A tag's value shown as the tag itself. */
  function AsItself(t: string): Option<string>
  {
    Some(OpenTag + t + CloseTag)
  }

  /** A match is its opening tag, its formula text and its closing tag. */
  lemma TagIsWhole(s: string, a: nat, b: nat)
    requires TagAt(s, a) == Some(b)
    ensures Shown(AsItself(TagText(s, a, b))) == s[a..b]
  {
    assert s[a..b] == s[a..a + 4] + s[a + 4..b - 5] + s[b - 5..b];
  }

  lemma SlicesJoin(s: string, i: nat, j: nat, k: nat)
    requires i <= j <= k <= |s|
    ensures s[i..k] == s[i..j] + s[j..k]
  {
  }

  lemma SuffixJoin(s: string, i: nat, j: nat)
    requires i <= j <= |s|
    ensures s[i..] == s[i..j] + s[j..]
  {
  }

  /** One step of `Expanded`: the text before the next tag, the tag's value,
    * then the rest. */
  lemma ExpandedStep(s: string, from: nat, valueOf: string -> Option<string>, a: nat, b: nat)
    requires from <= |s| && NextTag(s, from) == Some((a, b))
    ensures a + 9 <= b <= |s|
    ensures Expanded(s, from, valueOf) == s[from..a] + Shown(valueOf(TagText(s, a, b))) + Expanded(s, b, valueOf)
    ensures TagTexts(s, from) == [TagText(s, a, b)] + TagTexts(s, b)
  {
  }

  /** Past the last tag, `Expanded` is the rest of the text. */
  lemma ExpandedEnd(s: string, from: nat, valueOf: string -> Option<string>)
    requires from <= |s| && NextTag(s, from).None?
    ensures Expanded(s, from, valueOf) == s[from..]
    ensures TagTexts(s, from) == []
  {
  }

  /** Replacing every tag by itself gives the page back: the matches and
    * the text between them cover the whole page, in order. */
  lemma {:induction false} ExpandedAsItself(s: string, from: nat)
    requires from <= |s|
    ensures Expanded(s, from, AsItself) == s[from..]
    decreases |s| - from
  {
    var next := NextTag(s, from);
    if next.Some? {
      var (a, b) := next.value;
      ExpandedStep(s, from, AsItself, a, b);
      ExpandedAsItself(s, b);
      TagIsWhole(s, a, b);
      SlicesJoin(s, from, a, b);
      SuffixJoin(s, from, b);
      calc {
        Expanded(s, from, AsItself);
        s[from..a] + s[a..b] + s[b..];
        s[from..b] + s[b..];
        s[from..];
      }
    }
  }

  /** The page depends on the tag formulas' values only through the texts
    * of its own tags. */
  lemma {:induction false} ExpandedUsesOnlyTags(s: string, from: nat, v1: string -> Option<string>, v2: string -> Option<string>)
    requires from <= |s|
    requires forall i :: 0 <= i < |TagTexts(s, from)| ==> v1(TagTexts(s, from)[i]) == v2(TagTexts(s, from)[i])
    ensures Expanded(s, from, v1) == Expanded(s, from, v2)
    decreases |s| - from
  {
    match NextTag(s, from)
    case None =>
    case Some((a, b)) =>
      assert v1(TagTexts(s, from)[0]) == v2(TagTexts(s, from)[0]);
      assert forall i :: 0 <= i < |TagTexts(s, b)| ==> TagTexts(s, b)[i] == TagTexts(s, from)[i + 1];
      ExpandedUsesOnlyTags(s, b, v1, v2);
  }

  /** `tagFormulas` after the tags were read: formula i holds the text of
    * tag i, new formulas being added for tags beyond the old list, and the
    * old formulas past the last tag are kept. */
  function TagFormulasAfter(formulas: seq<string>, tags: seq<string>): (r: seq<string>)
    ensures |r| == if |formulas| > |tags| then |formulas| else |tags|
    ensures forall i :: 0 <= i < |tags| ==> r[i] == tags[i]
    ensures forall i :: |tags| <= i < |formulas| ==> r[i] == formulas[i]
  {
    if |formulas| > |tags| then tags + formulas[|tags|..] else tags
  }

  /** What the loop does to `tagFormulas` for one tag: the tag's text
    * goes into formula n, a new formula being pushed when there is none. */
  function Written(formulas: seq<string>, n: nat, text: string): (r: seq<string>)
    requires n <= |formulas|
  {
    if n >= |formulas| then formulas + [text] else formulas[n := text]
  }

  /** The loop's effect on `tagFormulas` for the tags still to come, the
    * next one going into formula n. */
  function WrittenFrom(formulas: seq<string>, n: nat, tags: seq<string>): (r: seq<string>)
    requires n <= |formulas|
    decreases |tags|
  {
    if tags == [] then formulas else WrittenFrom(Written(formulas, n, tags[0]), n + 1, tags[1..])
  }

  /** Writing the tags one at a time gives `TagFormulasAfter`. */
  lemma {:induction false} WrittenFromIsAfter(formulas: seq<string>, done: seq<string>, tags: seq<string>)
    ensures |done| <= |TagFormulasAfter(formulas, done)|
    ensures WrittenFrom(TagFormulasAfter(formulas, done), |done|, tags) == TagFormulasAfter(formulas, done + tags)
    decreases |tags|
  {
    if tags != [] {
      var before := TagFormulasAfter(formulas, done);
      assert Written(before, |done|, tags[0]) == TagFormulasAfter(formulas, done + [tags[0]]);
      WrittenFromIsAfter(formulas, done + [tags[0]], tags[1..]);
      assert done + [tags[0]] + tags[1..] == done + tags;
    }
  }

  lemma AllWritten(formulas: seq<string>, tags: seq<string>)
    ensures WrittenFrom(formulas, 0, tags) == TagFormulasAfter(formulas, tags)
  {
    WrittenFromIsAfter(formulas, [], tags);
    assert TagFormulasAfter(formulas, []) == formulas;
    assert [] + tags == tags;
  }

  /** One match of the loop: the text before it and its value's HTML
    * (`chunk`), its formula text, and where the next search starts. */
  method ReadTag(raw: string, from: nat, valueOf: string -> Option<string>)
    returns (chunk: string, text: string, next: nat)
    requires from <= |raw| && NextTag(raw, from).Some?
    ensures from < next <= |raw|
    ensures Expanded(raw, from, valueOf) == chunk + Expanded(raw, next, valueOf)
    ensures TagTexts(raw, from) == [text] + TagTexts(raw, next)
  {
    var (a, b) := NextTag(raw, from).value;
    ExpandedStep(raw, from, valueOf, a, b);
    text := TagText(raw, a, b);
    chunk := raw[from..a] + Shown(valueOf(text));
    next := b;
  }

  /** One pass of the loop in `ExpandTags` keeps both of its invariants:
    * the page written so far plus what is left, and the formulas written
    * so far plus the tags still to come. */
  lemma PassKeepsInvariants(html: string, chunk: string, rest: string,
                            after: seq<string>, number: nat, text: string, tags: seq<string>)
    requires number <= |after|
    ensures html + chunk + rest == html + (chunk + rest)
    ensures number + 1 <= |Written(after, number, text)|
    ensures WrittenFrom(Written(after, number, text), number + 1, tags) == WrittenFrom(after, number, [text] + tags)
  {
    assert ([text] + tags)[1..] == tags;
  }

  /** The loop of `htmlForRequestor` over the matches: the text between
    * them and each tag's value HTML, in order, and each tag's text written
    * into the formula of the same number, a new one being pushed when the
    * list is too short. */
  method ExpandTags(raw: string, formulas: seq<string>, valueOf: string -> Option<string>)
    returns (html: string, after: seq<string>)
    ensures html == Expanded(raw, 0, valueOf)
    ensures after == TagFormulasAfter(formulas, TagTexts(raw, 0))
  {
    html := "";
    after := formulas;
    var from: nat := 0;
    var number: nat := 0;
    while NextTag(raw, from).Some?
      invariant from <= |raw| && number <= |after|
      invariant html + Expanded(raw, from, valueOf) == Expanded(raw, 0, valueOf)
      invariant WrittenFrom(after, number, TagTexts(raw, from)) == WrittenFrom(formulas, 0, TagTexts(raw, 0))
      decreases |raw| - from
    {
      var chunk, text, next := ReadTag(raw, from, valueOf);
      PassKeepsInvariants(html, chunk, Expanded(raw, next, valueOf), after, number, text, TagTexts(raw, next));
      html := html + chunk;
      after := Written(after, number, text);
      number := number + 1;
      from := next;
    }
    ExpandedEnd(raw, from, valueOf);
    html := html + raw[from..];
    AllWritten(formulas, TagTexts(raw, 0));
  }
}
