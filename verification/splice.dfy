/** `Array.prototype.splice` inserting or removing a single element, as
  * the tools use it on their lists. */
module Splices {

  /** Where `splice(start, …)` acts in an array of `len` elements: a
    * negative start counts back from the end (stopping at 0), a start past
    * the end is the end. */
  function StartIndex(start: int, len: nat): (r: nat)
    ensures r <= len
    ensures 0 <= start <= len ==> r == start
    ensures start < 0 && len + start >= 0 ==> r == len + start
  {
    if start < 0 then (if len + start < 0 then 0 else len + start)
    else if start > len then len
    else start
  }

  /** `s.splice(start, 0, x)`. */
  function Inserted<T>(s: seq<T>, start: int, x: T): (r: seq<T>)
    ensures var p := StartIndex(start, |s|);
            |r| == |s| + 1 && r[p] == x && r[..p] == s[..p] && r[p + 1..] == s[p..]
  {
    var p := StartIndex(start, |s|);
    s[..p] + [x] + s[p..]
  }

  /** `s.splice(start, 1)`: nothing happens when the start is the end. */
  function Removed<T>(s: seq<T>, start: int): (r: seq<T>)
    ensures var p := StartIndex(start, |s|);
            (p < |s| ==> |r| == |s| - 1 && r[..p] == s[..p] && r[p..] == s[p + 1..])
            && (p == |s| ==> r == s)
  {
    var p := StartIndex(start, |s|);
    if p < |s| then s[..p] + s[p + 1..] else s
  }

  /** An element of the list after removing the one at p: the element at
    * the same position before p, the next one from p on. */
  lemma RemovedAt<T>(s: seq<T>, p: nat, k: nat)
    requires p < |s| && k < |s| - 1
    ensures Removed(s, p)[k] == if k < p then s[k] else s[k + 1]
  {
    var r := Removed(s, p);
    if k < p {
      assert r[k] == r[..p][k];
    } else {
      assert r[k] == r[p..][k - p];
    }
  }

  /** Removing what was just inserted at a position gives the list back. */
  lemma RemovedInserted<T>(s: seq<T>, p: nat, x: T)
    requires p <= |s|
    ensures Removed(Inserted(s, p, x), p) == s
  {
    var t := Inserted(s, p, x);
    assert Removed(t, p) == t[..p] + t[p + 1..];
    assert s == s[..p] + s[p..];
  }

  /** Putting back what was removed at a position gives the list back. */
  lemma InsertedRemoved<T>(s: seq<T>, p: nat)
    requires p < |s|
    ensures Inserted(Removed(s, p), p, s[p]) == s
  {
    var t := Removed(s, p);
    assert Inserted(t, p, s[p]) == t[..p] + [s[p]] + t[p..];
    assert s == s[..p] + [s[p]] + s[p + 1..];
  }
}
