/** The quickselect inside `medianOf`: the array is rearranged in place until
  * the median position ⌊(n−1)/2⌋ holds the value a sorted array would hold
  * there. */
module QuickSelect {
  import opened Wrappers

  /** Every cell left of `low` is at most every cell from `low` on, and every
    * cell right of `high` is at least every cell up to `high`: the cells
    * outside the active partition are already on their sorted side. */
  ghost predicate Fenced(s: seq<int>, low: int, high: int)
  {
    (forall i, j :: 0 <= i < low && low <= j < |s| && i < j ==> s[i] <= s[j]) &&
    (forall i, j :: 0 <= j <= high && high < i < |s| && j < i ==> s[j] <= s[i])
  }

  /** Position `m` holds a value no smaller than anything before it and no
    * larger than anything after it: the value a sorted array holds at `m`. */
  ghost predicate SelectedAt(s: seq<int>, m: int)
    requires 0 <= m < |s|
  {
    (forall i :: 0 <= i < m ==> s[i] <= s[m]) && (forall j :: m < j < |s| ==> s[m] <= s[j])
  }

  /** The loop state: fenced, and the median either still inside the active
    * partition or already selected. */
  ghost predicate Active(s: seq<int>, low: int, high: int, m: int)
  {
    Fenced(s, low, high) && 0 <= m < |s| && (low <= m <= high || SelectedAt(s, m))
  }

  /** After partitioning `low..high` around the pivot now at `hh`: cells before
    * it are at most the pivot, cells between it and `ll` equal it, and cells
    * after it are at least the pivot. */
  ghost predicate PartitionedAt(s: seq<int>, low: int, high: int, hh: int, ll: int)
    requires 0 <= low && high < |s|
  {
    low <= hh < ll <= high + 1 &&
    (forall k :: low <= k < hh ==> s[k] <= s[hh]) &&
    (forall k :: hh < k < ll ==> s[k] == s[hh]) &&
    (forall k :: hh < k <= high ==> s[hh] <= s[k])
  }

  /** Swapping two cells of the active partition keeps the loop state. */
  lemma SwapKeepsActive(s: seq<int>, x: int, y: int, low: int, high: int, m: int)
    requires 0 <= low <= x <= high < |s| && low <= y <= high
    requires Active(s, low, high, m)
    ensures Active(s[x := s[y]][y := s[x]], low, high, m)
  {
    var t := s[x := s[y]][y := s[x]];
    if !(low <= m <= high) {
      forall i | 0 <= i < m
        ensures t[i] <= t[m]
      {
        if m > high {
          assert t[i] == s[i] || t[i] == s[x] || t[i] == s[y];
        }
      }
      forall j | m < j < |t|
        ensures t[m] <= t[j]
      {
        if m < low {
          assert t[j] == s[j] || t[j] == s[x] || t[j] == s[y];
        }
      }
    }
  }

  /** `swap(x, y)` inside the active partition. */
  method Swap(a: array<int>, x: int, y: int, ghost low: int, ghost high: int, ghost m: int)
    requires 0 <= low <= x <= high < a.Length && low <= y <= high
    requires Active(a[..], low, high, m)
    modifies a
    ensures a[..] == old(a[..])[x := old(a[y])][y := old(a[x])]
    ensures a[x] == old(a[y]) && a[y] == old(a[x])
    ensures forall k :: 0 <= k < a.Length && k != x && k != y ==> a[k] == old(a[k])
    ensures Active(a[..], low, high, m)
    ensures multiset(a[..]) == multiset(old(a[..]))
  {
    SwapKeepsActive(a[..], x, y, low, high, m);
    a[x], a[y] := a[y], a[x];
  }

  /** Orders the low, middle and high cells, then moves the middle one to
    * `low + 1`: the pivot sits at `low` with a cell at most it at `low + 1`
    * and a cell at least it at `high`. */
  method MedianOfThree(a: array<int>, low: int, high: int, ghost m: int)
    requires 0 <= low && low + 2 <= high < a.Length
    requires Active(a[..], low, high, m)
    modifies a
    ensures Active(a[..], low, high, m)
    ensures multiset(a[..]) == multiset(old(a[..]))
    ensures a[low + 1] <= a[low] <= a[high]
  {
    var middle := (low + high) / 2;
    OrderThree(a, middle, low, high, m);
    Swap(a, middle, low + 1, low, high, m);
  }

  /** The three conditional swaps: afterwards a[middle] <= a[low] <= a[high]. */
  method OrderThree(a: array<int>, middle: int, low: int, high: int, ghost m: int)
    requires 0 <= low < middle < high < a.Length
    requires Active(a[..], low, high, m)
    modifies a
    ensures Active(a[..], low, high, m)
    ensures multiset(a[..]) == multiset(old(a[..]))
    ensures a[middle] <= a[low] <= a[high]
  {
    if a[middle] > a[high] {
      Swap(a, middle, high, low, high, m);
    }
    if a[low] > a[high] {
      Swap(a, low, high, low, high, m);
    }
    if a[middle] > a[low] {
      Swap(a, middle, low, low, high, m);
    }
  }

  /** The nibbling loop: `ll` moves up past cells below the pivot, `hh` moves
    * down past cells above it, stuck pairs are swapped, and at the end the
    * pivot is swapped into position `hh`. */
  method Partition(a: array<int>, low: int, high: int, ghost m: int) returns (ll: int, hh: int)
    requires 0 <= low && low + 2 <= high < a.Length
    requires Active(a[..], low, high, m)
    requires a[low + 1] <= a[low] <= a[high]
    modifies a
    ensures Active(a[..], low, high, m)
    ensures multiset(a[..]) == multiset(old(a[..]))
    ensures PartitionedAt(a[..], low, high, hh, ll) && low < hh
  {
    var pivot := a[low];
    ll, hh := low + 1, high;
    var crossed := false;
    while !crossed
      invariant low + 1 <= ll <= high && low + 1 <= hh <= high
      invariant !crossed ==> ll <= hh && (ll == hh ==> low + 2 <= ll < high)
      invariant !crossed ==> a[low] == pivot
      invariant Active(a[..], low, high, m)
      invariant multiset(a[..]) == multiset(old(a[..]))
      invariant !crossed ==> forall k :: low + 1 <= k <= ll ==> a[k] <= pivot
      invariant !crossed ==> forall k :: hh <= k <= high ==> pivot <= a[k]
      invariant crossed ==> PartitionedAt(a[..], low, high, hh, ll)
      decreases !crossed, hh - ll + 1
    {
      ll, hh, crossed := Nibble(a, low, high, pivot, ll, hh, m);
    }
  }

  /** One round of the nibbling loop: both scans, then either the swap of the
    * stuck pair or, once the scans have crossed, the pivot's final swap. */
  method Nibble(a: array<int>, low: int, high: int, pivot: int, ll0: int, hh0: int, ghost m: int)
    returns (ll: int, hh: int, crossed: bool)
    requires 0 <= low && low + 1 <= ll0 <= hh0 <= high < a.Length
    requires ll0 == hh0 ==> low + 2 <= ll0 < high
    requires a[low] == pivot && Active(a[..], low, high, m)
    requires forall k :: low + 1 <= k <= ll0 ==> a[k] <= pivot
    requires forall k :: hh0 <= k <= high ==> pivot <= a[k]
    modifies a
    ensures Active(a[..], low, high, m)
    ensures multiset(a[..]) == multiset(old(a[..]))
    ensures low + 1 <= ll <= high && low + 1 <= hh <= high
    ensures crossed ==> PartitionedAt(a[..], low, high, hh, ll)
    ensures !crossed ==> ll0 < ll <= hh < hh0 && (ll == hh ==> low + 2 <= ll < high)
    ensures !crossed ==> a[low] == pivot
    ensures !crossed ==> forall k :: low + 1 <= k <= ll ==> a[k] <= pivot
    ensures !crossed ==> forall k :: hh <= k <= high ==> pivot <= a[k]
  {
    ll := ScanUp(a, pivot, ll0, if ll0 < hh0 then hh0 else hh0 + 1);
    hh := ScanDown(a, pivot, hh0, if ll0 < hh0 then ll0 else ll0 - 1);
    if hh < ll {
      PivotSwapPartitions(a[..], low, high, hh, ll);
      Swap(a, low, hh, low, high, m);
      crossed := true;
    } else {
      Swap(a, ll, hh, low, high, m);
      crossed := false;
    }
  }

  /** Once the scans have crossed, swapping the pivot from `low` into `hh`
    * partitions the active cells around it. */
  lemma PivotSwapPartitions(s: seq<int>, low: int, high: int, hh: int, ll: int)
    requires 0 <= low < hh < ll <= high < |s|
    requires forall k :: low + 1 <= k < ll ==> s[k] <= s[low]
    requires forall k :: hh < k <= high ==> s[low] <= s[k]
    ensures PartitionedAt(s[low := s[hh]][hh := s[low]], low, high, hh, ll)
  {
  }

  /** `do { ll++; } while (array[low] > array[ll])`: the first cell after
    * `from` that is not below the pivot; `sentinel` is such a cell. */
  method ScanUp(a: array<int>, pivot: int, from: int, ghost sentinel: int) returns (ll: int)
    requires 0 <= from < sentinel < a.Length && pivot <= a[sentinel]
    ensures from < ll <= sentinel && pivot <= a[ll]
    ensures forall k :: from < k < ll ==> a[k] < pivot
  {
    ll := from + 1;
    while pivot > a[ll]
      invariant from < ll <= sentinel
      invariant forall k :: from < k < ll ==> a[k] < pivot
      decreases sentinel - ll
    {
      ll := ll + 1;
    }
  }

  /** `do { hh--; } while (array[hh] > array[low])`: the last cell before
    * `from` that is not above the pivot; `sentinel` is such a cell. */
  method ScanDown(a: array<int>, pivot: int, from: int, ghost sentinel: int) returns (hh: int)
    requires 0 <= sentinel < from < a.Length && a[sentinel] <= pivot
    ensures sentinel <= hh < from && a[hh] <= pivot
    ensures forall k :: hh < k < from ==> a[k] > pivot
  {
    hh := from - 1;
    while a[hh] > pivot
      invariant sentinel <= hh < from
      invariant forall k :: hh < k < from ==> a[k] > pivot
      decreases hh
    {
      hh := hh - 1;
    }
  }

  /** Narrowing the active partition to the side of the pivot that holds the
    * median keeps the loop state. */
  lemma Narrow(s: seq<int>, low: int, high: int, hh: int, ll: int, m: int)
    requires 0 <= low && high < |s|
    requires Active(s, low, high, m) && PartitionedAt(s, low, high, hh, ll)
    ensures Active(s, if hh <= m then ll else low, if hh >= m then hh - 1 else high, m)
  {
    var low', high' := if hh <= m then ll else low, if hh >= m then hh - 1 else high;
    forall i, j | 0 <= i < low' && low' <= j < |s| && i < j
      ensures s[i] <= s[j]
    {
      if i >= low && j <= high {
        assert s[i] <= s[hh] <= s[j];
      }
    }
    forall i, j | 0 <= j <= high' && high' < i < |s| && j < i
      ensures s[j] <= s[i]
    {
      if j >= low && i <= high {
        assert s[j] <= s[hh] <= s[i];
      }
    }
    if low <= m <= high && !(low' <= m <= high') {
      forall i | 0 <= i < m
        ensures s[i] <= s[m]
      {
        if i >= low {
          assert s[i] <= s[hh] == s[m];
        }
      }
      forall j | m < j < |s|
        ensures s[m] <= s[j]
      {
        if j <= high {
          assert s[m] == s[hh] <= s[j];
        }
      }
    }
  }

  /** `quickSelect(array, count)` over the whole array; None for an empty
    * array, where the source reads index −1. */
  method Select(a: array<int>) returns (r: Option<int>)
    modifies a
    ensures multiset(a[..]) == multiset(old(a[..]))
    ensures r.None? <==> a.Length == 0
    ensures r.Some? ==> r.value == a[(a.Length - 1) / 2] && SelectedAt(a[..], (a.Length - 1) / 2)
  {
    if a.Length == 0 {
      return None;
    }
    var low, high := 0, a.Length - 1;
    var median := (low + high) / 2;
    while true
      invariant 0 <= low && high < a.Length
      invariant Active(a[..], low, high, median)
      invariant multiset(a[..]) == multiset(old(a[..]))
      decreases high - low
    {
      if high <= low {
        if low <= median <= high {
          FencedSelects(a[..], median);
        }
        return Some(a[median]);
      }
      if high == low + 1 {
        OrderTwo(a, low, high, median);
        return Some(a[median]);
      }
      low, high := Round(a, low, high, median);
    }
  }

  /** "Two elements only": the pair is put in order, which selects the median. */
  method OrderTwo(a: array<int>, low: int, high: int, median: int)
    requires 0 <= low && high == low + 1 && high < a.Length
    requires Active(a[..], low, high, median)
    modifies a
    ensures SelectedAt(a[..], median)
    ensures multiset(a[..]) == multiset(old(a[..]))
  {
    if a[low] > a[high] {
      Swap(a, low, high, low, high, median);
    }
    if low <= median <= high {
      TwoSelects(a[..], low, median);
    }
  }

  /** One round of the outer loop on an active partition of three or more
    * cells: median of three, partition, then "re-set active partition". */
  method Round(a: array<int>, low0: int, high0: int, median: int) returns (low: int, high: int)
    requires 0 <= low0 && low0 + 2 <= high0 < a.Length
    requires Active(a[..], low0, high0, median)
    modifies a
    ensures Active(a[..], low, high, median)
    ensures multiset(a[..]) == multiset(old(a[..]))
    ensures low0 <= low && high <= high0 && high - low < high0 - low0
  {
    low, high := low0, high0;
    MedianOfThree(a, low, high, median);
    var ll, hh := Partition(a, low, high, median);
    Narrow(a[..], low, high, hh, ll, median);
    if hh <= median {
      low := ll;
    }
    if hh >= median {
      high := hh - 1;
    }
  }

  /** A one-cell active partition at `m`: position `m` is selected. */
  lemma FencedSelects(s: seq<int>, m: int)
    requires 0 <= m < |s| && Fenced(s, m, m)
    ensures SelectedAt(s, m)
  {
  }

  /** An ordered two-cell active partition: both of its positions are selected. */
  lemma TwoSelects(s: seq<int>, low: int, m: int)
    requires 0 <= low <= m <= low + 1 < |s|
    requires Fenced(s, low, low + 1) && s[low] <= s[low + 1]
    ensures SelectedAt(s, m)
  {
  }

  // ------------------------------------------------ meaning of "selected"

  predicate Sorted(t: seq<int>)
  {
    forall i, j :: 0 <= i < j < |t| ==> t[i] <= t[j]
  }

  /** How many cells are below `v` (strict) or at most `v` (not strict). */
  function Count(s: seq<int>, v: int, strict: bool): (r: nat)
    ensures r <= |s|
  {
    if s == [] then 0
    else Count(s[..|s| - 1], v, strict) + (if (if strict then s[|s| - 1] < v else s[|s| - 1] <= v) then 1 else 0)
  }

  lemma {:induction false} CountAppend(a: seq<int>, b: seq<int>, v: int, strict: bool)
    ensures Count(a + b, v, strict) == Count(a, v, strict) + Count(b, v, strict)
    decreases |b|
  {
    if b == [] {
      assert a + b == a;
    } else {
      assert (a + b)[..|a + b| - 1] == a + b[..|b| - 1];
      CountAppend(a, b[..|b| - 1], v, strict);
    }
  }

  /** The count depends only on the multiset of cells. */
  lemma {:induction false} CountPermutation(s: seq<int>, t: seq<int>, v: int, strict: bool)
    requires multiset(s) == multiset(t)
    ensures Count(s, v, strict) == Count(t, v, strict)
    decreases |s|
  {
    if s == [] {
      assert |multiset(t)| == 0;
    } else {
      var x := s[|s| - 1];
      assert s == s[..|s| - 1] + [x];
      assert x in multiset(t);
      var k :| 0 <= k < |t| && t[k] == x;
      var t' := t[..k] + t[k + 1..];
      assert t == t[..k] + [x] + t[k + 1..];
      assert multiset(t') == multiset(t) - multiset{x};
      CountPermutation(s[..|s| - 1], t', v, strict);
      CountAppend(t[..k], [x], v, strict);
      CountAppend(t[..k] + [x], t[k + 1..], v, strict);
      CountAppend(t[..k], t[k + 1..], v, strict);
      CountAppend(s[..|s| - 1], [x], v, strict);
      assert Count([x], v, strict) == (if (if strict then x < v else x <= v) then 1 else 0) by {
        assert [x][..0] == [];
      }
    }
  }

  lemma {:induction false} CountAll(s: seq<int>, v: int, strict: bool)
    requires forall i :: 0 <= i < |s| ==> (if strict then s[i] < v else s[i] <= v)
    ensures Count(s, v, strict) == |s|
  {
    if s != [] {
      CountAll(s[..|s| - 1], v, strict);
    }
  }

  lemma {:induction false} CountNone(s: seq<int>, v: int, strict: bool)
    requires forall i :: 0 <= i < |s| ==> !(if strict then s[i] < v else s[i] <= v)
    ensures Count(s, v, strict) == 0
  {
    if s != [] {
      CountNone(s[..|s| - 1], v, strict);
    }
  }

  lemma BelowSelected(s: seq<int>, m: int)
    requires 0 <= m < |s| && SelectedAt(s, m)
    ensures Count(s, s[m], true) <= m
  {
    assert s == s[..m] + s[m..];
    CountAppend(s[..m], s[m..], s[m], true);
    CountNone(s[m..], s[m], true);
  }

  lemma AtMostSelected(s: seq<int>, m: int)
    requires 0 <= m < |s| && SelectedAt(s, m)
    ensures Count(s, s[m], false) >= m + 1
  {
    assert s == s[..m + 1] + s[m + 1..];
    CountAppend(s[..m + 1], s[m + 1..], s[m], false);
    CountAll(s[..m + 1], s[m], false);
  }

  lemma SortedBelow(t: seq<int>, m: int, v: int)
    requires 0 <= m < |t| && Sorted(t) && t[m] < v
    ensures Count(t, v, true) >= m + 1
  {
    assert t == t[..m + 1] + t[m + 1..];
    CountAll(t[..m + 1], v, true);
    CountAppend(t[..m + 1], t[m + 1..], v, true);
  }

  lemma SortedAbove(t: seq<int>, m: int, v: int)
    requires 0 <= m < |t| && Sorted(t) && t[m] > v
    ensures Count(t, v, false) <= m
  {
    assert t == t[..m] + t[m..];
    CountNone(t[m..], v, false);
    CountAppend(t[..m], t[m..], v, false);
  }

  /** A selected position holds the value that every sorted arrangement of the
    * same cells holds there: quickselect returns the element at ⌊(n−1)/2⌋ of
    * the sorted array. */
  lemma SelectedIsSortedElement(s: seq<int>, t: seq<int>, m: int)
    requires 0 <= m < |s| && SelectedAt(s, m)
    requires multiset(s) == multiset(t) && Sorted(t)
    ensures |t| == |s| && t[m] == s[m]
  {
    assert |t| == |multiset(t)| == |multiset(s)| == |s|;
    BelowSelected(s, m);
    AtMostSelected(s, m);
    CountPermutation(s, t, s[m], true);
    CountPermutation(s, t, s[m], false);
    if t[m] < s[m] {
      SortedBelow(t, m, s[m]);
    } else if t[m] > s[m] {
      SortedAbove(t, m, s[m]);
    }
  }
}
