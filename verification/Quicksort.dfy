/** The quicksort program: Lomuto partition and recursion on one array. */
module Quicksort {

  /** t is s with the elements from lo to hi (exclusive) rearranged and nothing else changed. */
  predicate Rearranged(s: seq<int>, t: seq<int>, lo: nat, hi: nat) {
    && lo <= hi <= |s| == |t|
    && s[..lo] == t[..lo] && s[hi..] == t[hi..] && multiset(s[lo..hi]) == multiset(t[lo..hi])
  }

  predicate Sorted(s: seq<int>, lo: nat, hi: nat) { forall i, j :: lo <= i < j < hi <= |s| ==> s[i] <= s[j] }

  /** Everything from lo to hi (exclusive) is at most v. */
  predicate AtMost(s: seq<int>, lo: nat, hi: nat, v: int) { forall i :: lo <= i < hi <= |s| ==> s[i] <= v }

  predicate Above(s: seq<int>, lo: nat, hi: nat, v: int) { forall i :: lo <= i < hi <= |s| ==> s[i] > v }

  function Swap(s: seq<int>, i: nat, j: nat): seq<int>
    requires i < |s| && j < |s|
  {
    s[i := s[j]][j := s[i]]
  }

  lemma SwapRearranges(s: seq<int>, i: nat, j: nat, lo: nat, hi: nat)
    requires lo <= i <= j < hi <= |s|
    ensures Rearranged(s, Swap(s, i, j), lo, hi)
  {
    var t := Swap(s, i, j);
    var u := s[lo..hi];
    assert t[lo..hi] == u[i - lo := u[j - lo]][j - lo := u[i - lo]];
  }

  lemma RearrangedTwice(s: seq<int>, t: seq<int>, u: seq<int>, lo: nat, hi: nat)
    requires Rearranged(s, t, lo, hi) && Rearranged(t, u, lo, hi)
    ensures Rearranged(s, u, lo, hi)
  {
  }

  lemma RearrangedWider(s: seq<int>, t: seq<int>, lo: nat, hi: nat, lo': nat, hi': nat)
    requires Rearranged(s, t, lo, hi) && lo' <= lo && hi <= hi' <= |s|
    ensures Rearranged(s, t, lo', hi')
  {
    assert s[lo'..hi'] == s[lo'..lo] + s[lo..hi] + s[hi..hi'];
    assert t[lo'..hi'] == t[lo'..lo] + t[lo..hi] + t[hi..hi'];
    assert s[lo'..lo] == s[..lo][lo'..] && t[lo'..lo] == t[..lo][lo'..];
    assert s[hi..hi'] == s[hi..][..hi' - hi] && t[hi..hi'] == t[hi..][..hi' - hi];
    assert s[..lo'] == s[..lo][..lo'] && t[..lo'] == t[..lo][..lo'];
    assert s[hi'..] == s[hi..][hi' - hi..] && t[hi'..] == t[hi..][hi' - hi..];
  }

  lemma RearrangedKeeps(s: seq<int>, t: seq<int>, lo: nat, hi: nat, v: int)
    requires Rearranged(s, t, lo, hi)
    ensures AtMost(s, lo, hi, v) ==> AtMost(t, lo, hi, v)
    ensures Above(s, lo, hi, v) ==> Above(t, lo, hi, v)
  {
    forall i | lo <= i < hi
      ensures exists j :: lo <= j < hi && s[j] == t[i]
    {
      assert t[lo..hi][i - lo] in multiset(t[lo..hi]);
      assert t[i] in s[lo..hi];
    }
  }

  lemma Outside(s: seq<int>, t: seq<int>, lo: nat, hi: nat, i: nat)
    requires Rearranged(s, t, lo, hi) && i < |s| && (i < lo || i >= hi)
    ensures s[i] == t[i]
  {
    if i < lo {
      assert s[i] == s[..lo][i] && t[i] == t[..lo][i];
    } else {
      assert s[i] == s[hi..][i - hi] && t[i] == t[hi..][i - hi];
    }
  }

  /** How far the scan has come: s is split up to j, with the small values up to i. */
  predicate Split(s: seq<int>, lo: nat, i: int, j: nat, hi: nat, v: int) {
    lo - 1 <= i < j <= hi < |s| && s[hi] == v && AtMost(s, lo, i + 1, v) && Above(s, i + 1, j, v)
  }

  lemma SplitSwap(s: seq<int>, lo: nat, i: int, j: nat, hi: nat, v: int)
    requires Split(s, lo, i, j, hi, v) && j < hi && s[j] <= v
    ensures Split(Swap(s, i + 1, j), lo, i + 1, j + 1, hi, v)
  {
  }

  lemma SplitSkip(s: seq<int>, lo: nat, i: int, j: nat, hi: nat, v: int)
    requires Split(s, lo, i, j, hi, v) && j < hi && s[j] > v
    ensures Split(s, lo, i, j + 1, hi, v)
  {
  }

  lemma SplitEnd(s: seq<int>, lo: nat, i: int, hi: nat, v: int)
    requires Split(s, lo, i, hi, hi, v)
    ensures var t := Swap(s, i + 1, hi);
            t[i + 1] == v && AtMost(t, lo, i + 1, v) && Above(t, i + 2, hi + 1, v)
  {
  }

  lemma SplitStart(s: seq<int>, lo: nat, hi: nat)
    requires lo <= hi < |s|
    ensures Split(s, lo, lo - 1, lo, hi, s[hi]) && Rearranged(s, s, lo, hi + 1)
  {
  }

  /** arr[i] and arr[j] change places: the two stores of lines 113-114 and 119-120. */
  method Exchange(arr: array<int>, i: int, j: int, ai: int, aj: int)
    requires 0 <= i < arr.Length && 0 <= j < arr.Length && ai == arr[i] && aj == arr[j]
    modifies arr
    ensures arr[..] == Swap(old(arr[..]), i, j)
  {
    arr[i] := aj;
    arr[j] := ai;
  }

  /** Lines 109-115. */
  method Scan(arr: array<int>, ghost lo: int, i0: int, j: int, ghost hi: int, pivot: int) returns (i: int)
    requires 0 <= lo <= j < hi && Split(arr[..], lo, i0, j, hi, pivot)
    modifies arr
    ensures Split(arr[..], lo, i, j + 1, hi, pivot) && Rearranged(old(arr[..]), arr[..], lo, hi + 1)
  {
    hide Rearranged, Swap, AtMost, Above;
    ghost var s := arr[..];
    i := i0;
    var aj := arr[j];
    if aj <= pivot {
      i := i + 1;
      var ai := arr[i];
      Exchange(arr, i, j, ai, aj);
      SplitSwap(s, lo, i0, j, hi, pivot);
      SwapRearranges(s, i, j, lo, hi + 1);
    } else {
      SplitSkip(s, lo, i0, j, hi, pivot);
      RearrangedSelf(s, lo, hi + 1);
    }
  }

  lemma RearrangedSelf(s: seq<int>, lo: nat, hi: nat)
    requires lo <= hi <= |s|
    ensures Rearranged(s, s, lo, hi)
  {
  }

  /** Lines 104-122. An indexed load is a plain element access. */
  method Partition(arr: array<int>, lo: int, hi: int) returns (p: int)
    requires 0 <= lo <= hi < arr.Length
    modifies arr
    ensures lo <= p <= hi && arr[p] == old(arr[hi])
    ensures AtMost(arr[..], lo, p, arr[p]) && Above(arr[..], p + 1, hi + 1, arr[p])
    ensures Rearranged(old(arr[..]), arr[..], lo, hi + 1)
  {
    hide Rearranged, Swap, AtMost, Above;
    ghost var s0 := arr[..];
    var pivot := arr[hi];
    var i := lo - 1;
    SplitStart(s0, lo, hi);
    for j := lo to hi
      invariant Split(arr[..], lo, i, j, hi, pivot)
      invariant Rearranged(s0, arr[..], lo, hi + 1)
    {
      ghost var s := arr[..];
      i := Scan(arr, lo, i, j, hi, pivot);
      RearrangedTwice(s0, s, arr[..], lo, hi + 1);
    }
    ghost var s := arr[..];
    var lo_v := arr[i + 1];
    var hi_v := arr[hi];
    Exchange(arr, i + 1, hi, lo_v, hi_v);
    SplitEnd(s, lo, i, hi, pivot);
    SwapRearranges(s, i + 1, hi, lo, hi + 1);
    RearrangedTwice(s0, s, arr[..], lo, hi + 1);
    p := i + 1;
    assert arr[p] == arr[..][p];
  }

  /** Sorted on both sides of a pivot that bounds them is sorted. */
  lemma SortedAround(s: seq<int>, lo: nat, p: nat, hi: nat)
    requires lo <= p < hi <= |s| && Sorted(s, lo, p) && Sorted(s, p + 1, hi)
    requires AtMost(s, lo, p, s[p]) && Above(s, p + 1, hi, s[p])
    ensures Sorted(s, lo, hi)
  {
  }

  /** What the two recursive calls make of a partitioned range. */
  lemma CallsSort(s: seq<int>, t: seq<int>, u: seq<int>, lo: nat, p: nat, hi: nat)
    requires lo <= p < hi <= |s| && AtMost(s, lo, p, s[p]) && Above(s, p + 1, hi, s[p])
    requires Rearranged(s, t, lo, p) && Sorted(t, lo, p)
    requires Rearranged(t, u, p + 1, hi) && Sorted(u, p + 1, hi)
    ensures Rearranged(s, u, lo, hi) && Sorted(u, lo, hi)
  {
    RearrangedKeeps(s, t, lo, p, s[p]);
    assert Above(t, p + 1, hi, s[p]) by {
      forall i | p + 1 <= i < hi
        ensures t[i] > s[p]
      {
        Outside(s, t, lo, p, i);
      }
    }
    Outside(s, t, lo, p, p);
    RearrangedKeeps(t, u, p + 1, hi, s[p]);
    forall i | lo <= i <= p
      ensures u[i] == t[i]
    {
      Outside(t, u, p + 1, hi, i);
    }
    SortedAround(u, lo, p, hi);
    RearrangedWider(s, t, lo, p, lo, hi);
    RearrangedWider(t, u, p + 1, hi, lo, hi);
    RearrangedTwice(s, t, u, lo, hi);
  }

  /** Lines 127-134, for every array and every range, also an empty one. */
  method QuickSort(arr: array<int>, lo: int, hi: int)
    requires lo < hi ==> 0 <= lo && hi < arr.Length
    modifies arr
    ensures lo < hi ==> Rearranged(old(arr[..]), arr[..], lo, hi + 1) && Sorted(arr[..], lo, hi + 1)
    ensures lo >= hi ==> arr[..] == old(arr[..])
    decreases if lo < hi then hi - lo else 0
  {
    hide Rearranged, Sorted, AtMost, Above;
    if lo < hi {
      ghost var s0 := arr[..];
      var p := Partition(arr, lo, hi);
      ghost var s := arr[..];
      QuickSort(arr, lo, p - 1);
      ghost var t := arr[..];
      ShortRange(s, t, lo, p);
      QuickSort(arr, p + 1, hi);
      ShortRange(t, arr[..], p + 1, hi + 1);
      CallsSort(s, t, arr[..], lo, p, hi + 1);
      RearrangedTwice(s0, s, arr[..], lo, hi + 1);
    }
  }

  /** A range of at most one element is in order as it stands. */
  lemma ShortRange(s: seq<int>, t: seq<int>, lo: nat, hi: nat)
    requires lo <= hi <= |s| && (lo >= hi - 1 ==> t == s)
    ensures lo >= hi - 1 ==> Rearranged(s, t, lo, hi) && Sorted(t, lo, hi)
  {
  }
}
