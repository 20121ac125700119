/** In-place quicksort with Lomuto's partition and a snapshot of the array after every one. */
module Quicksort {

  datatype Partitioned = Partitioned(low: int, high: int, pivot: int, pivotIndex: int, snapshot: seq<int>)

  datatype SortTrace = SortTrace(input: seq<int>, partitions: seq<Partitioned>, result: seq<int>)

  // ----- rearrangements of a range

  /** `t` is `s` with the elements of `[lo, hi)` in some order. */
  ghost predicate Rearranged(s: seq<int>, t: seq<int>, lo: int, hi: int) {
    && 0 <= lo <= hi <= |s| == |t|
    && s[..lo] == t[..lo]
    && s[hi..] == t[hi..]
    && multiset(s[lo..hi]) == multiset(t[lo..hi])
  }

  lemma {:induction false} RearrangedTransitive(s: seq<int>, t: seq<int>, u: seq<int>, lo: int, hi: int)
    requires Rearranged(s, t, lo, hi) && Rearranged(t, u, lo, hi)
    ensures Rearranged(s, u, lo, hi)
  {
  }

  lemma {:induction false} RearrangedWider(s: seq<int>, t: seq<int>, lo: int, hi: int, from: int, to: int)
    requires Rearranged(s, t, lo, hi) && 0 <= from <= lo <= hi <= to <= |s|
    ensures Rearranged(s, t, from, to)
  {
    assert s[from..lo] == s[..lo][from..] && t[from..lo] == t[..lo][from..];
    assert s[hi..to] == s[hi..][..to - hi] && t[hi..to] == t[hi..][..to - hi];
    assert s[from..to] == s[from..lo] + s[lo..hi] + s[hi..to];
    assert t[from..to] == t[from..lo] + t[lo..hi] + t[hi..to];
    assert s[..from] == s[..lo][..from] && t[..from] == t[..lo][..from];
    assert s[to..] == s[hi..][to - hi..] && t[to..] == t[hi..][to - hi..];
  }

  lemma {:induction false} RearrangedIsPermutation(s: seq<int>, t: seq<int>, lo: int, hi: int)
    requires Rearranged(s, t, lo, hi)
    ensures multiset(s) == multiset(t)
  {
    RearrangedWider(s, t, lo, hi, 0, |s|);
    assert s[0..|s|] == s && t[0..|t|] == t;
  }

  function Swapped(s: seq<int>, i: int, j: int): seq<int>
    requires 0 <= i < |s| && 0 <= j < |s|
  {
    s[i := s[j]][j := s[i]]
  }

  lemma {:induction false} SwappedIsPermutation(s: seq<int>, i: int, j: int)
    requires 0 <= i < |s| && 0 <= j < |s|
    ensures multiset(Swapped(s, i, j)) == multiset(s)
  {
  }

  lemma {:induction false} SwappedInRange(s: seq<int>, i: int, j: int, lo: int, hi: int)
    requires 0 <= lo <= i < hi <= |s| && lo <= j < hi
    ensures Swapped(s, i, j)[lo..hi] == Swapped(s[lo..hi], i - lo, j - lo)
  {
  }

  lemma {:induction false} SwappedOutside(s: seq<int>, i: int, j: int, lo: int, hi: int)
    requires 0 <= lo <= i < hi <= |s| && lo <= j < hi
    ensures |Swapped(s, i, j)| == |s| && Swapped(s, i, j)[..lo] == s[..lo] && Swapped(s, i, j)[hi..] == s[hi..]
  {
  }

  lemma {:induction false} SwapRearranges(s: seq<int>, i: int, j: int, lo: int, hi: int)
    requires 0 <= lo <= i < hi <= |s| && lo <= j < hi
    ensures Rearranged(s, Swapped(s, i, j), lo, hi)
  {
    hide Swapped;
    SwappedOutside(s, i, j, lo, hi);
    SwappedInRange(s, i, j, lo, hi);
    SwappedIsPermutation(s[lo..hi], i - lo, j - lo);
  }

  lemma {:induction false} RearrangedLength(s: seq<int>, t: seq<int>, lo: int, hi: int)
    requires Rearranged(s, t, lo, hi)
    ensures 0 <= lo <= hi <= |s| == |t|
  {
  }

  /** What holds of all elements of the range holds of them in any order. */
  lemma {:induction false} RearrangedFrom(s: seq<int>, t: seq<int>, lo: int, hi: int, k: int) returns (j: int)
    requires Rearranged(s, t, lo, hi) && lo <= k < hi
    ensures lo <= j < hi && s[j] == t[k]
  {
    assert t[k] == t[lo..hi][k - lo];
    assert t[k] in multiset(t[lo..hi]);
    assert t[k] in s[lo..hi];
    var i: int :| 0 <= i < hi - lo && s[lo..hi][i] == t[k];
    j := lo + i;
  }

  // ----- partitions

  ghost predicate AllAtMost(s: seq<int>, lo: int, hi: int, x: int) {
    forall k :: 0 <= lo <= k < hi <= |s| ==> s[k] <= x
  }

  ghost predicate AllAbove(s: seq<int>, lo: int, hi: int, x: int) {
    forall k :: 0 <= lo <= k < hi <= |s| ==> s[k] > x
  }

  ghost predicate IsSorted(s: seq<int>, lo: int, hi: int) {
    forall i, j :: 0 <= lo <= i < j < hi <= |s| ==> s[i] <= s[j]
  }

  /** One step of the history: the last element of the range went where it belongs. */
  ghost predicate IsPartition(before: seq<int>, p: Partitioned) {
    && 0 <= p.low <= p.pivotIndex <= p.high < |before|
    && Rearranged(before, p.snapshot, p.low, p.high + 1)
    && p.pivot == before[p.high] == p.snapshot[p.pivotIndex]
    && AllAtMost(p.snapshot, p.low, p.pivotIndex, p.pivot)
    && AllAbove(p.snapshot, p.pivotIndex + 1, p.high + 1, p.pivot)
  }

  /** The partitions lead from one content of the array to the other. */
  ghost predicate History(before: seq<int>, ps: seq<Partitioned>, after: seq<int>)
    decreases |ps|
  {
    if ps == [] then after == before
    else IsPartition(before, ps[0]) && History(ps[0].snapshot, ps[1..], after)
  }

  /** The snapshot only rearranges `[lo, hi)` of `before`, and its pivot is where it will stay. */
  ghost predicate Settles(before: seq<int>, p: Partitioned, after: seq<int>, lo: int, hi: int) {
    && Rearranged(before, p.snapshot, lo, hi)
    && lo <= p.low <= p.pivotIndex <= p.high < hi <= |after|
    && p.snapshot[p.pivotIndex] == p.pivot == after[p.pivotIndex]
  }

  ghost predicate AllSettle(before: seq<int>, ps: seq<Partitioned>, after: seq<int>, lo: int, hi: int) {
    forall k :: 0 <= k < |ps| ==> Settles(before, ps[k], after, lo, hi)
  }

  lemma {:induction false} HistoryJoins(a: seq<int>, ps: seq<Partitioned>, b: seq<int>, qs: seq<Partitioned>, c: seq<int>)
    requires History(a, ps, b) && History(b, qs, c)
    ensures History(a, ps + qs, c)
    decreases |ps|
  {
    hide IsPartition;
    if ps == [] {
      assert ps + qs == qs;
    } else {
      HistoryJoins(ps[0].snapshot, ps[1..], b, qs, c);
      assert (ps + qs)[1..] == ps[1..] + qs;
    }
  }

  /** Nothing is moved after the last partition. */
  lemma {:induction false} HistoryEnds(before: seq<int>, ps: seq<Partitioned>, after: seq<int>)
    requires History(before, ps, after)
    ensures after == if ps == [] then before else ps[|ps| - 1].snapshot
    decreases |ps|
  {
    if ps == [] {
    } else {
      HistoryEnds(ps[0].snapshot, ps[1..], after);
    }
  }

  /** Sorting the part below the pivot keeps it below, and the same above. */
  lemma {:induction false} BoundsKept(s: seq<int>, t: seq<int>, lo: int, hi: int, x: int)
    requires Rearranged(s, t, lo, hi)
    ensures AllAtMost(s, lo, hi, x) ==> AllAtMost(t, lo, hi, x)
    ensures AllAbove(s, lo, hi, x) ==> AllAbove(t, lo, hi, x)
  {
    forall k | lo <= k < hi
      ensures AllAtMost(s, lo, hi, x) ==> t[k] <= x
      ensures AllAbove(s, lo, hi, x) ==> t[k] > x
    {
      var j := RearrangedFrom(s, t, lo, hi, k);
    }
  }

  lemma {:induction false} OutsideKept(s: seq<int>, t: seq<int>, lo: int, hi: int, k: int)
    requires Rearranged(s, t, lo, hi) && (0 <= k < lo || hi <= k < |s|)
    ensures t[k] == s[k]
  {
    if k < lo {
      assert s[k] == s[..lo][k] && t[k] == t[..lo][k];
    } else {
      assert s[k] == s[hi..][k - hi] && t[k] == t[hi..][k - hi];
    }
  }

  /** Both sides sorted around the pivot make the range sorted. */
  lemma {:induction false} SidesSorted(p: Partitioned, before: seq<int>, mid: seq<int>, after: seq<int>)
    requires IsPartition(before, p)
    requires Rearranged(p.snapshot, mid, p.low, p.pivotIndex) && IsSorted(mid, p.low, p.pivotIndex)
    requires Rearranged(mid, after, p.pivotIndex + 1, p.high + 1) && IsSorted(after, p.pivotIndex + 1, p.high + 1)
    ensures IsSorted(after, p.low, p.high + 1)
    ensures after[p.pivotIndex] == p.pivot
  {
    hide Rearranged;
    var m := p.pivotIndex;
    BoundsKept(p.snapshot, mid, p.low, m, p.pivot);
    SameLengths(before, p, mid, after);
    forall k | m <= k <= p.high
      ensures mid[k] == p.snapshot[k]
    {
      OutsideKept(p.snapshot, mid, p.low, m, k);
    }
    BoundsKept(mid, after, m + 1, p.high + 1, p.pivot);
    forall k | p.low <= k <= m
      ensures after[k] == mid[k]
    {
      OutsideKept(mid, after, m + 1, p.high + 1, k);
    }
  }

  lemma {:induction false} SameLengths(before: seq<int>, p: Partitioned, mid: seq<int>, after: seq<int>)
    requires IsPartition(before, p)
    requires Rearranged(p.snapshot, mid, p.low, p.pivotIndex)
    requires Rearranged(mid, after, p.pivotIndex + 1, p.high + 1)
    ensures |before| == |p.snapshot| == |mid| == |after|
  {
  }

  /** The snapshots of the two sides, seen from the whole range. */
  lemma {:induction false} SidesSettle(p: Partitioned, before: seq<int>, ps: seq<Partitioned>, mid: seq<int>, qs: seq<Partitioned>, after: seq<int>)
    requires IsPartition(before, p)
    requires Rearranged(p.snapshot, mid, p.low, p.pivotIndex) && AllSettle(p.snapshot, ps, mid, p.low, p.pivotIndex)
    requires Rearranged(mid, after, p.pivotIndex + 1, p.high + 1)
    requires AllSettle(mid, qs, after, p.pivotIndex + 1, p.high + 1)
    requires after[p.pivotIndex] == p.pivot
    ensures AllSettle(before, [p] + ps + qs, after, p.low, p.high + 1)
    ensures Rearranged(before, after, p.low, p.high + 1)
  {
    hide Rearranged;
    var lo, hi := p.low, p.high + 1;
    SameLengths(before, p, mid, after);
    RearrangedWider(p.snapshot, mid, lo, p.pivotIndex, lo, hi);
    RearrangedWider(mid, after, p.pivotIndex + 1, hi, lo, hi);
    RearrangedTransitive(before, p.snapshot, mid, lo, hi);
    RearrangedTransitive(before, mid, after, lo, hi);
    var all := [p] + ps + qs;
    forall k | 0 <= k < |all|
      ensures Settles(before, all[k], after, lo, hi)
    {
      if 1 <= k <= |ps| {
        SettlesLeft(p, before, ps[k - 1], mid, after);
      } else if k > |ps| {
        SettlesRight(p, before, mid, qs[k - 1 - |ps|], after);
      }
    }
  }

  lemma {:induction false} SettlesLeft(p: Partitioned, before: seq<int>, q: Partitioned, mid: seq<int>, after: seq<int>)
    requires IsPartition(before, p) && Settles(p.snapshot, q, mid, p.low, p.pivotIndex)
    requires Rearranged(mid, after, p.pivotIndex + 1, p.high + 1)
    ensures Settles(before, q, after, p.low, p.high + 1)
  {
    hide Rearranged, AllAtMost, AllAbove;
    RearrangedLength(before, p.snapshot, p.low, p.high + 1);
    RearrangedLength(p.snapshot, q.snapshot, p.low, p.pivotIndex);
    RearrangedLength(mid, after, p.pivotIndex + 1, p.high + 1);
    RearrangedWider(p.snapshot, q.snapshot, p.low, p.pivotIndex, p.low, p.high + 1);
    RearrangedTransitive(before, p.snapshot, q.snapshot, p.low, p.high + 1);
    OutsideKept(mid, after, p.pivotIndex + 1, p.high + 1, q.pivotIndex);
  }

  lemma {:induction false} SettlesRight(p: Partitioned, before: seq<int>, mid: seq<int>, q: Partitioned, after: seq<int>)
    requires IsPartition(before, p) && Rearranged(before, mid, p.low, p.high + 1)
    requires Settles(mid, q, after, p.pivotIndex + 1, p.high + 1)
    ensures Settles(before, q, after, p.low, p.high + 1)
  {
    hide Rearranged, AllAtMost, AllAbove;
    RearrangedLength(before, p.snapshot, p.low, p.high + 1);
    RearrangedLength(before, mid, p.low, p.high + 1);
    RearrangedLength(mid, q.snapshot, p.pivotIndex + 1, p.high + 1);
    RearrangedWider(mid, q.snapshot, p.pivotIndex + 1, p.high + 1, p.low, p.high + 1);
    RearrangedTransitive(before, mid, q.snapshot, p.low, p.high + 1);
  }

  // ----- the tool

  method Swap(a: array<int>, i: int, j: int)
    requires 0 <= i < a.Length && 0 <= j < a.Length
    modifies a
    ensures a[..] == Swapped(old(a[..]), i, j)
  {
    a[i], a[j] := a[j], a[i];
  }

  /** The scan so far: at most the pivot before `pivotIndex`, above it up to `scanIndex`. */
  ghost predicate Scanned(before: seq<int>, s: seq<int>, low: int, high: int, pivotIndex: int, scanIndex: int) {
    && 0 <= low <= pivotIndex <= scanIndex <= high < |before|
    && Rearranged(before, s, low, high + 1)
    && s[high] == before[high]
    && AllAtMost(s, low, pivotIndex, before[high])
    && AllAbove(s, pivotIndex, scanIndex, before[high])
  }

  lemma {:induction false} ScanStarts(s: seq<int>, low: int, high: int)
    requires 0 <= low <= high < |s|
    ensures Scanned(s, s, low, high, low, low)
  {
  }

  lemma {:induction false} ScanSkips(before: seq<int>, s: seq<int>, low: int, high: int, m: int, k: int)
    requires Scanned(before, s, low, high, m, k) && k < high && s[k] > before[high]
    ensures Scanned(before, s, low, high, m, k + 1)
  {
    hide Rearranged;
  }

  lemma {:induction false} ScanSwaps(before: seq<int>, s: seq<int>, low: int, high: int, m: int, k: int)
    requires Scanned(before, s, low, high, m, k) && k < high && s[k] <= before[high]
    requires |s| == |before|
    ensures Scanned(before, Swapped(s, m, k), low, high, m + 1, k + 1)
  {
    hide Rearranged, AllAtMost, AllAbove, Swapped;
    var t := Swapped(s, m, k);
    SwapRearranges(s, m, k, low, high + 1);
    RearrangedTransitive(before, s, t, low, high + 1);
    RearrangedLength(before, t, low, high + 1);
    ScanOrder(s, low, high, m, k, before[high]);
  }

  lemma {:induction false} ScanOrder(s: seq<int>, low: int, high: int, m: int, k: int, pivot: int)
    requires 0 <= low <= m <= k < high < |s|
    requires AllAtMost(s, low, m, pivot) && AllAbove(s, m, k, pivot) && s[k] <= pivot
    ensures AllAtMost(Swapped(s, m, k), low, m + 1, pivot) && AllAbove(Swapped(s, m, k), m + 1, k + 1, pivot)
    ensures Swapped(s, m, k)[high] == s[high]
  {
  }

  lemma {:induction false} ScanEnds(before: seq<int>, s: seq<int>, low: int, high: int, m: int)
    requires Scanned(before, s, low, high, m, high) && |s| == |before|
    ensures IsPartition(before, Partitioned(low, high, before[high], m, Swapped(s, m, high)))
  {
    hide Rearranged, AllAtMost, AllAbove, Swapped;
    var t := Swapped(s, m, high);
    SwapRearranges(s, m, high, low, high + 1);
    RearrangedTransitive(before, s, t, low, high + 1);
    RearrangedLength(before, t, low, high + 1);
    EndOrder(s, low, high, m, before[high]);
  }

  lemma {:induction false} EndOrder(s: seq<int>, low: int, high: int, m: int, pivot: int)
    requires 0 <= low <= m <= high < |s|
    requires AllAtMost(s, low, m, pivot) && AllAbove(s, m, high, pivot)
    ensures AllAtMost(Swapped(s, m, high), low, m, pivot) && AllAbove(Swapped(s, m, high), m + 1, high + 1, pivot)
    ensures Swapped(s, m, high)[m] == s[high]
  {
  }

  method Partition(a: array<int>, low: int, high: int) returns (p: Partitioned)
    requires 0 <= low <= high < a.Length
    modifies a
    ensures p.low == low && p.high == high && p.snapshot == a[..]
    ensures IsPartition(old(a[..]), p)
  {
    hide Scanned, IsPartition, Swapped;
    ghost var before := a[..];
    var pivot := a[high];
    var pivotIndex := low;
    ScanStarts(before, low, high);
    for scanIndex := low to high
      invariant low <= pivotIndex <= scanIndex
      invariant Scanned(before, a[..], low, high, pivotIndex, scanIndex)
    {
      if a[scanIndex] <= pivot {
        ScanSwaps(before, a[..], low, high, pivotIndex, scanIndex);
        Swap(a, pivotIndex, scanIndex);
        pivotIndex := pivotIndex + 1;
      } else {
        ScanSkips(before, a[..], low, high, pivotIndex, scanIndex);
      }
    }
    ScanEnds(before, a[..], low, high, pivotIndex);
    Swap(a, pivotIndex, high);
    p := Partitioned(low, high, pivot, pivotIndex, a[..]);
  }

  method Sort(a: array<int>, low: int, high: int) returns (partitions: seq<Partitioned>)
    requires 0 <= low <= high + 1 <= a.Length
    modifies a
    ensures IsSorted(a[..], low, high + 1)
    ensures Rearranged(old(a[..]), a[..], low, high + 1)
    ensures History(old(a[..]), partitions, a[..])
    ensures AllSettle(old(a[..]), partitions, a[..], low, high + 1)
    ensures |partitions| <= if low < high then high - low else 0
    decreases high - low
  {
    hide Rearranged, History, IsSorted, AllSettle;
    ghost var before := a[..];
    if low >= high {
      NothingToSort(before, low, high);
      return [];
    }
    var p := Partition(a, low, high);
    var left := Sort(a, low, p.pivotIndex - 1);
    ghost var mid := a[..];
    var right := Sort(a, p.pivotIndex + 1, high);
    SidesSorted(p, before, mid, a[..]);
    SidesSettle(p, before, left, mid, right, a[..]);
    HistoryJoins(p.snapshot, left, mid, right, a[..]);
    HistoryStarts(before, p, left + right, a[..]);
    partitions := [p] + left + right;
    assert [p] + (left + right) == partitions;
  }

  lemma {:induction false} NothingToSort(s: seq<int>, low: int, high: int)
    requires 0 <= low <= high + 1 <= |s| && low >= high
    ensures IsSorted(s, low, high + 1) && Rearranged(s, s, low, high + 1)
    ensures History(s, [], s) && AllSettle(s, [], s, low, high + 1)
  {
  }

  lemma {:induction false} HistoryStarts(before: seq<int>, p: Partitioned, ps: seq<Partitioned>, after: seq<int>)
    requires IsPartition(before, p) && History(p.snapshot, ps, after)
    ensures History(before, [p] + ps, after)
  {
    assert ([p] + ps)[1..] == ps;
  }

  method Quicksort(values: seq<int>) returns (trace: SortTrace)
    ensures trace.input == values
    ensures IsSorted(trace.result, 0, |trace.result|) && multiset(trace.result) == multiset(values)
    ensures History(values, trace.partitions, trace.result)
    ensures forall k :: 0 <= k < |trace.partitions| ==>
      && multiset(trace.partitions[k].snapshot) == multiset(values)
      && Settles(values, trace.partitions[k], trace.result, 0, |values|)
    ensures |trace.partitions| <= if values == [] then 0 else |values| - 1
  {
    hide Rearranged, History, IsSorted;
    var a := new int[|values|](i requires 0 <= i < |values| => values[i]);
    assert a[..] == values;
    var partitions := Sort(a, 0, a.Length - 1);
    RearrangedIsPermutation(values, a[..], 0, |values|);
    forall k | 0 <= k < |partitions|
      ensures multiset(partitions[k].snapshot) == multiset(values)
      ensures Settles(values, partitions[k], a[..], 0, |values|)
    {
      RearrangedIsPermutation(values, partitions[k].snapshot, 0, |values|);
    }
    return SortTrace(values, partitions, a[..]);
  }
}
