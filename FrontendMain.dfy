/**
 * The front end's draw-surface sort, light-list reordering and static
 * allocation wrappers.
 *
 * R_SortDrawSurfs packs each surface into a 64-bit key (sort value, depth,
 * reversed index), sorts the keys into non-increasing order with a
 * quicksort over an explicit stack of ranges that falls back to a
 * selection sort, and reads the surfaces back through the index bits.
 * The float-derived parts of a key (the bit pattern of the sort value and
 * the quantised depth) are inputs here.
 */
module FrontendMain {
  import opened Bits

  const MAX_LEVELS: int := 128
  /** 2^16: the index occupies the low 16 bits of a key, the depth the next 16. */
  const B16: nat := 0x1_0000
  /** 2^32: the sort value occupies the high 32 bits of a key. */
  const B32: nat := 0x1_0000_0000

  // ------------------------------------------------------------------
  // Keys
  // ------------------------------------------------------------------

  /** A surface's key inputs: the bits of SS_POST_PROCESS - sort and the 16-bit minimum depth. */
  datatype KeyFields = KeyFields(sortBits: nat, depth: nat)

  predicate FieldsInRange(f: KeyFields) { f.sortBits < B32 && f.depth < B16 }

  /** The key of surface i of n: (n - i) | depth << 16 | sortBits << 32. */
  function SortKey(n: nat, i: nat, f: KeyFields): (k: nat)
    requires i < n <= 0xFFFF && FieldsInRange(f)
    ensures k % B16 == n - i
    ensures k <= UINT64_MAX
  {
    var h := f.depth + f.sortBits * B16;
    assert h < B32 * B16 by {
      MulLe(f.sortBits, B32 - 1, B16);
    }
    DivModUnique((n - i) + h * B16, B16, h, n - i);
    MulLe(h, B32 * B16 - 1, B16);
    (n - i) + h * B16
  }

  /**
   * The order the keys encode: a larger sort value first, then a larger
   * depth, then the lower original index.
   */
  predicate Before(f: KeyFields, i: nat, g: KeyFields, j: nat)
  {
    f.sortBits > g.sortBits ||
    (f.sortBits == g.sortBits && (f.depth > g.depth || (f.depth == g.depth && i < j)))
  }

  lemma RadixCompare(x0: int, x1: int, y0: int, y1: int, b: int)
    requires b > 0 && 0 <= x0 < b && 0 <= y0 < b
    ensures x0 + x1 * b > y0 + y1 * b <==> x1 > y1 || (x1 == y1 && x0 > y0)
  {
    if x1 > y1 { MulLe(y1 + 1, x1, b); }
    if x1 < y1 { MulLe(x1 + 1, y1, b); }
  }

  /** Comparing two keys of one sort compares the surfaces by Before. */
  lemma KeyOrder(n: nat, i: nat, f: KeyFields, j: nat, g: KeyFields)
    requires i < n <= 0xFFFF && j < n && FieldsInRange(f) && FieldsInRange(g)
    ensures SortKey(n, i, f) > SortKey(n, j, g) <==> Before(f, i, g, j)
  {
    RadixCompare(f.depth, f.sortBits, g.depth, g.sortBits, B16);
    var hf, hg := f.depth + f.sortBits * B16, g.depth + g.sortBits * B16;
    RadixCompare(n - i, hf, n - j, hg, B16);
    if hf == hg {
      RadixCompare(f.depth, f.sortBits, g.depth, g.sortBits, B16);
      RadixCompare(g.depth, g.sortBits, f.depth, f.sortBits, B16);
    }
  }

  /** Keys of different surfaces differ (their low 16 bits do). */
  lemma KeysDistinct(n: nat, i: nat, f: KeyFields, j: nat, g: KeyFields)
    requires i < n <= 0xFFFF && j < n && FieldsInRange(f) && FieldsInRange(g) && i != j
    ensures SortKey(n, i, f) != SortKey(n, j, g)
  {
  }

  // ------------------------------------------------------------------
  // Pending ranges of the quicksort
  // ------------------------------------------------------------------

  /** An inclusive index range [lo, hi]; empty when hi < lo. */
  datatype Range = Range(lo: int, hi: int)

  function Size(r: Range): nat
  {
    if r.hi < r.lo then 0 else r.hi - r.lo + 1
  }

  /**
   * The last position of the pending range that holds p, or p itself when
   * no pending range holds it.
   */
  function Top(rs: seq<Range>, p: int): int
  {
    if rs == [] then p
    else if rs[0].lo <= p <= rs[0].hi then rs[0].hi
    else Top(rs[1..], p)
  }

  /** Pending ranges lie inside [0, n) from left to right. */
  ghost predicate WellFormed(rs: seq<Range>, n: int)
  {
    (forall k :: 0 <= k < |rs| ==> 0 <= rs[k].lo <= rs[k].hi + 1 && rs[k].hi < n) &&
    (forall k :: 0 <= k < |rs| - 1 ==> rs[k].hi < rs[k + 1].lo)
  }

  /**
   * What the sort has settled so far: two positions that are not in one
   * pending range are already in non-increasing order.
   */
  ghost predicate Settled(s: seq<nat>, rs: seq<Range>)
  {
    forall p, q :: 0 <= p < q < |s| && Top(rs, p) < q ==> s[p] >= s[q]
  }

  predicate SortedDesc(s: seq<nat>)
  {
    forall p, q :: 0 <= p < q < |s| ==> s[p] >= s[q]
  }

  /** Everything is settled once nothing is pending: the keys are sorted. */
  lemma SettledEmptyIsSorted(s: seq<nat>)
    requires Settled(s, [])
    ensures SortedDesc(s)
  {
  }

  lemma {:induction false} TopLeft(rs: seq<Range>, n: int, p: int)
    requires WellFormed(rs, n) && (rs == [] || p < rs[0].lo)
    ensures Top(rs, p) == p
  {
    if rs != [] {
      assert WellFormed(rs[1..], n) by {
        forall k | 0 <= k < |rs[1..]| - 1
          ensures rs[1..][k].hi < rs[1..][k + 1].lo
        {
          assert rs[1..][k] == rs[k + 1] && rs[1..][k + 1] == rs[k + 2];
        }
      }
      TopLeft(rs[1..], n, p);
    }
  }

  lemma {:induction false} TopAtLeast(rs: seq<Range>, p: int)
    ensures Top(rs, p) >= p
  {
    if rs != [] && !(rs[0].lo <= p <= rs[0].hi) {
      TopAtLeast(rs[1..], p);
    }
  }

  lemma WellFormedTail(rs: seq<Range>, n: int)
    requires WellFormed(rs, n) && rs != []
    ensures WellFormed(rs[1..], n)
  {
    forall k | 0 <= k < |rs[1..]| - 1
      ensures rs[1..][k].hi < rs[1..][k + 1].lo
    {
      assert rs[1..][k] == rs[k + 1] && rs[1..][k + 1] == rs[k + 2];
    }
  }

  /** A value of t inside [lo, hi] is a value of s inside [lo, hi] when the two slices hold the same values. */
  lemma ValueFrom(s: seq<nat>, t: seq<nat>, lo: int, hi: int, p: int) returns (p': int)
    requires 0 <= lo <= p <= hi < |s| && |t| == |s|
    requires multiset(t[lo..hi + 1]) == multiset(s[lo..hi + 1])
    ensures lo <= p' <= hi && s[p'] == t[p]
  {
    assert t[p] == t[lo..hi + 1][p - lo];
    assert t[p] in multiset(s[lo..hi + 1]);
    var m :| 0 <= m < |s[lo..hi + 1]| && s[lo..hi + 1][m] == t[p];
    p' := lo + m;
  }

  /**
   * Rearranging the first pending range among itself (same values, nothing
   * outside moved) keeps everything settled.
   */
  lemma PermuteFirst(s: seq<nat>, t: seq<nat>, rs: seq<Range>)
    requires rs != [] && WellFormed(rs, |s|) && Settled(s, rs) && |t| == |s|
    requires SameOutside(t, s, rs[0].lo, rs[0].hi)
    requires multiset(t[rs[0].lo..rs[0].hi + 1]) == multiset(s[rs[0].lo..rs[0].hi + 1])
    ensures Settled(t, rs)
  {
    var lo, hi := rs[0].lo, rs[0].hi;
    forall p, q | 0 <= p < q < |t| && Top(rs, p) < q
      ensures t[p] >= t[q]
    {
      TopAtLeast(rs, p);
      if lo <= p <= hi {
        var p' := ValueFrom(s, t, lo, hi, p);
        assert Top(rs, p') == hi;
      } else if lo <= q <= hi {
        var q' := ValueFrom(s, t, lo, hi, q);
        TopLeft(rs, |s|, p);
      }
    }
  }

  /** Where Top lands once the first pending range is split into [lo, j] and [i, hi]. */
  lemma TopAfterSplit(rs: seq<Range>, n: int, i: int, j: int, p: int)
    requires rs != [] && WellFormed(rs, n)
    requires rs[0].lo - 1 <= j < i <= rs[0].hi + 1
    ensures var rs' := [Range(rs[0].lo, j), Range(i, rs[0].hi)] + rs[1..];
      Top(rs', p) ==
        if p < rs[0].lo || p > rs[0].hi then Top(rs, p)
        else if p <= j then j
        else if p < i then p
        else rs[0].hi
  {
    var rs' := [Range(rs[0].lo, j), Range(i, rs[0].hi)] + rs[1..];
    assert rs'[1..][1..] == rs[1..];
    if rs[0].lo <= p <= rs[0].hi && j < p < i {
      WellFormedTail(rs, n);
      TopLeft(rs[1..], n, p);
    }
  }

  /**
   * After a partition of the first pending range into [lo, j] and [i, hi],
   * with everything left of i at least the pivot and everything right of j
   * at most it, the two halves replace it.
   */
  lemma PartitionSettles(s: seq<nat>, rs: seq<Range>, i: int, j: int, pivot: nat)
    requires rs != [] && WellFormed(rs, |s|) && Settled(s, rs)
    requires rs[0].lo - 1 <= j < i <= rs[0].hi + 1
    requires forall p :: rs[0].lo <= p < i ==> s[p] >= pivot
    requires forall q :: j < q <= rs[0].hi ==> s[q] <= pivot
    ensures var rs' := [Range(rs[0].lo, j), Range(i, rs[0].hi)] + rs[1..];
      WellFormed(rs', |s|) && Settled(s, rs')
  {
    var lo, hi := rs[0].lo, rs[0].hi;
    var rs' := [Range(lo, j), Range(i, hi)] + rs[1..];
    forall k | 0 <= k < |rs'| - 1
      ensures rs'[k].hi < rs'[k + 1].lo
    {
      if k >= 1 && |rs| > 1 {
        assert rs'[k + 1] == rs[k];
      }
    }
    forall k | 0 <= k < |rs'|
      ensures 0 <= rs'[k].lo <= rs'[k].hi + 1 && rs'[k].hi < |s|
    {
      if k >= 2 { assert rs'[k] == rs[k - 1]; }
    }
    forall p, q | 0 <= p < q < |s| && Top(rs', p) < q
      ensures s[p] >= s[q]
    {
      TopAfterSplit(rs, |s|, i, j, p);
      if lo <= p <= hi {
        assert Top(rs, p) == hi;
      }
    }
  }

  /** Once the first pending range is sorted, it is no longer pending. */
  lemma FinishFirst(s: seq<nat>, rs: seq<Range>)
    requires rs != [] && WellFormed(rs, |s|) && Settled(s, rs)
    requires forall p, q :: rs[0].lo <= p < q <= rs[0].hi ==> s[p] >= s[q]
    ensures WellFormed(rs[1..], |s|) && Settled(s, rs[1..])
  {
    WellFormedTail(rs, |s|);
    var lo, hi := rs[0].lo, rs[0].hi;
    forall p, q | 0 <= p < q < |s| && Top(rs[1..], p) < q
      ensures s[p] >= s[q]
    {
      if lo <= p <= hi {
        if q > hi {
          assert Top(rs, p) == hi;
        }
      } else {
        assert Top(rs, p) == Top(rs[1..], p);
      }
    }
  }

  /** The termination measure: pending ranges weighted by size squared plus one. */
  function Measure(rs: seq<Range>): nat
  {
    if rs == [] then 0 else Size(rs[0]) * Size(rs[0]) + 1 + Measure(rs[1..])
  }

  lemma MeasureTail(rs: seq<Range>)
    requires rs != []
    ensures Measure(rs[1..]) < Measure(rs)
  {
  }

  lemma SquaresShrink(a: nat, b: nat, n: nat)
    requires a <= n - 1 && b <= n - 1 && a + b <= n && n >= 2
    ensures a * a + b * b + 1 < n * n
  {
    var m := n - 1;
    assert a * a <= a * m by { if a > 0 { MulLe(a, m, a); } }
    assert b * b <= b * m by { if b > 0 { MulLe(b, m, b); } }
    assert a * m + b * m == (a + b) * m;
    assert (a + b) * m <= n * m by { MulLe(a + b, n, m); }
    assert n * m == n * n - n;
  }

  lemma PartitionShrinks(rs: seq<Range>, i: int, j: int)
    requires rs != [] && rs[0].hi - rs[0].lo >= 4
    requires rs[0].lo - 1 <= j < i <= rs[0].hi + 1 && rs[0].lo + 1 <= i && j <= rs[0].hi - 1
    ensures Measure([Range(rs[0].lo, j), Range(i, rs[0].hi)] + rs[1..]) < Measure(rs)
  {
    var rs' := [Range(rs[0].lo, j), Range(i, rs[0].hi)] + rs[1..];
    assert rs'[1..] == [Range(i, rs[0].hi)] + rs[1..];
    assert rs'[1..][1..] == rs[1..];
    SquaresShrink(Size(rs'[0]), Size(rs'[1]), Size(rs[0]));
  }

  /** The stack lo[0..level), hi[0..level) as ranges, top first. */
  function Stack(los: seq<int>, his: seq<int>, level: nat): seq<Range>
    requires level <= |los| && level <= |his|
  {
    if level == 0 then [] else [Range(los[level - 1], his[level - 1])] + Stack(los, his, level - 1)
  }

  lemma {:induction false} StackFrame(los: seq<int>, his: seq<int>, los': seq<int>, his': seq<int>, level: nat)
    requires level <= |los| && level <= |his| && level <= |los'| && level <= |his'|
    requires los[..level] == los'[..level] && his[..level] == his'[..level]
    ensures Stack(los, his, level) == Stack(los', his', level)
  {
    if level > 0 {
      assert los[level - 1] == los[..level][level - 1];
      assert los'[level - 1] == los'[..level][level - 1];
      assert his[level - 1] == his[..level][level - 1];
      assert his'[level - 1] == his'[..level][level - 1];
      assert los[..level - 1] == los[..level][..level - 1];
      assert los'[..level - 1] == los'[..level][..level - 1];
      assert his[..level - 1] == his[..level][..level - 1];
      assert his'[..level - 1] == his'[..level][..level - 1];
      StackFrame(los, his, los', his', level - 1);
    }
  }

  lemma StackLength(los: seq<int>, his: seq<int>, level: nat)
    requires level <= |los| && level <= |his|
    ensures |Stack(los, his, level)| == level
  {
  }

  // ------------------------------------------------------------------
  // The in-place sort
  // ------------------------------------------------------------------

  /** Positions outside [lo, hi] hold what they held. */
  ghost predicate SameOutside(s: seq<nat>, t: seq<nat>, lo: int, hi: int)
  {
    |s| == |t| && forall k :: 0 <= k < |s| && !(lo <= k <= hi) ==> s[k] == t[k]
  }

  lemma SliceMultiset(s: seq<nat>, t: seq<nat>, lo: int, hi: int)
    requires 0 <= lo <= hi + 1 <= |s| && SameOutside(s, t, lo, hi) && multiset(s) == multiset(t)
    ensures multiset(s[lo..hi + 1]) == multiset(t[lo..hi + 1])
  {
    assert s == s[..lo] + s[lo..hi + 1] + s[hi + 1..];
    assert t == t[..lo] + t[lo..hi + 1] + t[hi + 1..];
    assert s[..lo] == t[..lo];
    assert s[hi + 1..] == t[hi + 1..];
    var out := multiset(s[..lo]) + multiset(s[hi + 1..]);
    assert multiset(s) == multiset(s[lo..hi + 1]) + out;
    assert multiset(t) == multiset(t[lo..hi + 1]) + out;
    assert multiset(s[lo..hi + 1]) == multiset(s) - out;
  }

  method Swap(a: array<nat>, x: int, y: int)
    requires 0 <= x < a.Length && 0 <= y < a.Length
    modifies a
    ensures a[..] == old(a[..])[x := old(a[y])][y := old(a[x])]
    ensures multiset(a[..]) == multiset(old(a[..]))
  {
    var h := a[x];
    a[x] := a[y];
    a[y] := h;
  }

  /**
   * The partition step over [lo, hi] around the key in the middle: i scans
   * right past larger keys, j left past smaller ones, and out-of-place
   * pairs are exchanged until the scans cross. Both halves come out
   * strictly smaller than the range.
   */
  method Partition(a: array<nat>, lo: int, hi: int) returns (i: int, j: int, ghost pivot: nat)
    requires 0 <= lo && hi < a.Length && hi - lo >= 4
    modifies a
    ensures lo - 1 <= j < i <= hi + 1 && lo + 1 <= i && j <= hi - 1
    ensures forall p :: lo <= p < i ==> a[p] >= pivot
    ensures forall q :: j < q <= hi ==> a[q] <= pivot
    ensures SameOutside(a[..], old(a[..]), lo, hi)
    ensures multiset(a[..]) == multiset(old(a[..]))
  {
    i, j := lo, hi;
    var mid := (i + j) / 2;
    var pv := a[mid];
    pivot := pv;
    ghost var wi, wj := mid, mid;
    ghost var first := true;
    while true
      invariant lo <= i <= wi <= hi && lo <= wj <= j <= hi && i <= j
      invariant a[wi] <= pv && a[wj] >= pv
      invariant first ==> i == lo && j == hi && wi == mid && wj == mid
      invariant !first ==> lo + 1 <= i && j <= hi - 1
      invariant forall p :: lo <= p < i ==> a[p] >= pv
      invariant forall q :: j < q <= hi ==> a[q] <= pv
      invariant SameOutside(a[..], old(a[..]), lo, hi)
      invariant multiset(a[..]) == multiset(old(a[..]))
      decreases j - i
    {
      i := ScanUp(a, lo, i, wi, pv);
      j := ScanDown(a, hi, j, wj, pv);
      if i > j {
        break;
      }
      ghost var s0 := a[..];
      Swap(a, i, j);
      AfterSwap(s0, a[..], old(a[..]), lo, hi, i, j, pv);
      i := i + 1;
      j := j - 1;
      if !(i <= j) {
        break;
      }
      wi, wj := j + 1, i - 1;
      first := false;
    }
  }

  /** Exchanging the two keys the scans stopped at extends both scanned ends by one. */
  lemma AfterSwap(s: seq<nat>, t: seq<nat>, orig: seq<nat>, lo: int, hi: int, i: int, j: int, pv: nat)
    requires 0 <= lo <= i <= j <= hi < |s|
    requires t == s[i := s[j]][j := s[i]]
    requires s[i] <= pv && s[j] >= pv
    requires forall p :: lo <= p < i ==> s[p] >= pv
    requires forall q :: j < q <= hi ==> s[q] <= pv
    requires SameOutside(s, orig, lo, hi)
    ensures forall p :: lo <= p <= i ==> t[p] >= pv
    ensures forall q :: j <= q <= hi ==> t[q] <= pv
    ensures SameOutside(t, orig, lo, hi)
  {
  }

  /** Partition's scan of i: right past keys above the pivot, stopping at the guard wi at the latest. */
  method ScanUp(a: array<nat>, lo: int, i: int, ghost wi: int, pv: nat) returns (i': int)
    requires 0 <= lo <= i <= wi < a.Length && a[wi] <= pv
    requires forall p :: lo <= p < i ==> a[p] >= pv
    ensures i <= i' <= wi && a[i'] <= pv
    ensures forall p :: lo <= p < i' ==> a[p] >= pv
  {
    i' := i;
    while a[i'] > pv
      invariant i <= i' <= wi
      invariant forall p :: lo <= p < i' ==> a[p] >= pv
      decreases wi - i'
    {
      i' := i' + 1;
    }
  }

  /** Partition's scan of j: left past keys below the pivot, stopping at the guard wj at the latest. */
  method ScanDown(a: array<nat>, hi: int, j: int, ghost wj: int, pv: nat) returns (j': int)
    requires 0 <= wj <= j <= hi < a.Length && a[wj] >= pv
    requires forall q :: j < q <= hi ==> a[q] <= pv
    ensures wj <= j' <= j && a[j'] >= pv
    ensures forall q :: j' < q <= hi ==> a[q] <= pv
  {
    j' := j;
    while a[j'] < pv
      invariant wj <= j' <= j
      invariant forall q :: j' < q <= hi ==> a[q] <= pv
      decreases j' - wj
    {
      j' := j' - 1;
    }
  }

  /**
   * The small-range pass over [lo, hi]: the minimum of [lo, j] is moved to
   * position j, for j from hi down to lo + 1, leaving the range
   * non-increasing.
   */
  method SelectionSort(a: array<nat>, lo: int, hi: int)
    requires 0 <= lo <= hi + 1 <= a.Length
    modifies a
    ensures forall p, q :: lo <= p < q <= hi ==> a[p] >= a[q]
    ensures SameOutside(a[..], old(a[..]), lo, hi)
    ensures multiset(a[..]) == multiset(old(a[..]))
  {
    var j := hi;
    while lo < j
      invariant lo - 1 <= j <= hi
      invariant forall p, q :: j < p < q <= hi ==> a[p] >= a[q]
      invariant forall p, q :: lo <= p <= j < q <= hi ==> a[p] >= a[q]
      invariant SameOutside(a[..], old(a[..]), lo, hi)
      invariant multiset(a[..]) == multiset(old(a[..]))
    {
      var m := lo;
      var k := lo + 1;
      while k <= j
        invariant lo <= m <= j && k <= j + 1
        invariant forall t :: lo <= t < k ==> a[m] <= a[t]
      {
        if a[k] < a[m] {
          m := k;
        }
        k := k + 1;
      }
      Swap(a, m, j);
      j := j - 1;
    }
  }

  /**
   * The sort loop of R_SortDrawSurfs: partition while the current range
   * has at least five keys and the stack has room (pushing the right half,
   * continuing on the left), else finish the range by selection and pop;
   * done when the stack runs out. The keys end non-increasing, as a
   * permutation of the input.
   */
  /** PermuteFirst, from the whole-sequence facts the sorting methods ensure. */
  lemma RearrangeFirst(before: seq<nat>, after: seq<nat>, rs: seq<Range>)
    requires rs != [] && WellFormed(rs, |before|) && Settled(before, rs)
    requires SameOutside(after, before, rs[0].lo, rs[0].hi)
    requires multiset(after) == multiset(before)
    ensures Settled(after, rs)
  {
    SliceMultiset(after, before, rs[0].lo, rs[0].hi);
    PermuteFirst(before, after, rs);
  }

  /** The ghost bookkeeping of one partition step of SortKeys. */
  lemma AfterPartition(before: seq<nat>, after: seq<nat>, rs: seq<Range>, i: int, j: int, pivot: nat)
    requires rs != [] && WellFormed(rs, |before|) && Settled(before, rs)
    requires rs[0].hi - rs[0].lo >= 4
    requires rs[0].lo - 1 <= j < i <= rs[0].hi + 1 && rs[0].lo + 1 <= i && j <= rs[0].hi - 1
    requires SameOutside(after, before, rs[0].lo, rs[0].hi)
    requires forall p :: rs[0].lo <= p < i ==> after[p] >= pivot
    requires forall q :: j < q <= rs[0].hi ==> after[q] <= pivot
    requires multiset(after) == multiset(before)
    ensures var rs' := [Range(rs[0].lo, j), Range(i, rs[0].hi)] + rs[1..];
      WellFormed(rs', |after|) && Settled(after, rs') && Measure(rs') < Measure(rs)
  {
    RearrangeFirst(before, after, rs);
    PartitionSettles(after, rs, i, j, pivot);
    PartitionShrinks(rs, i, j);
  }

  /** The ghost bookkeeping of one selection step of SortKeys. */
  lemma AfterSelection(before: seq<nat>, after: seq<nat>, rs: seq<Range>)
    requires rs != [] && WellFormed(rs, |before|) && Settled(before, rs)
    requires SameOutside(after, before, rs[0].lo, rs[0].hi)
    requires forall p, q :: rs[0].lo <= p < q <= rs[0].hi ==> after[p] >= after[q]
    requires multiset(after) == multiset(before)
    ensures WellFormed(rs[1..], |after|) && Settled(after, rs[1..]) && Measure(rs[1..]) < Measure(rs)
  {
    RearrangeFirst(before, after, rs);
    FinishFirst(after, rs);
    MeasureTail(rs);
  }

  /**
   * The sort loop of R_SortDrawSurfs: partition while the current range
   * has at least five keys and the stack has room (pushing the right half,
   * continuing on the left), else finish the range by selection and pop;
   * done when the stack runs out. The keys end non-increasing, as a
   * permutation of the input.
   */
  method SortKeys(a: array<nat>)
    modifies a
    ensures SortedDesc(a[..])
    ensures multiset(a[..]) == multiset(old(a[..]))
  {
    var los := new int[MAX_LEVELS];
    var his := new int[MAX_LEVELS];
    var stLo, stHi, level := 0, a.Length - 1, 0;
    ghost var rs := [Range(stLo, stHi)];
    while true
      invariant 0 <= level < MAX_LEVELS
      invariant rs == [Range(stLo, stHi)] + Stack(los[..], his[..], level)
      invariant WellFormed(rs, a.Length)
      invariant Settled(a[..], rs)
      invariant multiset(a[..]) == multiset(old(a[..]))
      decreases Measure(rs)
    {
      var i, j := stLo, stHi;
      ghost var before := a[..];
      if j - i >= 4 && level < MAX_LEVELS - 1 {
        ghost var pivot;
        i, j, pivot := Partition(a, i, j);
        AfterPartition(before, a[..], rs, i, j, pivot);
        ghost var los0, his0 := los[..], his[..];
        los[level] := i;
        his[level] := stHi;
        StackFrame(los0, his0, los[..], his[..], level);
        rs := [Range(stLo, j), Range(i, stHi)] + rs[1..];
        stHi := j;
        level := level + 1;
      } else {
        SelectionSort(a, i, j);
        AfterSelection(before, a[..], rs);
        rs := rs[1..];
        level := level - 1;
        if level < 0 {
          break;
        }
        stLo := los[level];
        stHi := his[level];
      }
    }
    SettledEmptyIsSorted(a[..]);
  }

  // ------------------------------------------------------------------
  // Reading the surfaces back
  // ------------------------------------------------------------------

  /** The keys of n surfaces, in their original order. */
  function Keys(fields: seq<KeyFields>): (ks: seq<nat>)
    requires |fields| <= 0xFFFF && forall k :: 0 <= k < |fields| ==> FieldsInRange(fields[k])
    ensures |ks| == |fields|
  {
    seq(|fields|, i requires 0 <= i < |fields| => SortKey(|fields|, i, fields[i]))
  }

  /** The original index each sorted key carries: n - (key & 0xFFFF). */
  function OrderOf(n: int, sorted: seq<nat>): (order: seq<int>)
    ensures |order| == |sorted|
  {
    seq(|sorted|, i requires 0 <= i < |sorted| => n - sorted[i] % B16)
  }

  /** A one-to-one map of the positions 0 to n - 1 onto themselves. */
  predicate IsIndexPermutation(order: seq<int>, n: nat)
  {
    |order| == n &&
    (forall p :: 0 <= p < n ==> 0 <= order[p] < n) &&
    (forall p, q :: 0 <= p < q < n ==> order[p] != order[q])
  }

  lemma TwoEqualCount<A>(s: seq<A>, p: int, q: int)
    requires 0 <= p < q < |s| && s[p] == s[q]
    ensures multiset(s)[s[p]] >= 2
  {
    assert s == s[..q] + [s[q]] + s[q + 1..];
    assert s[..q][p] == s[p];
    assert multiset(s[..q])[s[p]] >= 1;
  }

  lemma {:induction false} DistinctCount(s: seq<nat>, v: nat)
    requires forall p, q :: 0 <= p < q < |s| ==> s[p] != s[q]
    ensures multiset(s)[v] <= 1
  {
    if s != [] {
      assert s == [s[0]] + s[1..];
      DistinctCount(s[1..], v);
      if v == s[0] {
        assert v !in s[1..];
      }
    }
  }

  /**
   * Reading sorted keys back: the indices they carry are a permutation of
   * 0 to n - 1, each key is the key of the surface it names, and the
   * surfaces come out in Before order — larger sort value first, then
   * larger depth, and ties in their original order.
   */
  lemma SortedOrder(fields: seq<KeyFields>, sorted: seq<nat>)
    requires |fields| <= 0xFFFF && forall k :: 0 <= k < |fields| ==> FieldsInRange(fields[k])
    requires SortedDesc(sorted) && multiset(sorted) == multiset(Keys(fields))
    ensures var order := OrderOf(|fields|, sorted);
      IsIndexPermutation(order, |fields|) &&
      (forall p :: 0 <= p < |order| ==> sorted[p] == SortKey(|fields|, order[p], fields[order[p]])) &&
      (forall p, q :: 0 <= p < q < |order| ==>
        Before(fields[order[p]], order[p], fields[order[q]], order[q]))
  {
    var n := |fields|;
    var ks := Keys(fields);
    var order := OrderOf(n, sorted);
    assert |sorted| == n by {
      assert |sorted| == |multiset(sorted)| == |multiset(ks)| == |ks|;
    }
    forall p | 0 <= p < n
      ensures 0 <= order[p] < n && sorted[p] == SortKey(n, order[p], fields[order[p]])
    {
      assert sorted[p] in multiset(ks);
      var k :| 0 <= k < n && ks[k] == sorted[p];
    }
    forall p, q | 0 <= p < q < n
      ensures order[p] != order[q]
    {
      if order[p] == order[q] {
        TwoEqualCount(sorted, p, q);
        forall x, y | 0 <= x < y < n
          ensures ks[x] != ks[y]
        {
          KeysDistinct(n, x, fields[x], y, fields[y]);
        }
        DistinctCount(ks, sorted[p]);
      }
    }
    forall p, q | 0 <= p < q < n
      ensures Before(fields[order[p]], order[p], fields[order[q]], order[q])
    {
      KeysDistinct(n, order[p], fields[order[p]], order[q], fields[order[q]]);
      KeyOrder(n, order[p], fields[order[p]], order[q], fields[order[q]]);
    }
  }

  /** The key loop of R_SortDrawSurfs, into a fresh buffer. */
  method BuildKeys(fields: seq<KeyFields>) returns (indices: array<nat>)
    requires |fields| <= 0xFFFF && forall k :: 0 <= k < |fields| ==> FieldsInRange(fields[k])
    ensures fresh(indices) && indices[..] == Keys(fields)
  {
    var n := |fields|;
    indices := new nat[n];
    for i := 0 to n
      invariant forall k :: 0 <= k < i ==> indices[k] == SortKey(n, k, fields[k])
    {
      indices[i] := SortKey(n, i, fields[i]);
    }
  }

  /** The read-back loop: surface n - (key & 0xFFFF) for each sorted key. */
  method ReadBack<T>(drawSurfs: array<T>, indices: array<nat>) returns (newSurfs: seq<T>)
    requires indices.Length == drawSurfs.Length
    requires forall p :: 0 <= p < indices.Length ==> 0 <= drawSurfs.Length - indices[p] % B16 < drawSurfs.Length
    ensures |newSurfs| == indices.Length
    ensures forall p :: 0 <= p < |newSurfs| ==> newSurfs[p] == drawSurfs[drawSurfs.Length - indices[p] % B16]
  {
    var n := drawSurfs.Length;
    newSurfs := [];
    for i := 0 to n
      invariant |newSurfs| == i
      invariant forall p :: 0 <= p < i ==> newSurfs[p] == drawSurfs[n - indices[p] % B16]
    {
      // the key's low 16 bits: & 0xFFFF on a non-negative key
      newSurfs := newSurfs + [drawSurfs[n - indices[i] % B16]];
    }
  }

  /** The memcpy of the read-back surfaces over the input array. */
  method CopyBack<T>(drawSurfs: array<T>, newSurfs: seq<T>)
    requires |newSurfs| == drawSurfs.Length
    modifies drawSurfs
    ensures drawSurfs[..] == newSurfs
  {
    for i := 0 to drawSurfs.Length
      invariant forall p :: 0 <= p < i ==> drawSurfs[p] == newSurfs[p]
    {
      drawSurfs[i] := newSurfs[i];
    }
  }

  /**
   * R_SortDrawSurfs: builds the keys, sorts them, and rewrites the surface
   * array in the order the keys carry. order[p] is the original position of
   * the surface that ends at p.
   */
  method SortDrawSurfs<T>(drawSurfs: array<T>, fields: seq<KeyFields>) returns (ghost order: seq<int>)
    requires drawSurfs.Length == |fields| <= 0xFFFF
    requires forall k :: 0 <= k < |fields| ==> FieldsInRange(fields[k])
    modifies drawSurfs
    ensures IsIndexPermutation(order, |fields|)
    ensures forall p :: 0 <= p < |order| ==> drawSurfs[p] == old(drawSurfs[order[p]])
    ensures forall p, q :: 0 <= p < q < |order| ==>
      Before(fields[order[p]], order[p], fields[order[q]], order[q])
  {
    var n := drawSurfs.Length;
    var indices := BuildKeys(fields);
    SortKeys(indices);
    order := OrderOf(n, indices[..]);
    SortedOrder(fields, indices[..]);
    assert forall p :: 0 <= p < n ==> order[p] == n - indices[p] % B16;
    var newSurfs := ReadBack(drawSurfs, indices);
    CopyBack(drawSurfs, newSurfs);
  }

  // ------------------------------------------------------------------
  // R_OptimizeViewLightsList
  // ------------------------------------------------------------------

  /**
   * A visible light as the list pass sees it: whether each interaction
   * chain is non-empty, whether each shadow chain is, and the area of its
   * scissor rectangle.
   */
  datatype ViewLight = ViewLight(
    id: nat,
    localInteractions: bool, globalInteractions: bool, translucentInteractions: bool,
    localShadows: bool, globalShadows: bool,
    scissorArea: int)

  /** A light with no lit surface has no shadows to draw. */
  function DropUnusedShadows(v: ViewLight): (r: ViewLight)
    ensures r.id == v.id && r.scissorArea == v.scissorArea
    ensures (r.localShadows || r.globalShadows) ==>
      (v.localInteractions || v.globalInteractions || v.translucentInteractions)
    ensures (v.localInteractions || v.globalInteractions || v.translucentInteractions) ==> r == v
  {
    if !v.localInteractions && !v.globalInteractions && !v.translucentInteractions then
      v.(localShadows := false, globalShadows := false)
    else v
  }

  predicate AscendingArea(s: seq<ViewLight>)
  {
    forall p, q :: 0 <= p < q < |s| ==> s[p].scissorArea <= s[q].scissorArea
  }

  predicate DescendingArea(s: seq<ViewLight>)
  {
    forall p, q :: 0 <= p < q < |s| ==> s[p].scissorArea >= s[q].scissorArea
  }

  /** Insertion into a list ascending by area. */
  function InsertByArea(v: ViewLight, s: seq<ViewLight>): (r: seq<ViewLight>)
    ensures multiset(r) == multiset(s) + multiset{v}
  {
    if s == [] || v.scissorArea <= s[0].scissorArea then [v] + s
    else
      assert s == [s[0]] + s[1..];
      [s[0]] + InsertByArea(v, s[1..])
  }

  lemma {:induction false} InsertByAreaAscending(v: ViewLight, s: seq<ViewLight>)
    requires AscendingArea(s)
    ensures AscendingArea(InsertByArea(v, s))
  {
    if s != [] && v.scissorArea > s[0].scissorArea {
      InsertByAreaAscending(v, s[1..]);
      var r := InsertByArea(v, s[1..]);
      forall x: ViewLight | x in multiset(r)
        ensures x.scissorArea >= s[0].scissorArea
      {
        assert x in multiset(s[1..]) + multiset{v};
      }
      forall q | 0 <= q < |r|
        ensures s[0].scissorArea <= r[q].scissorArea
      {
        assert r[q] in multiset(r);
      }
    }
  }

  /**
   * The qsort of the light array by the comparator a.area - b.area: some
   * ascending arrangement of the same lights. (qsort's order among equal
   * areas is unspecified; this one is an insertion sort.)
   */
  function SortByArea(s: seq<ViewLight>): (r: seq<ViewLight>)
    ensures multiset(r) == multiset(s)
  {
    if s == [] then []
    else
      assert s == [s[0]] + s[1..];
      InsertByArea(s[0], SortByArea(s[1..]))
  }

  lemma {:induction false} SortByAreaAscending(s: seq<ViewLight>)
    ensures AscendingArea(SortByArea(s))
  {
    if s != [] {
      SortByAreaAscending(s[1..]);
      InsertByAreaAscending(s[0], SortByArea(s[1..]));
    }
  }

  /**
   * R_OptimizeViewLightsList on the list of visible lights: lights with no
   * interactions lose their shadow chains, and the list is rebuilt by
   * inserting the ascending array at the head, so it comes out with the
   * largest lights first.
   */
  method OptimizeViewLightsList(viewLights: seq<ViewLight>) returns (list: seq<ViewLight>)
    ensures multiset(list) == multiset(MapDropUnusedShadows(viewLights))
    ensures DescendingArea(list)
  {
    var lights := DropShadowsLoop(viewLights);
    var sortLights := SortByArea(lights);
    SortByAreaAscending(lights);
    list := RebuildList(sortLights);
  }

  /** The first pass over the list, clearing the shadows of unlit lights. */
  method DropShadowsLoop(viewLights: seq<ViewLight>) returns (lights: seq<ViewLight>)
    ensures lights == MapDropUnusedShadows(viewLights)
  {
    lights := [];
    for i := 0 to |viewLights|
      invariant lights == MapDropUnusedShadows(viewLights[..i])
    {
      assert viewLights[..i + 1] == viewLights[..i] + [viewLights[i]];
      MapDropConcat(viewLights[..i], [viewLights[i]]);
      lights := lights + [DropUnusedShadows(viewLights[i])];
    }
    assert viewLights[..|viewLights|] == viewLights;
  }

  /**
   * Rebuilding the linked list by inserting each sorted light at its head:
   * the list comes out in the reverse order, so largest first.
   */
  method RebuildList(sortLights: seq<ViewLight>) returns (list: seq<ViewLight>)
    requires AscendingArea(sortLights)
    ensures |list| == |sortLights| && forall k :: 0 <= k < |list| ==> list[k] == sortLights[|list| - 1 - k]
    ensures multiset(list) == multiset(sortLights)
    ensures DescendingArea(list)
  {
    list := [];
    for i := 0 to |sortLights|
      invariant |list| == i
      invariant forall k :: 0 <= k < i ==> list[k] == sortLights[i - 1 - k]
      invariant multiset(list) == multiset(sortLights[..i])
    {
      assert sortLights[..i + 1] == sortLights[..i] + [sortLights[i]];
      list := [sortLights[i]] + list;
    }
    assert sortLights[..|sortLights|] == sortLights;
  }

  function MapDropUnusedShadows(s: seq<ViewLight>): (r: seq<ViewLight>)
    ensures |r| == |s|
  {
    if s == [] then [] else [DropUnusedShadows(s[0])] + MapDropUnusedShadows(s[1..])
  }

  lemma {:induction false} MapDropConcat(a: seq<ViewLight>, b: seq<ViewLight>)
    ensures MapDropUnusedShadows(a + b) == MapDropUnusedShadows(a) + MapDropUnusedShadows(b)
  {
    if a == [] {
      assert a + b == b;
    } else {
      assert (a + b)[1..] == a[1..] + b;
      MapDropConcat(a[1..], b);
    }
  }

  /** Every light in the rebuilt list has shadows only when something it lights is visible. */
  lemma {:induction false} DroppedShadowsOnlyWhenUnlit(s: seq<ViewLight>)
    ensures forall v :: v in MapDropUnusedShadows(s) ==>
      ((v.localShadows || v.globalShadows) ==>
        (v.localInteractions || v.globalInteractions || v.translucentInteractions))
  {
    if s != [] {
      DroppedShadowsOnlyWhenUnlit(s[1..]);
    }
  }

  // ------------------------------------------------------------------
  // R_StaticAlloc, R_ClearedStaticAlloc
  // ------------------------------------------------------------------

  /** What a static allocation comes to: a fatal error, a null pointer for zero bytes, or a buffer. */
  datatype AllocOutcome = AllocFatal | AllocNull | AllocBlock(buf: array<bv8>)

  /**
   * R_StaticAlloc around the heap's answer (mem): a failed allocation is
   * fatal unless nothing was asked for.
   */
  method StaticAlloc(bytes: nat, mem: Option<array<bv8>>) returns (r: AllocOutcome)
    requires mem.Some? ==> mem.value.Length == bytes
    ensures r.AllocFatal? <==> mem.None? && bytes != 0
    ensures r.AllocNull? <==> mem.None? && bytes == 0
    ensures r.AllocBlock? ==> mem == Some(r.buf) && r.buf.Length == bytes
  {
    if mem.None? {
      if bytes != 0 {
        return AllocFatal;
      }
      return AllocNull;
    }
    r := AllocBlock(mem.value);
  }

  /** R_ClearedStaticAlloc: the same, with every byte of the block zeroed. */
  method ClearedStaticAlloc(bytes: nat, mem: Option<array<bv8>>) returns (r: AllocOutcome)
    requires mem.Some? ==> mem.value.Length == bytes
    modifies if mem.Some? then {mem.value} else {}
    ensures r.AllocFatal? <==> mem.None? && bytes != 0
    ensures r.AllocNull? <==> mem.None? && bytes == 0
    ensures r.AllocBlock? ==> mem == Some(r.buf) && r.buf.Length == bytes && forall k :: 0 <= k < bytes ==> r.buf[k] == 0
  {
    r := StaticAlloc(bytes, mem);
    if r.AllocBlock? {
      var buf := r.buf;
      for k := 0 to bytes
        invariant forall t :: 0 <= t < k ==> buf[t] == 0
      {
        buf[k] := 0;
      }
    }
  }
}
