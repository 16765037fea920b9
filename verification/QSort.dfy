/** The bootloader's qsort: quicksort without recursion that leaves parts of at most five elements to a
    final insertion sort. Elements are swapped and rotated whole; the scans have no bounds check. */
module QSort {

  const MAX_THRESH: nat := 4
  const STACK_SIZE: nat := 64
  const SIZE_LIMIT: nat := 0x1_0000_0000_0000_0000

  /** qsort asks only whether cmp is negative. */
  predicate Le<T>(cmp: (T, T) -> int, x: T, y: T) {
    cmp(y, x) >= 0
  }

  ghost predicate TotalPreorder<T(!new)>(cmp: (T, T) -> int) {
    && (forall x, y :: Le(cmp, x, y) || Le(cmp, y, x))
    && (forall x, y, z :: Le(cmp, x, y) && Le(cmp, y, z) ==> Le(cmp, x, z))
  }

  lemma LessIsLe<T(!new)>(cmp: (T, T) -> int, x: T, y: T)
    requires TotalPreorder(cmp) && cmp(x, y) < 0
    ensures Le(cmp, x, y)
  {
    assert !Le(cmp, y, x);
  }

  ghost predicate Sorted<T>(cmp: (T, T) -> int, s: seq<T>) {
    forall i, j | 0 <= i < j < |s| :: Le(cmp, s[i], s[j])
  }

  /** Nothing before m has to move past it. */
  ghost predicate Split<T>(cmp: (T, T) -> int, s: seq<T>, m: int) {
    forall i, j | 0 <= i < m <= j < |s| :: Le(cmp, s[i], s[j])
  }

  function Swapped<T>(s: seq<T>, i: nat, j: nat): seq<T>
    requires i < |s| && j < |s|
  {
    s[i := s[j]][j := s[i]]
  }

  /** r is s with the elements from lo to hi permuted; cuts outside that range stay cuts. */
  ghost predicate Rearranged<T>(cmp: (T, T) -> int, s: seq<T>, r: seq<T>, lo: int, hi: int) {
    && |r| == |s| && multiset(r) == multiset(s)
    && (forall k | 0 <= k < |s| && !(lo <= k <= hi) :: r[k] == s[k])
    && (forall m | m <= lo || hi < m :: Split(cmp, s, m) ==> Split(cmp, r, m))
  }

  lemma SwapRearranges<T>(cmp: (T, T) -> int, s: seq<T>, i: nat, j: nat, lo: int, hi: int)
    requires i < |s| && j < |s| && lo <= i <= hi && lo <= j <= hi
    ensures Rearranged(cmp, s, Swapped(s, i, j), lo, hi)
  {
  }

  lemma RearrangedTwice<T>(cmp: (T, T) -> int, s: seq<T>, r: seq<T>, q: seq<T>, lo: int, hi: int)
    requires Rearranged(cmp, s, r, lo, hi) && Rearranged(cmp, r, q, lo, hi)
    ensures Rearranged(cmp, s, q, lo, hi)
  {
  }

  method Swap<T>(a: array<T>, ghost n: nat, ghost cmp: (T, T) -> int, i: nat, j: nat)
    requires i < n && j < n && n <= a.Length
    modifies a
    ensures a[..n] == Swapped(old(a[..n]), i, j) && a[n..] == old(a[n..])
    ensures forall lo, hi | lo <= i <= hi && lo <= j <= hi :: Rearranged(cmp, old(a[..n]), a[..n], lo, hi)
  {
    a[i], a[j] := a[j], a[i];
    assert a[..n] == Swapped(old(a[..n]), i, j);
    forall lo, hi | lo <= i <= hi && lo <= j <= hi ensures Rearranged(cmp, old(a[..n]), a[..n], lo, hi) {
      SwapRearranges(cmp, old(a[..n]), i, j, lo, hi);
    }
  }

  /** Puts the smaller of a[i], a[j] at i. */
  method Order<T(!new)>(a: array<T>, ghost n: nat, cmp: (T, T) -> int, i: nat, j: nat, ghost lo: nat, ghost hi: nat)
    returns (moved: bool)
    requires lo <= i < j <= hi < n <= a.Length && TotalPreorder(cmp)
    modifies a
    ensures moved <==> cmp(old(a[j]), old(a[i])) < 0
    ensures a[..n] == (if moved then Swapped(old(a[..n]), i, j) else old(a[..n])) && a[n..] == old(a[n..])
    ensures Le(cmp, a[i], a[j])
    ensures Rearranged(cmp, old(a[..n]), a[..n], lo, hi)
  {
    moved := cmp(a[j], a[i]) < 0;
    if moved {
      LessIsLe(cmp, a[j], a[i]);
      Swap(a, n, cmp, i, j);
    }
  }

  /** Puts a median of the first, middle and last element in the middle. */
  method MedianOfThree<T(!new)>(a: array<T>, ghost n: nat, cmp: (T, T) -> int, lo: nat, hi: nat) returns (mid: nat)
    requires lo + 1 < hi < n <= a.Length && TotalPreorder(cmp)
    modifies a
    ensures mid == lo + (hi - lo) / 2
    ensures Le(cmp, a[lo], a[mid]) && Le(cmp, a[mid], a[hi])
    ensures Rearranged(cmp, old(a[..n]), a[..n], lo, hi) && a[n..] == old(a[n..])
  {
    mid := lo + (hi - lo) / 2;
    var _ := Order(a, n, cmp, lo, mid, lo, hi);
    ghost var s := a[..n];
    var moved := Order(a, n, cmp, mid, hi, lo, hi);
    RearrangedTwice(cmp, old(a[..n]), s, a[..n], lo, hi);
    if moved {
      s := a[..n];
      var _ := Order(a, n, cmp, lo, mid, lo, hi);
      RearrangedTwice(cmp, old(a[..n]), s, a[..n], lo, hi);
    }
  }

  /** What holds between two rounds of the partition loop; v is the pivot, which a[mid] follows. */
  ghost predicate Walls<T>(cmp: (T, T) -> int, s: seq<T>, v: T, lo: nat, hi: nat, mid: nat, left: nat, right: nat) {
    && hi < |s| && lo <= mid <= hi && s[mid] == v
    && lo < left <= right + 2 && right < hi && left <= hi && lo <= right
    && (forall k | lo <= k < left :: Le(cmp, s[k], v))
    && (forall k | right < k <= hi :: Le(cmp, v, s[k]))
  }

  /** The scan from the left: the first element from `first` on that is not smaller than the pivot. The
      scan is not bounded; `stop` is where it must end. */
  method ScanUp<T(!new)>(a: array<T>, cmp: (T, T) -> int, mid: nat, first: nat, ghost stop: nat) returns (k: nat)
    requires mid < a.Length && first <= stop < a.Length && TotalPreorder(cmp) && Le(cmp, a[mid], a[stop])
    ensures first <= k <= stop && Le(cmp, a[mid], a[k])
    ensures forall j | first <= j < k :: cmp(a[j], a[mid]) < 0
  {
    k := first;
    while cmp(a[k], a[mid]) < 0
      invariant first <= k <= stop
      invariant forall j | first <= j < k :: cmp(a[j], a[mid]) < 0
      decreases stop - k
    {
      assert k != stop;
      k := k + 1;
    }
  }

  /** The scan from the right. */
  method ScanDown<T(!new)>(a: array<T>, cmp: (T, T) -> int, mid: nat, first: nat, ghost stop: nat) returns (k: nat)
    requires mid < a.Length && stop <= first < a.Length && TotalPreorder(cmp) && Le(cmp, a[stop], a[mid])
    ensures stop <= k <= first && Le(cmp, a[k], a[mid])
    ensures forall j | k < j <= first :: cmp(a[mid], a[j]) < 0
  {
    k := first;
    while cmp(a[mid], a[k]) < 0
      invariant stop <= k <= first
      invariant forall j | k < j <= first :: cmp(a[mid], a[j]) < 0
      decreases k
    {
      assert k != stop;
      k := k - 1;
    }
  }

  /** The walls after both scans; the round starts with the pivot between them, or with an element on
      either side that stops the scan. */
  method Approach<T(!new)>(a: array<T>, ghost n: nat, cmp: (T, T) -> int, ghost v: T,
                     ghost lo: nat, ghost hi: nat, mid: nat, left: nat, right: nat)
    returns (left': nat, right': nat)
    requires n <= a.Length && TotalPreorder(cmp) && Walls(cmp, a[..n], v, lo, hi, mid, left, right) && left <= right
    ensures Walls(cmp, a[..n], v, lo, hi, mid, left', right')
    ensures left <= left' <= right' + 1 && right' <= right
    ensures Le(cmp, v, a[left']) && Le(cmp, a[right'], v)
    ensures left <= mid <= right ==> left' <= mid <= right'
  {
    assert forall k | 0 <= k < n :: a[k] == a[..n][k];
    assert Le(cmp, v, v);
    left' := ScanUp(a, cmp, mid, left, if left <= mid <= right then mid else right + 1);
    forall k | left <= k < left' ensures Le(cmp, a[k], v) { LessIsLe(cmp, a[k], v); }
    right' := ScanDown(a, cmp, mid, right, if left <= mid <= right then mid else left' - 1);
    forall k | right' < k <= right ensures Le(cmp, v, a[k]) { LessIsLe(cmp, v, a[k]); }
  }

  /** One round: both scans, the swap, and the step past it. `more` is the loop's condition. */
  method Collapse<T(!new)>(a: array<T>, ghost n: nat, cmp: (T, T) -> int, ghost v: T,
                     ghost lo: nat, ghost hi: nat, mid: nat, left: nat, right: nat)
    returns (mid': nat, left': nat, right': nat, more: bool)
    requires n <= a.Length && TotalPreorder(cmp) && Walls(cmp, a[..n], v, lo, hi, mid, left, right) && left <= right
    requires (left <= mid <= right && lo < mid < hi) || (lo + 2 <= left && right + 2 <= hi)
    modifies a
    ensures Rearranged(cmp, old(a[..n]), a[..n], lo, hi) && a[n..] == old(a[n..])
    ensures Walls(cmp, a[..n], v, lo, hi, mid', left', right')
    ensures lo + 2 <= left' && right' + 2 <= hi
    ensures more <==> left' <= right'
    ensures left' - right' > left - right
  {
    mid' := mid;
    left', right' := Approach(a, n, cmp, v, lo, hi, mid, left, right);
    if left' < right' {
      Swap(a, n, cmp, left', right');
      if mid == left' {
        mid' := right';
      } else if mid == right' {
        mid' := left';
      }
      left', right' := left' + 1, right' - 1;
      more := left' <= right';
    } else if left' == right' {
      left', right' := left' + 1, right' - 1;
      more := false;
    } else {
      more := left' <= right';
    }
  }

  /** Partitions a[lo..hi]: at most one element lies between the two parts, which are both proper and
      not empty, and the scans never leave the range. */
  method Partition<T(!new)>(a: array<T>, ghost n: nat, cmp: (T, T) -> int, lo: nat, hi: nat) returns (left: nat, right: nat)
    requires lo + MAX_THRESH <= hi < n <= a.Length && TotalPreorder(cmp)
    requires Split(cmp, a[..n], lo) && Split(cmp, a[..n], hi + 1)
    modifies a
    ensures Rearranged(cmp, old(a[..n]), a[..n], lo, hi) && a[n..] == old(a[n..])
    ensures lo <= right < left <= hi && left <= right + 2
    ensures Split(cmp, a[..n], left) && Split(cmp, a[..n], right + 1)
  {
    var mid: nat := MedianOfThree(a, n, cmp, lo, hi);
    left, right := lo + 1, hi - 1;
    ghost var v := a[mid];
    var more := true;
    while more
      invariant Rearranged(cmp, old(a[..n]), a[..n], lo, hi) && a[n..] == old(a[n..])
      invariant Walls(cmp, a[..n], v, lo, hi, mid, left, right)
      invariant more <==> left <= right
      invariant (left <= mid <= right && lo < mid < hi && more) || (lo + 2 <= left && right + 2 <= hi)
      decreases right + 2 - left, more
    {
      mid, left, right, more := Collapse(a, n, cmp, v, lo, hi, mid, left, right);
    }
    SplitAt(cmp, a[..n], v, lo, hi, left);
    SplitAt(cmp, a[..n], v, lo, hi, right + 1);
  }

  lemma SplitAt<T(!new)>(cmp: (T, T) -> int, s: seq<T>, v: T, lo: nat, hi: nat, m: nat)
    requires lo <= m <= hi + 1 <= |s| && TotalPreorder(cmp)
    requires Split(cmp, s, lo) && Split(cmp, s, hi + 1)
    requires forall k | lo <= k < m :: Le(cmp, s[k], v)
    requires forall k | m <= k <= hi :: Le(cmp, v, s[k])
    ensures Split(cmp, s, m)
  {
  }

  // ------------------------------------------------------------------
  // The explicit stack
  // ------------------------------------------------------------------

  /** A part still to be sorted, from lo to hi inclusive; the sentinel is Part(0, 0). */
  datatype Part = Part(lo: nat, hi: nat)
  {
    ghost function Size(): nat {
      if lo <= hi then hi - lo + 1 else 0
    }

    /** Big enough to be partitioned, and cut off from what lies before and after it. */
    ghost predicate Pending<T>(cmp: (T, T) -> int, s: seq<T>) {
      && lo + MAX_THRESH <= hi < |s|
      && Split(cmp, s, lo) && Split(cmp, s, hi + 1)
    }
  }

  ghost function Pow2(k: nat): nat {
    if k == 0 then 1 else 2 * Pow2(k - 1)
  }

  ghost predicate Apart(p: Part, q: Part) {
    p.hi < q.lo || q.hi < p.lo
  }

  /** The stacked parts above the sentinel and, last, the current one. Each is at most half of what was
      current when the entry below it was pushed. */
  ghost predicate PartsOk<T>(cmp: (T, T) -> int, s: seq<T>, parts: seq<Part>) {
    && (forall i | 0 <= i < |parts| :: parts[i].Pending(cmp, s))
    && (forall i, j | 0 <= i < j < |parts| :: Apart(parts[i], parts[j]))
    && (forall i | 0 <= i < |parts| :: parts[i].Size() * Pow2(i) <= |s|)
  }

  /** Some cut lies just after k or at most five elements on. */
  ghost predicate CutNear<T>(cmp: (T, T) -> int, s: seq<T>, k: nat) {
    exists m :: k < m <= k + MAX_THRESH + 1 && m <= |s| && Split(cmp, s, m)
  }

  ghost predicate Covered(parts: seq<Part>, k: nat) {
    exists i :: 0 <= i < |parts| && parts[i].lo <= k <= parts[i].hi
  }

  /** Whatever no pending part covers is already close to its final place. */
  ghost predicate Settled<T>(cmp: (T, T) -> int, s: seq<T>, parts: seq<Part>) {
    forall k: nat | k < |s| :: Covered(parts, k) || CutNear(cmp, s, k)
  }

  /** Comparisons still to come, bounded by the gaps inside the pending parts. */
  ghost function Work(parts: seq<Part>): nat {
    if parts == [] then 0
    else Work(parts[..|parts| - 1]) + (if parts[|parts| - 1].lo < parts[|parts| - 1].hi then parts[|parts| - 1].hi - parts[|parts| - 1].lo else 0)
  }

  /** What is pending after the current part has been partitioned into lo..right and left..hi. */
  ghost function NextParts(parts: seq<Part>, left: nat, right: nat): seq<Part>
    requires parts != []
  {
    var Part(lo, hi) := parts[|parts| - 1];
    var rest := parts[..|parts| - 1];
    if right - lo <= MAX_THRESH then
      if hi - left <= MAX_THRESH then rest else rest + [Part(left, hi)]
    else if hi - left <= MAX_THRESH then rest + [Part(lo, right)]
    else if right - lo > hi - left then rest + [Part(lo, right), Part(left, hi)]
    else rest + [Part(left, hi), Part(lo, right)]
  }

  ghost predicate Divided<T>(cmp: (T, T) -> int, s: seq<T>, r: seq<T>, p: Part, left: nat, right: nat) {
    && Rearranged(cmp, s, r, p.lo, p.hi)
    && p.lo <= right < left <= p.hi && left <= right + 2
    && Split(cmp, r, left) && Split(cmp, r, right + 1)
  }

  lemma RestStays<T>(cmp: (T, T) -> int, s: seq<T>, r: seq<T>, parts: seq<Part>)
    requires parts != [] && PartsOk(cmp, s, parts)
    requires Rearranged(cmp, s, r, parts[|parts| - 1].lo, parts[|parts| - 1].hi)
    ensures PartsOk(cmp, r, parts)
  {
    var p := parts[|parts| - 1];
    forall i | 0 <= i < |parts| ensures parts[i].Pending(cmp, r) {
      assert parts[i].Pending(cmp, s);
      if i < |parts| - 1 { assert Apart(parts[i], p); }
    }
  }

  lemma Halves(size: nat, smaller: nat, k: nat, n: nat)
    requires size * Pow2(k) <= n && 2 * smaller <= size
    ensures smaller * Pow2(k + 1) <= n
  {
    assert smaller * Pow2(k + 1) == (2 * smaller) * Pow2(k);
  }

  lemma Shrinks(size: nat, smaller: nat, k: nat, n: nat)
    requires size * Pow2(k) <= n && smaller <= size
    ensures smaller * Pow2(k) <= n
  {
  }

  lemma WithPart<T>(cmp: (T, T) -> int, s: seq<T>, parts: seq<Part>, p: Part)
    requires PartsOk(cmp, s, parts) && p.Pending(cmp, s)
    requires forall i | 0 <= i < |parts| :: Apart(parts[i], p)
    requires p.Size() * Pow2(|parts|) <= |s|
    ensures PartsOk(cmp, s, parts + [p])
  {
  }

  /** Either part may be pending next; the smaller also one level up. */
  lemma DividedParts<T>(cmp: (T, T) -> int, s: seq<T>, r: seq<T>, parts: seq<Part>, p: Part, q: Part)
    requires parts != [] && PartsOk(cmp, s, parts) && PartsOk(cmp, r, parts) && |r| == |s|
    requires parts[|parts| - 1].lo <= q.lo && q.hi <= parts[|parts| - 1].hi && parts[|parts| - 1].lo <= p.lo && p.hi <= parts[|parts| - 1].hi
    requires p.lo <= p.hi ==> p.Size() <= parts[|parts| - 1].Size()
    requires p.Pending(cmp, r) && (q.Pending(cmp, r) ==> Apart(p, q) && 2 * q.Size() <= parts[|parts| - 1].Size())
    ensures PartsOk(cmp, r, parts[..|parts| - 1] + [p])
    ensures q.Pending(cmp, r) ==> PartsOk(cmp, r, parts[..|parts| - 1] + [p, q])
  {
    var t := |parts| - 1;
    var rest := parts[..t];
    assert PartsOk(cmp, r, rest);
    forall i | 0 <= i < t ensures Apart(rest[i], p) && Apart(rest[i], q) { assert Apart(parts[i], parts[t]); }
    Shrinks(parts[t].Size(), p.Size(), t, |s|);
    WithPart(cmp, r, rest, p);
    if q.Pending(cmp, r) {
      Halves(parts[t].Size(), q.Size(), t, |s|);
      WithPart(cmp, r, rest + [p], q);
      assert rest + [p] + [q] == rest + [p, q];
    }
  }

  lemma NextPartsOk<T>(cmp: (T, T) -> int, s: seq<T>, r: seq<T>, parts: seq<Part>, left: nat, right: nat)
    requires parts != [] && PartsOk(cmp, s, parts) && Divided(cmp, s, r, parts[|parts| - 1], left, right)
    ensures PartsOk(cmp, r, NextParts(parts, left, right))
  {
    var Part(lo, hi) := parts[|parts| - 1];
    var (l, u) := (Part(lo, right), Part(left, hi));
    RestStays(cmp, s, r, parts);
    if right - lo > MAX_THRESH && (hi - left <= MAX_THRESH || right - lo > hi - left) {
      DividedParts(cmp, s, r, parts, l, u);
    } else if hi - left > MAX_THRESH {
      DividedParts(cmp, s, r, parts, u, l);
    }
  }

  lemma NextPartsWork(parts: seq<Part>, left: nat, right: nat)
    requires parts != []
    requires parts[|parts| - 1].lo <= right < left <= parts[|parts| - 1].hi
    ensures Work(NextParts(parts, left, right)) < Work(parts)
  {
    var rest := parts[..|parts| - 1];
    var next := NextParts(parts, left, right);
    if |next| == |parts| + 1 {
      assert next[..|parts|][..|parts| - 1] == rest;
    } else if |next| == |parts| {
      assert next[..|parts| - 1] == rest;
    }
  }

  lemma NextPartsSettled<T>(cmp: (T, T) -> int, s: seq<T>, r: seq<T>, parts: seq<Part>, left: nat, right: nat)
    requires parts != [] && PartsOk(cmp, s, parts) && Divided(cmp, s, r, parts[|parts| - 1], left, right)
    requires Settled(cmp, s, parts)
    ensures Settled(cmp, r, NextParts(parts, left, right))
  {
    forall k: nat | k < |r| ensures Covered(NextParts(parts, left, right), k) || CutNear(cmp, r, k) {
      SettledAt(cmp, s, r, parts, left, right, k);
    }
  }

  lemma SettledAt<T>(cmp: (T, T) -> int, s: seq<T>, r: seq<T>, parts: seq<Part>, left: nat, right: nat, k: nat)
    requires parts != [] && PartsOk(cmp, s, parts) && Divided(cmp, s, r, parts[|parts| - 1], left, right)
    requires k < |s| && (Covered(parts, k) || CutNear(cmp, s, k))
    ensures Covered(NextParts(parts, left, right), k) || CutNear(cmp, r, k)
  {
    var t := |parts| - 1;
    var Part(lo, hi) := parts[t];
    var next := NextParts(parts, left, right);
    if lo <= k <= hi {
      if right < k < left {
        assert Split(cmp, r, left);
      } else if k <= right {
        if right - lo <= MAX_THRESH {
          assert Split(cmp, r, right + 1);
        } else {
          var i := if hi - left > MAX_THRESH && right - lo <= hi - left then t + 1 else t;
          assert next[i] == Part(lo, right);
        }
      } else {
        if hi - left <= MAX_THRESH {
          assert Split(cmp, s, hi + 1) && Split(cmp, r, hi + 1);
        } else {
          var i := if right - lo > MAX_THRESH && right - lo > hi - left then t + 1 else t;
          assert next[i] == Part(left, hi);
        }
      }
    } else if Covered(parts, k) {
      var i :| 0 <= i < |parts| && parts[i].lo <= k <= parts[i].hi;
      assert next[i] == parts[i];
    } else {
      var m :| k < m <= k + MAX_THRESH + 1 && m <= |s| && Split(cmp, s, m);
      var m' := if lo < m <= hi then lo else m;
      assert Split(cmp, s, m');
      assert Split(cmp, r, m');
    }
  }

  /** The stack never fills up: with a part of more than four elements pending at depth k, k is small. */
  lemma StackSuffices(size: nat, k: nat, n: nat)
    requires size * Pow2(k) <= n < SIZE_LIMIT && size > MAX_THRESH
    ensures k + 1 < STACK_SIZE
  {
    if k >= 62 {
      Pow2Grows(62, k);
      Pow2Of62();
      Shrinks(size, 4, k, n);
    }
  }

  lemma Pow2Of62()
    ensures Pow2(62) == 0x4000_0000_0000_0000
  {
    assert Pow2(5) == 32;
    Pow2Sum(5, 5);
    Pow2Sum(10, 10);
    Pow2Sum(20, 20);
    Pow2Sum(40, 20);
    assert Pow2(62) == 2 * (2 * Pow2(60));
  }

  lemma {:induction false} Pow2Sum(i: nat, j: nat)
    ensures Pow2(i + j) == Pow2(i) * Pow2(j)
  {
    if j > 0 { Pow2Sum(i, j - 1); }
  }

  lemma {:induction false} Pow2Grows(i: nat, j: nat)
    requires i <= j
    ensures Pow2(i) <= Pow2(j)
  {
    if i < j { Pow2Grows(i, j - 1); }
  }

  /** Partitions the current, last part; there is room to push if both parts are big. */
  method Divide<T(!new)>(a: array<T>, ghost n: nat, cmp: (T, T) -> int, lo: nat, hi: nat, ghost parts: seq<Part>)
    returns (left: nat, right: nat)
    requires n <= a.Length && n < SIZE_LIMIT && TotalPreorder(cmp)
    requires parts != [] && parts[|parts| - 1] == Part(lo, hi)
    requires PartsOk(cmp, a[..n], parts) && Settled(cmp, a[..n], parts)
    modifies a
    ensures multiset(a[..n]) == multiset(old(a[..n])) && a[n..] == old(a[n..])
    ensures lo <= right < left <= hi
    ensures var next := NextParts(parts, left, right);
      && PartsOk(cmp, a[..n], next) && Settled(cmp, a[..n], next)
      && Work(next) < Work(parts) && |next| < STACK_SIZE
  {
    assert parts[|parts| - 1].Pending(cmp, a[..n]);
    left, right := Partition(a, n, cmp, lo, hi);
    NextPartsOk(cmp, old(a[..n]), a[..n], parts, left, right);
    NextPartsWork(parts, left, right);
    NextPartsSettled(cmp, old(a[..n]), a[..n], parts, left, right);
    ghost var next := NextParts(parts, left, right);
    if next != [] {
      var last := next[|next| - 1];
      assert last.Pending(cmp, a[..n]);
      StackSuffices(last.Size(), |next| - 1, n);
    }
  }

  /** The stack, from its sentinel up, and the current bounds hold the pending parts. */
  ghost predicate Holds(stack: seq<Part>, top: nat, lo: nat, hi: nat, parts: seq<Part>) {
    && top == |parts| < |stack|
    && (top > 0 ==> Part(lo, hi) == parts[top - 1])
    && (forall i | 0 <= i < top - 1 :: stack[i + 1] == parts[i])
  }

  /** Goes on with the smaller part after pushing the larger one, ignoring small parts. */
  method ChooseNext(stack: array<Part>, top: nat, lo: nat, hi: nat, left: nat, right: nat, ghost parts: seq<Part>)
    returns (top': nat, lo': nat, hi': nat)
    requires Holds(stack[..], top, lo, hi, parts) && top > 0
    requires |NextParts(parts, left, right)| < stack.Length
    modifies stack
    ensures Holds(stack[..], top', lo', hi', NextParts(parts, left, right))
  {
    top', lo', hi' := top, lo, hi;
    if right - lo <= MAX_THRESH {
      if hi - left <= MAX_THRESH {
        top' := top - 1;
        lo', hi' := stack[top'].lo, stack[top'].hi;
      } else {
        lo' := left;
      }
    } else if hi - left <= MAX_THRESH {
      hi' := right;
    } else if right - lo > hi - left {
      stack[top] := Part(lo, right);
      top' := top + 1;
      lo' := left;
    } else {
      stack[top] := Part(left, hi);
      top' := top + 1;
      hi' := right;
    }
  }

  /** The quicksort phase. Afterwards every element is within five places of a cut. */
  method PartitionPhase<T(!new)>(a: array<T>, n: nat, cmp: (T, T) -> int)
    requires MAX_THRESH < n <= a.Length && n < SIZE_LIMIT && TotalPreorder(cmp)
    modifies a
    ensures multiset(a[..n]) == multiset(old(a[..n])) && a[n..] == old(a[n..])
    ensures forall k: nat | k < n :: CutNear(cmp, a[..n], k)
  {
    var lo: nat, hi: nat := 0, n - 1;
    var stack := new Part[STACK_SIZE](_ => Part(0, 0));
    var top: nat := 1;   // stack[0] is the sentinel
    ghost var parts := [Part(lo, hi)];
    assert parts[0].lo == 0 && Work(parts[..0]) == 0;
    while top > 0
      invariant multiset(a[..n]) == multiset(old(a[..n])) && a[n..] == old(a[n..])
      invariant fresh(stack) && Holds(stack[..], top, lo, hi, parts)
      invariant PartsOk(cmp, a[..n], parts) && Settled(cmp, a[..n], parts)
      decreases Work(parts)
    {
      var left, right := Divide(a, n, cmp, lo, hi, parts);
      label Divided:
      top, lo, hi := ChooseNext(stack, top, lo, hi, left, right, parts);
      assert a[..] == old@Divided(a[..]);
      parts := NextParts(parts, left, right);
    }
  }

  // ------------------------------------------------------------------
  // The insertion sort
  // ------------------------------------------------------------------

  ghost predicate Least<T>(cmp: (T, T) -> int, s: seq<T>, k: nat)
    requires k < |s|
  {
    forall j | 0 <= j < |s| :: Le(cmp, s[k], s[j])
  }

  ghost predicate AllNear<T>(cmp: (T, T) -> int, s: seq<T>) {
    forall k: nat | k < |s| :: CutNear(cmp, s, k)
  }

  /** Finds the smallest of the first five elements: with a cut among them it is the smallest of all. */
  method FindLeast<T(!new)>(a: array<T>, n: nat, cmp: (T, T) -> int) returns (least: nat)
    requires 0 < n <= a.Length && TotalPreorder(cmp) && CutNear(cmp, a[..n], 0)
    ensures least < n && least <= MAX_THRESH && Least(cmp, a[..n], least)
    ensures forall j | 0 <= j < least :: cmp(a[least], a[j]) < 0
  {
    least := 0;
    assert Le(cmp, a[0], a[0]);
    var thresh: nat := if n - 1 < MAX_THRESH then n - 1 else MAX_THRESH;
    var run := 1;
    while run <= thresh
      invariant 1 <= run <= thresh + 1 && least < run
      invariant forall j | 0 <= j < run :: Le(cmp, a[least], a[j])
      invariant forall j | 0 <= j < least :: cmp(a[least], a[j]) < 0
    {
      if cmp(a[run], a[least]) < 0 {
        LessIsLe(cmp, a[run], a[least]);
        forall j | 0 <= j < run ensures cmp(a[run], a[j]) < 0 {
          LessThan(cmp, a[run], a[least], a[j]);
        }
        forall j | 0 <= j < run ensures Le(cmp, a[run], a[j]) {
          LessIsLe(cmp, a[run], a[j]);
        }
        assert Le(cmp, a[run], a[run]);
        least := run;
      } else {
        assert Le(cmp, a[least], a[run]);
      }
      run := run + 1;
    }
    LeastOfAll(cmp, a[..n], least);
  }

  lemma LessThan<T(!new)>(cmp: (T, T) -> int, x: T, y: T, z: T)
    requires TotalPreorder(cmp) && cmp(x, y) < 0 && Le(cmp, y, z)
    ensures cmp(x, z) < 0
  {
    assert !Le(cmp, y, x);
    assert Le(cmp, y, z) && Le(cmp, z, x) ==> Le(cmp, y, x);
  }

  lemma LeastOfAll<T(!new)>(cmp: (T, T) -> int, s: seq<T>, least: nat)
    requires TotalPreorder(cmp) && s != [] && CutNear(cmp, s, 0) && least < |s| && least <= MAX_THRESH
    requires forall j | 0 <= j < |s| && j <= MAX_THRESH :: Le(cmp, s[least], s[j])
    ensures Least(cmp, s, least)
  {
    var m :| 0 < m <= MAX_THRESH + 1 && m <= |s| && Split(cmp, s, m);
    forall j | 0 <= j < |s| ensures Le(cmp, s[least], s[j]) {
      if j > MAX_THRESH {
        assert Le(cmp, s[least], s[0]) && Le(cmp, s[0], s[j]);
      }
    }
  }

  /** s with its element k moved down to p. */
  function Inserted<T>(s: seq<T>, p: nat, k: nat): seq<T>
    requires p <= k < |s|
  {
    s[..p] + [s[k]] + s[p..k] + s[k + 1..]
  }

  lemma InsertedAt<T>(s: seq<T>, p: nat, k: nat, j: nat)
    requires p <= k < |s| && j < |s|
    ensures |Inserted(s, p, k)| == |s|
    ensures Inserted(s, p, k)[j] == if j < p || k < j then s[j] else if j == p then s[k] else s[j - 1]
  {
  }

  lemma InsertedRearranges<T>(cmp: (T, T) -> int, s: seq<T>, p: nat, k: nat)
    requires p <= k < |s|
    ensures Rearranged(cmp, s, Inserted(s, p, k), p, k)
  {
    var r := Inserted(s, p, k);
    assert s == s[..p] + s[p..k] + [s[k]] + s[k + 1..];
    assert multiset(r) == multiset(s[..p]) + multiset([s[k]]) + multiset(s[p..k]) + multiset(s[k + 1..]);
    assert multiset(s) == multiset(s[..p]) + multiset(s[p..k]) + multiset([s[k]]) + multiset(s[k + 1..]);
    forall m | (m <= p || k < m) && Split(cmp, s, m) ensures Split(cmp, r, m) {
      forall i, j | 0 <= i < m <= j < |r| ensures Le(cmp, r[i], r[j]) {
        var i' := if i == p then k else if p < i <= k then i - 1 else i;
        var j' := if j == p then k else if p < j <= k then j - 1 else j;
        assert r[i] == s[i'] && r[j] == s[j'];
      }
    }
  }

  /** Before turn k of the insertion sort. */
  ghost predicate Turn<T>(cmp: (T, T) -> int, s: seq<T>, k: nat)
    requires k <= |s|
  {
    s != [] && Least(cmp, s, 0) && AllNear(cmp, s) && Sorted(cmp, s[..k])
  }

  /** p is where s[k] belongs. */
  ghost predicate PlaceOk<T>(cmp: (T, T) -> int, s: seq<T>, p: nat, k: nat)
    requires k < |s|
  {
    && 0 < p <= k <= p + MAX_THRESH
    && Le(cmp, s[p - 1], s[k]) && forall j | p <= j < k :: cmp(s[k], s[j]) < 0
  }

  /** The place of a[k] among the sorted a[..k]: the scan down is not bounded; the smallest element at
      the front stops it, and so does the nearest cut, at most four places down. */
  method FindPlace<T(!new)>(a: array<T>, ghost n: nat, cmp: (T, T) -> int, k: nat) returns (p: nat)
    requires 1 <= k < n <= a.Length && TotalPreorder(cmp) && Turn(cmp, a[..n], k)
    ensures PlaceOk(cmp, a[..n], p, k)
  {
    assert Le(cmp, a[..n][0], a[..n][k]);
    p := k - 1;
    while cmp(a[k], a[p]) < 0
      invariant p < k
      invariant forall j | p < j < k :: cmp(a[k], a[j]) < 0
      decreases p
    {
      assert p != 0;
      p := p - 1;
    }
    p := p + 1;
    if k > MAX_THRESH {
      ghost var i: nat := k - MAX_THRESH - 1;
      assert CutNear(cmp, a[..n], i);
      ghost var m :| i < m <= i + MAX_THRESH + 1 && m <= |a[..n]| && Split(cmp, a[..n], m);
      assert Le(cmp, a[..n][m - 1], a[..n][k]);
    }
  }

  /** Moves a[k] down to p, one element at a time. */
  method Rotate<T>(a: array<T>, n: nat, p: nat, k: nat)
    requires p <= k < n <= a.Length
    modifies a
    ensures a[..n] == Inserted(old(a[..n]), p, k) && a[n..] == old(a[n..])
  {
    var x := a[k];
    var hole := k;
    while hole > p
      invariant p <= hole <= k
      invariant forall j | 0 <= j < a.Length && !(hole <= j <= k) :: a[j] == old(a[j])
      invariant forall j | hole < j <= k :: a[j] == old(a[j - 1])
    {
      a[hole] := a[hole - 1];
      hole := hole - 1;
    }
    a[p] := x;
    forall j | 0 <= j < n ensures a[..n][j] == Inserted(old(a[..n]), p, k)[j] {
      InsertedAt(old(a[..n]), p, k, j);
    }
    assert a[..n] == Inserted(old(a[..n]), p, k);
  }

  lemma InsertedSorts<T(!new)>(cmp: (T, T) -> int, s: seq<T>, p: nat, k: nat)
    requires TotalPreorder(cmp) && 0 < p <= k < |s| && Sorted(cmp, s[..k])
    requires Le(cmp, s[p - 1], s[k]) && forall j | p <= j < k :: cmp(s[k], s[j]) < 0
    ensures Sorted(cmp, Inserted(s, p, k)[..k + 1])
  {
    var r := Inserted(s, p, k)[..k + 1];
    forall i, j | 0 <= i < j < |r| ensures Le(cmp, r[i], r[j]) {
      InsertedPair(cmp, s, p, k, i, j);
    }
  }

  lemma InsertedPair<T(!new)>(cmp: (T, T) -> int, s: seq<T>, p: nat, k: nat, i: nat, j: nat)
    requires TotalPreorder(cmp) && 0 < p <= k < |s| && Sorted(cmp, s[..k]) && i < j <= k
    requires Le(cmp, s[p - 1], s[k]) && forall j | p <= j < k :: cmp(s[k], s[j]) < 0
    ensures Le(cmp, Inserted(s, p, k)[i], Inserted(s, p, k)[j])
  {
    if i == p {
      LessIsLe(cmp, s[k], s[j - 1]);
    } else if j == p {
      assert i == p - 1 || Le(cmp, s[..k][i], s[..k][p - 1]);
    } else {
      var i' := if p < i then i - 1 else i;
      var j' := if p < j then j - 1 else j;
      assert Le(cmp, s[..k][i'], s[..k][j']);
    }
  }

  /** An insertion never moves an element across a cut. */
  lemma InsertedKeepsCuts<T(!new)>(cmp: (T, T) -> int, s: seq<T>, p: nat, k: nat)
    requires p <= k < |s| && AllNear(cmp, s)
    requires forall j | p <= j < k :: cmp(s[k], s[j]) < 0
    ensures AllNear(cmp, Inserted(s, p, k))
  {
    var r := Inserted(s, p, k);
    InsertedRearranges(cmp, s, p, k);
    forall i: nat | i < |r| ensures CutNear(cmp, r, i) {
      assert CutNear(cmp, s, i);
      var m :| i < m <= i + MAX_THRESH + 1 && m <= |s| && Split(cmp, s, m);
      assert p < m <= k ==> Le(cmp, s[m - 1], s[k]);
      assert Split(cmp, r, m);
    }
  }

  lemma InsertedKeepsLeast<T>(cmp: (T, T) -> int, s: seq<T>, p: nat, k: nat)
    requires 0 < p <= k < |s| && Least(cmp, s, 0)
    ensures Least(cmp, Inserted(s, p, k), 0)
  {
    var r := Inserted(s, p, k);
    forall j | 0 <= j < |r| ensures Le(cmp, r[0], r[j]) {
      var j' := if j == p then k else if p < j <= k then j - 1 else j;
      assert r[j] == s[j'] && r[0] == s[0];
    }
  }

  /** Exchanging the first element with the smallest crosses no cut. */
  lemma SwapKeepsCuts<T(!new)>(cmp: (T, T) -> int, s: seq<T>, least: nat)
    requires least < |s| && Least(cmp, s, least) && AllNear(cmp, s)
    requires least > 0 ==> cmp(s[least], s[0]) < 0
    ensures AllNear(cmp, Swapped(s, 0, least)) && Least(cmp, Swapped(s, 0, least), 0)
  {
    var r := Swapped(s, 0, least);
    SwapRearranges(cmp, s, 0, least, 0, least);
    forall i: nat | i < |r| ensures CutNear(cmp, r, i) {
      assert CutNear(cmp, s, i);
      var m :| i < m <= i + MAX_THRESH + 1 && m <= |s| && Split(cmp, s, m);
      assert m <= least ==> Le(cmp, s[0], s[least]);
      assert Split(cmp, r, m);
    }
  }

  method PlaceLeast<T(!new)>(a: array<T>, n: nat, cmp: (T, T) -> int)
    requires 0 < n <= a.Length && TotalPreorder(cmp) && AllNear(cmp, a[..n])
    modifies a
    ensures multiset(a[..n]) == multiset(old(a[..n])) && a[n..] == old(a[n..])
    ensures Least(cmp, a[..n], 0) && AllNear(cmp, a[..n])
  {
    assert CutNear(cmp, a[..n], 0);
    var least := FindLeast(a, n, cmp);
    SwapKeepsCuts(cmp, a[..n], least);
    SwapRearranges(cmp, a[..n], 0, least, 0, least);
    if least != 0 {
      Swap(a, n, cmp, least, 0);
      assert a[..n] == Swapped(old(a[..n]), 0, least);
    } else {
      assert a[..n] == Swapped(a[..n], 0, 0);
    }
  }

  lemma InsertedTurns<T(!new)>(cmp: (T, T) -> int, s: seq<T>, p: nat, k: nat)
    requires TotalPreorder(cmp) && k < |s| && Turn(cmp, s, k) && PlaceOk(cmp, s, p, k)
    ensures Turn(cmp, Inserted(s, p, k), k + 1) && multiset(Inserted(s, p, k)) == multiset(s)
  {
    InsertedRearranges(cmp, s, p, k);
    InsertedSorts(cmp, s, p, k);
    InsertedKeepsCuts(cmp, s, p, k);
    InsertedKeepsLeast(cmp, s, p, k);
  }

  /** One turn of the insertion sort. */
  method InsertOne<T(!new)>(a: array<T>, n: nat, cmp: (T, T) -> int, k: nat)
    requires 1 <= k < n <= a.Length && TotalPreorder(cmp) && Turn(cmp, a[..n], k)
    modifies a
    ensures multiset(a[..n]) == multiset(old(a[..n])) && a[n..] == old(a[n..])
    ensures Turn(cmp, a[..n], k + 1)
  {
    var p := FindPlace(a, n, cmp, k);
    InsertedTurns(cmp, a[..n], p, k);
    if p != k {
      Rotate(a, n, p, k);
    } else {
      assert a[..n] == Inserted(a[..n], k, k);
    }
  }

  method InsertionPhase<T(!new)>(a: array<T>, n: nat, cmp: (T, T) -> int)
    requires 0 < n <= a.Length && TotalPreorder(cmp) && AllNear(cmp, a[..n])
    modifies a
    ensures multiset(a[..n]) == multiset(old(a[..n])) && a[n..] == old(a[n..])
    ensures Sorted(cmp, a[..n])
  {
    PlaceLeast(a, n, cmp);
    if n >= 2 {
      SortedPair(cmp, a[..n]);
      var k := 2;
      while k < n
        invariant 2 <= k <= n
        invariant multiset(a[..n]) == multiset(old(a[..n])) && a[n..] == old(a[n..])
        invariant Turn(cmp, a[..n], k)
      {
        InsertOne(a, n, cmp, k);
        k := k + 1;
      }
      assert a[..n][..n] == a[..n];
    }
  }

  lemma SortedPair<T>(cmp: (T, T) -> int, s: seq<T>)
    requires |s| >= 2 && Least(cmp, s, 0)
    ensures Sorted(cmp, s[..2])
  {
  }

  /** Sorts the first n elements. */
  method Sort<T(!new)>(a: array<T>, n: nat, cmp: (T, T) -> int)
    requires n <= a.Length && n < SIZE_LIMIT && TotalPreorder(cmp)
    modifies a
    ensures multiset(a[..n]) == multiset(old(a[..n])) && a[n..] == old(a[n..])
    ensures Sorted(cmp, a[..n])
  {
    if n == 0 {
      return;
    }
    if n > MAX_THRESH {
      PartitionPhase(a, n, cmp);
    } else {
      forall k: nat | k < n ensures CutNear(cmp, a[..n], k) {
        assert Split(cmp, a[..n], n);
      }
    }
    InsertionPhase(a, n, cmp);
  }
}
