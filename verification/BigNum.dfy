/** Multiplication of arbitrarily long numbers in base 10^6, least limb first. Products pile up in signed
    64-bit limbs and are carried only once for each 10^6 limbs of the multiplier. */
module BigNum {

  /** int64_t: any overflow would be an error here. */
  newtype Limb = x: int | -0x8000_0000_0000_0000 <= x < 0x8000_0000_0000_0000

  const BASE: Limb := 1_000_000
  const B: nat := 1_000_000
  const WINDOW: nat := 1_000_000   // multiplier limbs between two carry passes

  /** The largest limb there is before a carry pass: a carried one and the products of a window. */
  const MOST: Limb := 999_999 + 1_000_000 * 999_998_000_001

  ghost function Pow(k: nat): nat {
    if k == 0 then 1 else B * Pow(k - 1)
  }

  /** The number that the limbs stand for. */
  ghost function Value(s: seq<Limb>): int {
    if s == [] then 0 else Value(s[..|s| - 1]) + s[|s| - 1] as int * Pow(|s| - 1)
  }

  ghost predicate Carried(s: seq<Limb>) {
    forall i | 0 <= i < |s| :: 0 <= s[i] < BASE
  }

  /** An operand: limbs below the base and no leading zero. */
  ghost predicate Operand(s: seq<Limb>) {
    Carried(s) && (s != [] ==> s[|s| - 1] != 0)
  }

  lemma {:induction false} ValueUpdate(s: seq<Limb>, i: nat, x: Limb)
    requires i < |s|
    ensures Value(s[i := x]) == Value(s) + (x as int - s[i] as int) * Pow(i)
  {
    var n := |s| - 1;
    if i == n {
      assert s[i := x][..n] == s[..n];
    } else {
      assert s[i := x][..n] == s[..n][i := x];
      ValueUpdate(s[..n], i, x);
    }
  }

  lemma ValueAppend(s: seq<Limb>, x: Limb)
    ensures Value(s + [x]) == Value(s) + x as int * Pow(|s|)
  {
    assert (s + [x])[..|s|] == s;
  }

  lemma {:induction false} PowSum(i: nat, j: nat)
    ensures Pow(i + j) == Pow(i) * Pow(j)
  {
    if i > 0 {
      PowSum(i - 1, j);
      assert B * Pow(i - 1) * Pow(j) == B * (Pow(i - 1) * Pow(j));
    }
  }

  /** Limbs that are not negative bound the value from below, carried ones also from above. */
  lemma {:induction false} ValueBounds(s: seq<Limb>)
    requires forall i | 0 <= i < |s| :: 0 <= s[i]
    ensures Value(s) >= 0
    ensures Carried(s) ==> Value(s) < Pow(|s|)
    ensures s != [] ==> Value(s) >= s[|s| - 1] as int * Pow(|s| - 1)
  {
    if s != [] {
      var n := |s| - 1;
      ValueBounds(s[..n]);
      TopLimb(s[n] as int, Pow(n));
    }
  }

  lemma TopLimb(x: int, p: nat)
    requires x >= 0
    ensures x * p >= 0 && (x < B ==> x * p + p <= B * p)
  {
    if x < B {
      assert (x + 1) * p <= B * p;
    }
  }

  lemma {:induction false} ValueZeros(s: seq<Limb>, k: nat)
    requires k <= |s| && forall i | k <= i < |s| :: s[i] == 0
    ensures Value(s) == Value(s[..k])
    decreases |s|
  {
    if k < |s| {
      var n := |s| - 1;
      ValueZeros(s[..n], k);
      assert s[..n][..k] == s[..k];
    } else {
      assert s[..k] == s;
    }
  }

  /** If all limbs from k up are zero and the value is below Pow(k), limb k - 1 is below the base. */
  lemma TopIsCarried(s: seq<Limb>, k: nat)
    requires 0 < k <= |s| && (forall i | 0 <= i < |s| :: 0 <= s[i]) && (forall i | k <= i < |s| :: s[i] == 0)
    requires Value(s) < Pow(k)
    ensures s[k - 1] < BASE
  {
    ValueZeros(s, k);
    ValueBounds(s[..k]);
    if s[k - 1] >= BASE {
      TimesAtLeast(s[k - 1] as int, Pow(k - 1));
    }
  }

  lemma TimesAtLeast(x: int, p: nat)
    requires x >= B
    ensures x * p >= B * p
  {
  }

  // ------------------------------------------------------------------
  // The carry pass
  // ------------------------------------------------------------------

  /** jinwei_zhengxiang on the n limbs of a from `first` on: the value stays, all but the last are
      carried. `most` bounds the limbs. */
  method CarryUp(a: array<Limb>, first: nat, n: nat, ghost most: Limb)
    requires first + n <= a.Length && 0 < n
    requires 0 <= most <= MOST
    requires forall i | first <= i < first + n :: 0 <= a[i] <= most
    modifies a
    ensures Value(a[..]) == Value(old(a[..]))
    ensures forall i | 0 <= i < a.Length && !(first <= i < first + n) :: a[i] == old(a[i])
    ensures forall i | first <= i < first + n - 1 :: 0 <= a[i] < BASE
    ensures 0 <= a[first + n - 1]
  {
    var p, left := first, n;
    while left > 1
      invariant 1 <= left <= n && p == first + n - left
      invariant Value(a[..]) == Value(old(a[..]))
      invariant forall i | 0 <= i < a.Length && !(first <= i < first + n) :: a[i] == old(a[i])
      invariant forall i | first <= i < p :: 0 <= a[i] < BASE
      invariant 0 <= a[p] <= 2 * most && forall i | p < i < first + n :: 0 <= a[i] <= most
    {
      CarryOne(a[..], p);
      ghost var s := a[..];
      a[p + 1] := a[p + 1] + a[p] / BASE;
      a[p] := a[p] % BASE;
      assert a[..] == s[p + 1 := s[p + 1] + s[p] / BASE][p := s[p] % BASE];
      p := p + 1;
      left := left - 1;
    }
  }

  lemma CarryOne(s: seq<Limb>, p: nat)
    requires p + 1 < |s| && 0 <= s[p] && 0 <= s[p + 1] && s[p + 1] as int + s[p] as int / B < 0x8000_0000_0000_0000
    ensures Value(s[p + 1 := s[p + 1] + s[p] / BASE][p := s[p] % BASE]) == Value(s)
  {
    var q, r := s[p] / BASE, s[p] % BASE;
    ValueUpdate(s, p + 1, s[p + 1] + q);
    ValueUpdate(s[p + 1 := s[p + 1] + q], p, r);
    assert s[p] as int == q as int * B + r as int;
    Moved(q as int, Pow(p));
  }

  /** What leaves limb p arrives at limb p + 1. */
  lemma Moved(q: int, p: nat)
    ensures q * (B * p) == q * B * p
  {
  }

  // ------------------------------------------------------------------
  // The product
  // ------------------------------------------------------------------

  const SQUARE: Limb := 999_998_000_001   // the largest product of two limbs

  lemma ProductBound(x: Limb, y: Limb)
    requires 0 <= x < BASE && 0 <= y < BASE
    ensures 0 <= x as int * y as int <= SQUARE as int
  {
    TimesGrows(x as int, y as int, 999_999);
    TimesGrows(999_999, x as int, 999_999);
  }

  lemma TimesGrows(x: int, y: int, z: int)
    requires 0 <= x && 0 <= y <= z
    ensures 0 <= x * y <= x * z
  {
  }

  lemma RowStep(front: seq<Limb>, x: Limb, y: Limb, j: nat)
    ensures Value(front + [x]) * y as int * Pow(j) == Value(front) * y as int * Pow(j) + x as int * y as int * Pow(j + |front|)
  {
    ValueAppend(front, x);
    PowSum(|front|, j);
    Distribute(Value(front), x as int, Pow(|front|), y as int, Pow(j));
  }

  lemma Distribute(v: int, x: int, p: int, y: int, q: int)
    ensures (v + x * p) * y * q == v * y * q + x * y * (p * q)
  {
    assert (v + x * p) * y == v * y + x * p * y;
    assert x * p * y * q == x * y * (p * q) by {
      assert x * p * y == x * y * p;
      assert x * y * p * q == x * y * (p * q);
    }
  }

  /** Entry i of a row: the accumulator at i + j gains x times y. */
  lemma RowEntry(s: seq<Limb>, front: seq<Limb>, x: Limb, y: Limb, j: nat, z: Limb)
    requires j + |front| < |s| && z as int == s[j + |front|] as int + x as int * y as int
    ensures Value(s[j + |front| := z]) + Value(front) * y as int * Pow(j) == Value(s) + Value(front + [x]) * y as int * Pow(j)
  {
    ValueUpdate(s, j + |front|, z);
    RowStep(front, x, y, j);
  }

  method AddEntry(r: array<Limb>, a: seq<Limb>, y: Limb, j: nat, i: nat, ghost most: Limb)
    requires i < |a| && j + i < r.Length && Carried(a) && 0 <= y < BASE
    requires 0 <= most <= MOST - SQUARE && 0 <= r[j + i] <= most
    modifies r
    ensures Value(r[..]) + Value(a[..i]) * y as int * Pow(j) == Value(old(r[..])) + Value(a[..i + 1]) * y as int * Pow(j)
    ensures 0 <= r[j + i] <= most + SQUARE
    ensures forall p | 0 <= p < r.Length && p != j + i :: r[p] == old(r[p])
  {
    ProductBound(a[i], y);
    r[j + i] := r[j + i] + a[i] * y;
    assert r[..] == old(r[..])[j + i := r[j + i]];
    assert a[..i] + [a[i]] == a[..i + 1];
    RowEntry(old(r[..]), a[..i], a[i], y, j, r[j + i]);
  }

  /** Adds one row of the product: a times the limb y, shifted by j limbs. */
  method AddRow(r: array<Limb>, a: seq<Limb>, y: Limb, j: nat, ghost most: Limb)
    requires j + |a| <= r.Length && Carried(a) && 0 <= y < BASE
    requires 0 <= most <= MOST - SQUARE && forall i | 0 <= i < r.Length :: 0 <= r[i] <= most
    modifies r
    ensures Value(r[..]) == Value(old(r[..])) + Value(a) * y as int * Pow(j)
    ensures forall i | 0 <= i < r.Length :: 0 <= r[i] <= most + SQUARE
    ensures forall i | 0 <= i < r.Length && !(j <= i < j + |a|) :: r[i] == old(r[i])
  {
    var i: nat := 0;
    while i < |a|
      invariant i <= |a|
      invariant Value(r[..]) == Value(old(r[..])) + Value(a[..i]) * y as int * Pow(j)
      invariant forall p | 0 <= p < r.Length && !(j <= p < j + i) :: r[p] == old(r[p])
      invariant forall p | 0 <= p < r.Length :: 0 <= r[p] <= most + SQUARE
    {
      AddEntry(r, a, y, j, i, most);
      i := i + 1;
    }
    assert a[..|a|] == a;
  }

  lemma PartialBound(a: seq<Limb>, b: seq<Limb>, j: nat)
    requires Carried(a) && Carried(b) && j <= |b|
    ensures 0 <= Value(a) * Value(b[..j]) < Pow(|a| + j)
  {
    ValueBounds(a);
    ValueBounds(b[..j]);
    PowSum(|a|, j);
    TimesLess(Value(a), Pow(|a|), Value(b[..j]), Pow(j));
  }

  lemma TimesLess(x: int, p: int, y: int, q: int)
    requires 0 <= x < p && 0 <= y < q
    ensures 0 <= x * y < p * q
  {
    TimesGrows(x, y, q);
    assert (p - x) * q > 0;
  }

  lemma TimesAtLeastBoth(x: int, p: int, y: int, q: int)
    requires 0 <= p <= x && 0 <= q <= y
    ensures p * q <= x * y
  {
    TimesGrows(p, q, y);
    TimesGrows(y, p, x);
  }

  lemma RowValue(a: seq<Limb>, b: seq<Limb>, j: nat)
    requires j < |b|
    ensures Value(a) * Value(b[..j + 1]) == Value(a) * Value(b[..j]) + Value(a) * b[j] as int * Pow(j)
  {
    assert b[..j] + [b[j]] == b[..j + 1];
    ValueAppend(b[..j], b[j]);
    Spread(Value(a), Value(b[..j]), b[j] as int, Pow(j));
  }

  lemma Spread(v: int, w: int, x: int, p: int)
    ensures v * (w + x * p) == v * w + v * x * p
  {
    assert v * (x * p) == v * x * p;
  }

  /** What holds before multiplier limb j, the current window having started at `mark`: the products so
      far are all there, the limbs below the window are carried, those not reached yet are zero, and none
      holds more than the rows of the window can have added. */
  ghost predicate Accumulated(r: seq<Limb>, a: seq<Limb>, b: seq<Limb>, j: nat, mark: nat) {
    && |r| == |a| + |b| && mark <= j <= |b| && j - mark <= WINDOW
    && Value(r) == Value(a) * Value(b[..j])
    && (forall p | 0 <= p < mark :: 0 <= r[p] < BASE)
    && (forall p | 0 <= p < |r| :: 0 <= r[p] as int <= 999_999 + (j - mark) * SQUARE as int)
    && (forall p | |a| + j <= p < |r| :: r[p] == 0)
  }

  /** After the pass over the window everything is carried, the limb on top too. */
  lemma CarriedUpTo(r: seq<Limb>, a: seq<Limb>, b: seq<Limb>, j: nat)
    requires |r| == |a| + |b| && j <= |b| && a != [] && Carried(a) && Carried(b)
    requires Value(r) == Value(a) * Value(b[..j])
    requires (forall p | 0 <= p < |a| + j - 1 :: 0 <= r[p] < BASE) && 0 <= r[|a| + j - 1]
    requires forall p | |a| + j <= p < |r| :: r[p] == 0
    ensures Carried(r) && Accumulated(r, a, b, j, j)
  {
    PartialBound(a, b, j);
    TopIsCarried(r, |a| + j);
  }

  method CarryWindow(r: array<Limb>, a: seq<Limb>, b: seq<Limb>, j: nat, mark: nat)
    requires Carried(a) && Carried(b) && a != [] && Accumulated(r[..], a, b, j, mark)
    modifies r
    ensures Carried(r[..]) && Accumulated(r[..], a, b, j, j)
  {
    assert r[..] == r[..r.Length];
    assert forall p | 0 <= p < r.Length :: 0 <= r[..][p] <= MOST;
    CarryUp(r, mark, |a| + (j - mark), MOST);
    CarriedUpTo(r[..], a, b, j);
  }

  /** cheng: the product, without a leading zero. */
  method Multiply(a: seq<Limb>, b: seq<Limb>) returns (r: array<Limb>, len: nat)
    requires Operand(a) && Operand(b)
    ensures len <= r.Length <= |a| + |b| && Operand(r[..len])
    ensures Value(r[..len]) == Value(a) * Value(b)
  {
    if |a| == 0 || |b| == 0 {
      r := new Limb[0];
      assert r[..0] == [];
      return r, 0;
    }
    r := new Limb[|a| + |b|](_ => 0);
    var j: nat, mark: nat, left: nat := 0, 0, WINDOW - 1;
    ValueZeros(r[..], 0);
    assert b[..0] == [] && r[..][..0] == [];
    while j != |b|
      invariant j <= |b| && j - mark + left == WINDOW - 1
      invariant Accumulated(r[..], a, b, j, mark)
      decreases |b| - j
    {
      AddOne(r, a, b, j, mark);
      j := j + 1;
      if left != 0 {
        left := left - 1;
      } else {
        CarryWindow(r, a, b, j, mark);
        mark := j;
        left := WINDOW - 1;
      }
    }
    CarryWindow(r, a, b, j, mark);
    assert b[..|b|] == b;
    len := if r[mark + |a| + WINDOW - 2 - left] == 0 then |a| + |b| - 1 else |a| + |b|;
    Finish(r[..], a, b, len);
    assert r[..][..len] == r[..len];
  }

  method AddOne(r: array<Limb>, a: seq<Limb>, b: seq<Limb>, j: nat, mark: nat)
    requires Carried(a) && Carried(b) && Accumulated(r[..], a, b, j, mark) && j < |b| && j - mark < WINDOW
    modifies r
    ensures Accumulated(r[..], a, b, j + 1, mark)
  {
    ghost var s := r[..];
    ghost var most: Limb := 999_999 + (j - mark) as Limb * SQUARE;
    assert forall p | 0 <= p < r.Length :: r[p] == s[p];
    AddRow(r, a, b[j], j, most);
    RowValue(a, b, j);
    assert forall p | 0 <= p < r.Length :: r[..][p] == r[p];
  }

  /** The product has at least |a| + |b| - 1 limbs. */
  lemma Finish(r: seq<Limb>, a: seq<Limb>, b: seq<Limb>, len: nat)
    requires Operand(a) && Operand(b) && a != [] && b != [] && |r| == |a| + |b| && Carried(r)
    requires Value(r) == Value(a) * Value(b)
    requires len == if r[|r| - 1] == 0 then |r| - 1 else |r|
    ensures Operand(r[..len]) && Value(r[..len]) == Value(r)
  {
    ValueZeros(r, len);
    if len < |r| {
      TopIsNonzero(r, a, b);
    }
  }

  lemma TopIsNonzero(r: seq<Limb>, a: seq<Limb>, b: seq<Limb>)
    requires Operand(a) && Operand(b) && a != [] && b != [] && |r| == |a| + |b| && Carried(r)
    requires Value(r) == Value(a) * Value(b) && r[|r| - 1] == 0
    ensures r[|r| - 2] != 0
  {
    TooSmall(a, b);
    if r[|r| - 2] == 0 {
      BelowPow(r, |r| - 2);
    }
  }

  lemma BelowPow(r: seq<Limb>, k: nat)
    requires k <= |r| && Carried(r) && forall i | k <= i < |r| :: r[i] == 0
    ensures Value(r) < Pow(k)
  {
    ValueZeros(r, k);
    ValueBounds(r[..k]);
  }

  lemma TooSmall(a: seq<Limb>, b: seq<Limb>)
    requires Operand(a) && Operand(b) && a != [] && b != []
    ensures Value(a) * Value(b) >= Pow(|a| + |b| - 2)
  {
    ValueBounds(a);
    ValueBounds(b);
    AtLeastPow(a[|a| - 1] as int, Pow(|a| - 1));
    AtLeastPow(b[|b| - 1] as int, Pow(|b| - 1));
    PowSum(|a| - 1, |b| - 1);
    TimesAtLeastBoth(Value(a), Pow(|a| - 1), Value(b), Pow(|b| - 1));
  }

  lemma AtLeastPow(x: int, p: nat)
    requires x >= 1
    ensures x * p >= p
  {
  }
}
