/** Distinct numbers below a bound. */
module Counting {

  ghost function Below(n: nat): set<nat> {
    if n == 0 then {} else Below(n - 1) + {n - 1}
  }

  lemma {:induction false} BelowCounts(n: nat)
    ensures |Below(n)| == n && forall x: nat :: x in Below(n) <==> x < n
  {
    if n > 0 { BelowCounts(n - 1); }
  }

  /** Distinct numbers from a set are at most as many as the set has. */
  lemma {:induction false} DistinctFits(q: seq<nat>, s: set<nat>)
    requires forall i, j | 0 <= i < j < |q| :: q[i] != q[j]
    requires forall i | 0 <= i < |q| :: q[i] in s
    ensures |q| <= |s|
  {
    if q != [] {
      DistinctFits(q[1..], s - {q[0]});
    }
  }

  /** Distinct numbers below n are at most n. */
  lemma Pigeonhole(q: seq<nat>, n: nat)
    requires forall i, j | 0 <= i < j < |q| :: q[i] != q[j]
    requires forall i | 0 <= i < |q| :: q[i] < n
    ensures |q| <= n
  {
    BelowCounts(n);
    DistinctFits(q, Below(n));
  }
}
