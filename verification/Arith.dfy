/**
 Multiplication and division by a cluster size that is only known to be positive. They are defined
 by recursion, so that the file proofs stay linear; Quot and Rem are shown to be the usual ones.
 */
module Arith {

  function Min(a: int, b: int): int {
    if a < b then a else b
  }

  function Max(a: int, b: int): int {
    if a < b then b else a
  }

  /** k blocks of d bytes. */
  function Times(k: nat, d: nat): nat {
    if k == 0 then 0 else Times(k - 1, d) + d
  }

  /** The block that holds byte p. */
  function Quot(p: nat, d: nat): nat
    requires d > 0
  {
    if p < d then 0 else 1 + Quot(p - d, d)
  }

  /** The offset of byte p inside its block. */
  function Rem(p: nat, d: nat): (r: nat)
    requires d > 0
    ensures r < d
  {
    if p < d then p else Rem(p - d, d)
  }

  /** The number of d-sized blocks that n bytes need. */
  function Ceil(n: nat, d: nat): nat
    requires d > 0
  {
    Quot(n + d - 1, d)
  }

  lemma {:induction false} QuotRem(p: nat, d: nat)
    requires d > 0
    ensures p == Times(Quot(p, d), d) + Rem(p, d)
  {
    if p >= d {
      QuotRem(p - d, d);
    }
  }

  lemma {:induction false} TimesMono(a: nat, b: nat, d: nat)
    requires a <= b
    ensures Times(a, d) <= Times(b, d)
  {
    if a < b {
      TimesMono(a, b - 1, d);
    }
  }

  /** A number lies in the block that brackets it. */
  lemma QuotIs(p: nat, k: nat, d: nat)
    requires d > 0 && Times(k, d) <= p < Times(k, d) + d
    ensures Quot(p, d) == k && Rem(p, d) == p - Times(k, d)
  {
  }

  lemma QuotLess(p: nat, n: nat, d: nat)
    requires d > 0 && p < Times(n, d)
    ensures Quot(p, d) < n && Times(Quot(p, d) + 1, d) <= Times(n, d)
  {
    QuotRem(p, d);
    if n <= Quot(p, d) {
      TimesMono(n, Quot(p, d), d);
    }
    TimesMono(Quot(p, d) + 1, n, d);
  }

  lemma CeilBrackets(n: nat, d: nat)
    requires d > 0
    ensures n <= Times(Ceil(n, d), d) < n + d
  {
    QuotRem(n + d - 1, d);
  }

  /** The number of blocks is the one whose capacity first reaches n. */
  lemma CeilIs(n: nat, k: nat, d: nat)
    requires d > 0 && Times(k, d) < n + d && n <= Times(k, d)
    ensures Ceil(n, d) == k
  {
    QuotIs(n + d - 1, k, d);
  }

  lemma CeilFits(n: nat, k: nat, d: nat)
    requires d > 0
    ensures Ceil(n, d) <= k <==> n <= Times(k, d)
  {
    CeilBrackets(n, d);
    if Ceil(n, d) <= k {
      TimesMono(Ceil(n, d), k, d);
    } else {
      TimesMono(k + 1, Ceil(n, d), d);
    }
  }

  lemma {:induction false} TimesIsProduct(k: nat, d: nat)
    ensures Times(k, d) == k * d
  {
    if k > 0 {
      TimesIsProduct(k - 1, d);
    }
  }

  lemma QuotIsDivision(p: nat, d: nat)
    requires d > 0
    ensures Quot(p, d) == p / d && Rem(p, d) == p % d
  {
    assert p == p / d * d + p % d;
    TimesIsProduct(p / d, d);
    QuotIs(p, p / d, d);
  }

  /** The numbers from a to below b, b - a of them. */
  function Interval(a: nat, b: nat): (s: set<nat>)
    requires a <= b
    ensures |s| == b - a && forall c :: c in s <==> a <= c < b
    decreases b - a
  {
    if a == b then {} else Interval(a, b - 1) + {b - 1}
  }
}
