/**
 * 32-bit serial numbers (section 3.2 of RFC 1982), as the comparators of the transport compute them:
 * the difference is taken modulo 2^32 and read back as a signed 32-bit value.
 *
 * `Wrap` sends an unbounded packet number to the 32 bits carried on the wire. The lemmas say when
 * the comparators, which only see wrapped numbers, agree with the order of the unbounded ones.
 */
module SerialNumbers {
  const TWO31 := 0x8000_0000
  const TWO32 := 0x1_0000_0000

  type U8 = x: int | 0 <= x < 0x100
  type U16 = x: int | 0 <= x < 0x1_0000
  type U32 = x: int | 0 <= x < TWO32

  function Wrap(n: int): U32 {
    n % TWO32
  }

  /** Unsigned 32-bit subtraction. */
  function Sub(a: U32, b: U32): U32 {
    (a - b) % TWO32
  }

  /** The difference read as a signed 32-bit number. */
  function Diff(a: U32, b: U32): int {
    var d := Sub(a, b);
    if d < TWO31 then d else d - TWO32
  }

  predicate SeqLt(a: U32, b: U32) { Diff(a, b) < 0 }

  predicate SeqEq(a: U32, b: U32) { Diff(a, b) == 0 }

  predicate SeqGe(a: U32, b: U32) { Diff(a, b) >= 0 }

  predicate SeqGt(a: U32, b: U32) { Diff(a, b) > 0 }

  /** The signed difference of two wrapped numbers is the true difference exactly when that fits in 32 bits. */
  lemma DiffIsExact(n: int, m: int)
    ensures Diff(Wrap(n), Wrap(m)) == n - m <==> -TWO31 <= n - m < TWO31
  {
    var q := n / TWO32 - m / TWO32;
    assert n - m == Wrap(n) - Wrap(m) + q * TWO32;
    assert Sub(Wrap(n), Wrap(m)) == (n - m) % TWO32 by {
      SubWrap(n, m);
    }
  }

  lemma SubWrap(n: int, m: int)
    ensures Sub(Wrap(n), Wrap(m)) == (n - m) % TWO32
    ensures 0 <= n - m < TWO32 ==> Sub(Wrap(n), Wrap(m)) == n - m
  {
  }

  lemma WrapAdd(n: int, k: int)
    ensures (Wrap(n) + k) % TWO32 == Wrap(n + k)
  {
  }

  /** Within half the number space all comparators decide the order of the unbounded numbers. */
  lemma ComparatorsDecideOrder(n: int, m: int)
    requires -TWO31 <= n - m < TWO31
    ensures SeqLt(Wrap(n), Wrap(m)) <==> n < m
    ensures SeqEq(Wrap(n), Wrap(m)) <==> n == m
    ensures SeqGe(Wrap(n), Wrap(m)) <==> n >= m
    ensures SeqGt(Wrap(n), Wrap(m)) <==> n > m
  {
    DiffIsExact(n, m);
  }

  /** The comparison is antisymmetric except at distance exactly 2^31, where each number precedes the other. */
  lemma LtBothWays(a: U32, b: U32)
    ensures SeqLt(a, b) && SeqLt(b, a) <==> Sub(a, b) == TWO31
  {
  }

  /** All keys lie in the half-space that starts at `base`. */
  ghost predicate InHalfSpace(keys: set<U32>, base: U32) {
    forall k :: k in keys ==> Sub(k, base) < TWO31
  }

  /** `seqno_cmp` is a strict total order on any set of keys that fits in half the number space. */
  lemma StrictTotalOrder(keys: set<U32>, base: U32)
    requires InHalfSpace(keys, base)
    ensures forall a, b :: a in keys && b in keys ==> (SeqLt(a, b) <==> Sub(a, base) < Sub(b, base))
    ensures forall a :: a in keys ==> !SeqLt(a, a)
    ensures forall a, b :: a in keys && b in keys && a != b ==> SeqLt(a, b) != SeqLt(b, a)
    ensures forall a, b, c :: a in keys && b in keys && c in keys && SeqLt(a, b) && SeqLt(b, c) ==> SeqLt(a, c)
  {
    forall a, b | a in keys && b in keys
      ensures SeqLt(a, b) <==> Sub(a, base) < Sub(b, base)
    {
      LtByDistance(a, b, base);
    }
    forall a, b | a in keys && b in keys && a != b
      ensures Sub(a, base) != Sub(b, base)
    {
      LtByDistance(a, b, base);
    }
  }

  lemma LtByDistance(a: U32, b: U32, base: U32)
    requires Sub(a, base) < TWO31 && Sub(b, base) < TWO31
    ensures SeqLt(a, b) <==> Sub(a, base) < Sub(b, base)
    ensures Sub(a, base) == Sub(b, base) <==> a == b
  {
    SubIsCyclic(a, base);
    SubIsCyclic(b, base);
  }

  lemma SubIsCyclic(a: U32, base: U32)
    ensures Sub(a, base) == if a >= base then a - base else a - base + TWO32
  {
  }
}
