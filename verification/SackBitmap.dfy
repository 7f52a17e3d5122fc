/**
 * The selective-acknowledgement bitmap: sixteen 64-bit words read as one vector of 1024 bits, in which bit `i`
 * stands for the packet `i` places after the next expected one.
 *
 * A 64-bit register is written as its bits, least significant first, and the machine operations the transport
 * applies to it (`>> 1`, `<< 63`, `|`, `&` with `1ULL << j`) are defined on that form.
 */
module SackBitmap {
  const BITS := 1024
  const WORD_BITS := 64
  const WORDS := 16

  type Word = w: seq<bool> | |w| == WORD_BITS witness seq(WORD_BITS, _ => false)
  type Words = w: seq<Word> | |w| == WORDS witness seq(WORDS, _ => seq(WORD_BITS, _ => false))

  function ZeroWord(): Word {
    seq(WORD_BITS, _ => false)
  }

  function ZeroWords(): Words {
    seq(WORDS, _ => ZeroWord())
  }

  function ShiftRight1(w: Word): Word {
    seq(WORD_BITS, i requires 0 <= i < WORD_BITS => i + 1 < WORD_BITS && w[i + 1])
  }

  function ShiftLeft63(w: Word): Word {
    seq(WORD_BITS, i requires 0 <= i < WORD_BITS => i == WORD_BITS - 1 && w[0])
  }

  function Or(a: Word, b: Word): Word {
    seq(WORD_BITS, i requires 0 <= i < WORD_BITS => a[i] || b[i])
  }

  function And(a: Word, b: Word): Word {
    seq(WORD_BITS, i requires 0 <= i < WORD_BITS => a[i] && b[i])
  }

  /** `1ULL << j`. */
  function Mask(j: nat): Word
    requires j < WORD_BITS
  {
    seq(WORD_BITS, i => i == j)
  }

  /** The test made on a received bitmap: `(word & (1ULL << j)) != 0`. */
  predicate TestWord(w: Word, j: nat)
    requires j < WORD_BITS
  {
    And(w, Mask(j)) != ZeroWord()
  }

  predicate TestBit(w: Words, i: nat)
    requires i < BITS
  {
    TestWord(w[i / WORD_BITS], i % WORD_BITS)
  }

  /** Each word moves down by one bit and takes in the lowest bit of the next word. */
  function ShiftWord(w: Words, i: nat): Word
    requires i < WORDS
  {
    if i < WORDS - 1 then Or(ShiftRight1(w[i]), ShiftLeft63(w[i + 1])) else ShiftRight1(w[i])
  }

  function ShiftLeftOne(w: Words): Words {
    seq(WORDS, i requires 0 <= i < WORDS => ShiftWord(w, i))
  }

  function BitSet(w: Words, i: nat): Words
    requires i < BITS
  {
    w[i / WORD_BITS := Or(w[i / WORD_BITS], Mask(i % WORD_BITS))]
  }

  /** The number of set bits below position `n`. */
  function CountBelow(w: Words, n: nat): nat
    requires n <= BITS
  {
    if n == 0 then 0 else CountBelow(w, n - 1) + if TestBit(w, n - 1) then 1 else 0
  }

  function Count(w: Words): nat {
    CountBelow(w, BITS)
  }

  lemma TestWordReadsBit(w: Word, j: nat)
    requires j < WORD_BITS
    ensures TestWord(w, j) <==> w[j]
  {
    var a, z := And(w, Mask(j)), ZeroWord();
    if w[j] {
      assert a[j] && !z[j];
    } else {
      assert a == z;
    }
  }

  /** The sixteen-word shift is a one-bit shift of the 1024-bit vector. */
  lemma ShiftMovesEveryBit(w: Words, i: nat)
    requires i < BITS
    ensures TestBit(ShiftLeftOne(w), i) <==> i + 1 < BITS && TestBit(w, i + 1)
  {
    var q, j := i / WORD_BITS, i % WORD_BITS;
    TestWordReadsBit(ShiftWord(w, q), j);
    if j < WORD_BITS - 1 {
      assert (i + 1) / WORD_BITS == q && (i + 1) % WORD_BITS == j + 1;
      TestWordReadsBit(w[q], j + 1);
    } else if q < WORDS - 1 {
      assert (i + 1) / WORD_BITS == q + 1 && (i + 1) % WORD_BITS == 0;
      TestWordReadsBit(w[q + 1], 0);
    }
  }

  lemma BitSetSetsOneBit(w: Words, i: nat, k: nat)
    requires i < BITS && k < BITS
    ensures TestBit(BitSet(w, i), k) <==> k == i || TestBit(w, k)
  {
    TestWordReadsBit(w[k / WORD_BITS], k % WORD_BITS);
    TestWordReadsBit(BitSet(w, i)[k / WORD_BITS], k % WORD_BITS);
  }

  lemma {:induction false} CountShiftBelow(w: Words, n: nat)
    requires n < BITS
    ensures CountBelow(ShiftLeftOne(w), n) + (if TestBit(w, 0) then 1 else 0) == CountBelow(w, n + 1)
  {
    hide TestBit, ShiftLeftOne;
    if n > 0 {
      CountShiftBelow(w, n - 1);
      ShiftMovesEveryBit(w, n - 1);
    }
  }

  /** A shift loses exactly the bit that falls off the front. */
  lemma CountShift(w: Words)
    ensures Count(ShiftLeftOne(w)) == Count(w) - if TestBit(w, 0) then 1 else 0
  {
    CountShiftBelow(w, BITS - 1);
    ShiftMovesEveryBit(w, BITS - 1);
  }

  lemma {:induction false} CountBitSetBelow(w: Words, i: nat, n: nat)
    requires i < BITS && n <= BITS && !TestBit(w, i)
    ensures CountBelow(BitSet(w, i), n) == CountBelow(w, n) + if i < n then 1 else 0
  {
    if n > 0 {
      CountBitSetBelow(w, i, n - 1);
      BitSetSetsOneBit(w, i, n - 1);
    }
  }

  /** The number of set bits below a position grows with the position, by at most one at each step. */
  lemma {:induction false} CountBelowGrows(w: Words, m: nat, n: nat)
    requires m <= n <= BITS
    ensures CountBelow(w, m) <= CountBelow(w, n) <= CountBelow(w, m) + n - m
  {
    if m < n {
      CountBelowGrows(w, m, n - 1);
    }
  }

  /** If no bit from `n` on is set, all set bits lie below `n`. */
  lemma {:induction false} CountStopsAt(w: Words, n: nat, hi: nat)
    requires n <= hi <= BITS
    requires forall i :: n <= i < hi ==> !TestBit(w, i)
    ensures CountBelow(w, hi) == CountBelow(w, n)
  {
    if n < hi {
      CountStopsAt(w, n, hi - 1);
    }
  }

  lemma {:induction false} ZeroWordsHaveNoBits(w: Words, n: nat)
    requires w == ZeroWords() && n <= BITS
    ensures CountBelow(w, n) == 0
    ensures forall i :: 0 <= i < n ==> !TestBit(w, i)
  {
    if n > 0 {
      ZeroWordsHaveNoBits(w, n - 1);
      TestWordReadsBit(ZeroWord(), (n - 1) % WORD_BITS);
    }
  }
}
