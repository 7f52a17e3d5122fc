/** The protocol control block as an object: sequence numbers, the acknowledgement bitmap and the retransmission wheel. */
module Pcb {
  import opened SerialNumbers
  import opened Packets
  import opened SackBitmap
  import S = Sender

  class Pcb {
    var sndNxt: U32
    var sndUna: U32
    var sndOooAcks: U32
    var rcvNxt: U32
    const sackBitmap: array<Word>
    var sackBitmapCount: U8
    var duplicateAcks: U16
    var rtoRexmitsConsecutive: U16
    var wheels: S.Wheels
    var rtoTick: S.Tick

    ghost predicate Valid()
      reads this
    {
      sackBitmap.Length == WORDS
    }

    /** The bitmap's words, as one value. */
    ghost function Bits(): Words
      requires Valid()
      reads this, sackBitmap
    {
      sackBitmap[..]
    }

    /** This block holds the numbers and the wheel of the sender's state `t`. */
    ghost predicate Shows(t: S.Tx)
      reads this
    {
      && t.una == sndUna && t.nxt == sndNxt && t.dupAcks == duplicateAcks && t.oooAcks == sndOooAcks
      && t.rtoConsecutive == rtoRexmitsConsecutive && t.tick == rtoTick && t.wheels == wheels
    }

    constructor ()
      ensures Valid() && Bits() == ZeroWords() && sackBitmapCount == 0 && fresh(sackBitmap)
      ensures sndNxt == sndUna == rcvNxt == 0 && sndOooAcks == 0 && duplicateAcks == 0 && rtoRexmitsConsecutive == 0
      ensures rtoTick == 0 && wheels == seq(S.RTO_SLOTS, _ => [])
    {
      sndNxt, sndUna, sndOooAcks, rcvNxt := 0, 0, 0, 0;
      sackBitmapCount, duplicateAcks, rtoRexmitsConsecutive := 0, 0, 0;
      sackBitmap := new Word[WORDS](_ => ZeroWord());
      wheels, rtoTick := seq(S.RTO_SLOTS, _ => []), 0;
    }

    method GetSndNxt() returns (seqno: U32)
      modifies `sndNxt
      ensures seqno == old(sndNxt) && sndNxt == Wrap(old(sndNxt) + 1)
    {
      seqno := sndNxt;
      var n: int := sndNxt;
      sndNxt := (n + 1) % TWO32;
    }

    method AdvanceRcvNxt()
      modifies `rcvNxt
      ensures rcvNxt == (old(rcvNxt) + 1) % TWO32
    {
      var n: int := rcvNxt;
      rcvNxt := (n + 1) % TWO32;
    }

    method AdvanceRtoTick()
      modifies `rtoTick
      ensures rtoTick == (old(rtoTick) + 1) % S.RTO_SLOTS
    {
      var n: int := rtoTick;
      rtoTick := (n + 1) % S.RTO_SLOTS;
    }

    method AddToRtoWheel(buf: Off, seqno: U32)
      modifies `wheels
      ensures var r := S.ReadySlot(rtoTick); wheels == old(wheels)[r := old(wheels)[r] + [S.Ent(buf, seqno)]]
    {
      var readyTick := (rtoTick + S.RTO_EXPIRE_TICKS) % S.RTO_SLOTS;
      wheels := wheels[readyTick := wheels[readyTick] + [S.Ent(buf, seqno)]];
    }

    /** Shift all words by one bit in place, each taking in the lowest bit of its neighbour before that changes. */
    method SackBitmapShiftLeftOne()
      requires Valid()
      modifies sackBitmap, `sackBitmapCount
      ensures Bits() == ShiftLeftOne(old(Bits()))
      ensures sackBitmapCount == (old(sackBitmapCount) - 1) % 0x100
    {
      ghost var was := Bits();
      var i := 0;
      while i < WORDS - 1
        invariant 0 <= i <= WORDS - 1
        invariant forall k :: 0 <= k < i ==> sackBitmap[k] == ShiftWord(was, k)
        invariant forall k :: i <= k < WORDS ==> sackBitmap[k] == was[k]
        invariant sackBitmapCount == old(sackBitmapCount)
      {
        sackBitmap[i] := Or(ShiftRight1(sackBitmap[i]), ShiftLeft63(sackBitmap[i + 1]));
        i := i + 1;
      }
      sackBitmap[WORDS - 1] := ShiftRight1(sackBitmap[WORDS - 1]);
      var n: int := sackBitmapCount;
      sackBitmapCount := (n - 1) % 0x100;
    }

    method SackBitmapBitSet(index: nat)
      requires Valid() && index < BITS
      modifies sackBitmap, `sackBitmapCount
      ensures Bits() == BitSet(old(Bits()), index)
      ensures sackBitmapCount == (old(sackBitmapCount) + 1) % 0x100
    {
      var bucket, bit := index / WORD_BITS, index % WORD_BITS;
      sackBitmap[bucket] := Or(sackBitmap[bucket], Mask(bit));
      var n: int := sackBitmapCount;
      sackBitmapCount := (n + 1) % 0x100;
    }
  }
}
