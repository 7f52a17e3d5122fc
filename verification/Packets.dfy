/** The packets of one flow and the constants of the platform it runs on. */
module Packets {
  import opened SerialNumbers
  import opened Messages
  import opened SackBitmap

  /** A packet buffer is named by its offset in the shared packet memory; a `FrameBuf*` is that offset too. */
  type Off = nat

  datatype Packet =
    | Data(seqno: U32, frame: Frame)
    | Ack(ackno: U32, words: Words, count: U16)

  datatype Platform = Platform(maxPath: nat, maxUnackedPp: nat)

  /** The size of the ring that remembers which path each packet took. */
  const PATH_HISTORY := 4096

  /** What the static assertions of the configuration demand of the platform constants. */
  predicate PlatformOk(p: Platform) {
    && 0 < p.maxPath <= 4096
    && 0 < p.maxUnackedPp
    && p.maxUnackedPp * p.maxPath <= PATH_HISTORY
  }

  type CheckedPlatform = p: Platform | PlatformOk(p) witness Platform(200, 1)

  const PLATFORM: CheckedPlatform

  type PathId = p: nat | p < PLATFORM.maxPath witness 0

  /** All packet buffers of an engine. */
  const NUM_FRAMES := 1024 * 1024

  // ----- Collections of buffers -----

  predicate Distinct(bufs: seq<Off>) {
    forall i, j :: 0 <= i < j < |bufs| ==> bufs[i] != bufs[j]
  }

  function AsSet(bufs: seq<Off>): (s: set<Off>)
    ensures forall b :: b in s <==> b in bufs
  {
    set b | b in bufs
  }

  lemma DistinctConcat(a: seq<Off>, b: seq<Off>)
    requires Distinct(a) && Distinct(b) && forall x :: x in a ==> x !in b
    ensures Distinct(a + b)
  {
    var c := a + b;
    forall i, j | 0 <= i < j < |c|
      ensures c[i] != c[j]
    {
      if i < |a| <= j {
        assert c[i] in a && b[j - |a|] in b;
      }
    }
  }

  lemma DistinctPart(a: seq<Off>, b: seq<Off>, c: seq<Off>)
    requires Distinct(a + b + c)
    ensures Distinct(b)
    ensures forall x :: x in b ==> x !in a && x !in c
  {
    var s := a + b + c;
    forall i, j | 0 <= i < j < |b|
      ensures b[i] != b[j]
    {
      assert s[|a| + i] == b[i] && s[|a| + j] == b[j];
    }
    forall x | x in b
      ensures x !in a && x !in c
    {
      var i :| 0 <= i < |b| && b[i] == x;
      assert s[|a| + i] == x;
      forall j | 0 <= j < |a|
        ensures a[j] != x
      {
        assert s[j] == a[j];
      }
      forall j | 0 <= j < |c|
        ensures c[j] != x
      {
        assert s[|a| + |b| + j] == c[j];
      }
    }
  }
}
