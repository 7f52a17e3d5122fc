/** Numbers as bytes, least significant first, and writing them into a buffer. */
module WireBytes {
  import opened Messages

  const TWO64 := 0x1_0000_0000_0000_0000

  type U64 = n: nat | n < TWO64

  datatype Result<T> = Ok(value: T) | Err

  function Pow256(k: nat): nat
    ensures Pow256(k) > 0
  {
    if k == 0 then 1 else 256 * Pow256(k - 1)
  }

  /** The `k` low bytes of `n`. */
  function Bytes(n: nat, k: nat): (s: seq<Byte>)
    ensures |s| == k
  {
    if k == 0 then [] else [n % 256] + Bytes(n / 256, k - 1)
  }

  function Num(s: seq<Byte>): nat {
    if s == [] then 0 else s[0] + 256 * Num(s[1..])
  }

  lemma {:induction false} NumOfBytes(n: nat, k: nat)
    requires n < Pow256(k)
    ensures Num(Bytes(n, k)) == n
    decreases k
  {
    if k > 0 {
      assert n / 256 < Pow256(k - 1);
      NumOfBytes(n / 256, k - 1);
      assert Bytes(n, k)[1..] == Bytes(n / 256, k - 1);
    }
  }

  lemma {:induction false} BytesOfNum(s: seq<Byte>)
    ensures Bytes(Num(s), |s|) == s && Num(s) < Pow256(|s|)
  {
    if s != [] {
      BytesOfNum(s[1..]);
      var n := Num(s);
      assert n % 256 == s[0] && n / 256 == Num(s[1..]);
      assert s == [s[0]] + s[1..];
    }
  }

  lemma DivideTwice(n: nat, d: nat)
    requires d > 0
    ensures n / (256 * d) == n / 256 / d
  {
    var q, r := n / 256 / d, n / 256 % d;
    assert n / 256 == q * d + r;
    var t := 256 * r + n % 256;
    assert n == 256 * (n / 256) + n % 256 == q * (256 * d) + t;
    assert 0 <= t < 256 * d;
    QuotientIs(n, 256 * d, q, t);
  }

  lemma QuotientIs(n: nat, d: nat, q: nat, t: nat)
    requires d > 0 && n == q * d + t && t < d
    ensures n / d == q
  {
    var x := n / d;
    assert n == x * d + n % d;
    assert (x - q) * d == t - n % d;
    MultipleIsFar(x - q, d);
  }

  lemma MultipleIsFar(y: int, d: int)
    requires d > 0
    ensures (y >= 1 ==> y * d >= d) && (y <= -1 ==> y * d <= -d)
  {
  }

  /** Byte `i` is digit `i` of the number to the base 256: the least significant one comes first. */
  lemma {:induction false} ByteAt(n: nat, k: nat, i: nat)
    requires i < k
    ensures Bytes(n, k)[i] == n / Pow256(i) % 256
    decreases k
  {
    if i > 0 {
      ByteAt(n / 256, k - 1, i - 1);
      DivideTwice(n, Pow256(i - 1));
    }
  }

  lemma PowersOf256()
    ensures Pow256(8) == TWO64 && Pow256(4) == 0x1_0000_0000
  {
    assert Pow256(1) == 256 && Pow256(2) == 256 * Pow256(1) && Pow256(3) == 256 * Pow256(2);
    assert Pow256(4) == 256 * Pow256(3) && Pow256(5) == 256 * Pow256(4) && Pow256(6) == 256 * Pow256(5);
    assert Pow256(7) == 256 * Pow256(6) && Pow256(8) == 256 * Pow256(7);
  }

  /** Copy bytes into a buffer at place `p`. */
  method Emit(buf: array<Byte>, p: nat, src: seq<Byte>) returns (q: nat)
    requires p + |src| <= buf.Length
    modifies buf
    ensures q == p + |src| && buf[..q] == old(buf[..p]) + src
  {
    for i := 0 to |src|
      invariant buf[..p + i] == old(buf[..p]) + src[..i]
    {
      buf[p + i] := src[i];
      assert src[..i + 1] == src[..i] + [src[i]];
      assert buf[..p + i + 1] == buf[..p + i] + [src[i]];
    }
    assert src[..|src|] == src;
    q := p + |src|;
  }
}
