/** What an endpoint tells its peer about itself: address, port and the bus id of its device. */
module EndpointMetadata {
  import opened Messages
  import opened SerialNumbers
  import opened WireBytes

  datatype Metadata = Metadata(ip: seq<Byte>, port: U16, bdf: seq<Byte>)

  predicate AddressOk(ip: seq<Byte>) {
    |ip| == 4 || |ip| == 16
  }

  function HighByte(port: U16): Byte {
    port / 256
  }

  function LowByte(port: U16): Byte {
    port % 256
  }

  /** The length of the bus id as one byte holds it. */
  function BdfLen(m: Metadata): Byte {
    |m.bdf| % 256
  }

  /** Address, port in network order, one byte of length, and as much of the bus id as that byte says. */
  function Print(m: Metadata): seq<Byte> {
    m.ip + [HighByte(m.port), LowByte(m.port), BdfLen(m)] + m.bdf[..BdfLen(m)]
  }

  /** A byte as a number. */
  function At(s: seq<Byte>, i: nat): int
    requires i < |s|
  {
    s[i]
  }

  /** Read an address of `ipLen` bytes and what follows it. */
  function ParseAt(s: seq<Byte>, ipLen: nat): Metadata
    requires ipLen + 3 <= |s| && |s| == ipLen + 3 + At(s, ipLen + 2)
  {
    Metadata(s[..ipLen], At(s, ipLen) * 256 + At(s, ipLen + 1), s[ipLen + 3..])
  }

  /** The shorter form is tried first: it is taken when the byte in its length field fits the size. */
  function Parse(s: seq<Byte>): Result<Metadata> {
    if |s| < 7 then Err
    else if |s| == 7 + At(s, 6) then Ok(ParseAt(s, 4))
    else if |s| < 19 || |s| != 19 + At(s, 18) then Err
    else Ok(ParseAt(s, 16))
  }

  method GetMetadata(m: Metadata) returns (buf: array<Byte>)
    requires AddressOk(m.ip)
    ensures buf[..] == Print(m)
  {
    var bdfLen: Byte := |m.bdf| % 256;
    buf := new Byte[|m.ip| + 2 + 1 + bdfLen];
    var p := Emit(buf, 0, m.ip);
    p := Emit(buf, p, [HighByte(m.port), LowByte(m.port)]);
    p := Emit(buf, p, [bdfLen]);
    p := Emit(buf, p, m.bdf[..bdfLen]);
    assert m.ip + [HighByte(m.port), LowByte(m.port)] + [bdfLen]
        == m.ip + [HighByte(m.port), LowByte(m.port), bdfLen];
    assert buf[..] == buf[..p];
  }

  /** What is read back when the address is taken for its own kind: the same, with the bus id cut to one byte's length. */
  lemma ParseAtUndoesPrint(m: Metadata)
    requires AddressOk(m.ip)
    ensures var s := Print(m);
      |m.ip| + 3 <= |s| == |m.ip| + 3 + At(s, |m.ip| + 2) && ParseAt(s, |m.ip|) == m.(bdf := m.bdf[..BdfLen(m)])
  {
    var s := Print(m);
    assert s[..|m.ip|] == m.ip && s[|m.ip| + 3..] == m.bdf[..BdfLen(m)];
    assert m.port / 256 * 256 + m.port % 256 == m.port;
  }

  /**
   * Printing and parsing gives the metadata back exactly when the bus id has at most 255 bytes and, for the longer kind of
   * address, byte 6 of the address is not the length of the bus id plus 12.
   */
  lemma RoundTripIff(m: Metadata)
    requires AddressOk(m.ip)
    ensures Parse(Print(m)) == Ok(m) <==> |m.bdf| <= 255 && (|m.ip| == 16 ==> m.ip[6] != |m.bdf| + 12)
  {
    ParseAtUndoesPrint(m);
    var s := Print(m);
    assert |s| == |m.ip| + 3 + BdfLen(m) && At(s, |m.ip| + 2) == BdfLen(m);
    assert m.bdf[..BdfLen(m)] == m.bdf <==> |m.bdf| <= 255;
    if |m.ip| == 16 {
      assert At(s, 6) == m.ip[6];
      if m.ip[6] == BdfLen(m) + 12 {
        AmbiguousIsTakenForShort(m);
      }
    }
  }

  /** What is read is what was written: only printed metadata is accepted, and all of it. */
  lemma AcceptedIffPrinted(s: seq<Byte>)
    ensures Parse(s).Ok? ==> AddressOk(Parse(s).value.ip) && |Parse(s).value.bdf| <= 255 && Print(Parse(s).value) == s
    ensures Parse(s).Ok? <==> exists m: Metadata :: AddressOk(m.ip) && Print(m) == s
  {
    if Parse(s).Ok? {
      var m := Parse(s).value;
      PrintUndoesParseAt(s, |m.ip|);
      assert AddressOk(m.ip) && Print(m) == s;
    }
    forall m: Metadata | AddressOk(m.ip) && Print(m) == s
      ensures Parse(s).Ok?
    {
      ParseAtUndoesPrint(m);
    }
  }

  lemma PrintUndoesParseAt(s: seq<Byte>, ipLen: nat)
    requires ipLen + 3 <= |s| && |s| == ipLen + 3 + At(s, ipLen + 2)
    ensures Print(ParseAt(s, ipLen)) == s
  {
    var m := ParseAt(s, ipLen);
    assert m.port / 256 == At(s, ipLen) && m.port % 256 == At(s, ipLen + 1);
    assert |m.bdf| == At(s, ipLen + 2) && m.bdf[..|m.bdf|] == m.bdf;
    assert s == s[..ipLen] + [s[ipLen], s[ipLen + 1], s[ipLen + 2]] + s[ipLen + 3..];
  }

  /** An address of the longer kind that meets the condition on its bus id is read back as one of the shorter kind. */
  lemma AmbiguousIsTakenForShort(m: Metadata)
    requires |m.ip| == 16 && m.ip[6] == BdfLen(m) + 12
    ensures Parse(Print(m)).Ok? && Parse(Print(m)).value.ip == m.ip[..4]
  {
    var s := Print(m);
    assert s[6] == m.ip[6] && s[..4] == m.ip[..4];
  }
}
