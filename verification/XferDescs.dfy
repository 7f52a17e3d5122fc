/** Lists of transfer descriptors as bytes, written into a buffer of computed size and read back through a cursor. */
module XferDescs {
  import opened Messages
  import opened SerialNumbers
  import opened WireBytes

  datatype Desc = Desc(addr: U64, size: U64, mrId: U64, lkeys: seq<U32>, rkeys: seq<U32>, ipcInfo: seq<Byte>)

  // ----- Printing -----

  function KeyBytes(keys: seq<U32>): (s: seq<Byte>)
    ensures |s| == 4 * |keys|
  {
    if keys == [] then [] else Bytes(keys[0], 4) + KeyBytes(keys[1..])
  }

  /** Everything but the registration id, with the inter-process part at the end behind its length. */
  function PrintHead(d: Desc): (s: seq<Byte>)
    ensures |s| == 24 + 4 * |d.lkeys| + 4 * |d.rkeys|
  {
    Bytes(d.addr, 8) + Bytes(d.size, 8) + Bytes(|d.lkeys|, 8) + KeyBytes(d.lkeys) + KeyBytes(d.rkeys)
  }

  function PrintTail(d: Desc): (s: seq<Byte>)
    ensures |s| == 8 + |d.ipcInfo|
  {
    Bytes(|d.ipcInfo|, 8) + d.ipcInfo
  }

  function PrintDesc(d: Desc): seq<Byte> {
    PrintHead(d) + PrintTail(d)
  }

  function PrintAll(ds: seq<Desc>): seq<Byte> {
    if ds == [] then [] else PrintDesc(ds[0]) + PrintAll(ds[1..])
  }

  function Print(ds: seq<Desc>): seq<Byte> {
    Bytes(|ds|, 8) + PrintAll(ds)
  }

  /** Both key lists have the same length, and lengths fit in eight bytes. */
  predicate Printable(d: Desc) {
    |d.lkeys| == |d.rkeys| && |d.lkeys| < TWO64 && |d.ipcInfo| < TWO64
  }

  predicate AllPrintable(ds: seq<Desc>) {
    |ds| < TWO64 && forall i :: 0 <= i < |ds| ==> Printable(ds[i])
  }

  // ----- Parsing -----

  function Keys(s: seq<Byte>): seq<U32>
    requires |s| % 4 == 0
  {
    if s == [] then []
    else
      BytesOfNum(s[..4]);
      PowersOf256();
      [Num(s[..4])] + Keys(s[4..])
  }

  function ParseNum(s: seq<Byte>): (n: U64)
    requires |s| == 8
  {
    BytesOfNum(s);
    PowersOf256();
    Num(s)
  }

  /** The inter-process part behind a head. At the very end of the data it may be missing. */
  function ParseTail(head: Desc, rest: seq<Byte>): Result<(Desc, seq<Byte>)> {
    if rest == [] then Ok((head, rest))
    else if |rest| < 8 then Err
    else
      var len := ParseNum(rest[..8]);
      if |rest| < 8 + len then Err else Ok((head.(ipcInfo := rest[8..8 + len]), rest[8 + len..]))
  }

  /** One descriptor from the front of `s`. */
  function ParseDesc(s: seq<Byte>): Result<(Desc, seq<Byte>)> {
    if |s| < 24 then Err
    else
      var k := ParseNum(s[16..24]);
      if |s| < 24 + 8 * k then Err
      else ParseTail(Desc(ParseNum(s[..8]), ParseNum(s[8..16]), 0, Keys(s[24..24 + 4 * k]),
                          Keys(s[24 + 4 * k..24 + 8 * k]), []), s[24 + 8 * k..])
  }

  function ParseAll(s: seq<Byte>, n: nat): Result<seq<Desc>>
    decreases n
  {
    if n == 0 then Ok([])
    else
      match ParseDesc(s)
      case Err => Err
      case Ok((d, rest)) =>
        match ParseAll(rest, n - 1)
        case Err => Err
        case Ok(ds) => Ok([d] + ds)
  }

  function Parse(s: seq<Byte>): Result<seq<Desc>> {
    if s == [] then Ok([])
    else if |s| < 8 then Err
    else ParseAll(s[8..], ParseNum(s[..8]))
  }

  // ----- Reading undoes writing -----

  lemma NumRoundTrip(n: nat)
    requires n < TWO64
    ensures ParseNum(Bytes(n, 8)) == n
  {
    PowersOf256();
    NumOfBytes(n, 8);
  }

  lemma {:induction false} KeysRoundTrip(keys: seq<U32>)
    ensures Keys(KeyBytes(keys)) == keys
  {
    if keys != [] {
      PowersOf256();
      NumOfBytes(keys[0], 4);
      var s := KeyBytes(keys);
      assert s[..4] == Bytes(keys[0], 4) && s[4..] == KeyBytes(keys[1..]);
      KeysRoundTrip(keys[1..]);
    }
  }

  /** The fields of a printed head, wherever it stands. */
  lemma HeadFields(d: Desc, tail: seq<Byte>)
    requires Printable(d)
    ensures var s, k := PrintHead(d) + tail, |d.lkeys|;
      && |s| >= 24 + 8 * k
      && ParseNum(s[..8]) == d.addr && ParseNum(s[8..16]) == d.size && ParseNum(s[16..24]) == k
      && Keys(s[24..24 + 4 * k]) == d.lkeys && Keys(s[24 + 4 * k..24 + 8 * k]) == d.rkeys && s[24 + 8 * k..] == tail
  {
    var k := |d.lkeys|;
    hide Keys, KeyBytes, ParseNum, Bytes;
    NumRoundTrip(d.addr);
    NumRoundTrip(d.size);
    NumRoundTrip(k);
    KeysRoundTrip(d.lkeys);
    KeysRoundTrip(d.rkeys);
    SlicesOf(Bytes(d.addr, 8), Bytes(d.size, 8), Bytes(k, 8), KeyBytes(d.lkeys), KeyBytes(d.rkeys), tail, k);
  }

  lemma SlicesOf(a: seq<Byte>, b: seq<Byte>, c: seq<Byte>, e: seq<Byte>, f: seq<Byte>, tail: seq<Byte>, k: nat)
    requires |a| == |b| == |c| == 8 && |e| == |f| == 4 * k
    ensures var s := a + b + c + e + f + tail;
      && |s| >= 24 + 8 * k && s[..8] == a && s[8..16] == b && s[16..24] == c
      && s[24..24 + 4 * k] == e && s[24 + 4 * k..24 + 8 * k] == f && s[24 + 8 * k..] == tail
  {
  }

  function Stripped(d: Desc): Desc {
    d.(mrId := 0)
  }

  function Head(d: Desc): Desc {
    d.(mrId := 0, ipcInfo := [])
  }

  lemma HeadRoundTrip(d: Desc, rest: seq<Byte>)
    requires Printable(d)
    ensures ParseDesc(PrintHead(d) + rest) == ParseTail(Head(d), rest)
  {
    hide PrintHead, Keys, ParseNum, ParseTail;
    HeadFields(d, rest);
  }

  lemma TailRoundTrip(d: Desc, tail: seq<Byte>)
    requires Printable(d)
    ensures ParseTail(Head(d), PrintTail(d) + tail) == Ok((Stripped(d), tail))
  {
    var rest := PrintTail(d) + tail;
    NumRoundTrip(|d.ipcInfo|);
    assert rest[..8] == Bytes(|d.ipcInfo|, 8);
    assert rest[8..8 + |d.ipcInfo|] == d.ipcInfo && rest[8 + |d.ipcInfo|..] == tail;
  }

  lemma DescRoundTrip(d: Desc, tail: seq<Byte>)
    requires Printable(d)
    ensures ParseDesc(PrintDesc(d) + tail) == Ok((Stripped(d), tail))
  {
    hide PrintHead, PrintTail, ParseDesc, ParseTail;
    assert PrintDesc(d) + tail == PrintHead(d) + (PrintTail(d) + tail);
    HeadRoundTrip(d, PrintTail(d) + tail);
    TailRoundTrip(d, tail);
  }

  function StrippedAll(ds: seq<Desc>): seq<Desc> {
    seq(|ds|, i requires 0 <= i < |ds| => Stripped(ds[i]))
  }

  lemma {:induction false} AllRoundTrip(ds: seq<Desc>, tail: seq<Byte>)
    requires forall i :: 0 <= i < |ds| ==> Printable(ds[i])
    ensures ParseAll(PrintAll(ds) + tail, |ds|) == Ok(StrippedAll(ds))
  {
    hide PrintDesc, ParseDesc, Stripped, Printable;
    if ds == [] {
      assert StrippedAll(ds) == [];
    } else {
      var rest := PrintAll(ds[1..]) + tail;
      assert PrintAll(ds) + tail == PrintDesc(ds[0]) + rest;
      DescRoundTrip(ds[0], rest);
      AllRoundTrip(ds[1..], tail);
      assert StrippedAll(ds) == [Stripped(ds[0])] + StrippedAll(ds[1..]);
    }
  }

  /** A printed list is read back whole, apart from the registration ids, whatever follows it. */
  lemma RoundTrip(ds: seq<Desc>, tail: seq<Byte>)
    requires AllPrintable(ds)
    ensures Parse(Print(ds) + tail) == Ok(StrippedAll(ds))
  {
    var s := Print(ds) + tail;
    NumRoundTrip(|ds|);
    assert s[..8] == Bytes(|ds|, 8) && s[8..] == PrintAll(ds) + tail;
    AllRoundTrip(ds, tail);
  }

  // ----- Truncated data -----

  lemma HeadCut(d: Desc, m: nat)
    requires Printable(d) && m < |PrintHead(d)|
    ensures ParseDesc(PrintHead(d)[..m]) == Err
  {
    if m >= 24 {
      NumOfKeys(d, m);
    }
    hide PrintHead, Keys, ParseTail, ParseNum;
  }

  lemma NumOfKeys(d: Desc, m: nat)
    requires Printable(d) && 24 <= m < |PrintHead(d)|
    ensures ParseNum(PrintHead(d)[..m][16..24]) == |d.lkeys|
  {
    hide PrintHead, Keys, ParseNum;
    HeadFields(d, []);
    var s := PrintHead(d);
    assert s + [] == s && s[..m][16..24] == s[16..24];
  }

  lemma TailCut(d: Desc, m: nat)
    requires Printable(d) && 0 < m < |PrintTail(d)|
    ensures ParseTail(Head(d), PrintTail(d)[..m]) == Err
  {
    var s := PrintTail(d)[..m];
    if m >= 8 {
      NumRoundTrip(|d.ipcInfo|);
      assert s[..8] == Bytes(|d.ipcInfo|, 8);
    }
  }

  /** A descriptor cut short is refused, except where its inter-process part would begin. */
  lemma DescCut(d: Desc, m: nat)
    requires Printable(d) && m < |PrintDesc(d)|
    ensures ParseDesc(PrintDesc(d)[..m]) == if m == |PrintHead(d)| then Ok((Head(d), [])) else Err
  {
    var h := |PrintHead(d)|;
    if m < h {
      assert PrintDesc(d)[..m] == PrintHead(d)[..m];
      hide PrintHead, PrintTail, ParseDesc, ParseTail;
      HeadCut(d, m);
    } else {
      assert PrintDesc(d)[..m] == PrintHead(d) + PrintTail(d)[..m - h];
      HeadRoundTrip(d, PrintTail(d)[..m - h]);
      if m > h {
        hide PrintHead, PrintTail, ParseDesc, ParseTail;
        TailCut(d, m - h);
      }
    }
  }

  /** The cut falls into the first descriptor. */
  lemma FirstCut(ds: seq<Desc>, m: nat)
    requires ds != [] && Printable(ds[0]) && m < |PrintDesc(ds[0])|
    ensures ParseAll(PrintAll(ds)[..m], |ds|).Ok? <==> |ds| == 1 && m == |PrintHead(ds[0])|
  {
    assert PrintAll(ds)[..m] == PrintDesc(ds[0])[..m];
    DescCut(ds[0], m);
    hide PrintDesc, PrintHead, ParseDesc, PrintAll;
    if |ds| > 1 {
      NothingToParse(|ds| - 1);
    }
  }

  /** The cut falls behind the first descriptor. */
  lemma LaterCut(ds: seq<Desc>, m: nat)
    requires ds != [] && Printable(ds[0]) && |PrintDesc(ds[0])| <= m < |PrintAll(ds)|
    ensures m - |PrintDesc(ds[0])| < |PrintAll(ds[1..])|
    ensures var rest := PrintAll(ds[1..])[..m - |PrintDesc(ds[0])|];
      ParseAll(PrintAll(ds)[..m], |ds|).Ok? <==> ParseAll(rest, |ds| - 1).Ok?
  {
    var n := |PrintDesc(ds[0])|;
    var rest := PrintAll(ds[1..])[..m - n];
    assert PrintAll(ds)[..m] == PrintDesc(ds[0]) + rest;
    hide PrintDesc, ParseDesc, PrintAll;
    DescRoundTrip(ds[0], rest);
  }

  lemma Lengths(ds: seq<Desc>)
    requires ds != []
    ensures |PrintAll(ds)| == |PrintDesc(ds[0])| + |PrintAll(ds[1..])|
    ensures |PrintDesc(ds[0])| == |PrintHead(ds[0])| + |PrintTail(ds[0])|
    ensures |ds| == 1 ==> PrintAll(ds[1..]) == []
  {
  }

  lemma {:induction false} AllCut(ds: seq<Desc>, m: nat)
    requires (forall i :: 0 <= i < |ds| ==> Printable(ds[i])) && m < |PrintAll(ds)|
    ensures ds != []
    ensures ParseAll(PrintAll(ds)[..m], |ds|).Ok? <==> m == |PrintAll(ds)| - |PrintTail(ds[|ds| - 1])|
  {
    assert ds != [];
    hide PrintAll, ParseAll, PrintDesc, PrintHead, PrintTail;
    Lengths(ds);
    var rest, n := ds[1..], |PrintDesc(ds[0])|;
    if m < n {
      FirstCut(ds, m);
      if rest != [] {
        LastTailFits(rest);
        assert rest[|rest| - 1] == ds[|ds| - 1];
        Lengths([ds[|ds| - 1]]);
      }
    } else {
      LaterCut(ds, m);
      AllCut(rest, m - n);
      assert rest[|rest| - 1] == ds[|ds| - 1];
    }
  }

  lemma NothingToParse(n: nat)
    requires n > 0
    ensures ParseAll([], n) == Err
  {
    assert ParseDesc([]) == Err;
  }

  /** The last descriptor's parts are at the end. */
  lemma {:induction false} LastTailFits(ds: seq<Desc>)
    requires ds != []
    ensures |PrintAll(ds)| >= |PrintDesc(ds[|ds| - 1])|
  {
    if |ds| > 1 {
      LastTailFits(ds[1..]);
      assert ds[1..][|ds| - 2] == ds[|ds| - 1];
    }
  }

  /**
   * Data cut short is noticed, with two exceptions: no data at all, which reads as no descriptors, and a cut just before
   * the last descriptor's inter-process part, which reads as if that were empty.
   */
  lemma TruncationIsNoticed(ds: seq<Desc>, n: nat)
    requires AllPrintable(ds) && n < |Print(ds)|
    ensures Parse(Print(ds)[..n]).Ok? <==> n == 0 || (ds != [] && n == |Print(ds)| - |PrintTail(ds[|ds| - 1])|)
  {
    hide PrintAll, ParseAll, PrintTail, PrintDesc, Bytes;
    if ds != [] {
      LastTailFits(ds);
      Lengths([ds[|ds| - 1]]);
    }
    CutList(ds, n);
    if n >= 8 {
      AllCut(ds, n - 8);
    }
  }

  lemma CutList(ds: seq<Desc>, n: nat)
    requires AllPrintable(ds) && n < |Print(ds)|
    ensures |Print(ds)| == 8 + |PrintAll(ds)|
    ensures Parse(Print(ds)[..n])
         == if n == 0 then Ok([]) else if n < 8 then Err else ParseAll(PrintAll(ds)[..n - 8], |ds|)
  {
    var s, all := Print(ds)[..n], PrintAll(ds);
    hide PrintAll, ParseAll, ParseNum;
    if n >= 8 {
      NumRoundTrip(|ds|);
      assert s[..8] == Bytes(|ds|, 8) && s[8..] == all[..n - 8];
    }
  }

  // ----- Writing -----

  /** The bytes a list takes. */
  method TotalSize(ds: seq<Desc>) returns (total: nat)
    requires AllPrintable(ds)
    ensures total == |Print(ds)|
  {
    total := 8;
    for i := 0 to |ds|
      invariant total == 8 + |PrintAll(ds[..i])|
    {
      PrintAllAppend(ds, i);
      total := total + 8 + 8 + 8 + |ds[i].lkeys| * 4 * 2 + 8 + |ds[i].ipcInfo|;
    }
    assert ds[..|ds|] == ds;
  }

  lemma {:induction false} PrintAllConcat(a: seq<Desc>, b: seq<Desc>)
    ensures PrintAll(a + b) == PrintAll(a) + PrintAll(b)
  {
    if a == [] {
      assert a + b == b;
    } else {
      assert (a + b)[1..] == a[1..] + b;
      PrintAllConcat(a[1..], b);
      assert PrintDesc(a[0]) + (PrintAll(a[1..]) + PrintAll(b)) == PrintDesc(a[0]) + PrintAll(a[1..]) + PrintAll(b);
    }
  }

  lemma PrintAllAppend(ds: seq<Desc>, i: nat)
    requires i < |ds|
    ensures PrintAll(ds[..i + 1]) == PrintAll(ds[..i]) + PrintDesc(ds[i])
    ensures |PrintAll(ds[..i + 1])| <= |PrintAll(ds)|
  {
    assert ds[..i + 1] == ds[..i] + [ds[i]] && ds == ds[..i + 1] + ds[i + 1..];
    PrintAllConcat(ds[..i], [ds[i]]);
    PrintAllConcat(ds[..i + 1], ds[i + 1..]);
    assert PrintAll([ds[i]]) == PrintDesc(ds[i]) + PrintAll([]);
  }

  method EmitHead(buf: array<Byte>, p: nat, d: Desc) returns (q: nat)
    requires Printable(d) && p + |PrintHead(d)| <= buf.Length
    modifies buf
    ensures q == p + |PrintHead(d)| && buf[..q] == old(buf[..p]) + PrintHead(d)
  {
    ghost var start := buf[..p];
    q := Emit(buf, p, Bytes(d.addr, 8));
    q := Emit(buf, q, Bytes(d.size, 8));
    q := Emit(buf, q, Bytes(|d.lkeys|, 8));
    q := Emit(buf, q, KeyBytes(d.lkeys));
    q := Emit(buf, q, KeyBytes(d.rkeys));
    ghost var a, b, c, e, f := Bytes(d.addr, 8), Bytes(d.size, 8), Bytes(|d.lkeys|, 8), KeyBytes(d.lkeys), KeyBytes(d.rkeys);
    hide Bytes, KeyBytes;
    assert start + a + b + c + e + f == start + (a + b + c + e + f);
  }

  method EmitDesc(buf: array<Byte>, p: nat, d: Desc) returns (q: nat)
    requires Printable(d) && p + |PrintDesc(d)| <= buf.Length
    modifies buf
    ensures q == p + |PrintDesc(d)| && buf[..q] == old(buf[..p]) + PrintDesc(d)
  {
    ghost var start, head := buf[..p], PrintHead(d);
    hide PrintHead;
    q := EmitHead(buf, p, d);
    q := Emit(buf, q, Bytes(|d.ipcInfo|, 8));
    if |d.ipcInfo| > 0 {
      q := Emit(buf, q, d.ipcInfo);
    }
    assert start + head + Bytes(|d.ipcInfo|, 8) + d.ipcInfo == start + (head + (Bytes(|d.ipcInfo|, 8) + d.ipcInfo));
  }

  lemma Assoc(a: seq<Byte>, b: seq<Byte>, c: seq<Byte>)
    ensures a + b + c == a + (b + c)
  {
  }

  /** Print a list into a buffer of exactly the computed size. */
  method Serialize(ds: seq<Desc>) returns (buf: array<Byte>)
    requires AllPrintable(ds)
    ensures buf[..] == Print(ds)
  {
    var total := TotalSize(ds);
    buf := new Byte[total];
    var p := Emit(buf, 0, Bytes(|ds|, 8));
    for i := 0 to |ds|
      invariant p == 8 + |PrintAll(ds[..i])| <= buf.Length && buf[..p] == Bytes(|ds|, 8) + PrintAll(ds[..i])
    {
      hide PrintDesc, PrintAll, Bytes;
      PrintAllAppend(ds, i);
      p := EmitDesc(buf, p, ds[i]);
      Assoc(Bytes(|ds|, 8), PrintAll(ds[..i]), PrintDesc(ds[i]));
    }
    assert ds[..|ds|] == ds && buf[..] == buf[..p];
  }

  // ----- Reading -----

  /** Read `n` bytes at the cursor, unless fewer are left. */
  method Consume(data: seq<Byte>, p: nat, n: nat) returns (r: Result<seq<Byte>>, q: nat)
    requires p <= |data|
    ensures r.Ok? <==> n <= |data| - p
    ensures r.Ok? ==> q == p + n && r.value == data[p..q]
  {
    if p + n > |data| {
      return Err, p;
    }
    return Ok(data[p..p + n]), p + n;
  }

  lemma Slice(data: seq<Byte>, start: nat, a: nat, b: nat)
    requires a <= b && start + b <= |data|
    ensures data[start..][a..b] == data[start + a..start + b] && data[start..][b..] == data[start + b..]
  {
  }

  /** Read the three numbers a descriptor begins with. */
  method ReadNums(data: seq<Byte>, start: nat) returns (r: Result<(U64, U64, U64)>)
    requires start <= |data|
    ensures r.Ok? <==> |data| - start >= 24
    ensures r.Ok? ==> var s := data[start..]; r.value == (ParseNum(s[..8]), ParseNum(s[8..16]), ParseNum(s[16..24]))
  {
    hide ParseNum;
    var addr, size, count, p;
    addr, p := Consume(data, start, 8);
    if addr.Err? { return Err; }
    size, p := Consume(data, p, 8);
    if size.Err? { return Err; }
    count, p := Consume(data, p, 8);
    if count.Err? { return Err; }
    Slice(data, start, 0, 8);
    Slice(data, start, 8, 16);
    Slice(data, start, 16, 24);
    return Ok((ParseNum(addr.value), ParseNum(size.value), ParseNum(count.value)));
  }

  /** Read one descriptor at the cursor. */
  method ReadDesc(data: seq<Byte>, start: nat) returns (r: Result<Desc>, p: nat)
    requires start <= |data|
    ensures r.Ok? ==> p <= |data| && ParseDesc(data[start..]) == Ok((r.value, data[p..]))
    ensures r.Err? ==> ParseDesc(data[start..]) == Err
  {
    hide Keys, ParseNum, ParseTail;
    var nums := ReadNums(data, start);
    if nums.Err? { return Err, start; }
    var k: int := nums.value.2;
    p := start + 24;
    var lkeys, rkeys;
    lkeys, p := Consume(data, p, k * 4);
    if lkeys.Err? { return Err, p; }
    rkeys, p := Consume(data, p, k * 4);
    if rkeys.Err? { return Err, p; }
    Slice(data, start, 24, 24 + 4 * k);
    Slice(data, start, 24 + 4 * k, 24 + 8 * k);
    var desc := Desc(nums.value.0, nums.value.1, 0, Keys(lkeys.value), Keys(rkeys.value), []);
    r, p := ReadTail(data, p, desc);
  }

  method ReadTail(data: seq<Byte>, start: nat, head: Desc) returns (r: Result<Desc>, p: nat)
    requires start <= |data| && head.ipcInfo == []
    ensures r.Ok? ==> p <= |data| && ParseTail(head, data[start..]) == Ok((r.value, data[p..]))
    ensures r.Err? ==> ParseTail(head, data[start..]) == Err
  {
    p := start;
    hide ParseNum;
    if p < |data| {
      var len, info;
      len, p := Consume(data, p, 8);
      if len.Err? { return Err, p; }
      Slice(data, start, 0, 8);
      var n: int := ParseNum(len.value);
      if n > 0 {
        info, p := Consume(data, p, n);
        if info.Err? { return Err, p; }
        Slice(data, start, 8, 8 + n);
        return Ok(head.(ipcInfo := info.value)), p;
      }
      assert data[start..][8..8] == [];
    }
    return Ok(head), p;
  }

  /** Read a list: an empty input is an empty list, and anything short is refused. */
  method Deserialize(data: seq<Byte>) returns (r: Result<seq<Desc>>)
    ensures r == Parse(data)
  {
    hide ParseDesc, ParseNum;
    if data == [] {
      return Ok([]);
    }
    var head, p: nat := Consume(data, 0, 8);
    if head.Err? {
      return Err;
    }
    var num: int := ParseNum(head.value);
    NothingRead(ParseAll(data[8..], num));
    var ds: seq<Desc> := [];
    for i := 0 to num
      invariant p <= |data| && |ds| == i
      invariant Parse(data) == Prefixed(ds, ParseAll(data[p..], num - i))
    {
      var d, q := ReadDesc(data, p);
      if d.Err? {
        return Err;
      }
      PrefixStep(ds, data[p..], d.value, data[q..], num - i);
      ds, p := ds + [d.value], q;
    }
    assert ds + [] == ds;
    return Ok(ds);
  }

  /** A result with descriptors already read in front of it. */
  function Prefixed(ds: seq<Desc>, r: Result<seq<Desc>>): Result<seq<Desc>> {
    match r
    case Err => Err
    case Ok(more) => Ok(ds + more)
  }

  lemma NothingRead(r: Result<seq<Desc>>)
    ensures Prefixed([], r) == r
  {
    match r
    case Err =>
    case Ok(more) => assert [] + more == more;
  }

  lemma PrefixStep(ds: seq<Desc>, s: seq<Byte>, d: Desc, rest: seq<Byte>, n: nat)
    requires n > 0 && ParseDesc(s) == Ok((d, rest))
    ensures Prefixed(ds, ParseAll(s, n)) == Prefixed(ds + [d], ParseAll(rest, n - 1))
  {
    hide ParseDesc;
    match ParseAll(rest, n - 1)
    case Err =>
    case Ok(more) => assert ds + ([d] + more) == ds + [d] + more;
  }

  // ----- Only what was written is read -----

  lemma {:induction false} KeysReadBack(s: seq<Byte>)
    requires |s| % 4 == 0
    ensures KeyBytes(Keys(s)) == s && 4 * |Keys(s)| == |s|
    decreases |s|
  {
    if s != [] {
      BytesOfNum(s[..4]);
      PowersOf256();
      KeysReadBack(s[4..]);
      assert Keys(s)[1..] == Keys(s[4..]);
      assert s == s[..4] + s[4..];
    }
  }

  lemma NumReadBack(s: seq<Byte>)
    requires |s| == 8
    ensures Bytes(ParseNum(s), 8) == s
  {
    BytesOfNum(s);
  }

  lemma InFive(s: seq<Byte>, k: nat)
    requires |s| >= 24 + 8 * k
    ensures s == s[..8] + s[8..16] + s[16..24] + s[24..24 + 4 * k] + s[24 + 4 * k..24 + 8 * k] + s[24 + 8 * k..]
  {
  }

  lemma HeadReadBack(s: seq<Byte>, k: nat)
    requires |s| >= 24 + 8 * k && ParseNum(s[16..24]) == k
    ensures var a, b := Keys(s[24..24 + 4 * k]), Keys(s[24 + 4 * k..24 + 8 * k]);
      var d := Desc(ParseNum(s[..8]), ParseNum(s[8..16]), 0, a, b, []);
      |a| == |b| == k && PrintHead(d) + s[24 + 8 * k..] == s
  {
    hide Keys, KeyBytes, ParseNum, Bytes;
    NumReadBack(s[..8]);
    NumReadBack(s[8..16]);
    NumReadBack(s[16..24]);
    KeysReadBack(s[24..24 + 4 * k]);
    KeysReadBack(s[24 + 4 * k..24 + 8 * k]);
    InFive(s, k);
  }

  lemma TailReadBack(d: Desc, tail: seq<Byte>)
    requires d.ipcInfo == [] && ParseTail(d, tail).Ok?
    ensures var (e, rest) := ParseTail(d, tail).value;
      && e == d.(ipcInfo := e.ipcInfo) && |e.ipcInfo| < TWO64
      && (tail == PrintTail(e) + rest || (rest == [] && tail + Bytes(0, 8) == PrintTail(e)))
  {
    var (e, rest) := ParseTail(d, tail).value;
    if tail == [] {
      assert tail + Bytes(0, 8) == Bytes(0, 8) + [];
    } else {
      NumReadBack(tail[..8]);
      hide ParseNum, Bytes;
      assert tail == tail[..8] + e.ipcInfo + rest;
    }
  }

  lemma DescIsHeadAndTail(s: seq<Byte>)
    requires ParseDesc(s).Ok?
    ensures |s| >= 24 && |s| >= 24 + 8 * (ParseNum(s[16..24]) as int)
    ensures var k: nat := ParseNum(s[16..24]);
      ParseDesc(s) == ParseTail(Desc(ParseNum(s[..8]), ParseNum(s[8..16]), 0, Keys(s[24..24 + 4 * k]),
                                     Keys(s[24 + 4 * k..24 + 8 * k]), []), s[24 + 8 * k..])
  {
    hide ParseNum, Keys, ParseTail;
  }

  lemma HeadIgnoresIpc(d: Desc, ipc: seq<Byte>)
    ensures PrintHead(d.(ipcInfo := ipc)) == PrintHead(d)
  {
  }

  /** A descriptor that is read was written there, or only its inter-process part is missing at the end of the data. */
  lemma DescReadBack(s: seq<Byte>)
    requires ParseDesc(s).Ok?
    ensures var (d, rest) := ParseDesc(s).value;
      && d.mrId == 0 && Printable(d)
      && (s == PrintDesc(d) + rest || (rest == [] && s + Bytes(0, 8) == PrintDesc(d)))
  {
    hide Keys, KeyBytes, ParseNum, Bytes, ParseTail, PrintHead, PrintTail, ParseDesc;
    DescIsHeadAndTail(s);
    var k: nat := ParseNum(s[16..24]);
    HeadReadBack(s, k);
    var h := Desc(ParseNum(s[..8]), ParseNum(s[8..16]), 0, Keys(s[24..24 + 4 * k]), Keys(s[24 + 4 * k..24 + 8 * k]), []);
    var tail := s[24 + 8 * k..];
    TailReadBack(h, tail);
    var (d, rest) := ParseDesc(s).value;
    HeadIgnoresIpc(h, d.ipcInfo);
    Assoc(PrintHead(h), PrintTail(d), rest);
    Assoc(PrintHead(h), tail, Bytes(0, 8));
  }

  lemma AllUnfolds(s: seq<Byte>, n: nat)
    requires n > 0 && ParseAll(s, n).Ok?
    ensures ParseDesc(s).Ok? && ParseAll(ParseDesc(s).value.1, n - 1).Ok?
    ensures var (d, tail) := ParseDesc(s).value;
      ParseAll(s, n).value == [d] + ParseAll(tail, n - 1).value
  {
    hide ParseDesc;
  }

  /** The same for a list. */
  lemma {:induction false} AllReadBack(s: seq<Byte>, n: nat) returns (rest: seq<Byte>)
    requires ParseAll(s, n).Ok?
    ensures var ds := ParseAll(s, n).value;
      && |ds| == n && (forall i :: 0 <= i < n ==> ds[i].mrId == 0 && Printable(ds[i]))
      && (s == PrintAll(ds) + rest || s + Bytes(0, 8) == PrintAll(ds))
    decreases n
  {
    hide PrintDesc, Bytes, ParseDesc, Printable;
    if n == 0 {
      rest := s;
      assert PrintAll([]) + s == s;
    } else {
      AllUnfolds(s, n);
      DescReadBack(s);
      hide ParseAll;
      var (d, tail) := ParseDesc(s).value;
      var more := ParseAll(tail, n - 1).value;
      rest := AllReadBack(tail, n - 1);
      AllCons(d, more);
      NothingIsNoDesc(n - 1);
      NoneAfter(d);
      hide PrintAll;
      Assoc(PrintDesc(d), PrintAll(more), rest);
      Assoc(PrintDesc(d), tail, Bytes(0, 8));
    }
  }

  lemma NoneAfter(d: Desc)
    ensures PrintDesc(d) + PrintAll([]) == PrintDesc(d)
  {
  }

  lemma AllCons(d: Desc, more: seq<Desc>)
    ensures PrintAll([d] + more) == PrintDesc(d) + PrintAll(more)
  {
    assert ([d] + more)[1..] == more;
  }

  lemma NothingIsNoDesc(n: nat)
    ensures ParseAll([], n).Ok? ==> n == 0 && ParseAll([], n).value == []
  {
  }

  /**
   * Whatever is accepted was written, for any bytes at all: they are the printed form of the descriptors read, followed by
   * anything, or that form without the last eight bytes where these would have said that the last descriptor has no
   * inter-process part.
   */
  lemma AcceptedWasWritten(s: seq<Byte>) returns (rest: seq<Byte>)
    requires s != [] && Parse(s).Ok?
    ensures var ds := Parse(s).value;
      AllPrintable(ds) && (s == Print(ds) + rest || s + Bytes(0, 8) == Print(ds))
  {
    NumReadBack(s[..8]);
    hide ParseAll, ParseNum, Bytes, PrintAll, Printable;
    var n := ParseNum(s[..8]);
    var body := s[8..];
    rest := AllReadBack(body, n);
    var ds := Parse(s).value;
    assert s == s[..8] + body;
    Assoc(s[..8], PrintAll(ds), rest);
    Assoc(s[..8], body, Bytes(0, 8));
  }
}
