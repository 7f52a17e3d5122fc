/** What every step of the receiving half keeps. */
module ReceiverInvariants {
  import opened SerialNumbers
  import opened Messages
  import opened SackBitmap
  import opened Packets
  import opened Receiver

  /** The unbounded number of the next frame expected. */
  function Rcv(r: Rx): nat {
    |r.pushed|
  }

  /** The unbounded number of a buffered sequence number. */
  function NumberOf(r: Rx, seqno: U32): nat {
    Rcv(r) + Sub(seqno, r.rcvNxt)
  }

  /**
   * What was pushed is the stream's prefix, and what is buffered are sent frames of the window under their own numbers.
   * `sent` frames of the stream have been sent so far.
   */
  ghost predicate Reordered(r: Rx, stream: seq<Frame>, sent: nat) {
    && r.rcvNxt == Wrap(Rcv(r))
    && Rcv(r) <= sent <= |stream|
    && r.pushed == stream[..Rcv(r)]
    && forall s :: s in r.reass ==> Buffered(r, s, stream, sent)
  }

  ghost predicate Buffered(r: Rx, s: U32, stream: seq<Frame>, sent: nat)
    requires s in r.reass && sent <= |stream|
  {
    && Sub(s, r.rcvNxt) < BITS
    && NumberOf(r, s) < sent
    && r.reass[s] in r.mem
    && r.mem[r.reass[s]] == stream[NumberOf(r, s)]
  }

  /** Bit `i` is set exactly when the frame `i` places ahead is buffered; the 8-bit count is the number of bits modulo 256. */
  ghost predicate Mapped(r: Rx) {
    && (forall i :: 0 <= i < BITS ==> (TestBit(r.words, i) <==> Ahead(r, i) in r.reass))
    && r.count == Count(r.words) % 0x100
  }

  function Ahead(r: Rx, i: nat): U32 {
    (r.rcvNxt + i) % TWO32
  }

  // ----- Buffering -----

  lemma AheadIsSub(r: Rx, i: nat, s: U32)
    requires i < BITS
    ensures Ahead(r, i) == s <==> Sub(s, r.rcvNxt) == i
  {
    SubIsCyclic(s, r.rcvNxt);
  }

  lemma BufferKeepsReordered(r: Rx, off: Off, n: nat, stream: seq<Frame>, sent: nat)
    requires Reordered(r, stream, sent) && off in r.mem
    requires Rcv(r) <= n < sent && n < Rcv(r) + BITS && r.mem[off] == stream[n]
    ensures Sub(Wrap(n), r.rcvNxt) == n - Rcv(r)
    ensures Reordered(Buffer(r, off, Wrap(n)), stream, sent)
  {
    SubWrap(n, Rcv(r));
    var u := Buffer(r, off, Wrap(n));
    forall s | s in u.reass
      ensures Buffered(u, s, stream, sent)
    {
      if s != Wrap(n) {
        assert Buffered(r, s, stream, sent);
      }
    }
  }

  lemma BufferSetsBit(r: Rx, s: U32, i: nat)
    requires Mapped(r) && Sub(s, r.rcvNxt) < BITS && i < BITS
    ensures TestBit(BitSet(r.words, Sub(s, r.rcvNxt)), i) <==> Ahead(r, i) == s || Ahead(r, i) in r.reass
  {
    hide TestBit, BitSet, Count;
    BitSetSetsOneBit(r.words, Sub(s, r.rcvNxt), i);
    AheadIsSub(r, i, s);
  }

  lemma BufferKeepsMapped(r: Rx, off: Off, s: U32)
    requires Mapped(r) && Sub(s, r.rcvNxt) < BITS && s !in r.reass
    ensures Mapped(Buffer(r, off, s))
  {
    var u, d := Buffer(r, off, s), Sub(s, r.rcvNxt);
    assert u.words == BitSet(r.words, d) && u.rcvNxt == r.rcvNxt && u.reass == r.reass[s := off];
    BufferAddsOne(r, s);
    hide TestBit, BitSet, Count, Sub;
    forall i | 0 <= i < BITS
      ensures TestBit(u.words, i) <==> Ahead(u, i) in u.reass
    {
      BufferSetsBit(r, s, i);
      assert Ahead(u, i) == Ahead(r, i);
    }
  }

  /** The bit of a frame not yet buffered was clear, so setting it adds one. */
  lemma BufferAddsOne(r: Rx, s: U32)
    requires Mapped(r) && Sub(s, r.rcvNxt) < BITS && s !in r.reass
    ensures Count(BitSet(r.words, Sub(s, r.rcvNxt))) == Count(r.words) + 1
  {
    var d := Sub(s, r.rcvNxt);
    AheadIsSub(r, d, s);
    assert !TestBit(r.words, d);
    CountBitSetBelow(r.words, d, BITS);
    hide TestBit, BitSet;
  }

  // ----- Pushing in order -----

  lemma SubOfNext(s: U32, rcvNxt: U32)
    requires s != rcvNxt
    ensures Sub(s, (rcvNxt + 1) % TWO32) == Sub(s, rcvNxt) - 1
  {
    SubIsCyclic(s, rcvNxt);
    SubIsCyclic(s, (rcvNxt + 1) % TWO32);
  }

  /** The state after the frame whose turn it is has been pushed, apart from the queues behind. */
  function Pushed(r: Rx): Rx
    requires r.rcvNxt in r.reass
  {
    Advance(Enqueue(r))
  }

  lemma PushKeepsReordered(r: Rx, stream: seq<Frame>, sent: nat)
    requires Reordered(r, stream, sent) && r.rcvNxt in r.reass
    ensures Reordered(Pushed(r), stream, sent)
    ensures Rcv(Pushed(r)) == Rcv(r) + 1
  {
    var u := Pushed(r);
    assert Buffered(r, r.rcvNxt, stream, sent);
    SubIsCyclic(r.rcvNxt, r.rcvNxt);
    WrapAdd(Rcv(r), 1);
    forall s | s in u.reass
      ensures Buffered(u, s, stream, sent)
    {
      assert Buffered(r, s, stream, sent);
      SubOfNext(s, r.rcvNxt);
    }
  }

  lemma AheadOfNext(r: Rx, u: Rx, i: nat)
    requires u.rcvNxt == (r.rcvNxt + 1) % TWO32
    ensures Ahead(u, i) == Ahead(r, i + 1)
  {
  }

  /** Each bit of the shifted map says the right thing about the frame that far ahead of the new expected one. */
  lemma PushMovesBit(r: Rx, i: nat)
    requires Mapped(r) && r.rcvNxt in r.reass && i < BITS
    requires forall s :: s in r.reass ==> Sub(s, r.rcvNxt) < BITS
    ensures TestBit(ShiftLeftOne(r.words), i) <==> Ahead(r, i + 1) in r.reass && Ahead(r, i + 1) != r.rcvNxt
  {
    hide TestBit, ShiftLeftOne, Count;
    ShiftMovesEveryBit(r.words, i);
    SubIsCyclic(Ahead(r, i + 1), r.rcvNxt);
    if i + 1 < BITS {
      assert TestBit(r.words, i + 1) <==> Ahead(r, i + 1) in r.reass;
    }
  }

  /** The bitmap shifts by one place, losing the bit of the frame just pushed. */
  lemma PushKeepsMapped(r: Rx)
    requires Mapped(r) && r.rcvNxt in r.reass
    requires forall s :: s in r.reass ==> Sub(s, r.rcvNxt) < BITS
    ensures Mapped(Pushed(r))
  {
    var u := Pushed(r);
    PushedFields(r);
    PushShiftsCount(r);
    hide TestBit, ShiftLeftOne, Count, Sub, Pushed, Ahead;
    forall i | 0 <= i < BITS
      ensures TestBit(u.words, i) <==> Ahead(u, i) in u.reass
    {
      PushMovesBit(r, i);
      AheadOfNext(r, u, i);
    }
  }

  lemma PushedFields(r: Rx)
    requires r.rcvNxt in r.reass
    ensures var u, n := Pushed(r), r.count as int;
      && u.words == ShiftLeftOne(r.words) && u.reass == r.reass - {r.rcvNxt} && u.count == (n - 1) % 0x100
      && u.rcvNxt == (r.rcvNxt + 1) % TWO32
  {
  }

  /** The bit of the frame whose turn it is was set, so the shift loses one. */
  lemma PushShiftsCount(r: Rx)
    requires Mapped(r) && r.rcvNxt in r.reass
    ensures Count(ShiftLeftOne(r.words)) == Count(r.words) - 1
  {
    assert Ahead(r, 0) == r.rcvNxt;
    assert TestBit(r.words, 0);
    CountShift(r.words);
    hide TestBit, ShiftLeftOne, Count;
  }

  // ----- Who holds which buffer -----

  function JobFrames(jobs: seq<Job>): seq<Off> {
    if jobs == [] then [] else jobs[0].frames + JobFrames(jobs[1..])
  }

  /** The buffers past reordering, in the order their frames were pushed. */
  function Line(r: Rx): seq<Off> {
    JobFrames(r.jobs) + r.chain + r.ready
  }

  /** Every buffer is free, or in the reordering map once, or on the line once; `frames` are all buffers there are. */
  ghost predicate Held(r: Rx, frames: set<Off>) {
    && r.pool !! r.mem.Keys && r.pool + r.mem.Keys == frames
    && Distinct(Line(r))
    && (forall b :: b in r.mem <==> b in Line(r) || b in r.reass.Values)
    && (forall b :: b in Line(r) ==> b !in r.reass.Values)
    && (forall s, t :: s in r.reass && t in r.reass && s != t ==> r.reass[s] != r.reass[t])
  }

  lemma FreeUndoesLand(r: Rx, off: Off, frame: Frame)
    requires off in r.pool && r.pool !! r.mem.Keys
    ensures Free(Land(r, off, frame), off) == r
  {
    assert r.mem[off := frame] - {off} == r.mem;
    assert r.pool - {off} + {off} == r.pool;
  }

  lemma BufferKeepsHeld(r: Rx, frames: set<Off>, off: Off, frame: Frame, s: U32)
    requires Held(r, frames) && off in r.pool && s !in r.reass && Sub(s, r.rcvNxt) < BITS
    ensures Held(Buffer(Land(r, off, frame), off, s), frames)
  {
    var u := Buffer(Land(r, off, frame), off, s);
    assert Line(u) == Line(r);
    hide Line, Distinct;
    assert u.mem.Keys == r.mem.Keys + {off};
    forall b
      ensures b in u.reass.Values <==> b == off || b in r.reass.Values
    {
      if b in r.reass.Values {
        var t :| t in r.reass && r.reass[t] == b;
        assert u.reass[t] == b;
      }
      assert u.reass[s] == off;
    }
    forall t | t in r.reass
      ensures r.reass[t] != off
    {
      assert r.reass[t] in r.reass.Values;
    }
  }

  lemma EnqueueKeepsHeld(r: Rx, frames: set<Off>)
    requires Held(r, frames) && r.rcvNxt in r.reass
    ensures Held(Enqueue(r), frames)
    ensures Line(Enqueue(r)) == Line(r) + [r.reass[r.rcvNxt]]
  {
    var u, off := Enqueue(r), r.reass[r.rcvNxt];
    assert Line(u) == Line(r) + [off];
    assert off in r.reass.Values;
    forall b
      ensures b in u.reass.Values <==> b in r.reass.Values && b != off
    {
      if b in r.reass.Values && b != off {
        var t :| t in r.reass && r.reass[t] == b;
        assert u.reass[t] == b;
      }
    }
    DistinctConcat(Line(r), [off]);
  }

  lemma {:induction false} JobFramesAppend(jobs: seq<Job>, job: Job)
    ensures JobFrames(jobs + [job]) == JobFrames(jobs) + job.frames
  {
    if jobs == [] {
      assert jobs + [job] == [job];
      assert JobFrames([job]) == job.frames + JobFrames([]);
    } else {
      assert (jobs + [job])[1..] == jobs[1..] + [job];
      JobFramesAppend(jobs[1..], job);
    }
  }

  lemma MoveOneKeepsLine(r: Rx)
    requires r.ready != [] && r.appBufs != []
    ensures Line(MoveOne(r)) == Line(r)
  {
    var off := r.ready[0];
    JobFramesAppend(r.jobs, Job(r.appBufs[0], r.chain + [off]));
    assert r.ready == [off] + r.ready[1..];
  }

  // ----- From the line to messages -----

  /** A message's frames: the last one, and no other, is flagged last. */
  ghost predicate Whole(mem: map<Off, Frame>, offs: seq<Off>) {
    && offs != []
    && forall i :: 0 <= i < |offs| ==> offs[i] in mem && (mem[offs[i]].last <==> i == |offs| - 1)
  }

  function JobBufs(jobs: seq<Job>): seq<AppBuf> {
    seq(|jobs|, i requires 0 <= i < |jobs| => jobs[i].buf)
  }

  function BufsOf(ds: seq<Delivery>): seq<AppBuf> {
    seq(|ds|, i requires 0 <= i < |ds| => ds[i].buf)
  }

  function BytesOf(ds: seq<Delivery>): seq<seq<Byte>> {
    seq(|ds|, i requires 0 <= i < |ds| => ds[i].bytes)
  }

  /** The frames that have been copied out already. */
  function Gone(r: Rx): seq<Frame>
    requires |Line(r)| <= |r.pushed|
  {
    r.pushed[..|r.pushed| - |Line(r)|]
  }

  /** The line holds the youngest frames pushed, and what has gone before it was delivered message by message. */
  ghost predicate OnLine(r: Rx) {
    && |Line(r)| <= |r.pushed|
    && (forall i :: 0 <= i < |Line(r)| ==>
          Line(r)[i] in r.mem && r.mem[Line(r)[i]] == r.pushed[|r.pushed| - |Line(r)| + i])
    && Complete(Gone(r)) == BytesOf(r.delivered)
    && Rest(Gone(r)) == []
  }

  ghost predicate Gathered(r: Rx, supplied: seq<AppBuf>) {
    && (forall j :: 0 <= j < |r.jobs| ==> Whole(r.mem, r.jobs[j].frames))
    && (forall i :: 0 <= i < |r.chain| ==> r.chain[i] in r.mem && !r.mem[r.chain[i]].last)
    && supplied == BufsOf(r.delivered) + JobBufs(r.jobs) + r.appBufs
    && (r.appBufs == [] ==> r.chain == [])
  }

  /** No ready frame waits while an application buffer does. */
  ghost predicate Greedy(r: Rx) {
    r.ready == [] || r.appBufs == []
  }

  lemma MoveOneKeepsGathered(r: Rx, supplied: seq<AppBuf>)
    requires Gathered(r, supplied) && r.ready != [] && r.appBufs != [] && r.ready[0] in r.mem
    ensures Gathered(MoveOne(r), supplied)
  {
    var u, off := MoveOne(r), r.ready[0];
    if r.mem[off].last {
      var job := Job(r.appBufs[0], r.chain + [off]);
      assert Whole(r.mem, job.frames);
      assert JobBufs(u.jobs) == JobBufs(r.jobs) + [r.appBufs[0]];
      assert r.appBufs == [r.appBufs[0]] + u.appBufs;
    }
  }

  /** Moving a frame along the line changes neither the line nor who holds what. */
  lemma SameLineKeeps(r: Rx, u: Rx, frames: set<Off>)
    requires OnLine(r) && Held(r, frames) && Line(u) == Line(r)
    requires u.mem == r.mem && u.pool == r.pool && u.reass == r.reass && u.pushed == r.pushed && u.delivered == r.delivered
    ensures OnLine(u) && Held(u, frames)
  {
    hide Line, Distinct, Complete, Rest;
  }

  lemma MoveOneKeeps(r: Rx, supplied: seq<AppBuf>, frames: set<Off>)
    requires Gathered(r, supplied) && OnLine(r) && Held(r, frames) && !Greedy(r)
    ensures var u := MoveOne(r);
      Gathered(u, supplied) && OnLine(u) && Held(u, frames) && Line(u) == Line(r) && |u.ready| < |r.ready|
  {
    assert r.ready[0] in r.mem by {
      assert Line(r)[|JobFrames(r.jobs) + r.chain|] == r.ready[0];
    }
    hide OnLine, Held, Gathered, Line;
    MoveOneKeepsLine(r);
    MoveOneKeepsGathered(r, supplied);
    SameLineKeeps(r, MoveOne(r), frames);
  }

  lemma {:induction false} TryCopyKeeps(r: Rx, supplied: seq<AppBuf>, frames: set<Off>)
    requires Gathered(r, supplied) && OnLine(r) && Held(r, frames)
    ensures var u := TryCopy(r);
      Gathered(u, supplied) && OnLine(u) && Held(u, frames) && Greedy(u) && Line(u) == Line(r)
    decreases |r.ready|
  {
    hide OnLine, Held, Gathered, Line, MoveOne;
    if !Greedy(r) {
      MoveOneKeeps(r, supplied, frames);
      TryCopyKeeps(MoveOne(r), supplied, frames);
    }
  }

  lemma SupplyKeeps(r: Rx, buf: AppBuf, supplied: seq<AppBuf>, frames: set<Off>)
    requires Gathered(r, supplied) && OnLine(r) && Held(r, frames)
    ensures var u := Supply(r, buf);
      Gathered(u, supplied + [buf]) && OnLine(u) && Held(u, frames) && Greedy(u)
  {
    var v := r.(appBufs := r.appBufs + [buf]);
    assert Line(v) == Line(r);
    assert Gathered(v, supplied + [buf]);
    hide OnLine, Held, Gathered, Line, TryCopy;
    SameLineKeeps(r, v, frames);
    TryCopyKeeps(v, supplied + [buf], frames);
  }

  lemma EnqueueExtendsLine(r: Rx)
    requires OnLine(r) && r.rcvNxt in r.reass && r.reass[r.rcvNxt] in r.mem
    requires Line(Enqueue(r)) == Line(r) + [r.reass[r.rcvNxt]]
    ensures OnLine(Enqueue(r))
  {
    var u, off := Enqueue(r), r.reass[r.rcvNxt];
    hide Line, Complete, Rest;
    var l, k := Line(r), |r.pushed| - |Line(r)|;
    assert u.pushed == r.pushed + [r.mem[off]];
    assert u.pushed[..k] == r.pushed[..k];
    forall i | 0 <= i < |l| + 1
      ensures (l + [off])[i] in u.mem && u.mem[(l + [off])[i]] == u.pushed[k + i]
    {
      assert i < |l| ==> l[i] in r.mem;
    }
  }

  lemma EnqueueKeepsOnLine(r: Rx, supplied: seq<AppBuf>, frames: set<Off>)
    requires OnLine(r) && Held(r, frames) && Gathered(r, supplied)
    requires r.rcvNxt in r.reass && r.reass[r.rcvNxt] in r.mem
    ensures OnLine(Enqueue(r)) && Held(Enqueue(r), frames) && Gathered(Enqueue(r), supplied)
  {
    hide Held, Line, OnLine, Whole;
    EnqueueKeepsHeld(r, frames);
    EnqueueExtendsLine(r);
  }

  /** The part of the invariant about reordering, and the part about buffers and messages. */
  ghost predicate RxInv(r: Rx, stream: seq<Frame>, sent: nat, supplied: seq<AppBuf>, frames: set<Off>) {
    && Reordered(r, stream, sent) && Mapped(r)
    && Held(r, frames) && OnLine(r) && Gathered(r, supplied)
  }

  lemma ReorderedReadsOnly(r: Rx, u: Rx, stream: seq<Frame>, sent: nat)
    requires u.rcvNxt == r.rcvNxt && u.reass == r.reass && u.mem == r.mem && u.pushed == r.pushed
    ensures Reordered(r, stream, sent) ==> Reordered(u, stream, sent)
    ensures u.words == r.words && u.count == r.count && Mapped(r) ==> Mapped(u)
  {
    hide TestBit;
    if Reordered(r, stream, sent) {
      forall s | s in u.reass
        ensures Buffered(u, s, stream, sent)
      {
        assert Buffered(r, s, stream, sent);
      }
    }
    if u.words == r.words && u.count == r.count && Mapped(r) {
      forall i | 0 <= i < BITS
        ensures TestBit(u.words, i) <==> Ahead(u, i) in u.reass
      {
        assert Ahead(u, i) == Ahead(r, i);
      }
    }
  }

  lemma AdvanceKeepsLine(r: Rx, supplied: seq<AppBuf>, frames: set<Off>)
    requires Held(r, frames) && OnLine(r) && Gathered(r, supplied)
    ensures Held(Advance(r), frames) && OnLine(Advance(r)) && Gathered(Advance(r), supplied)
  {
    hide Distinct, Complete, Rest;
    assert Line(Advance(r)) == Line(r);
  }

  lemma ReorderedFacts(r: Rx, stream: seq<Frame>, sent: nat)
    requires Reordered(r, stream, sent)
    ensures forall s :: s in r.reass ==> Sub(s, r.rcvNxt) < BITS && r.reass[s] in r.mem
  {
    forall s | s in r.reass
      ensures Sub(s, r.rcvNxt) < BITS && r.reass[s] in r.mem
    {
      assert Buffered(r, s, stream, sent);
    }
  }

  lemma AdvancedAlike(e: Rx, c: Rx)
    requires c == e.(ready := c.ready, chain := c.chain, appBufs := c.appBufs, jobs := c.jobs)
    ensures var a, b := Advance(e), Advance(c);
      a.rcvNxt == b.rcvNxt && a.reass == b.reass && a.mem == b.mem && a.pushed == b.pushed && a.words == b.words
      && a.count == b.count && (Greedy(b) <==> Greedy(c))
  {
  }

  /** One turn of the push loop. */
  lemma PushOneKeeps(r: Rx, stream: seq<Frame>, sent: nat, supplied: seq<AppBuf>, frames: set<Off>)
    requires RxInv(r, stream, sent, supplied, frames) && r.rcvNxt in r.reass
    ensures var u := Advance(TryCopy(Enqueue(r)));
      RxInv(u, stream, sent, supplied, frames) && Greedy(u)
  {
    hide Reordered, Mapped, Held, OnLine, Gathered, TryCopy, Greedy, Enqueue, Advance;
    ReorderedFacts(r, stream, sent);
    PushKeepsReordered(r, stream, sent);
    PushKeepsMapped(r);
    EnqueueKeepsOnLine(r, supplied, frames);
    var e := Enqueue(r);
    var c := TryCopy(e);
    TryCopyKeeps(e, supplied, frames);
    TryCopyOnly(e);
    AdvancedAlike(e, c);
    ReorderedReadsOnly(Advance(e), Advance(c), stream, sent);
    AdvanceKeepsLine(c, supplied, frames);
  }

  /** Pushing in order ends with the next expected frame missing. */
  lemma {:induction false} PushInOrderKeeps(r: Rx, stream: seq<Frame>, sent: nat, supplied: seq<AppBuf>, frames: set<Off>)
    requires RxInv(r, stream, sent, supplied, frames) && Greedy(r)
    ensures var u := PushInOrder(r);
      RxInv(u, stream, sent, supplied, frames) && Greedy(u) && u.rcvNxt !in u.reass
    decreases |r.reass|
  {
    hide RxInv, Greedy, TryCopy, Advance, Enqueue;
    if r.rcvNxt in r.reass {
      PushOneKeeps(r, stream, sent, supplied, frames);
      PushShrinks(r);
      PushInOrderKeeps(Advance(TryCopy(Enqueue(r))), stream, sent, supplied, frames);
    }
  }

  lemma PushShrinks(r: Rx)
    requires r.rcvNxt in r.reass
    ensures |Advance(TryCopy(Enqueue(r))).reass| < |r.reass|
  {
    TryCopyOnly(Enqueue(r));
    assert (r.reass - {r.rcvNxt}).Keys == r.reass.Keys - {r.rcvNxt};
  }

  // ----- Taking in a packet -----

  ghost predicate RxState(r: Rx, stream: seq<Frame>, sent: nat, supplied: seq<AppBuf>, frames: set<Off>) {
    RxInv(r, stream, sent, supplied, frames) && Greedy(r) && r.rcvNxt !in r.reass
  }

  lemma LandKeepsReordered(r: Rx, off: Off, frame: Frame, stream: seq<Frame>, sent: nat)
    requires Reordered(r, stream, sent) && Mapped(r) && off !in r.mem
    ensures Reordered(Land(r, off, frame), stream, sent) && Mapped(Land(r, off, frame))
  {
    hide TestBit;
    var v := Land(r, off, frame);
    forall s | s in v.reass
      ensures Buffered(v, s, stream, sent)
    {
      assert Buffered(r, s, stream, sent);
    }
    forall i | 0 <= i < BITS
      ensures TestBit(v.words, i) <==> Ahead(v, i) in v.reass
    {
      assert Ahead(v, i) == Ahead(r, i);
    }
  }

  lemma LandKeepsLine(r: Rx, off: Off, frame: Frame, supplied: seq<AppBuf>)
    requires OnLine(r) && Gathered(r, supplied) && off !in r.mem
    ensures OnLine(Land(r, off, frame)) && Gathered(Land(r, off, frame), supplied)
  {
    hide Complete, Rest;
    var v := Land(r, off, frame);
    assert Line(v) == Line(r);
    forall j | 0 <= j < |v.jobs|
      ensures Whole(v.mem, v.jobs[j].frames)
    {
      assert Whole(r.mem, r.jobs[j].frames);
    }
  }

  /** Landing a packet disturbs nothing that is buffered or on the line. */
  lemma LandKeeps(r: Rx, off: Off, frame: Frame, stream: seq<Frame>, sent: nat, supplied: seq<AppBuf>, frames: set<Off>)
    requires RxInv(r, stream, sent, supplied, frames) && off in r.pool
    ensures var v := Land(r, off, frame);
      Reordered(v, stream, sent) && Mapped(v) && OnLine(v) && Gathered(v, supplied)
  {
    hide Reordered, Mapped, OnLine, Gathered, Line, Distinct;
    LandKeepsReordered(r, off, frame, stream, sent);
    LandKeepsLine(r, off, frame, supplied);
  }

  lemma BufferKeepsLine(v: Rx, off: Off, s: U32, supplied: seq<AppBuf>)
    requires Sub(s, v.rcvNxt) < BITS && OnLine(v) && Gathered(v, supplied) && Greedy(v)
    ensures var u := Buffer(v, off, s);
      OnLine(u) && Gathered(u, supplied) && Greedy(u)
  {
    hide Complete, Rest;
    assert Line(Buffer(v, off, s)) == Line(v);
  }

  lemma AcceptKeeps(r: Rx, off: Off, n: nat, stream: seq<Frame>, sent: nat, supplied: seq<AppBuf>, frames: set<Off>)
    requires RxState(r, stream, sent, supplied, frames) && off in r.pool
    requires Rcv(r) <= n < Rcv(r) + BITS && n < sent <= |stream| && Wrap(n) !in r.reass
    ensures Sub(Wrap(n), r.rcvNxt) == n - Rcv(r)
    ensures var u := Buffer(Land(r, off, stream[n]), off, Wrap(n));
      RxInv(u, stream, sent, supplied, frames) && Greedy(u)
  {
    SubWrap(n, Rcv(r));
    hide Reordered, Mapped, Held, OnLine, Gathered, Buffer;
    var v := Land(r, off, stream[n]);
    LandKeeps(r, off, stream[n], stream, sent, supplied, frames);
    BufferKeepsReordered(v, off, n, stream, sent);
    BufferKeepsMapped(v, off, Wrap(n));
    BufferKeepsHeld(r, frames, off, stream[n], Wrap(n));
    BufferKeepsLine(v, off, Wrap(n), supplied);
  }

  /** Does the receiver hold frame `n`, in order or ahead of its turn? */
  predicate Has(r: Rx, n: nat) {
    n < Rcv(r) || (n < Rcv(r) + BITS && Wrap(n) in r.reass)
  }

  /** Not so stale that its 32-bit number comes up again in the window, and not beyond what can be in flight. */
  predicate Current(r: Rx, n: nat) {
    Rcv(r) - (TWO32 - BITS) <= n < Rcv(r) + TWO31
  }

  /**
   * A packet is sorted by its unbounded number, although only 32 bits of it are seen. One that is stale by more than half
   * the number space is taken for one too far ahead, which is dropped as well.
   */
  lemma ClassifyByNumber(r: Rx, n: nat, stream: seq<Frame>, sent: nat)
    requires Reordered(r, stream, sent) && r.rcvNxt !in r.reass && Current(r, n)
    ensures Classify(r, Wrap(n)) ==
      if n < Rcv(r) - TWO31 then OooUntrackable
      else if n < Rcv(r) then OldPkt
      else if n >= Rcv(r) + BITS then OooUntrackable
      else if Has(r, n) then OooTrackableDup
      else OooTrackableExpectedOrInOrder
  {
    SubWrap(n, Rcv(r));
  }

  /**
   * Exactly when a packet is taken for a new one, however stale or far ahead it is: its number, modulo 2^32, lies in the
   * window and is not buffered.
   */
  lemma TakenForNewIff(r: Rx, n: nat)
    requires r.rcvNxt == Wrap(Rcv(r)) && r.rcvNxt !in r.reass
    ensures Classify(r, Wrap(n)) == OooTrackableExpectedOrInOrder
       <==> (n - Rcv(r)) % TWO32 < BITS && Wrap(n) !in r.reass
  {
    SubWrap(n, Rcv(r));
  }

  /**
   * Taking in the packet of frame `n` keeps the invariant. The packet is dropped and its buffer freed when the frame is
   * already held or lies beyond the window.
   */
  lemma ConsumeStep(r: Rx, off: Off, n: nat, stream: seq<Frame>, sent: nat, supplied: seq<AppBuf>, frames: set<Off>)
    requires RxState(r, stream, sent, supplied, frames) && off in r.pool
    requires n < sent <= |stream| && Current(r, n)
    ensures var u := Consume(Land(r, off, stream[n]), off, Wrap(n)).0;
      && RxState(u, stream, sent, supplied, frames)
      && (Has(r, n) || n >= Rcv(r) + BITS ==> u == r)
  {
    assert r.pool !! r.mem.Keys && Reordered(r, stream, sent);
    FreeUndoesLand(r, off, stream[n]);
    ClassifyByNumber(r, n, stream, sent);
    var v := Land(r, off, stream[n]);
    assert Classify(v, Wrap(n)) == Classify(r, Wrap(n));
    assert Reordered(r, stream, sent) ==> r.rcvNxt == Wrap(Rcv(r));
    hide RxInv, Classify, PushInOrder, Buffer, Land, Free;
    if Rcv(r) <= n < Rcv(r) + BITS && !Has(r, n) {
      AcceptKeeps(r, off, n, stream, sent, supplied, frames);
      PushInOrderKeeps(Buffer(v, off, Wrap(n)), stream, sent, supplied, frames);
    }
  }

  /** Pushing a frame does not change which frames are held. */
  lemma PushOneHolds(r: Rx, stream: seq<Frame>, sent: nat, m: nat)
    requires Reordered(r, stream, sent) && r.rcvNxt in r.reass
    ensures Has(Advance(TryCopy(Enqueue(r))), m) <==> Has(r, m)
  {
    var e := Enqueue(r);
    TryCopyOnly(e);
    assert Buffered(r, r.rcvNxt, stream, sent);
    hide TryCopy;
    var rcv := Rcv(r);
    if rcv <= m <= rcv + BITS {
      SubWrap(m, rcv);
      if Wrap(m) in r.reass {
        assert Buffered(r, Wrap(m), stream, sent);
      }
    }
  }

  lemma {:induction false} PushInOrderHolds(r: Rx, stream: seq<Frame>, sent: nat, supplied: seq<AppBuf>, frames: set<Off>, m: nat)
    requires RxInv(r, stream, sent, supplied, frames)
    ensures Has(PushInOrder(r), m) <==> Has(r, m)
    decreases |r.reass|
  {
    hide Mapped, Held, OnLine, Gathered, Reordered, TryCopy, Advance, Enqueue, Has;
    if r.rcvNxt in r.reass {
      PushOneHolds(r, stream, sent, m);
      PushOneKeeps(r, stream, sent, supplied, frames);
      PushShrinks(r);
      PushInOrderHolds(Advance(TryCopy(Enqueue(r))), stream, sent, supplied, frames, m);
    }
  }

  lemma BufferHolds(r: Rx, off: Off, n: nat, frame: Frame, m: nat)
    requires r.rcvNxt == Wrap(Rcv(r)) && Rcv(r) <= n < Rcv(r) + BITS && Sub(Wrap(n), r.rcvNxt) == n - Rcv(r)
    ensures Has(Buffer(Land(r, off, frame), off, Wrap(n)), m) <==> Has(r, m) || m == n
  {
    if Rcv(r) <= m < Rcv(r) + BITS {
      SubWrap(m, Rcv(r));
    }
  }

  /**
   * After a packet was taken in, the receiver holds exactly the frames it held before and, if it lies in the window, the
   * packet's own.
   */
  lemma ConsumeHolds(r: Rx, off: Off, n: nat, stream: seq<Frame>, sent: nat, supplied: seq<AppBuf>, frames: set<Off>, m: nat)
    requires RxState(r, stream, sent, supplied, frames) && off in r.pool
    requires n < sent <= |stream| && Current(r, n)
    ensures var u := Consume(Land(r, off, stream[n]), off, Wrap(n)).0;
      Has(u, m) <==> Has(r, m) || (m == n && n < Rcv(r) + BITS)
  {
    assert r.rcvNxt == Wrap(Rcv(r));
    hide RxInv, PushInOrder, Buffer, Has;
    ConsumeStep(r, off, n, stream, sent, supplied, frames);
    if Rcv(r) <= n < Rcv(r) + BITS && !Has(r, n) {
      AcceptKeeps(r, off, n, stream, sent, supplied, frames);
      AcceptedIf(r, off, n, stream, sent, supplied, frames);
      BufferHolds(r, off, n, stream[n], m);
      PushInOrderHolds(Buffer(Land(r, off, stream[n]), off, Wrap(n)), stream, sent, supplied, frames, m);
    } else {
      OldIsHeld(r, n);
    }
  }

  lemma OldIsHeld(r: Rx, n: nat)
    ensures n < Rcv(r) ==> Has(r, n)
  {
  }

  lemma AcceptedIf(r: Rx, off: Off, n: nat, stream: seq<Frame>, sent: nat, supplied: seq<AppBuf>, frames: set<Off>)
    requires RxState(r, stream, sent, supplied, frames) && off in r.pool
    requires n < sent <= |stream| && Current(r, n)
    requires Rcv(r) <= n < Rcv(r) + BITS && !Has(r, n)
    ensures Sub(Wrap(n), r.rcvNxt) == n - Rcv(r)
    ensures Consume(Land(r, off, stream[n]), off, Wrap(n)).0 == PushInOrder(Buffer(Land(r, off, stream[n]), off, Wrap(n)))
  {
    ClassifyByNumber(r, n, stream, sent);
    SubWrap(n, Rcv(r));
    hide PushInOrder, Buffer;
    assert Classify(Land(r, off, stream[n]), Wrap(n)) == Classify(r, Wrap(n));
  }

  // ----- Copying a message out -----

  lemma WholeIsOneMessage(mem: map<Off, Frame>, offs: seq<Off>)
    requires Whole(mem, offs)
    ensures FirstMessage(FramesIn(mem, offs)) == |FramesIn(mem, offs)| > 0
  {
    var fs := FramesIn(mem, offs);
    assert fs[|fs| - 1].last;
    FirstMessageIs(fs, |fs|);
  }

  ghost predicate CanCopyOut(r: Rx) {
    r.jobs != [] && Whole(r.mem, r.jobs[0].frames)
  }

  lemma LineAfterCopyOut(r: Rx)
    requires CanCopyOut(r)
    ensures Line(r) == r.jobs[0].frames + Line(CopyOut(r))
  {
    var a, b, c, d := r.jobs[0].frames, JobFrames(r.jobs[1..]), r.chain, r.ready;
    assert a + b + c + d == a + (b + c + d);
  }

  /** The message's buffers are on the line once, ahead of all others. */
  lemma CopiedAreApart(r: Rx)
    requires CanCopyOut(r) && Distinct(Line(r))
    ensures Distinct(Line(CopyOut(r)))
    ensures forall b :: b in Line(CopyOut(r)) ==> b !in r.jobs[0].frames
    ensures forall b :: b in Line(r) <==> b in r.jobs[0].frames || b in Line(CopyOut(r))
  {
    LineAfterCopyOut(r);
    var l, fs, rest := Line(r), r.jobs[0].frames, Line(CopyOut(r));
    assert l == [] + fs + rest && l == fs + rest + [];
    hide Line, CopyOut, CanCopyOut;
    DistinctPart([], fs, rest);
    DistinctPart(fs, rest, []);
  }

  lemma CopyOutFrees(r: Rx)
    requires CanCopyOut(r)
    ensures var u, fs := CopyOut(r), r.jobs[0].frames;
      && u.mem == r.mem - AsSet(fs) && u.pool == r.pool + AsSet(fs)
      && u.reass == r.reass && u.pushed == r.pushed && u.chain == r.chain && u.jobs == r.jobs[1..]
      && u.ready == r.ready && u.appBufs == r.appBufs && u.rcvNxt == r.rcvNxt && u.words == r.words && u.count == r.count
      && u.delivered == r.delivered + [Delivery(r.jobs[0].buf, Join(Payloads(FramesIn(r.mem, fs))))]
  {
  }

  lemma CopyOutKeepsHeld(r: Rx, frames: set<Off>)
    requires Held(r, frames) && CanCopyOut(r)
    ensures Held(CopyOut(r), frames)
  {
    hide Line, CopyOut, Distinct, AsSet;
    var u, fs := CopyOut(r), r.jobs[0].frames;
    CopyOutFrees(r);
    CopiedAreApart(r);
    assert u.mem.Keys == r.mem.Keys - AsSet(fs);
    forall b | b in AsSet(fs)
      ensures b in r.mem.Keys
    {
      assert b in Line(r);
    }
    assert u.pool + u.mem.Keys == frames;
  }

  lemma GoneAfterCopyOut(r: Rx)
    requires OnLine(r) && CanCopyOut(r)
    ensures |Line(CopyOut(r))| <= |r.pushed|
    ensures Gone(CopyOut(r)) == Gone(r) + FramesIn(r.mem, r.jobs[0].frames)
  {
    LineAfterCopyOut(r);
    var u, l, fs, k := CopyOut(r), Line(r), r.jobs[0].frames, |r.pushed| - |Line(r)|;
    var msg := FramesIn(r.mem, fs);
    hide Line, Complete, Rest;
    forall i | 0 <= i < |fs|
      ensures msg[i] == r.pushed[k + i]
    {
      assert l[i] == fs[i];
    }
    assert r.pushed[..k + |fs|] == r.pushed[..k] + msg;
  }

  /** The oldest message goes to the oldest buffer, whole. */
  lemma CopyOutDelivers(r: Rx)
    requires OnLine(r) && CanCopyOut(r)
    ensures |Line(CopyOut(r))| <= |CopyOut(r).pushed|
    ensures Complete(Gone(CopyOut(r))) == BytesOf(CopyOut(r).delivered) && Rest(Gone(CopyOut(r))) == []
  {
    GoneAfterCopyOut(r);
    CopyOutFrees(r);
    WholeIsOneMessage(r.mem, r.jobs[0].frames);
    var u, msg := CopyOut(r), FramesIn(r.mem, r.jobs[0].frames);
    hide Complete, Rest, FirstMessage, Join, Payloads, Line, CopyOut, Whole, FramesIn;
    ReadOneMessage(Gone(r), msg);
    assert BytesOf(u.delivered) == BytesOf(r.delivered) + [Join(Payloads(msg))];
  }

  lemma CopyOutKeepsOnLine(r: Rx)
    requires OnLine(r) && CanCopyOut(r) && Distinct(Line(r))
    ensures OnLine(CopyOut(r))
  {
    hide Complete, Rest, Line, CopyOut, Distinct, Join, Payloads;
    CopyOutDelivers(r);
    LineAfterCopyOut(r);
    CopyOutFrees(r);
    CopiedAreApart(r);
    var u, l, rest, fs, k := CopyOut(r), Line(r), Line(CopyOut(r)), r.jobs[0].frames, |r.pushed| - |Line(r)|;
    forall i | 0 <= i < |rest|
      ensures rest[i] in u.mem && u.mem[rest[i]] == u.pushed[k + |fs| + i]
    {
      assert l[|fs| + i] == rest[i] && rest[i] in rest;
    }
  }

  lemma CopyOutKeepsGathered(r: Rx, supplied: seq<AppBuf>)
    requires Gathered(r, supplied) && CanCopyOut(r) && Distinct(Line(r))
    ensures Gathered(CopyOut(r), supplied)
  {
    CopyOutFrees(r);
    CopiedAreApart(r);
    var u, fs := CopyOut(r), r.jobs[0].frames;
    hide CopyOut, Distinct, Join, Payloads, FramesIn;
    forall j | 0 <= j < |u.jobs|
      ensures Whole(u.mem, u.jobs[j].frames)
    {
      assert Whole(r.mem, r.jobs[j + 1].frames);
      JobIsOnLine(u.jobs, j);
      forall i | 0 <= i < |u.jobs[j].frames|
        ensures u.jobs[j].frames[i] !in fs
      {
        assert u.jobs[j].frames[i] in Line(u);
      }
    }
    forall i | 0 <= i < |u.chain|
      ensures u.chain[i] !in fs
    {
      assert u.chain[i] in Line(u);
    }
    assert BufsOf(u.delivered) == BufsOf(r.delivered) + [r.jobs[0].buf];
    assert JobBufs(r.jobs) == [r.jobs[0].buf] + JobBufs(u.jobs);
  }

  lemma {:induction false} JobIsOnLine(jobs: seq<Job>, j: nat)
    requires j < |jobs|
    ensures forall b :: b in jobs[j].frames ==> b in JobFrames(jobs)
  {
    if j > 0 {
      JobIsOnLine(jobs[1..], j - 1);
      assert jobs[1..][j - 1] == jobs[j];
    }
  }

  lemma CopyOutKeepsReordered(r: Rx, stream: seq<Frame>, sent: nat, frames: set<Off>)
    requires Reordered(r, stream, sent) && Mapped(r) && Held(r, frames) && CanCopyOut(r)
    ensures Reordered(CopyOut(r), stream, sent) && Mapped(CopyOut(r))
  {
    hide TestBit, CopyOut, Distinct, Line;
    CopyOutFrees(r);
    CopiedAreApart(r);
    var u := CopyOut(r);
    forall s | s in u.reass
      ensures Buffered(u, s, stream, sent)
    {
      assert Buffered(r, s, stream, sent);
      assert r.reass[s] in r.reass.Values;
    }
    forall i | 0 <= i < BITS
      ensures TestBit(u.words, i) <==> Ahead(u, i) in u.reass
    {
      assert Ahead(u, i) == Ahead(r, i);
    }
  }

  lemma CopyOutStep(r: Rx, stream: seq<Frame>, sent: nat, supplied: seq<AppBuf>, frames: set<Off>)
    requires RxState(r, stream, sent, supplied, frames) && r.jobs != []
    ensures CanCopyOut(r) && RxState(CopyOut(r), stream, sent, supplied, frames)
  {
    assert CanCopyOut(r);
    assert Distinct(Line(r));
    CopyOutFrees(r);
    hide Reordered, Mapped, Held, OnLine, Gathered, CopyOut, CanCopyOut, Line, Distinct;
    CopyOutKeepsHeld(r, frames);
    CopyOutKeepsOnLine(r);
    CopyOutKeepsGathered(r, supplied);
    CopyOutKeepsReordered(r, stream, sent, frames);
  }

  lemma SupplyStep(r: Rx, buf: AppBuf, stream: seq<Frame>, sent: nat, supplied: seq<AppBuf>, frames: set<Off>)
    requires RxState(r, stream, sent, supplied, frames)
    ensures RxState(Supply(r, buf), stream, sent, supplied + [buf], frames)
  {
    hide Reordered, Mapped, Held, OnLine, Gathered, TryCopy;
    SupplyKeeps(r, buf, supplied, frames);
    var v := r.(appBufs := r.appBufs + [buf]);
    TryCopyOnly(v);
    ReorderedReadsOnly(r, Supply(r, buf), stream, sent);
  }

  /** A longer stream, or more of it sent, changes nothing for the receiver. */
  lemma ReorderedGrows(r: Rx, stream: seq<Frame>, sent: nat, stream2: seq<Frame>, sent2: nat)
    requires Reordered(r, stream, sent) && stream <= stream2 && sent <= sent2 <= |stream2|
    ensures Reordered(r, stream2, sent2)
  {
    forall s | s in r.reass
      ensures Buffered(r, s, stream2, sent2)
    {
      assert Buffered(r, s, stream, sent);
    }
  }

  lemma RxStateGrows(r: Rx, stream: seq<Frame>, sent: nat, stream2: seq<Frame>, sent2: nat, supplied: seq<AppBuf>,
                     frames: set<Off>)
    requires RxState(r, stream, sent, supplied, frames) && stream <= stream2 && sent <= sent2 <= |stream2|
    ensures RxState(r, stream2, sent2, supplied, frames)
  {
    hide Reordered, Mapped, Held, OnLine, Gathered;
    ReorderedGrows(r, stream, sent, stream2, sent2);
  }

  lemma InitialRxState(frames: set<Off>)
    ensures RxState(Initial(frames), [], 0, [], frames)
  {
    var r := Initial(frames);
    ZeroWordsHaveNoBits(r.words, BITS);
    assert Line(r) == [];
    NoMessage([]);
    ReadNoMessage([]);
  }
}
