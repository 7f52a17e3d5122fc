/**
 * Reception as the engine runs it: the sorted reordering queue, the bitmap shifted in place, and messages gathered as
 * linked buffers. Every method is proved against the step of `Receiver` it carries out.
 */
module RxTracking {
  import opened SerialNumbers
  import opened Messages
  import opened SackBitmap
  import opened Packets
  import opened TxTracking
  import Q = ReassemblyQueue
  import Pcb
  import R = Receiver
  import RI = ReceiverInvariants

  /** The frames in the packet memory, without their links. */
  function Frames(umem: map<Off, FrameBuf>): map<Off, Frame> {
    map o | o in umem :: umem[o].frame
  }

  /** A whole message on its way to an application buffer: the buffer and the first packet of the chain. */
  datatype RxWork = RxWork(buf: R.AppBuf, deserMsgs: Off)

  /** The packet memory, the chain being gathered and the chains handed over. */
  datatype Gather = Gather(umem: map<Off, FrameBuf>, head: Option<Off>, tail: Option<Off>, works: seq<RxWork>)

  /** Each buffer but the last links to the next; the last one's link may be anything. */
  ghost predicate Chained(umem: map<Off, FrameBuf>, offs: seq<Off>) {
    forall i :: 0 <= i < |offs| ==> ChainedAt(umem, offs, i)
  }

  ghost predicate ChainedAt(umem: map<Off, FrameBuf>, offs: seq<Off>, i: nat)
    requires i < |offs|
  {
    offs[i] in umem && (i + 1 < |offs| ==> umem[offs[i]].next == Some(offs[i + 1]))
  }

  ghost predicate WorkShows(umem: map<Off, FrameBuf>, w: RxWork, job: R.Job) {
    job.frames != [] && Linked(umem, job.frames) && w == RxWork(job.buf, job.frames[0])
  }

  ghost predicate WorksShow(umem: map<Off, FrameBuf>, works: seq<RxWork>, jobs: seq<R.Job>) {
    |works| == |jobs| && forall i :: 0 <= i < |jobs| ==> WorkShows(umem, works[i], jobs[i])
  }

  ghost predicate GatherShows(g: Gather, chain: seq<Off>, jobs: seq<R.Job>) {
    && Chained(g.umem, chain)
    && g.head == (if chain == [] then None else Some(chain[0]))
    && g.tail == (if chain == [] then None else Some(chain[|chain| - 1]))
    && WorksShow(g.umem, g.works, jobs)
  }

  /** The frames past reordering are in use and each in one place. */
  ghost predicate LineOk(r: R.Rx) {
    Distinct(RI.Line(r)) && forall b :: b in RI.Line(r) ==> b in r.mem
  }

  function WithNext(umem: map<Off, FrameBuf>, off: Off, next: Option<Off>): map<Off, FrameBuf>
    requires off in umem
  {
    umem[off := umem[off].(next := next)]
  }

  lemma NextKeepsFrames(umem: map<Off, FrameBuf>, off: Off, next: Option<Off>)
    requires off in umem
    ensures Frames(WithNext(umem, off, next)) == Frames(umem)
  {
  }

  /** Writing a link elsewhere does not disturb a chain handed over. */
  lemma WorksSurvive(umem: map<Off, FrameBuf>, off: Off, next: Option<Off>, works: seq<RxWork>, jobs: seq<R.Job>)
    requires off in umem && WorksShow(umem, works, jobs) && off !in RI.JobFrames(jobs)
    ensures WorksShow(WithNext(umem, off, next), works, jobs)
  {
    var m := WithNext(umem, off, next);
    forall j | 0 <= j < |jobs|
      ensures WorkShows(m, works[j], jobs[j])
    {
      var c := jobs[j].frames;
      InJobFrames(jobs, j);
      assert WorkShows(umem, works[j], jobs[j]);
      forall i | 0 <= i < |c|
        ensures LinkAt(m, c, i)
      {
        assert LinkAt(umem, c, i) && c[i] in c;
      }
    }
  }

  lemma {:induction false} InJobFrames(jobs: seq<R.Job>, j: nat)
    requires j < |jobs|
    ensures forall b :: b in jobs[j].frames ==> b in RI.JobFrames(jobs)
    decreases |jobs|
  {
    if j > 0 {
      InJobFrames(jobs[1..], j - 1);
    }
  }

  /** A ready buffer joins the chain. */
  function Joined(g: Gather, off: Off): Gather
    requires g.tail.Some? ==> g.tail.value in g.umem
  {
    if g.tail.None? then g.(head := Some(off), tail := Some(off))
    else g.(umem := WithNext(g.umem, g.tail.value, Some(off)), tail := Some(off))
  }

  lemma JoinedShows(g: Gather, chain: seq<Off>, jobs: seq<R.Job>, off: Off)
    requires GatherShows(g, chain, jobs) && off in g.umem
    requires Distinct(RI.JobFrames(jobs) + chain + [off])
    ensures g.tail.Some? ==> g.tail.value in g.umem
    ensures GatherShows(Joined(g, off), chain + [off], jobs) && Frames(Joined(g, off).umem) == Frames(g.umem)
    ensures Joined(g, off).umem.Keys == g.umem.Keys
  {
    var all, n := RI.JobFrames(jobs) + chain + [off], |RI.JobFrames(jobs)|;
    if chain != [] {
      assert ChainedAt(g.umem, chain, |chain| - 1);
      var tail := g.tail.value;
      assert all[n + |chain| - 1] == tail;
      assert tail !in RI.JobFrames(jobs) by {
        forall i | 0 <= i < n
          ensures RI.JobFrames(jobs)[i] != tail
        {
          assert all[i] == RI.JobFrames(jobs)[i];
        }
      }
      WorksSurvive(g.umem, tail, Some(off), g.works, jobs);
      NextKeepsFrames(g.umem, tail, Some(off));
      JoinChained(g.umem, chain, off, RI.JobFrames(jobs));
    } else {
      assert chain + [off] == [off];
    }
  }

  lemma JoinChained(umem: map<Off, FrameBuf>, chain: seq<Off>, off: Off, before: seq<Off>)
    requires Chained(umem, chain) && chain != [] && off in umem && Distinct(before + chain + [off])
    ensures chain[|chain| - 1] in umem && Chained(WithNext(umem, chain[|chain| - 1], Some(off)), chain + [off])
  {
    var tail, c := chain[|chain| - 1], chain + [off];
    assert ChainedAt(umem, chain, |chain| - 1);
    var m := WithNext(umem, tail, Some(off));
    forall i | 0 <= i < |c|
      ensures ChainedAt(m, c, i)
    {
      if i < |chain| {
        assert ChainedAt(umem, chain, i);
        assert (before + chain + [off])[|before| + i] == chain[i];
        assert (before + chain + [off])[|before| + |chain| - 1] == tail;
      }
    }
  }

  /** A chain that has its last frame is closed and handed over. */
  function HandedOver(g: Gather, buf: R.AppBuf): Gather
    requires g.head.Some? && g.tail.Some? && g.tail.value in g.umem
  {
    Gather(WithNext(g.umem, g.tail.value, None), None, None, g.works + [RxWork(buf, g.head.value)])
  }

  lemma HandedOverShows(g: Gather, chain: seq<Off>, jobs: seq<R.Job>, buf: R.AppBuf)
    requires GatherShows(g, chain, jobs) && chain != [] && Distinct(RI.JobFrames(jobs) + chain)
    ensures g.tail.value in g.umem
    ensures GatherShows(HandedOver(g, buf), [], jobs + [R.Job(buf, chain)])
    ensures Frames(HandedOver(g, buf).umem) == Frames(g.umem) && HandedOver(g, buf).umem.Keys == g.umem.Keys
  {
    var all, n, tail := RI.JobFrames(jobs) + chain, |RI.JobFrames(jobs)|, g.tail.value;
    assert ChainedAt(g.umem, chain, |chain| - 1);
    assert all[n + |chain| - 1] == tail;
    forall i | 0 <= i < n
      ensures RI.JobFrames(jobs)[i] != tail
    {
      assert all[i] == RI.JobFrames(jobs)[i];
    }
    WorksSurvive(g.umem, tail, None, g.works, jobs);
    NextKeepsFrames(g.umem, tail, None);
    CloseLinks(g.umem, chain, RI.JobFrames(jobs));
  }

  lemma CloseLinks(umem: map<Off, FrameBuf>, chain: seq<Off>, before: seq<Off>)
    requires Chained(umem, chain) && chain != [] && Distinct(before + chain)
    ensures chain[|chain| - 1] in umem && Linked(WithNext(umem, chain[|chain| - 1], None), chain)
  {
    var tail := chain[|chain| - 1];
    assert ChainedAt(umem, chain, |chain| - 1);
    var m := WithNext(umem, tail, None);
    assert forall i :: 0 <= i < |chain| ==> (before + chain)[|before| + i] == chain[i];
    forall i, j | 0 <= i < j < |chain|
      ensures chain[i] != chain[j]
    {
      assert (before + chain)[|before| + i] != (before + chain)[|before| + j];
    }
    forall i | 0 <= i < |chain|
      ensures LinkAt(m, chain, i)
    {
      assert ChainedAt(umem, chain, i);
    }
  }

  /** What moving the oldest ready buffer does to the chains. */
  function Moved(g: Gather, r: R.Rx): Gather
    requires r.ready != [] && r.appBufs != [] && r.ready[0] in g.umem
    requires g.tail.Some? ==> g.head.Some? && g.tail.value in g.umem
  {
    var g1 := Joined(g, r.ready[0]);
    if g.umem[r.ready[0]].frame.last then HandedOver(g1, r.appBufs[0]) else g1
  }

  lemma LineStart(r: R.Rx)
    requires LineOk(r) && r.ready != []
    ensures Distinct(RI.JobFrames(r.jobs) + r.chain + [r.ready[0]]) && r.ready[0] in r.mem
  {
    var a := RI.JobFrames(r.jobs) + r.chain + [r.ready[0]];
    assert RI.Line(r) == a + r.ready[1..];
    assert a == RI.Line(r)[..|a|];
    assert r.ready[0] in RI.Line(r);
  }

  lemma MovedShows(g: Gather, r: R.Rx)
    requires GatherShows(g, r.chain, r.jobs) && LineOk(r) && Frames(g.umem) == r.mem && r.ready != [] && r.appBufs != []
    ensures r.ready[0] in g.umem && (g.tail.Some? ==> g.head.Some? && g.tail.value in g.umem)
    ensures GatherShows(Moved(g, r), R.MoveOne(r).chain, R.MoveOne(r).jobs) && Frames(Moved(g, r).umem) == r.mem
    ensures LineOk(R.MoveOne(r))
  {
    var off := r.ready[0];
    LineStart(r);
    RI.MoveOneKeepsLine(r);
    assert off in Frames(g.umem);
    JoinedShows(g, r.chain, r.jobs, off);
    assert g.umem[off].frame == r.mem[off];
    hide Frames, Distinct, WorksShow, Chained, Joined, RI.Line, RI.JobFrames;
    if r.mem[off].last {
      SeqAssoc(RI.JobFrames(r.jobs), r.chain, [off]);
      HandedOverShows(Joined(g, off), r.chain + [off], r.jobs, r.appBufs[0]);
    }
  }

  lemma SeqAssoc(a: seq<Off>, b: seq<Off>, c: seq<Off>)
    ensures a + b + c == a + (b + c)
  {
  }

  class RxTracking {
    const socket: Socket
    const pcb: Pcb.Pcb
    var reassQ: seq<Q.Entry>
    var readyMsgQueue: seq<Off>
    var appBufQueue: seq<R.AppBuf>
    var deserMsgsHead: Option<Off>
    var deserMsgsTail: Option<Off>
    var rxDeserQ: seq<RxWork>
    var delivered: seq<R.Delivery>

    ghost function Repr(): set<object>
      reads this
    {
      {this, socket, pcb, pcb.sackBitmap}
    }

    ghost function Gathering(): Gather
      reads this, socket
    {
      Gather(socket.umem, deserMsgsHead, deserMsgsTail, rxDeserQ)
    }

    /** The queues behind reordering hold what `r` says. */
    ghost predicate ShowsLine(r: R.Rx)
      reads this, socket
    {
      && GatherShows(Gathering(), r.chain, r.jobs)
      && Frames(socket.umem) == r.mem && socket.pool == r.pool
      && readyMsgQueue == r.ready && appBufQueue == r.appBufs && delivered == r.delivered
    }

    /** The object holds the receiver's state `r`. */
    ghost predicate Shows(r: R.Rx)
      reads this, socket, pcb, pcb.sackBitmap
    {
      && pcb.Valid()
      && pcb.rcvNxt == r.rcvNxt && pcb.Bits() == r.words && pcb.sackBitmapCount == r.count
      && Q.Holds(reassQ, r.reass, r.rcvNxt)
      && ShowsLine(r)
    }

    constructor (socket: Socket, pcb: Pcb.Pcb)
      requires socket.umem == map[] && pcb.Valid() && pcb.rcvNxt == 0 && pcb.Bits() == ZeroWords()
      requires pcb.sackBitmapCount == 0
      ensures this.socket == socket && this.pcb == pcb && Shows(R.Initial(socket.pool))
    {
      this.socket, this.pcb := socket, pcb;
      reassQ, readyMsgQueue, appBufQueue, rxDeserQ, delivered := [], [], [], [], [];
      deserMsgsHead, deserMsgsTail := None, None;
      new;
      assert Frames(map[]) == map[];
    }

    /** The oldest ready buffer joins the chain; the last buffer of a message sends the chain on its way. */
    method MoveOne(ghost r: R.Rx)
      requires ShowsLine(r) && LineOk(r) && r.ready != [] && r.appBufs != []
      modifies this`readyMsgQueue, this`appBufQueue, this`deserMsgsHead, this`deserMsgsTail, this`rxDeserQ, socket`umem
      ensures ShowsLine(R.MoveOne(r))
    {
      hide GatherShows, Frames, LineOk;
      MovedShows(Gathering(), r);
      FrameOf(socket.umem, r);
      ghost var g := Moved(Gathering(), r);
      var readyMsg := readyMsgQueue[0];
      readyMsgQueue := readyMsgQueue[1..];
      TailWithHead(Gathering(), r);
      if deserMsgsHead.None? {
        deserMsgsHead, deserMsgsTail := Some(readyMsg), Some(readyMsg);
      } else {
        socket.SetNext(deserMsgsTail.value, Some(readyMsg));
        deserMsgsTail := Some(readyMsg);
      }
      if socket.umem[readyMsg].frame.last {
        socket.SetNext(readyMsg, None);
        rxDeserQ := rxDeserQ + [RxWork(appBufQueue[0], deserMsgsHead.value)];
        appBufQueue := appBufQueue[1..];
        deserMsgsHead, deserMsgsTail := None, None;
      }
      assert Gathering() == g;
    }

    /** Move ready buffers into messages as long as there are buffers and applications waiting for them. */
    method TryCopyMsgbufToAppbuf(rxWork: Option<R.AppBuf>, ghost r: R.Rx)
      requires ShowsLine(r) && LineOk(r)
      modifies this`readyMsgQueue, this`appBufQueue, this`deserMsgsHead, this`deserMsgsTail, this`rxDeserQ, socket`umem
      ensures ShowsLine(match rxWork case Some(buf) => R.Supply(r, buf) case None => R.TryCopy(r))
    {
      hide GatherShows, Frames, LineOk, R.TryCopy, R.MoveOne;
      ghost var u := r;
      if rxWork.Some? {
        appBufQueue := appBufQueue + [rxWork.value];
        u := r.(appBufs := r.appBufs + [rxWork.value]);
        SupplyKeepsLine(r, u);
      }
      ghost var v := u;
      while readyMsgQueue != [] && appBufQueue != []
        invariant ShowsLine(u) && LineOk(u) && R.TryCopy(u) == R.TryCopy(v)
        decreases |readyMsgQueue|
      {
        CopyUnfolds(u);
        MoveOne(u);
        u := R.MoveOne(u);
      }
      CopyEnds(u);
    }

    /** The frame whose turn it is goes to the ready queue; the expected number and the bitmap move on. */
    method PushOne(ghost r: R.Rx, ghost frames: set<Off>)
      requires Shows(r) && RI.Held(r, frames) && r.rcvNxt in r.reass
      modifies Repr()
      ensures Shows(R.Advance(R.TryCopy(R.Enqueue(r))))
      ensures |reassQ| == old(|reassQ|) - 1
    {
      hide GatherShows, Frames, LineOk, R.TryCopy, RI.Held, Q.Holds, ShiftLeftOne;
      Q.ExpectedIsInFront(reassQ, r.reass, r.rcvNxt);
      Q.PopKeeps(reassQ, r.reass, r.rcvNxt);
      RI.EnqueueKeepsHeld(r, frames);
      HeldGivesLine(R.Enqueue(r), frames);
      R.TryCopyOnly(R.Enqueue(r));
      var msgbuf := reassQ[0].off;
      reassQ := reassQ[1..];
      readyMsgQueue := readyMsgQueue + [msgbuf];
      TryCopyMsgbufToAppbuf(None, R.Enqueue(r));
      pcb.AdvanceRcvNxt();
      pcb.SackBitmapShiftLeftOne();
    }

    /** Push as long as the frame at the front of the reordering queue is the expected one. */
    method PushInorderMsgbufToApp(ghost r: R.Rx, ghost frames: set<Off>)
      requires Shows(r) && RI.Held(r, frames)
      modifies Repr()
      ensures Shows(R.PushInOrder(r))
    {
      hide GatherShows, Frames, R.TryCopy, RI.Held, Q.Holds, R.PushInOrder, R.Advance, R.Enqueue;
      ghost var u := r;
      while reassQ != [] && reassQ[0].seqno == pcb.rcvNxt
        invariant Shows(u) && RI.Held(u, frames) && R.PushInOrder(u) == R.PushInOrder(r)
        decreases |reassQ|
      {
        Q.ExpectedIsInFront(reassQ, u.reass, u.rcvNxt);
        PushUnfolds(u, frames);
        PushOne(u, frames);
        u := R.Advance(R.TryCopy(R.Enqueue(u)));
      }
      Q.ExpectedIsInFront(reassQ, u.reass, u.rcvNxt);
      PushEnds(u);
    }

    /** Give a packet's buffer back. */
    method DropPacket(off: Off, ghost r0: R.Rx, ghost r: R.Rx, ghost frames: set<Off>)
      requires RI.Held(r0, frames) && off in r0.pool && off in socket.umem && r == R.Land(r0, off, socket.umem[off].frame)
      requires Shows(r)
      modifies socket
      ensures Shows(R.Free(r, off))
    {
      hide GatherShows, RI.Held, Q.Holds;
      FreeKeepsGather(Gathering(), off, r0, r, frames);
      socket.PushFrame(off);
    }

    /** Take in a data packet that lies in buffer `off`. */
    method Consume(off: Off, ghost r0: R.Rx, ghost r: R.Rx, ghost frames: set<Off>) returns (ret: R.ConsumeRet)
      requires RI.Held(r0, frames) && off in r0.pool && off in socket.umem && r == R.Land(r0, off, socket.umem[off].frame)
      requires Shows(r) && r.rcvNxt !in r.reass
      modifies Repr()
      ensures Shows(R.Consume(r, off, old(socket.umem[off].seqno)).0)
      ensures ret == R.Consume(r, off, old(socket.umem[off].seqno)).1
    {
      hide GatherShows, Frames, RI.Held, Q.Holds, R.PushInOrder, SeqLt, BitSet;
      var seqno := socket.umem[off].seqno;
      if SeqLt(seqno, pcb.rcvNxt) {
        DropPacket(off, r0, r, frames);
        return R.OldPkt;
      }
      var n, m: int := seqno, pcb.rcvNxt;
      var distance := (n - m) % TWO32;
      if distance >= BITS {
        DropPacket(off, r0, r, frames);
        return R.OooUntrackable;
      }
      var it := 0;
      if seqno != pcb.rcvNxt {
        it := Q.LowerBound(reassQ, seqno);
        Q.FoundAtLowerBound(reassQ, r.reass, r.rcvNxt, seqno, it);
        if it < |reassQ| && reassQ[it].seqno == seqno {
          DropPacket(off, r0, r, frames);
          return R.OooTrackableDup;
        }
      } else {
        ExpectedGoesInFront(reassQ, r);
      }
      Q.InsertKeeps(reassQ, r.reass, r.rcvNxt, Q.Entry(seqno, off), it);
      reassQ := reassQ[..it] + [Q.Entry(seqno, off)] + reassQ[it..];
      pcb.SackBitmapBitSet(distance);
      RI.BufferKeepsHeld(r0, frames, off, socket.umem[off].frame, seqno);
      PushInorderMsgbufToApp(R.Buffer(r, off, seqno), frames);
      return R.OooTrackableExpectedOrInOrder;
    }

    /** Copy the oldest whole message into its application buffer, returning each packet buffer as it is emptied. */
    method CopyToApp(ghost r: R.Rx, ghost frames: set<Off>)
      requires Shows(r) && RI.Held(r, frames) && RI.CanCopyOut(r)
      modifies this`rxDeserQ, this`delivered, socket
      ensures Shows(R.CopyOut(r))
    {
      hide GatherShows, Frames, RI.Held, Q.Holds, R.CopyOut, Join, AsSet, Copying;
      ghost var before, fs := socket.umem, r.jobs[0].frames;
      ghost var g := Gathering();
      FirstWork(g, r);
      CopyStarts(before, r);
      var work := rxDeserQ[0];
      rxDeserQ := rxDeserQ[1..];
      var readyMsg, appBuf: seq<Byte> := Some(work.deserMsgs), [];
      ghost var i := 0;
      while readyMsg.Some?
        invariant 0 <= i <= |fs| && readyMsg == (if i < |fs| then Some(fs[i]) else None)
        invariant Copying(before, socket.umem, r.pool, socket.pool, fs, i, appBuf) && socket.sent == old(socket.sent)
        invariant rxDeserQ == old(rxDeserQ)[1..]
        invariant delivered == old(delivered) + if i < |fs| then [] else [R.Delivery(work.buf, appBuf)]
        decreases |fs| - i
      {
        var msgbuf := readyMsg.value;
        CopyStep(before, socket.umem, r.pool, socket.pool, r, i, appBuf);
        appBuf := appBuf + socket.umem[msgbuf].frame.payload;
        if socket.umem[msgbuf].frame.last {
          delivered := delivered + [R.Delivery(work.buf, appBuf)];
        }
        readyMsg := socket.umem[msgbuf].next;
        socket.PushFrame(msgbuf);
        i := i + 1;
      }
      CopyEnded(g, socket.umem, socket.pool, r, appBuf, frames);
      RI.CopyOutFrees(r);
    }
  }

  // ----- Copying a message out -----

  /** The first `i` buffers of the message have been copied and returned. */
  ghost predicate Copying(before: map<Off, FrameBuf>, umem: map<Off, FrameBuf>, pool0: set<Off>, pool: set<Off>,
                          fs: seq<Off>, i: nat, data: seq<Byte>) {
    && i <= |fs| && Linked(before, fs)
    && umem == before - AsSet(fs[..i]) && pool == pool0 + AsSet(fs[..i])
    && (forall j :: 0 <= j < |fs| ==> fs[j] in before)
    && data == Join(Payloads(FramesOfChain(before, fs[..i])))
  }

  function FramesOfChain(umem: map<Off, FrameBuf>, offs: seq<Off>): seq<Frame>
    requires forall j :: 0 <= j < |offs| ==> offs[j] in umem
  {
    R.FramesIn(Frames(umem), offs)
  }

  lemma FirstWork(g: Gather, r: R.Rx)
    requires GatherShows(g, r.chain, r.jobs) && r.jobs != []
    ensures g.works != [] && WorkShows(g.umem, g.works[0], r.jobs[0])
    ensures g.works[0] == RxWork(r.jobs[0].buf, r.jobs[0].frames[0]) && r.jobs[0].frames != []
  {
  }

  lemma CopyStarts(umem: map<Off, FrameBuf>, r: R.Rx)
    requires r.jobs != [] && Linked(umem, r.jobs[0].frames)
    ensures Copying(umem, umem, r.pool, r.pool, r.jobs[0].frames, 0, [])
  {
    var fs := r.jobs[0].frames;
    forall j | 0 <= j < |fs|
      ensures fs[j] in umem
    {
      assert LinkAt(umem, fs, j);
    }
    assert AsSet(fs[..0]) == {};
  }

  lemma JoinOneMore(fs: seq<Frame>, f: Frame)
    ensures Join(Payloads(fs + [f])) == Join(Payloads(fs)) + f.payload
  {
    var ps := Payloads(fs + [f]);
    TotalSplit(ps, |fs|);
    assert ps[..|fs|] == Payloads(fs) && ps[|fs|..] == [f.payload];
    assert Join([f.payload]) == f.payload;
  }

  lemma CopyStep(before: map<Off, FrameBuf>, umem: map<Off, FrameBuf>, pool0: set<Off>, pool: set<Off>, r: R.Rx, i: nat,
                 data: seq<Byte>)
    requires RI.CanCopyOut(r) && Frames(before) == r.mem && i < |r.jobs[0].frames|
    requires Copying(before, umem, pool0, pool, r.jobs[0].frames, i, data)
    ensures var fs := r.jobs[0].frames;
      && fs[i] in umem && umem[fs[i]].next == (if i + 1 < |fs| then Some(fs[i + 1]) else None)
      && (umem[fs[i]].frame.last <==> i == |fs| - 1)
      && Copying(before, umem - {fs[i]}, pool0, pool + {fs[i]}, fs, i + 1, data + umem[fs[i]].frame.payload)
  {
    var fs := r.jobs[0].frames;
    assert LinkAt(before, fs, i);
    assert fs[i] !in AsSet(fs[..i]);
    assert fs[i] in r.mem && r.mem[fs[i]] == before[fs[i]].frame;
    assert fs[..i + 1] == fs[..i] + [fs[i]];
    assert AsSet(fs[..i + 1]) == AsSet(fs[..i]) + {fs[i]};
    assert FramesOfChain(before, fs[..i + 1]) == FramesOfChain(before, fs[..i]) + [before[fs[i]].frame];
    JoinOneMore(FramesOfChain(before, fs[..i]), before[fs[i]].frame);
  }

  /** The other chains are where they were. */
  lemma CopyEnded(g: Gather, umem: map<Off, FrameBuf>, pool: set<Off>, r: R.Rx, data: seq<Byte>, frames: set<Off>)
    requires RI.CanCopyOut(r) && RI.Held(r, frames) && GatherShows(g, r.chain, r.jobs) && Frames(g.umem) == r.mem
    requires Copying(g.umem, umem, r.pool, pool, r.jobs[0].frames, |r.jobs[0].frames|, data)
    ensures GatherShows(g.(umem := umem, works := g.works[1..]), r.chain, r.jobs[1..])
    ensures umem == g.umem - AsSet(r.jobs[0].frames) && pool == r.pool + AsSet(r.jobs[0].frames)
    ensures Frames(umem) == r.mem - AsSet(r.jobs[0].frames)
    ensures data == Join(Payloads(R.FramesIn(r.mem, r.jobs[0].frames)))
  {
    var fs := r.jobs[0].frames;
    assert fs[..|fs|] == fs;
    OthersApart(r, frames);
    hide RI.Held, Join, RI.CanCopyOut;
    forall i | 0 <= i < |r.chain|
      ensures ChainedAt(umem, r.chain, i)
    {
      assert ChainedAt(g.umem, r.chain, i);
    }
    forall j | 1 <= j < |r.jobs|
      ensures WorkShows(umem, g.works[j], r.jobs[j])
    {
      assert WorkShows(g.umem, g.works[j], r.jobs[j]);
      InJobFrames(r.jobs[1..], j - 1);
      forall i | 0 <= i < |r.jobs[j].frames|
        ensures LinkAt(umem, r.jobs[j].frames, i)
      {
        assert LinkAt(g.umem, r.jobs[j].frames, i);
      }
    }
  }

  lemma OthersApart(r: R.Rx, frames: set<Off>)
    requires RI.CanCopyOut(r) && RI.Held(r, frames)
    ensures forall b :: b in r.chain || b in RI.JobFrames(r.jobs[1..]) ==> b !in r.jobs[0].frames
  {
    RI.CopiedAreApart(r);
    RI.CopyOutFrees(r);
    var u := R.CopyOut(r);
    forall b | b in r.chain || b in RI.JobFrames(r.jobs[1..])
      ensures b in RI.Line(u)
    {
    }
  }

  lemma ExpectedGoesInFront(q: seq<Q.Entry>, r: R.Rx)
    requires Q.Holds(q, r.reass, r.rcvNxt) && r.rcvNxt !in r.reass
    ensures forall j :: 0 <= j < |q| ==> SeqLt(r.rcvNxt, q[j].seqno)
    ensures Sub(r.rcvNxt, r.rcvNxt) == 0
  {
    hide SeqLt, Q.Holds;
    if q != [] {
      Q.NothingBeforeExpected(q, r.reass, r.rcvNxt);
      Q.FoundAtLowerBound(q, r.reass, r.rcvNxt, r.rcvNxt, 0);
    }
  }

  lemma HeldGivesLine(r: R.Rx, frames: set<Off>)
    requires RI.Held(r, frames)
    ensures LineOk(r)
  {
  }

  lemma {:induction false} TryCopyKeepsLine(r: R.Rx)
    ensures RI.Line(R.TryCopy(r)) == RI.Line(r)
    decreases |r.ready|
  {
    if r.ready != [] && r.appBufs != [] {
      RI.MoveOneKeepsLine(r);
      TryCopyKeepsLine(R.MoveOne(r));
    }
  }

  lemma SameLineKeepsHeld(r: R.Rx, u: R.Rx, frames: set<Off>)
    requires RI.Held(r, frames) && RI.Line(u) == RI.Line(r) && u.mem == r.mem && u.pool == r.pool && u.reass == r.reass
    ensures RI.Held(u, frames)
  {
    hide RI.Line, Distinct;
  }

  lemma PushUnfolds(r: R.Rx, frames: set<Off>)
    requires RI.Held(r, frames) && r.rcvNxt in r.reass
    ensures var u := R.Advance(R.TryCopy(R.Enqueue(r)));
      RI.Held(u, frames) && R.PushInOrder(r) == R.PushInOrder(u)
  {
    hide RI.Held, R.TryCopy, RI.Line;
    var v := R.Enqueue(r);
    RI.EnqueueKeepsHeld(r, frames);
    R.TryCopyOnly(v);
    TryCopyKeepsLine(v);
    SameLineKeepsHeld(v, R.TryCopy(v), frames);
    AdvanceKeepsLine(R.TryCopy(v));
    SameLineKeepsHeld(R.TryCopy(v), R.Advance(R.TryCopy(v)), frames);
  }

  lemma AdvanceKeepsLine(r: R.Rx)
    ensures RI.Line(R.Advance(r)) == RI.Line(r)
  {
  }

  lemma PushEnds(r: R.Rx)
    requires r.rcvNxt !in r.reass
    ensures R.PushInOrder(r) == r
  {
  }

  /** A buffer that is on no chain can go back to the pool. */
  lemma FreeKeepsGather(g: Gather, off: Off, r0: R.Rx, r: R.Rx, frames: set<Off>)
    requires GatherShows(g, r.chain, r.jobs) && Frames(g.umem) == r.mem && off in g.umem
    requires RI.Held(r0, frames) && off in r0.pool && r == R.Land(r0, off, g.umem[off].frame)
    ensures GatherShows(g.(umem := g.umem - {off}), r.chain, r.jobs)
    ensures Frames(g.umem - {off}) == r.mem - {off}
  {
    assert off !in RI.Line(r0) && RI.Line(r) == RI.Line(r0);
    assert off !in r.chain && off !in RI.JobFrames(r.jobs);
    hide RI.Held, RI.Line;
    var m := g.umem - {off};
    forall i | 0 <= i < |r.chain|
      ensures ChainedAt(m, r.chain, i)
    {
      assert ChainedAt(g.umem, r.chain, i);
    }
    forall j | 0 <= j < |r.jobs|
      ensures WorkShows(m, g.works[j], r.jobs[j])
    {
      assert WorkShows(g.umem, g.works[j], r.jobs[j]);
      InJobFrames(r.jobs, j);
      forall i | 0 <= i < |r.jobs[j].frames|
        ensures LinkAt(m, r.jobs[j].frames, i)
      {
        assert LinkAt(g.umem, r.jobs[j].frames, i);
      }
    }
  }

  lemma FrameOf(umem: map<Off, FrameBuf>, r: R.Rx)
    requires Frames(umem) == r.mem && LineOk(r) && r.ready != []
    ensures r.ready[0] in umem && r.ready[0] in r.mem && umem[r.ready[0]].frame == r.mem[r.ready[0]]
  {
    LineStart(r);
    assert r.ready[0] in Frames(umem);
  }

  lemma TailWithHead(g: Gather, r: R.Rx)
    requires GatherShows(g, r.chain, r.jobs)
    ensures g.head.Some? <==> g.tail.Some?
  {
  }

  lemma SupplyKeepsLine(r: R.Rx, u: R.Rx)
    requires LineOk(r) && u == r.(appBufs := u.appBufs)
    ensures LineOk(u)
  {
    assert RI.Line(u) == RI.Line(r);
  }

  lemma CopyUnfolds(r: R.Rx)
    requires r.ready != [] && r.appBufs != [] && LineOk(r)
    ensures R.TryCopy(r) == R.TryCopy(R.MoveOne(r)) && |R.MoveOne(r).ready| == |r.ready| - 1
    ensures LineOk(R.MoveOne(r))
  {
    RI.MoveOneKeepsLine(r);
  }

  lemma CopyEnds(r: R.Rx)
    requires r.ready == [] || r.appBufs == []
    ensures R.TryCopy(r) == r
  {
  }
}
