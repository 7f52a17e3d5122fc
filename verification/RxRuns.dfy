/** The receiving objects meet the protocol: every method takes a sound state to the sound state of its step. */
module RxRuns {
  import opened SerialNumbers
  import opened Messages
  import opened Packets
  import opened TxTracking
  import opened RxTracking
  import Q = ReassemblyQueue
  import Pcb
  import R = Receiver
  import RI = ReceiverInvariants

  /** The object holds a state that is sound for the stream, of which `sent` frames were sent. */
  ghost predicate Embodies(rx: RxTracking, r: R.Rx, stream: seq<Frame>, sent: nat, supplied: seq<R.AppBuf>,
                           frames: set<Off>)
    reads rx, rx.Repr()
  {
    rx.Shows(r) && RI.RxState(r, stream, sent, supplied, frames)
  }

  method StartReceiver(frames: set<Off>) returns (rx: RxTracking)
    ensures fresh(rx) && fresh(rx.Repr()) && Embodies(rx, R.Initial(frames), [], 0, [], frames)
  {
    hide RI.RxState, GatherShows;
    var socket := new Socket(frames);
    var pcb := new Pcb.Pcb();
    rx := new RxTracking(socket, pcb);
    RI.InitialRxState(frames);
  }

  lemma LandShows(g: Gather, off: Off, b: FrameBuf, r: R.Rx, frames: set<Off>)
    requires GatherShows(g, r.chain, r.jobs) && Frames(g.umem) == r.mem && RI.Held(r, frames) && off in r.pool
    ensures off !in g.umem && GatherShows(g.(umem := g.umem[off := b]), r.chain, r.jobs)
    ensures Frames(g.umem[off := b]) == r.mem[off := b.frame]
  {
    assert off !in r.mem && off !in Frames(g.umem);
    hide RI.Held;
    var m := g.umem[off := b];
    forall i | 0 <= i < |r.chain|
      ensures ChainedAt(m, r.chain, i)
    {
      assert ChainedAt(g.umem, r.chain, i);
    }
    forall j | 0 <= j < |r.jobs|
      ensures WorkShows(m, g.works[j], r.jobs[j])
    {
      assert WorkShows(g.umem, g.works[j], r.jobs[j]);
      forall i | 0 <= i < |r.jobs[j].frames|
        ensures LinkAt(m, r.jobs[j].frames, i)
      {
        assert LinkAt(g.umem, r.jobs[j].frames, i);
      }
    }
  }

  /** The packet of frame `n` arrives in a free buffer and is taken in or dropped. */
  method HandleData(rx: RxTracking, off: Off, seqno: U32, frame: Frame, ghost n: nat, ghost r: R.Rx,
                    ghost stream: seq<Frame>, ghost sent: nat, ghost supplied: seq<R.AppBuf>, ghost frames: set<Off>)
    returns (ret: R.ConsumeRet)
    requires Embodies(rx, r, stream, sent, supplied, frames) && off in r.pool
    requires n < sent <= |stream| && RI.Current(r, n) && seqno == Wrap(n) && frame == stream[n]
    modifies rx.Repr()
    ensures Embodies(rx, R.Consume(R.Land(r, off, frame), off, seqno).0, stream, sent, supplied, frames)
    ensures ret == R.Classify(r, seqno)
  {
    hide RI.RxState, GatherShows, Frames, Q.Holds, R.PushInOrder, R.Buffer, RI.Held, SeqLt, Sub;
    RI.ConsumeStep(r, off, n, stream, sent, supplied, frames);
    StateGives(r, stream, sent, supplied, frames);
    LandShows(rx.Gathering(), off, FrameBuf(None, seqno, frame), r, frames);
    rx.socket.Receive(off, seqno, frame);
    ret := rx.Consume(off, r, R.Land(r, off, frame), frames);
  }

  lemma StateGives(r: R.Rx, stream: seq<Frame>, sent: nat, supplied: seq<R.AppBuf>, frames: set<Off>)
    requires RI.RxState(r, stream, sent, supplied, frames)
    ensures RI.Held(r, frames) && r.rcvNxt !in r.reass
    ensures r.jobs != [] ==> RI.CanCopyOut(r)
  {
  }

  /** An application supplies a buffer. */
  method HandleSupply(rx: RxTracking, buf: R.AppBuf, ghost r: R.Rx, ghost stream: seq<Frame>, ghost sent: nat,
                      ghost supplied: seq<R.AppBuf>, ghost frames: set<Off>)
    requires Embodies(rx, r, stream, sent, supplied, frames)
    modifies rx.Repr()
    ensures Embodies(rx, R.Supply(r, buf), stream, sent, supplied + [buf], frames)
  {
    hide RI.RxState, GatherShows, Frames, Q.Holds, R.TryCopy, RI.Held, LineOk;
    RI.SupplyStep(r, buf, stream, sent, supplied, frames);
    StateGives(r, stream, sent, supplied, frames);
    HeldGivesLine(r, frames);
    R.TryCopyOnly(r.(appBufs := r.appBufs + [buf]));
    rx.TryCopyMsgbufToAppbuf(Some(buf), r);
  }

  /** A whole message is copied into its application buffer. */
  method HandleCopy(rx: RxTracking, ghost r: R.Rx, ghost stream: seq<Frame>, ghost sent: nat,
                    ghost supplied: seq<R.AppBuf>, ghost frames: set<Off>)
    requires Embodies(rx, r, stream, sent, supplied, frames) && rx.rxDeserQ != []
    modifies rx.Repr()
    ensures RI.CanCopyOut(r) && Embodies(rx, R.CopyOut(r), stream, sent, supplied, frames)
  {
    WorksAreJobs(rx.Gathering(), r);
    hide RI.RxState, GatherShows, Frames, Q.Holds, R.CopyOut, RI.Held;
    RI.CopyOutStep(r, stream, sent, supplied, frames);
    StateGives(r, stream, sent, supplied, frames);
    rx.CopyToApp(r, frames);
  }

  lemma WorksAreJobs(g: Gather, r: R.Rx)
    requires GatherShows(g, r.chain, r.jobs)
    ensures |g.works| == |r.jobs|
  {
  }

  /** The acknowledgement reports the expected number, the bitmap and its count. */
  method CraftAck(rx: RxTracking, ghost r: R.Rx) returns (ack: Packet)
    requires rx.Shows(r)
    ensures ack == R.CraftAck(r)
  {
    ack := Ack(rx.pcb.rcvNxt, rx.pcb.sackBitmap[..], rx.pcb.sackBitmapCount);
  }
}
