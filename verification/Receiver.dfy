/**
 * The receiving half of a flow: reordering by sequence number, the acknowledgement bitmap, the queue of frames in order,
 * and the hand-over of whole messages to application buffers.
 */
module Receiver {
  import opened SerialNumbers
  import opened Messages
  import opened SackBitmap
  import opened Packets

  /** A buffer an application supplies for one message. */
  type AppBuf = nat

  /** A whole message, as packet buffers, on its way to an application buffer. */
  datatype Job = Job(buf: AppBuf, frames: seq<Off>)

  datatype Delivery = Delivery(buf: AppBuf, bytes: seq<Byte>)

  datatype ConsumeRet = OldPkt | OooUntrackable | OooTrackableDup | OooTrackableExpectedOrInOrder

  datatype Rx = Rx(
    rcvNxt: U32,
    words: Words,
    count: U8,                    // an 8-bit count of the bits of a 1024-bit map
    reass: map<U32, Off>,         // frames received ahead of their turn
    mem: map<Off, Frame>,         // buffers held, with their contents
    pool: set<Off>,               // free buffers
    ready: seq<Off>,              // frames in order, waiting for an application buffer
    chain: seq<Off>,              // the front of a message whose buffer is known
    appBufs: seq<AppBuf>,
    jobs: seq<Job>,
    pushed: seq<Frame>,           // log: every frame put on the ready queue
    delivered: seq<Delivery>)     // log: every message copied out

  function Initial(frames: set<Off>): Rx {
    Rx(0, ZeroWords(), 0, map[], map[], frames, [], [], [], [], [], [])
  }

  // ----- Buffers -----

  /** A packet's payload lands in a free buffer. */
  function Land(r: Rx, off: Off, frame: Frame): Rx {
    r.(mem := r.mem[off := frame], pool := r.pool - {off})
  }

  function Free(r: Rx, off: Off): Rx {
    r.(mem := r.mem - {off}, pool := r.pool + {off})
  }

  // ----- From frames in order to messages -----

  /** The oldest ready frame joins the message being gathered for the first waiting buffer. */
  function MoveOne(r: Rx): Rx
    requires r.ready != [] && r.appBufs != []
  {
    var off := r.ready[0];
    var chain := r.chain + [off];
    if off in r.mem && r.mem[off].last then
      r.(ready := r.ready[1..], chain := [], appBufs := r.appBufs[1..], jobs := r.jobs + [Job(r.appBufs[0], chain)])
    else
      r.(ready := r.ready[1..], chain := chain)
  }

  function TryCopy(r: Rx): Rx
    decreases |r.ready|
  {
    if r.ready == [] || r.appBufs == [] then r else TryCopy(MoveOne(r))
  }

  /** An application supplies a buffer. */
  function Supply(r: Rx, buf: AppBuf): Rx {
    TryCopy(r.(appBufs := r.appBufs + [buf]))
  }

  function FramesIn(mem: map<Off, Frame>, offs: seq<Off>): seq<Frame>
    requires forall i :: 0 <= i < |offs| ==> offs[i] in mem
  {
    seq(|offs|, i requires 0 <= i < |offs| => mem[offs[i]])
  }

  /** The oldest whole message is copied to its application buffer and its packet buffers are freed. */
  function CopyOut(r: Rx): Rx
    requires r.jobs != [] && forall i :: 0 <= i < |r.jobs[0].frames| ==> r.jobs[0].frames[i] in r.mem
  {
    var job := r.jobs[0];
    r.(jobs := r.jobs[1..],
       delivered := r.delivered + [Delivery(job.buf, Join(Payloads(FramesIn(r.mem, job.frames))))],
       mem := r.mem - AsSet(job.frames),
       pool := r.pool + AsSet(job.frames))
  }

  // ----- Receiving -----

  /** The frame whose turn it is goes from the reordering map to the ready queue. */
  function Enqueue(r: Rx): Rx
    requires r.rcvNxt in r.reass
  {
    var off := r.reass[r.rcvNxt];
    r.(reass := r.reass - {r.rcvNxt},
       ready := r.ready + [off],
       pushed := r.pushed + if off in r.mem then [r.mem[off]] else [])
  }

  /** The next expected number moves on, and the bitmap with it. */
  function Advance(r: Rx): Rx {
    var n: int := r.count;
    r.(rcvNxt := (r.rcvNxt + 1) % TWO32, words := ShiftLeftOne(r.words), count := (n - 1) % 0x100)
  }

  lemma TryCopyOnly(r: Rx)
    ensures var u := TryCopy(r);
      u == r.(ready := u.ready, chain := u.chain, appBufs := u.appBufs, jobs := u.jobs)
    decreases |r.ready|
  {
    if r.ready != [] && r.appBufs != [] {
      TryCopyOnly(MoveOne(r));
    }
  }

  function PushInOrder(r: Rx): Rx
    decreases |r.reass|
  {
    if r.rcvNxt !in r.reass then r
    else
      TryCopyOnly(Enqueue(r));
      assert (r.reass - {r.rcvNxt}).Keys == r.reass.Keys - {r.rcvNxt};
      PushInOrder(Advance(TryCopy(Enqueue(r))))
  }

  /** Buffer a frame under its sequence number and mark it in the bitmap. */
  function Buffer(r: Rx, off: Off, seqno: U32): Rx
    requires Sub(seqno, r.rcvNxt) < BITS
  {
    var n: int := r.count;
    r.(reass := r.reass[seqno := off],
       words := BitSet(r.words, Sub(seqno, r.rcvNxt)),
       count := (n + 1) % 0x100)
  }

  function Classify(r: Rx, seqno: U32): ConsumeRet {
    if SeqLt(seqno, r.rcvNxt) then OldPkt
    else if Sub(seqno, r.rcvNxt) >= BITS then OooUntrackable
    else if seqno != r.rcvNxt && seqno in r.reass then OooTrackableDup
    else OooTrackableExpectedOrInOrder
  }

  /** Take in the data packet that lies in buffer `off`. */
  function Consume(r: Rx, off: Off, seqno: U32): (Rx, ConsumeRet) {
    var ret := Classify(r, seqno);
    if ret == OooTrackableExpectedOrInOrder then (PushInOrder(Buffer(r, off, seqno)), ret) else (Free(r, off), ret)
  }

  function CraftAck(r: Rx): Packet {
    Ack(r.rcvNxt, r.words, r.count)
  }
}
