/**
 * The sending half of a flow as a state and the steps the engine takes on it. Sequence numbers are the 32-bit numbers
 * of the wire. The linked chain of packet buffers is a sequence here; `TxTracking` holds the chain itself.
 */
module Sender {
  import opened SerialNumbers
  import opened Messages
  import opened SackBitmap
  import opened Packets
  import PathAccounting
  import Cubic

  const DUP_ACK_THRES := 10
  const RTO_EXPIRE_TICKS := 3
  const RTO_SLOTS := 4
  const RTO_MAX_CONSECUTIVE := 102400
  const MAX_TW_PKTS := 1024
  const SWITCH_PATH_THRES := 1

  function MaxUnackedPerEngine(): nat {
    PLATFORM.maxUnackedPp * PLATFORM.maxPath
  }

  /** A completion context the application waits on. */
  type Ctx = nat

  /** The contents of a packet buffer: the header's sequence number, the message flags and the payload. */
  datatype Cell = Cell(seqno: U32, frame: Frame)

  /** An entry of the retransmission wheel: a buffer pointer and a sequence number. */
  datatype Ent = Ent(buf: Off, seqno: U32)

  /** A message whose frames have been made but not all handed to the transmit chain. */
  datatype Pending = Pending(chunks: seq<Off>, len: nat, offset: nat, ctx: Ctx)

  type Tick = n: nat | n < RTO_SLOTS witness 0

  type Wheels = w: seq<seq<Ent>> | |w| == RTO_SLOTS witness seq(RTO_SLOTS, _ => [])

  /** One congestion window for each path, each capped at the packets a path may have in flight. */
  type Windows = w: seq<Cubic.Window> | |w| == PLATFORM.maxPath && forall i :: 0 <= i < |w| ==> WindowOk(w[i])
    witness seq(PLATFORM.maxPath, _ => Cubic.Initial(PLATFORM.maxUnackedPp))

  predicate WindowOk(w: Cubic.Window) {
    Cubic.Bounded(w) && w.maxCwnd == PLATFORM.maxUnackedPp as real
  }

  datatype Tx = Tx(
    mem: map<Off, Cell>,          // buffers in use
    pool: set<Off>,               // free buffers
    pending: seq<Pending>,
    unacked: seq<Off>,            // sent, not acknowledged
    unsent: seq<Off>,
    hasHead: bool,                // is the oldest-unacknowledged pointer set?
    ctxs: seq<Ctx>,               // contexts of messages under way, oldest first
    done: seq<Ctx>,               // contexts marked done, in that order
    una: U32,
    nxt: U32,
    dupAcks: U16,
    oooAcks: U32,
    rtoConsecutive: U16,
    tick: Tick,
    wheels: Wheels,
    paths: PathAccounting.Paths,
    windows: Windows,
    out: seq<Packet>)             // packets handed to the network

  function Initial(frames: set<Off>): Tx {
    Tx(map[], frames, [], [], [], false, [], [], 0, 0, 0, 0, 0, 0, seq(RTO_SLOTS, _ => []), PathAccounting.Empty(),
       seq(PLATFORM.maxPath, _ => Cubic.Initial(PLATFORM.maxUnackedPp)), [])
  }

  /** What the environment supplies while an acknowledgement or a timer tick is handled. */
  datatype Env = Env(
    unpulled: nat,                // transmissions the kernel has not completed
    txqFree: nat,                 // free entries of the send ring
    pick: nat -> PathId,          // the path chosen for the i-th retransmission
    samples: nat -> Cubic.Sample)

  // ----- Retransmission wheel -----

  function ReadySlot(tick: nat): nat {
    (tick + RTO_EXPIRE_TICKS) % RTO_SLOTS
  }

  function AddToWheel(t: Tx, buf: Off, seqno: U32): Tx {
    t.(wheels := t.wheels[ReadySlot(t.tick) := t.wheels[ReadySlot(t.tick)] + [Ent(buf, seqno)]])
  }

  // ----- Transmission -----

  /** Write the header of a buffer and hand it to the network. */
  function SendBuffer(t: Tx, buf: Off, seqno: U32): Tx
    requires buf in t.mem
  {
    t.(mem := t.mem[buf := t.mem[buf].(seqno := seqno)],
       out := t.out + [Data(seqno, t.mem[buf].frame)])
  }

  /** A path may take one more packet if its counter stays within its window. */
  predicate Admits(t: Tx, path: PathId) {
    t.paths.pp[path] + SWITCH_PATH_THRES <= t.windows[path].cwnd.Floor
  }

  /** Send the oldest unsent buffer on `path` under the next sequence number. */
  function TransmitOne(t: Tx, path: PathId): Tx
    requires t.unsent != [] && t.unsent[0] in t.mem
  {
    var buf, seqno := t.unsent[0], t.nxt;
    var t1 := t.(unacked := t.unacked + [buf], unsent := t.unsent[1..], hasHead := true,
                 nxt := (seqno + 1) % TWO32, paths := PathAccounting.Sent(t.paths, seqno, path));
    AddToWheel(SendBuffer(t1, buf, seqno), buf, seqno)
  }

  /** Send a buffer again on `path` under the sequence number it already has. */
  function Retransmit(t: Tx, buf: Off, seqno: U32, path: PathId): Tx {
    if buf !in t.mem then t
    else AddToWheel(SendBuffer(t.(paths := PathAccounting.Moved(t.paths, seqno, path)), buf, seqno), buf, seqno)
  }

  // ----- Acknowledgements -----

  /** Release the oldest unacknowledged buffer; a message's final buffer completes the oldest context. */
  function AckOne(t: Tx): Tx
    requires t.unacked != []
  {
    var buf := t.unacked[0];
    var completes := buf in t.mem && t.mem[buf].frame.last && t.ctxs != [];
    t.(unacked := t.unacked[1..],
       hasHead := |t.unacked| + |t.unsent| > 1,
       ctxs := if completes then t.ctxs[1..] else t.ctxs,
       done := if completes then t.done + [t.ctxs[0]] else t.done,
       mem := t.mem - {buf},
       pool := t.pool + {buf})
  }

  /** The transmit chain: buffers in flight, then buffers not yet sent. */
  function Chain(t: Tx): seq<Off> {
    t.unacked + t.unsent
  }

  /** Every buffer of the chain is in use, and none is in it twice. */
  predicate Tracked(t: Tx) {
    && Distinct(Chain(t))
    && forall i :: 0 <= i < |Chain(t)| ==> Chain(t)[i] in t.mem
  }

  lemma AckOneKeepsTracked(t: Tx)
    requires t.unacked != [] && Tracked(t)
    ensures Tracked(AckOne(t))
  {
    var c, d := Chain(t), Chain(AckOne(t));
    assert d == c[1..];
    forall i | 0 <= i < |d|
      ensures d[i] in AckOne(t).mem
    {
      assert d[i] == c[i + 1] && c[i + 1] != c[0];
    }
  }

  function ReceiveAcks(t: Tx, k: nat): Tx
    requires k <= |t.unacked| && Tracked(t)
    decreases k
  {
    if k == 0 then t
    else
      AckOneKeepsTracked(t);
      ReceiveAcks(AckOne(t), k - 1)
  }

  function GrowWindow(w: Windows, path: PathId, distance: nat, s: Cubic.Sample): Windows {
    Cubic.AckKeepsBounds(w[path], distance, s);
    w[path := Cubic.OnAck(w[path], distance, s)]
  }

  function ShrinkWindow(w: Windows, path: PathId): Windows {
    Cubic.LossKeepsBounds(w[path]);
    w[path := Cubic.OnLoss(w[path])]
  }

  /**
   * Take packets `i..k` past number `una` off the counters of their paths, and grow the window of a path once for each
   * stretch of `accumulated` packets on it.
   */
  function SettlePaths(p: PathAccounting.Paths, w: Windows, una: U32, i: nat, k: nat, last: Option<PathId>,
                       accumulated: nat, env: Env): (PathAccounting.Paths, Windows)
    requires i <= k
    decreases k - i
  {
    if i == k then
      (p, if last.Some? && accumulated > 0 then GrowWindow(w, last.value, accumulated, env.samples(k)) else w)
    else
      var seqno: U32 := (una + i) % TWO32;
      var path := PathAccounting.PathOf(p, seqno);
      var switch := last.Some? && last.value != path;
      var w1 := if switch then GrowWindow(w, last.value, accumulated, env.samples(i)) else w;
      SettlePaths(PathAccounting.Acked(p, seqno), w1, una, i + 1, k, Some(path),
                  (if switch then 0 else accumulated) + 1, env)
  }

  /** An acknowledgement of the first `k` packets in flight. */
  function AcceptAck(t: Tx, ackno: U32, k: nat, env: Env): Tx
    requires k <= |t.unacked| && Tracked(t)
  {
    var (paths, windows) := SettlePaths(t.paths, t.windows, t.una, 0, k, None, 0, env);
    ReceiveAcks(t, k).(una := ackno, dupAcks := 0, oooAcks := 0, rtoConsecutive := 0, paths := paths,
                       windows := windows)
  }

  /** Send the oldest packet in flight again. */
  function FastRetransmit(t: Tx, path: PathId): Tx {
    if t.hasHead && t.una != t.nxt && Chain(t) != [] then
      Retransmit(t, Chain(t)[0], t.una, path)
    else t
  }

  /**
   * Walk the chain from its head beside the bitmap, sending every packet whose bit is clear, until `left` set bits have
   * been seen, the chain ends or the budget is used up.
   */
  function Recover(t: Tx, words: Words, i: nat, left: nat, budget: nat, env: Env): Tx
    requires budget <= BITS
    decreases budget - i
  {
    if left == 0 || i >= budget || i >= |Chain(t)| then t
    else if TestBit(words, i) then Recover(t, words, i + 1, left - 1, budget, env)
    else Recover(RecoverOne(t, i, env.pick(i)), words, i + 1, left, budget, env)
  }

  /** Send the `i`-th buffer of the chain again if its header carries the number its place calls for. */
  function RecoverOne(t: Tx, i: nat, path: PathId): Tx
    requires i < |Chain(t)|
  {
    var buf := Chain(t)[i];
    var seqno: U32 := (t.una + i) % TWO32;
    if buf in t.mem && t.mem[buf].seqno == seqno then Retransmit(t, buf, seqno, path) else t
  }

  function FastRecovery(t: Tx, words: Words, count: U16, env: Env): Tx {
    var cap := MaxUnackedPerEngine();
    if !t.hasHead || env.unpulled > cap || |t.unacked| >= cap then t
    else Recover(t, words, 0, count, Min(Min(env.txqFree, cap - |t.unacked|), BITS), env)
  }

  function DuplicateAck(t: Tx, words: Words, count: U16, env: Env): Tx {
    var n: int := t.dupAcks;
    var t1 := t.(dupAcks := (n + 1) % 0x1_0000, oooAcks := count);
    if t1.dupAcks < DUP_ACK_THRES then t1
    else if t1.dupAcks == DUP_ACK_THRES then FastRetransmit(t1, env.pick(0))
    else FastRecovery(t1, words, count, env)
  }

  /** The packets in flight are as many as the two sequence numbers say. */
  predicate Counted(t: Tx) {
    |t.unacked| < TWO31 && Sub(t.nxt, t.una) == |t.unacked|
  }

  /** An acknowledgement that passes the range test covers packets in flight only. */
  lemma AcceptedAckIsInFlight(t: Tx, ackno: U32)
    requires Counted(t)
    requires !SeqLt(ackno, t.una) && !SeqGt(ackno, t.nxt)
    ensures Sub(ackno, t.una) <= |t.unacked|
  {
    SubIsCyclic(ackno, t.una);
    SubIsCyclic(t.nxt, t.una);
    SubIsCyclic(ackno, t.nxt);
  }

  function ProcessAck(t: Tx, ackno: U32, words: Words, count: U16, env: Env): Tx
    requires Tracked(t) && Counted(t)
  {
    if SeqLt(ackno, t.una) then t
    else if SeqEq(ackno, t.una) then DuplicateAck(t, words, count, env)
    else if SeqGt(ackno, t.nxt) then t
    else
      AcceptedAckIsInFlight(t, ackno);
      AcceptAck(t, ackno, Sub(ackno, t.una), env)
  }

  // ----- Retransmission timer -----

  function RtoRetransmit(t: Tx, buf: Off, seqno: U32, path: PathId): Tx {
    var t1 := Retransmit(t, buf, seqno, path);
    var n: int := t1.rtoConsecutive;
    t1.(rtoConsecutive := (n + 1) % 0x1_0000,
        windows := ShrinkWindow(t1.windows, PathAccounting.PathOf(t1.paths, seqno)))
  }

  /** Handle the head of the slot that has come due. */
  function FireOne(t: Tx, path: PathId): Tx
    requires t.wheels[t.tick] != []
  {
    var e := t.wheels[t.tick][0];
    var t1 := t.(wheels := t.wheels[t.tick := t.wheels[t.tick][1..]]);
    if SeqGe(e.seqno, t.una) then RtoRetransmit(t1, e.buf, e.seqno, path) else t1
  }

  /** A retransmission is put into another slot, so the slot being drained gets shorter. */
  lemma FireOneShortensSlot(t: Tx, path: PathId)
    requires t.wheels[t.tick] != []
    ensures FireOne(t, path).tick == t.tick
    ensures FireOne(t, path).wheels[t.tick] == t.wheels[t.tick][1..]
  {
    assert ReadySlot(t.tick) != t.tick;
  }

  function Drain(t: Tx, i: nat, env: Env): Tx
    decreases |t.wheels[t.tick]|
  {
    if t.wheels[t.tick] == [] then t
    else
      FireOneShortensSlot(t, env.pick(i));
      Drain(FireOne(t, env.pick(i)), i + 1, env)
  }

  /** The test that gives the flow up compares a 16-bit counter with a larger limit. */
  predicate GivesUp(t: Tx) {
    t.rtoConsecutive >= RTO_MAX_CONSECUTIVE
  }

  /** One tick of the slow timer. */
  function PeriodicCheck(t: Tx, env: Env): Tx {
    if GivesUp(t) then t else Drain(t.(tick := (t.tick + 1) % RTO_SLOTS), 0, env)
  }

  // ----- From messages to the transmit chain -----

  function PayloadsIn(mem: map<Off, Cell>, bufs: seq<Off>): seq<seq<Byte>>
    requires forall b :: b in bufs ==> b in mem
  {
    seq(|bufs|, i requires 0 <= i < |bufs| => mem[bufs[i]].frame.payload)
  }

  /** Write frames into buffers, from the first on. */
  function PutFrames(mem: map<Off, Cell>, bufs: seq<Off>, frames: seq<Frame>): map<Off, Cell>
    requires |bufs| == |frames|
    decreases |bufs|
  {
    if bufs == [] then mem
    else
      var cell := if bufs[0] in mem then mem[bufs[0]].(frame := frames[0]) else Cell(0, frames[0]);
      PutFrames(mem[bufs[0] := cell], bufs[1..], frames[1..])
  }

  /** The pieces of a message as they lie in fresh buffers, not yet flagged. */
  function Unflagged(pieces: seq<seq<Byte>>): seq<Frame> {
    seq(|pieces|, i requires 0 <= i < |pieces| => Frame(pieces[i], false, false))
  }

  /** The message is copied into buffers `bufs` taken from the pool and queued. */
  function Submit(t: Tx, msg: seq<Byte>, bufs: seq<Off>, ctx: Ctx): Tx
    requires |bufs| == |Chunks(msg)|
  {
    t.(mem := PutFrames(t.mem, bufs, Unflagged(Chunks(msg))),
       pool := t.pool - AsSet(bufs),
       pending := t.pending + [Pending(bufs, |msg|, 0, ctx)])
  }

  /** A queued message holds the buffers of exactly the bytes still to go, and there are some. */
  predicate PendingOk(mem: map<Off, Cell>, p: Pending) {
    && p.chunks != []
    && (forall b :: b in p.chunks ==> b in mem)
    && p.offset < p.len
    && Total(PayloadsIn(mem, p.chunks)) == p.len - p.offset
    && forall i :: 0 <= i < |p.chunks| ==> |mem[p.chunks[i]].frame.payload| > 0
  }

  /** The frames a queued message will still contribute to the transmit chain. */
  function FramesToCome(mem: map<Off, Cell>, p: Pending): seq<Frame>
    requires PendingOk(mem, p)
  {
    Flagged(PayloadsIn(mem, p.chunks), p.len, p.len - p.offset)
  }

  /** How many buffers of the first queued message fit behind the unsent ones. */
  function Fitting(t: Tx): nat
    requires t.pending != [] && |t.unsent| < MAX_TW_PKTS
  {
    Min(|t.pending[0].chunks|, MAX_TW_PKTS - |t.unsent|)
  }

  predicate CanAppend(t: Tx) {
    t.pending != [] && |t.unsent| < MAX_TW_PKTS && PendingOk(t.mem, t.pending[0])
  }

  lemma {:induction false} FlaggedLength(pieces: seq<seq<Byte>>, len: nat, remaining: nat)
    requires Total(pieces) <= remaining
    ensures |Flagged(pieces, len, remaining)| == |pieces|
  {
    if pieces != [] {
      FlaggedLength(pieces[1..], len, remaining - |pieces[0]|);
    }
  }

  /** The frames that fit. */
  function FittingFrames(t: Tx): (frames: seq<Frame>)
    requires CanAppend(t)
    ensures |frames| == Fitting(t) > 0
  {
    var p := t.pending[0];
    FlaggedLength(PayloadsIn(t.mem, p.chunks), p.len, p.len - p.offset);
    FramesToCome(t.mem, p)[..Fitting(t)]
  }

  /** The first queued message without the buffers that fit. */
  function Shortened(t: Tx): Pending
    requires CanAppend(t)
  {
    var p, n := t.pending[0], Fitting(t);
    p.(chunks := p.chunks[n..], offset := p.offset + Total(PayloadsIn(t.mem, p.chunks[..n])))
  }

  /** Flag as many buffers of the first queued message as fit, and append them to the transmit chain. */
  function AppendOnce(t: Tx): Tx
    requires CanAppend(t)
  {
    var p, n := t.pending[0], Fitting(t);
    var frames := FittingFrames(t);
    t.(mem := PutFrames(t.mem, p.chunks[..n], frames),
       unsent := t.unsent + p.chunks[..n],
       ctxs := if frames[0].first then t.ctxs + [p.ctx] else t.ctxs,
       pending := if n == |p.chunks| then t.pending[1..] else [Shortened(t)] + t.pending[1..])
  }
}
