/**
 * One direction of a flow: a sender, a receiver, and a network that may drop, duplicate and reorder packets.
 *
 * The endpoints compute with 32-bit numbers. The state also carries a history that no endpoint reads: the unbounded
 * numbers of packets, the receiver's state when it made an acknowledgement, what the applications asked for. What is
 * assumed of the network and of time is only that nothing turns up so stale that its 32-bit number has come round again;
 * `ProtocolTheorems` says exactly when that happens.
 */
module Protocol {
  import opened SerialNumbers
  import opened Messages
  import opened SackBitmap
  import opened Packets
  import S = Sender
  import SI = SenderInvariants
  import SP = SenderProgress
  import SM = SenderMessages
  import SS = SenderSteps
  import R = Receiver
  import RI = ReceiverInvariants

  /** A packet in the network: a data packet with its unbounded number, or an acknowledgement with its maker's state. */
  datatype Tagged =
    | TData(n: nat, pkt: Packet)
    | TAck(pkt: Packet, at: R.Rx)

  datatype Sys = Sys(
    tx: S.Tx,
    rx: R.Rx,
    net: multiset<Tagged>,
    log: SI.TxLog,                // history of the sending side
    supplied: seq<R.AppBuf>,      // history: application buffers, in order
    rxFrames: set<Off>,           // all packet buffers of the receiving engine
    timeouts: seq<nat>)           // history: numbers the timer sent again

  datatype Step =
    | Submit(msg: seq<Byte>, bufs: seq<Off>, ctx: S.Ctx)
    | Append
    | Transmit(path: PathId)
    | DeliverData(pkt: Tagged, off: Off)
    | SendAck
    | DeliverAck(pkt: Tagged, env: S.Env)
    | Tick(env: S.Env)
    | Drop(pkt: Tagged)
    | Duplicate(pkt: Tagged)
    | Supply(buf: R.AppBuf)
    | CopyOut

  function Nxt(s: Sys): nat {
    SI.Nxt(s.tx, s.log)
  }

  function Rcv(s: Sys): nat {
    RI.Rcv(s.rx)
  }

  ghost predicate Enabled(s: Sys, step: Step) {
    match step
    case Submit(msg, bufs, ctx) => msg != [] && SM.FreeFor(s.tx, msg, bufs)
    case Append => s.tx.pending != [] && |s.tx.unsent| < S.MAX_TW_PKTS
    case Transmit(path) => s.tx.unsent != [] && S.Admits(s.tx, path)
    case DeliverData(t, off) => t in s.net && t.TData? && off in s.rx.pool && t.n >= Rcv(s) - (TWO32 - BITS)
    case SendAck => true
    case DeliverAck(t, env) =>
      && t in s.net && t.TAck? && RI.Rcv(t.at) > Nxt(s) - TWO32
      && (RI.Rcv(t.at) > s.log.una ==> SP.EntriesFresh(s.tx, RI.Rcv(t.at) - s.log.una))
    case Tick(env) => true
    case Drop(t) => t in s.net
    case Duplicate(t) => t in s.net
    case Supply(buf) => true
    case CopyOut => s.rx.jobs != []
  }

  /** What the code relies on without testing it: buffers it dereferences are in use, and counts match numbers. */
  ghost predicate Safe(s: Sys, step: Step) {
    match step
    case Append => S.CanAppend(s.tx)
    case Transmit(path) => s.tx.unsent != [] && s.tx.unsent[0] in s.tx.mem
    case DeliverData(t, off) => t.TData? && t.pkt.Data?
    case DeliverAck(t, env) => t.TAck? && t.pkt.Ack? && S.Tracked(s.tx) && S.Counted(s.tx)
    case Tick(env) => TimerSafe(s.tx)
    case CopyOut => RI.CanCopyOut(s.rx)
    case _ => true
  }

  /** Every entry of the next slot that will pass the timer's test names a buffer in use. */
  ghost predicate TimerSafe(t: S.Tx) {
    var slot := t.wheels[(t.tick + 1) % S.RTO_SLOTS];
    forall k :: 0 <= k < |slot| && SeqGe(slot[k].seqno, t.una) ==> slot[k].buf in t.mem
  }

  /** The unbounded number of a packet the sender has just sent. */
  function TrueNumber(una: nat, p: Packet): nat {
    if p.Data? then una + Sub(p.seqno, Wrap(una)) else 0
  }

  function Numbers(una: nat, out: seq<Packet>): seq<nat> {
    seq(|out|, i requires 0 <= i < |out| => TrueNumber(una, out[i]))
  }

  function Tags(una: nat, out: seq<Packet>): seq<Tagged> {
    seq(|out|, i requires 0 <= i < |out| => TData(TrueNumber(una, out[i]), out[i]))
  }

  /** The sender's state becomes `tx`, and what it has sent goes into the network. */
  function Flush(s: Sys, tx: S.Tx, log: SI.TxLog): Sys {
    s.(tx := tx.(out := []), log := log, net := s.net + multiset(Tags(log.una, tx.out)))
  }

  function Max(a: nat, b: nat): nat {
    if a >= b then a else b
  }

  /** The state after a step; a step that cannot be taken changes nothing. */
  ghost function Apply(s: Sys, step: Step): Sys {
    if !Enabled(s, step) || !Safe(s, step) then s
    else
      match step
      case Submit(msg, bufs, ctx) =>
        Flush(s, S.Submit(s.tx, msg, bufs, ctx), s.log.(msgs := s.log.msgs + [msg], asked := s.log.asked + [ctx]))
      case Append =>
        Flush(s, S.AppendOnce(s.tx), s.log.(stream := s.log.stream + S.FittingFrames(s.tx)))
      case Transmit(path) => Flush(s, S.TransmitOne(s.tx, path), s.log)
      case DeliverData(t, off) =>
        var rx := R.Consume(R.Land(s.rx, off, t.pkt.frame), off, t.pkt.seqno).0;
        s.(rx := rx, net := s.net - multiset{t})
      case SendAck => s.(net := s.net + multiset{TAck(R.CraftAck(s.rx), s.rx)})
      case DeliverAck(t, env) =>
        var tx := S.ProcessAck(s.tx, t.pkt.ackno, t.pkt.words, t.pkt.count, env);
        Flush(s.(net := s.net - multiset{t}), tx, s.log.(una := Max(s.log.una, RI.Rcv(t.at))))
      case Tick(env) =>
        var tx := S.PeriodicCheck(s.tx, env);
        Flush(s.(timeouts := s.timeouts + Numbers(s.log.una, tx.out)), tx, s.log)
      case Drop(t) => s.(net := s.net - multiset{t})
      case Duplicate(t) => s.(net := s.net + multiset{t})
      case Supply(buf) => s.(rx := R.Supply(s.rx, buf), supplied := s.supplied + [buf])
      case CopyOut => s.(rx := R.CopyOut(s.rx))
  }

  /** If a step is taken where the code's own assumptions fail, anything may follow. */
  ghost predicate Next(s: Sys, step: Step, s': Sys) {
    Enabled(s, step) && (Safe(s, step) ==> s' == Apply(s, step))
  }

  ghost predicate Init(s: Sys) {
    && s.tx == S.Initial(s.tx.pool) && |s.tx.pool| <= NUM_FRAMES
    && s.rx == R.Initial(s.rxFrames)
    && s.net == multiset{} && s.log == SI.TxLog(0, [], [], []) && s.supplied == [] && s.timeouts == []
  }

  ghost predicate Run(states: seq<Sys>, steps: seq<Step>) {
    && |states| == |steps| + 1
    && Init(states[0])
    && forall i :: 0 <= i < |steps| ==> Next(states[i], steps[i], states[i + 1])
  }

  // ----- The invariant -----

  ghost predicate PacketOk(s: Sys, t: Tagged) {
    match t
    case TData(n, pkt) => n < Nxt(s) && n < |s.log.stream| && pkt == Data(Wrap(n), s.log.stream[n])
    case TAck(pkt, at) =>
      && pkt == R.CraftAck(at)
      && RI.Reordered(at, s.log.stream, Nxt(s)) && RI.Mapped(at) && at.rcvNxt !in at.reass
      && RI.Rcv(at) <= Rcv(s)
  }

  ghost predicate NetOk(s: Sys) {
    forall t :: t in s.net ==> PacketOk(s, t)
  }

  ghost predicate SysInv(s: Sys) {
    && SS.TxInv(s.tx, s.log) && s.tx.out == []
    && RI.RxState(s.rx, s.log.stream, Nxt(s), s.supplied, s.rxFrames)
    && s.log.una <= Rcv(s)
    && NetOk(s)
  }
}
