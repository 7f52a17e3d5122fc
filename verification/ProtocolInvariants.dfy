/** Every step of the protocol is safe in every reachable state and keeps the invariant. */
module ProtocolInvariants {
  import opened SerialNumbers
  import opened Messages
  import opened SackBitmap
  import opened Packets
  import opened Protocol
  import S = Sender
  import SI = SenderInvariants
  import SP = SenderProgress
  import SM = SenderMessages
  import SS = SenderSteps
  import R = Receiver
  import RI = ReceiverInvariants

  lemma SenderPart(s: Sys)
    requires SysInv(s)
    ensures SS.TxInv(s.tx, s.log) && SI.Inv(s.tx, s.log) && SM.MsgInv(s.tx, s.log) && s.tx.out == []
  {
    hide RI.RxState, NetOk;
    SS.TxInvParts(s.tx, s.log);
  }

  // ----- Sender's steps -----

  /** What the sender puts into the network carries the frames of its numbers. */
  lemma TagsAreSound(t: S.Tx, log: SI.TxLog, x: Tagged)
    requires SI.Inv(t, log) && x in multiset(Tags(log.una, t.out))
    ensures x.TData? && x.n < SI.Nxt(t, log) && x.n < |log.stream| && x.pkt == Data(Wrap(x.n), log.stream[x.n])
  {
    var tags := Tags(log.una, t.out);
    assert x in tags;
    var i :| 0 <= i < |t.out| && tags[i] == x;
    assert SI.Sound(t, log, t.out[i]);
    SI.WrapOfSub(t.out[i].seqno, t.una, log.una);
  }

  /** Packets stay sound while the stream and the numbers sent grow. */
  lemma PacketsStaySound(s: Sys, u: Sys, t: Tagged)
    requires PacketOk(s, t) && s.log.stream <= u.log.stream && Nxt(s) <= Nxt(u) <= |u.log.stream| && Rcv(s) <= Rcv(u)
    ensures PacketOk(u, t)
  {
    if t.TAck? {
      RI.ReorderedGrows(t.at, s.log.stream, Nxt(s), u.log.stream, Nxt(u));
    }
  }

  lemma NxtWithinStream(t: S.Tx, log: SI.TxLog)
    requires SS.TxInv(t, log)
    ensures SI.Nxt(t, log) <= |log.stream|
  {
  }

  /** A step of the sender that keeps its invariant and loses nothing keeps the whole. */
  lemma FlushKeeps(s: Sys, tx: S.Tx, log: SI.TxLog)
    requires SysInv(s) && SS.TxInv(tx, log)
    requires s.log.stream <= log.stream && Nxt(s) <= SI.Nxt(tx, log) && log.una <= Rcv(s)
    ensures SysInv(Flush(s, tx, log))
  {
    var u := Flush(s, tx, log);
    SS.TxInvParts(tx, log);
    NxtWithinStream(tx, log);
    SS.ClearOutKeepsTxInv(tx, log);
    assert Nxt(u) == SI.Nxt(tx, log);
    hide SS.TxInv, SI.Inv, SM.MsgInv, RI.RxState, PacketOk, Tags;
    RI.RxStateGrows(s.rx, s.log.stream, Nxt(s), log.stream, Nxt(u), s.supplied, s.rxFrames);
    forall t | t in u.net
      ensures PacketOk(u, t)
    {
      if t in s.net {
        PacketsStaySound(s, u, t);
      } else {
        TagsAreSound(tx, log, t);
        DataPacketOk(u, t);
      }
    }
  }

  lemma DataPacketOk(u: Sys, t: Tagged)
    requires t.TData? && t.n < Nxt(u) && t.n < |u.log.stream| && t.pkt == Data(Wrap(t.n), u.log.stream[t.n])
    ensures PacketOk(u, t)
  {
  }

  lemma ForgetPacket(s: Sys, net: multiset<Tagged>)
    requires SysInv(s) && net <= s.net
    ensures SysInv(s.(net := net))
  {
    var u := s.(net := net);
    hide SS.TxInv, RI.RxState;
    forall t | t in u.net
      ensures PacketOk(u, t)
    {
      assert t in s.net;
      PacketsAlike(s, u, t);
    }
  }

  lemma PacketsAlike(s: Sys, u: Sys, t: Tagged)
    requires PacketOk(s, t) && u.log.stream == s.log.stream && Nxt(u) == Nxt(s) && Rcv(u) == Rcv(s)
    ensures PacketOk(u, t)
  {
  }

  /** History that no predicate reads. */
  lemma HistoryDoesNotMatter(s: Sys, timeouts: seq<nat>)
    requires SysInv(s)
    ensures SysInv(s.(timeouts := timeouts))
  {
    var u := s.(timeouts := timeouts);
    hide SS.TxInv, RI.RxState;
    forall t | t in u.net
      ensures PacketOk(u, t)
    {
      PacketsAlike(s, u, t);
    }
  }

  // ----- Acknowledgements -----

  /** A bit of an acknowledgement is set exactly when its maker held that frame. */
  lemma BitsAreHeld(at: R.Rx, i: nat)
    requires RI.Mapped(at) && at.rcvNxt == Wrap(RI.Rcv(at)) && i < BITS
    ensures TestBit(at.words, i) <==> RI.Has(at, RI.Rcv(at) + i)
  {
    hide TestBit;
    WrapAdd(RI.Rcv(at), i);
    assert RI.Ahead(at, i) == Wrap(RI.Rcv(at) + i);
  }

  lemma AckFitsFlight(s: Sys, t: Tagged)
    requires t.TAck? && PacketOk(s, t) && RI.Rcv(t.at) == s.log.una
    ensures SI.AckFits(s.tx, t.at.words, t.at.count)
  {
    hide TestBit, Count;
    forall i | 0 <= i < BITS && TestBit(t.at.words, i)
      ensures i < |s.tx.unacked|
    {
      assert RI.Ahead(t.at, i) in t.at.reass;
      RI.AheadIsSub(t.at, i, RI.Ahead(t.at, i));
      assert RI.Buffered(t.at, RI.Ahead(t.at, i), s.log.stream, Nxt(s));
    }
  }

  lemma DeliveredAckIsOk(s: Sys, t: Tagged)
    requires SysInv(s) && t in s.net && t.TAck? && RI.Rcv(t.at) > Nxt(s) - TWO32
    requires RI.Rcv(t.at) > s.log.una ==> SP.EntriesFresh(s.tx, RI.Rcv(t.at) - s.log.una)
    ensures t.pkt == R.CraftAck(t.at) && t.pkt.ackno == Wrap(RI.Rcv(t.at)) && RI.Rcv(t.at) <= Rcv(s) <= Nxt(s)
    ensures SS.AckOk(s.tx, s.log, RI.Rcv(t.at), t.pkt.words, t.pkt.count)
  {
    hide SS.TxInv, SP.EntriesFresh, SI.AckFits;
    assert PacketOk(s, t);
    if RI.Rcv(t.at) == s.log.una {
      AckFitsFlight(s, t);
    }
  }

  /** An accepted acknowledgement moves the oldest number only up to frames the receiver has in order. */
  lemma DeliverAckKeeps(s: Sys, t: Tagged, env: S.Env)
    requires SysInv(s) && Enabled(s, DeliverAck(t, env))
    ensures Safe(s, DeliverAck(t, env))
    ensures SysInv(Apply(s, DeliverAck(t, env)))
  {
    hide SS.TxInv, SP.EntriesFresh, RI.RxState, S.ProcessAck, NetOk;
    DeliveredAckIsOk(s, t);
    var a := RI.Rcv(t.at);
    SS.ProcessAckStep(s.tx, s.log, a, t.pkt.words, t.pkt.count, env);
    var tx := S.ProcessAck(s.tx, t.pkt.ackno, t.pkt.words, t.pkt.count, env);
    var log := s.log.(una := Max(s.log.una, a));
    assert log == s.log.(una := if a > s.log.una then a else s.log.una);
    ForgetPacket(s, s.net - multiset{t});
    var s0 := s.(net := s.net - multiset{t});
    FlushKeeps(s0, tx, log);
  }

  // ----- The other steps -----

  lemma SubmitKeeps(s: Sys, msg: seq<Byte>, bufs: seq<Off>, ctx: S.Ctx)
    requires SysInv(s) && Enabled(s, Submit(msg, bufs, ctx))
    ensures SysInv(Apply(s, Submit(msg, bufs, ctx)))
  {
    hide SS.TxInv, RI.RxState, NetOk, SM.FreeFor;
    SM.FreeForLength(s.tx, msg, bufs);
    SS.SubmitStep(s.tx, s.log, msg, bufs, ctx);
    FlushKeeps(s, S.Submit(s.tx, msg, bufs, ctx), s.log.(msgs := s.log.msgs + [msg], asked := s.log.asked + [ctx]));
  }

  lemma QueueReady(t: S.Tx, log: SI.TxLog)
    requires SS.TxInv(t, log) && t.pending != [] && |t.unsent| < S.MAX_TW_PKTS
    ensures S.CanAppend(t)
  {
    assert S.PendingOk(t.mem, t.pending[0]);
  }

  lemma AppendKeeps(s: Sys)
    requires SysInv(s) && Enabled(s, Append)
    ensures Safe(s, Append) && SysInv(Apply(s, Append))
  {
    hide SS.TxInv, RI.RxState, NetOk, S.CanAppend, S.AppendOnce, S.FittingFrames;
    QueueReady(s.tx, s.log);
    SS.AppendStep(s.tx, s.log);
    SM.AppendLeaves(s.tx);
    FlushKeeps(s, S.AppendOnce(s.tx), s.log.(stream := s.log.stream + S.FittingFrames(s.tx)));
  }

  lemma TransmitKeeps(s: Sys, path: PathId)
    requires SysInv(s) && Enabled(s, Transmit(path))
    ensures Safe(s, Transmit(path)) && SysInv(Apply(s, Transmit(path)))
    ensures Nxt(Apply(s, Transmit(path))) == Nxt(s) + 1
  {
    hide SS.TxInv, RI.RxState, NetOk, S.TransmitOne;
    SS.TransmitStep(s.tx, s.log, path);
    FlushKeeps(s, S.TransmitOne(s.tx, path), s.log);
  }

  lemma TimerIsSafe(t: S.Tx, log: SI.TxLog)
    requires SI.Inv(t, log)
    ensures TimerSafe(t)
  {
    hide SI.Covered, SI.OutSound, SI.HeadOk;
    var j := (t.tick + 1) % S.RTO_SLOTS;
    forall k | 0 <= k < |t.wheels[j]| && SeqGe(t.wheels[j][k].seqno, t.una)
      ensures t.wheels[j][k].buf in t.mem
    {
      assert SI.Live(t, t.wheels[j][k]);
      SI.BufferInFlight(t, log, Sub(t.wheels[j][k].seqno, t.una));
    }
  }

  lemma TickKeeps(s: Sys, env: S.Env)
    requires SysInv(s)
    ensures Safe(s, Tick(env)) && SysInv(Apply(s, Tick(env)))
    ensures Nxt(Apply(s, Tick(env))) == Nxt(s)
  {
    hide SS.TxInv, RI.RxState, NetOk, S.PeriodicCheck, SI.Inv, SM.MsgInv, TimerSafe;
    SS.TxInvParts(s.tx, s.log);
    TimerIsSafe(s.tx, s.log);
    SS.TickStep(s.tx, s.log, env);
    SP.PeriodicCheckKeeps(s.tx, s.log, env);
    var tx := S.PeriodicCheck(s.tx, env);
    var timeouts := s.timeouts + Numbers(s.log.una, tx.out);
    HistoryDoesNotMatter(s, timeouts);
    FlushKeeps(s.(timeouts := timeouts), tx, s.log);
  }

  lemma DeliverDataKeeps(s: Sys, t: Tagged, off: Off)
    requires SysInv(s) && Enabled(s, DeliverData(t, off))
    ensures Safe(s, DeliverData(t, off)) && SysInv(Apply(s, DeliverData(t, off)))
  {
    hide SS.TxInv, RI.RxState, R.Consume, R.CraftAck, RI.Reordered, RI.Mapped;
    assert PacketOk(s, t);
    NxtBound(s);
    var u := Apply(s, DeliverData(t, off));
    hide PacketOk;
    RI.ConsumeStep(s.rx, off, t.n, s.log.stream, Nxt(s), s.supplied, s.rxFrames);
    ConsumeOnlyPushes(s.rx, off, t.n, s.log.stream, Nxt(s), s.supplied, s.rxFrames);
    forall x | x in u.net
      ensures PacketOk(u, x)
    {
      assert x in s.net;
      PacketsStaySound(s, u, x);
    }
  }

  /** The buffer pool keeps what is in flight, and so what may be delivered, close to the receiver's number. */
  lemma NxtBound(s: Sys)
    requires SysInv(s)
    ensures Nxt(s) < Rcv(s) + TWO31 && Nxt(s) <= |s.log.stream|
  {
    SI.InFlightFitsPool(s.tx);
    NxtWithinStream(s.tx, s.log);
  }

  lemma ConsumeOnlyPushes(r: R.Rx, off: Off, n: nat, stream: seq<Frame>, sent: nat, supplied: seq<R.AppBuf>, frames: set<Off>)
    requires RI.RxState(r, stream, sent, supplied, frames) && n < sent <= |stream|
    ensures RI.Rcv(r) <= RI.Rcv(R.Consume(R.Land(r, off, stream[n]), off, Wrap(n)).0)
  {
    var v := R.Land(r, off, stream[n]);
    if R.Classify(v, Wrap(n)) == R.OooTrackableExpectedOrInOrder {
      PushOnlyAdds(R.Buffer(v, off, Wrap(n)));
    }
  }

  lemma {:induction false} PushOnlyAdds(r: R.Rx)
    ensures r.pushed <= R.PushInOrder(r).pushed
    decreases |r.reass|
  {
    if r.rcvNxt in r.reass {
      var e := R.Enqueue(r);
      R.TryCopyOnly(e);
      RI.PushShrinks(r);
      hide R.TryCopy;
      PushOnlyAdds(R.Advance(R.TryCopy(e)));
    }
  }

  lemma RxOnlyKeeps(s: Sys, u: Sys)
    requires SysInv(s) && u == s.(rx := u.rx, supplied := u.supplied)
    requires RI.RxState(u.rx, u.log.stream, Nxt(u), u.supplied, u.rxFrames) && Rcv(u) == Rcv(s)
    ensures SysInv(u)
  {
    hide SS.TxInv, RI.RxState;
    forall t | t in u.net
      ensures PacketOk(u, t)
    {
      PacketsAlike(s, u, t);
    }
  }

  lemma SendAckKeeps(s: Sys)
    requires SysInv(s)
    ensures SysInv(Apply(s, SendAck))
  {
    var u, x := Apply(s, SendAck), TAck(R.CraftAck(s.rx), s.rx);
    hide SS.TxInv, RI.Mapped, RI.Held, RI.OnLine, RI.Gathered, RI.Reordered;
    forall t | t in u.net
      ensures PacketOk(u, t)
    {
      if t in s.net {
        PacketsAlike(s, u, t);
      } else {
        assert t == x;
      }
    }
  }

  lemma SupplyKeeps(s: Sys, buf: R.AppBuf)
    requires SysInv(s)
    ensures SysInv(Apply(s, Supply(buf)))
  {
    hide SS.TxInv, RI.RxState, NetOk, R.TryCopy;
    RI.SupplyStep(s.rx, buf, s.log.stream, Nxt(s), s.supplied, s.rxFrames);
    R.TryCopyOnly(s.rx.(appBufs := s.rx.appBufs + [buf]));
    RxOnlyKeeps(s, Apply(s, Supply(buf)));
  }

  lemma CopyOutKeeps(s: Sys)
    requires SysInv(s) && Enabled(s, CopyOut)
    ensures Safe(s, CopyOut) && SysInv(Apply(s, CopyOut))
  {
    hide SS.TxInv, RI.RxState, NetOk, R.CopyOut;
    RI.CopyOutStep(s.rx, s.log.stream, Nxt(s), s.supplied, s.rxFrames);
    RI.CopyOutFrees(s.rx);
    RxOnlyKeeps(s, Apply(s, CopyOut));
  }

  lemma DuplicateKeeps(s: Sys, t: Tagged)
    requires SysInv(s) && t in s.net
    ensures SysInv(Apply(s, Duplicate(t)))
  {
    var u := Apply(s, Duplicate(t));
    hide SS.TxInv, RI.RxState;
    forall x | x in u.net
      ensures PacketOk(u, x)
    {
      assert x in s.net;
      PacketsAlike(s, u, x);
    }
  }

  /** In a state that satisfies the invariant every enabled step is safe and leads to such a state again. */
  lemma StepIsSafe(s: Sys, step: Step)
    requires SysInv(s) && Enabled(s, step)
    ensures Safe(s, step) && SysInv(Apply(s, step))
  {
    hide SysInv, Apply;
    match step
    case Submit(msg, bufs, ctx) => SubmitKeeps(s, msg, bufs, ctx);
    case Append => AppendKeeps(s);
    case Transmit(path) => TransmitKeeps(s, path);
    case DeliverData(t, off) => DeliverDataKeeps(s, t, off);
    case SendAck => SendAckKeeps(s);
    case DeliverAck(t, env) => DeliverAckKeeps(s, t, env);
    case Tick(env) => TickKeeps(s, env);
    case Drop(t) => DropKeeps(s, t);
    case Duplicate(t) => DuplicateKeeps(s, t);
    case Supply(buf) => SupplyKeeps(s, buf);
    case CopyOut => CopyOutKeeps(s);
  }

  lemma DropKeeps(s: Sys, t: Tagged)
    requires SysInv(s) && t in s.net
    ensures SysInv(Apply(s, Drop(t)))
  {
    ForgetPacket(s, s.net - multiset{t});
  }

  lemma InitKeeps(s: Sys)
    requires Init(s)
    ensures SysInv(s)
  {
    SS.InitialTxInv(s.tx.pool);
    RI.InitialRxState(s.rxFrames);
    hide SS.TxInv, RI.RxState;
  }

  /** Every state of every run satisfies the invariant, and every step taken in it is safe. */
  lemma {:induction false} RunKeepsInv(states: seq<Sys>, steps: seq<Step>, i: nat)
    requires Run(states, steps) && i < |states|
    ensures SysInv(states[i])
    ensures i < |steps| ==> Safe(states[i], steps[i])
  {
    hide SysInv, Apply, Safe, Enabled;
    if i == 0 {
      InitKeeps(states[0]);
    } else {
      RunKeepsInv(states, steps, i - 1);
      assert Next(states[i - 1], steps[i - 1], states[i - 1 + 1]);
      StepIsSafe(states[i - 1], steps[i - 1]);
    }
    if i < |steps| {
      assert Next(states[i], steps[i], states[i + 1]);
      StepIsSafe(states[i], steps[i]);
    }
  }
}
