/**
 * The objects of both ends and a network between them. Whatever methods are called, in whatever order, the objects hold a
 * state that some run of `Protocol` reaches, and what the methods send is what that run has put into the network. So all
 * that is proved of runs is true of the objects.
 */
module SystemRuns {
  import opened SerialNumbers
  import opened Messages
  import opened SackBitmap
  import opened Packets
  import opened TxTracking
  import opened TxQueue
  import opened Flow
  import opened RxTracking
  import opened Protocol
  import opened ProtocolInvariants
  import F = FlowRuns
  import X = RxRuns
  import T = ProtocolTheorems
  import S = Sender
  import SI = SenderInvariants
  import SP = SenderProgress
  import SM = SenderMessages
  import SS = SenderSteps
  import R = Receiver
  import RI = ReceiverInvariants

  // ----- States that runs reach -----

  ghost predicate EndsIn(states: seq<Sys>, steps: seq<Step>, s: Sys) {
    Run(states, steps) && states[|states| - 1] == s
  }

  ghost predicate Reached(s: Sys) {
    exists states, steps :: EndsIn(states, steps, s)
  }

  lemma InitIsReached(s: Sys)
    requires Init(s)
    ensures Reached(s)
  {
    assert EndsIn([s], [], s);
  }

  lemma ReachedIsSound(s: Sys)
    requires Reached(s)
    ensures SysInv(s)
  {
    hide SysInv;
    var states, steps :| EndsIn(states, steps, s);
    RunKeepsInv(states, steps, |states| - 1);
  }

  lemma StepIsReached(s: Sys, step: Step)
    requires Reached(s) && Enabled(s, step)
    ensures Safe(s, step) && Reached(Apply(s, step)) && SysInv(Apply(s, step))
  {
    hide Enabled, Safe, Apply, SysInv, Init;
    ReachedIsSound(s);
    StepIsSafe(s, step);
    var states, steps :| EndsIn(states, steps, s);
    var u := Apply(s, step);
    var states2, steps2 := states + [u], steps + [step];
    forall i | 0 <= i < |steps2|
      ensures Next(states2[i], steps2[i], states2[i + 1])
    {
      if i < |steps| {
        assert Next(states[i], steps[i], states[i + 1]);
      }
    }
    assert EndsIn(states2, steps2, u);
  }

  // ----- Batches of steps -----

  lemma NothingFlushed(s: Sys, tx: S.Tx, log: SI.TxLog)
    requires tx.out == []
    ensures Flush(s, tx, log) == s.(tx := tx, log := log)
  {
    assert Tags(log.una, tx.out) == [];
    assert tx.(out := []) == tx;
  }

  /** Appending until nothing more fits is a batch of steps. */
  lemma {:induction false} AppendsAreReached(s: Sys) returns (u: Sys)
    requires Reached(s)
    ensures SI.Owned(s.tx) && SM.QueueOk(s.tx) && Reached(u)
    ensures u == s.(tx := AppendAll(s.tx), log := s.log.(stream := u.log.stream)) && s.log.stream <= u.log.stream
    decreases S.MAX_TW_PKTS - |s.tx.unsent|
  {
    hide Reached, SysInv, SS.TxInv, SI.Inv, SM.MsgInv, SI.Owned, SM.QueueOk, S.AppendOnce, S.PendingOk, S.FittingFrames;
    hide S.Tracked, S.Counted;
    ReachedIsSound(s);
    SenderPart(s);
    F.TxInvGives(s.tx, s.log);
    AppendAllStep(s.tx);
    u := s;
    if s.tx.pending != [] && |s.tx.unsent| < S.MAX_TW_PKTS {
      StepIsReached(s, Append);
      SM.AppendLeaves(s.tx);
      var log := s.log.(stream := s.log.stream + S.FittingFrames(s.tx));
      NothingFlushed(s, S.AppendOnce(s.tx), log);
      u := AppendsAreReached(s.(tx := S.AppendOnce(s.tx), log := log));
    }
  }

  /** What was sent before does not matter to sending. */
  lemma TransmitForgets(t: S.Tx, path: PathId)
    requires t.unsent != [] && t.unsent[0] in t.mem
    ensures var u, v := S.TransmitOne(t, path), S.TransmitOne(F.Sent(t), path);
      v == u.(out := v.out) && u.out == t.out + v.out
  {
  }

  lemma NothingTagged(una: nat)
    ensures Tags(una, []) == []
  {
  }

  lemma TagsConcat(una: nat, a: seq<Packet>, b: seq<Packet>)
    ensures Tags(una, a + b) == Tags(una, a) + Tags(una, b)
  {
  }

  /** Sending on a row of paths is a batch of steps, and the network has everything that was sent. */
  lemma {:induction false} SendsAreReached(s: Sys, t: S.Tx, paths: seq<PathId>, u: S.Tx)
    requires Reached(s) && s.tx == F.Sent(t) && SendsOn(t, paths, u)
    ensures t.out <= u.out
    ensures Reached(s.(tx := F.Sent(u), net := s.net + multiset(Tags(s.log.una, u.out[|t.out|..]))))
    decreases |paths|
  {
    hide Reached, SysInv, S.TransmitOne, Tags;
    if paths == [] {
      assert u.out[|t.out|..] == [];
      NothingTagged(s.log.una);
      assert s.(tx := F.Sent(u), net := s.net + multiset{}) == s;
    } else {
      var path := paths[0];
      StepIsReached(s, Transmit(path));
      TransmitForgets(t, path);
      var v, sent := S.TransmitOne(t, path), S.TransmitOne(s.tx, path).out;
      var s1 := s.(tx := F.Sent(v), net := s.net + multiset(Tags(s.log.una, sent)));
      assert Apply(s, Transmit(path)) == s1;
      SendsAreReached(s1, v, paths[1..], u);
      assert u.out[|t.out|..] == sent + u.out[|v.out|..];
      TagsConcat(s.log.una, sent, u.out[|v.out|..]);
      var a, b := Tags(s.log.una, sent), Tags(s.log.una, u.out[|v.out|..]);
      assert s1.net + multiset(b) == s.net + multiset(a + b);
    }
  }

  // ----- The objects -----

  ghost predicate Apart(flow: UcclFlow, queue: TxQueue, rx: RxTracking)
    reads flow, rx
  {
    {flow as object, queue} + flow.Repr() !! {rx as object} + rx.Repr()
  }

  /** The objects hold `s`, and a run reaches it. */
  ghost predicate Holds(flow: UcclFlow, queue: TxQueue, rx: RxTracking, s: Sys)
    reads flow, flow.Repr(), queue, rx, rx.Repr()
  {
    F.Embodies(flow, queue, s.tx, s.log) && rx.Shows(s.rx) && Apart(flow, queue, rx) && Reached(s)
  }

  lemma EmbodiesAnyLog(flow: UcclFlow, queue: TxQueue, t: S.Tx, log: SI.TxLog, log2: SI.TxLog)
    requires F.Embodies(flow, queue, t, log) && SS.TxInv(t, log2)
    ensures F.Embodies(flow, queue, t, log2)
  {
  }

  lemma ReceiverPart(s: Sys)
    requires SysInv(s)
    ensures RI.RxState(s.rx, s.log.stream, Nxt(s), s.supplied, s.rxFrames)
  {
  }

  /** Two new ends with nothing between them. */
  method Start(txFrames: set<Off>, rxFrames: set<Off>) returns (flow: UcclFlow, queue: TxQueue, rx: RxTracking, ghost s: Sys)
    requires |txFrames| <= NUM_FRAMES
    ensures Init(s) && s.tx.pool == txFrames && s.rxFrames == rxFrames
    ensures Holds(flow, queue, rx, s) && fresh({flow as object, queue} + flow.Repr()) && fresh(rx.Repr())
  {
    hide F.Embodies, X.Embodies;
    flow, queue := F.StartFlow(txFrames);
    rx := X.StartReceiver(rxFrames);
    s := Sys(S.Initial(txFrames), R.Initial(rxFrames), multiset{}, SI.TxLog(0, [], [], []), [], rxFrames, []);
    InitIsReached(s);
    EmbodiesShows(rx, s.rx, [], 0, [], rxFrames);
  }

  lemma EmbodiesShows(rx: RxTracking, r: R.Rx, stream: seq<Frame>, sent: nat, supplied: seq<R.AppBuf>, frames: set<Off>)
    requires X.Embodies(rx, r, stream, sent, supplied, frames)
    ensures rx.Shows(r)
  {
  }

  /** The application hands over a message. */
  method TakeMessage(flow: UcclFlow, queue: TxQueue, rx: RxTracking, msg: seq<Byte>, ctx: S.Ctx, ghost s: Sys)
    returns (ok: bool, ghost u: Sys)
    requires Holds(flow, queue, rx, s)
    modifies flow.Repr(), queue
    ensures ok <==> |Chunks(msg)| <= |s.tx.pool|
    ensures ok ==> Holds(flow, queue, rx, u)
    ensures queue.doneAtOnce == old(queue.doneAtOnce) + if msg == [] then [ctx] else []
    ensures msg == [] ==> u == s
    ensures ok && msg != [] ==>
      && u == s.(tx := u.tx, log := u.log) && u.log.una == s.log.una
      && u.log.msgs == s.log.msgs + [msg] && u.log.asked == s.log.asked + [ctx]
      && u.tx == s.tx.(mem := u.tx.mem, pool := u.tx.pool, pending := u.tx.pending, unsent := u.tx.unsent, ctxs := u.tx.ctxs)
  {
    hide F.Embodies, Reached, SysInv, AppendAll, S.Submit, SM.FreeFor, SI.Owned, SM.QueueOk, Chunks, SS.TxInv;
    ghost var bufs, t, log;
    NoChunks(msg);
    ok, bufs, t, log := F.HandleMessage(flow, queue, msg, ctx, s.tx, s.log);
    u := s;
    if ok && msg != [] {
      StepIsReached(s, Submit(msg, bufs, ctx));
      F.SubmitLeaves(s.tx, msg, bufs, ctx);
      SentNothing(flow, queue, t, log);
      NothingFlushed(s, S.Submit(s.tx, msg, bufs, ctx), s.log.(msgs := s.log.msgs + [msg], asked := s.log.asked + [ctx]));
      u := AppendsAreReached(Apply(s, Submit(msg, bufs, ctx)));
      ReachedIsSound(u);
      SenderPart(u);
      EmbodiesAnyLog(flow, queue, t, log, u.log);
    }
  }

  /** After packets came in, what waits in the queue goes to the chain as far as it fits. */
  method AppendPending(flow: UcclFlow, queue: TxQueue, rx: RxTracking, ghost s: Sys) returns (ghost u: Sys)
    requires Holds(flow, queue, rx, s)
    modifies flow.Repr(), queue
    ensures Holds(flow, queue, rx, u) && u == s.(tx := u.tx, log := s.log.(stream := u.log.stream))
    ensures s.log.stream <= u.log.stream && (u.tx.pending == [] || |u.tx.unsent| >= S.MAX_TW_PKTS)
  {
    hide F.Embodies, Reached, SysInv, AppendAll, SI.Owned, SM.QueueOk, SS.TxInv;
    ghost var log := F.HandleAppend(flow, queue, s.tx, s.log);
    u := AppendsAreReached(s);
    ReachedIsSound(u);
    SenderPart(u);
    EmbodiesAnyLog(flow, queue, u.tx, log, u.log);
  }

  lemma SentNothing(flow: UcclFlow, queue: TxQueue, t: S.Tx, log: SI.TxLog)
    requires F.Embodies(flow, queue, t, log)
    ensures t.out == []
  {
  }

  /** The sender sends what its windows admit. */
  method TransmitBatch(flow: UcclFlow, queue: TxQueue, rx: RxTracking, permitted: nat, pick: (nat, nat) -> PathId, now: Tsc,
                       interval: nat, ghost s: Sys)
    returns (packets: seq<Packet>, ghost u: Sys)
    requires Holds(flow, queue, rx, s)
    modifies flow.Repr()
    ensures Holds(flow, queue, rx, u)
    ensures u == s.(tx := u.tx, net := s.net + multiset(Tags(s.log.una, packets)))
    ensures F.AllAhead(s.tx) ==>
      F.AllAhead(u.tx) && u.tx.una == s.tx.una && |u.tx.unacked| == |s.tx.unacked| + |packets| && |packets| <= permitted
  {
    hide F.Embodies, Reached, SendsOn, Tags, F.AllAhead, SS.TxInv;
    F.EmbodiesGives(flow, queue, s.tx, s.log);
    ghost var paths, t;
    SentNothing(flow, queue, s.tx, s.log);
    packets, paths, t := F.HandleTransmit(flow, queue, permitted, pick, now, interval, s.tx, s.log);
    assert F.Sent(s.tx) == s.tx;
    SendsAreReached(s, s.tx, paths, t);
    assert t.out[0..] == t.out;
    u := s.(tx := F.Sent(t), net := s.net + multiset(Tags(s.log.una, packets)));
    if F.AllAhead(s.tx) {
      F.SendingStaysAhead(s.tx, paths, t, s.log);
      F.SameWheelStaysAhead(t, u.tx);
    }
  }

  /** An acknowledgement comes out of the network. */
  method ReceiveAck(flow: UcclFlow, queue: TxQueue, rx: RxTracking, ackno: U32, words: Words, count: U16, env: S.Env,
                    ghost t: Tagged, ghost s: Sys)
    returns (packets: seq<Packet>, ghost u: Sys)
    requires Holds(flow, queue, rx, s) && Enabled(s, DeliverAck(t, env)) && t.pkt == Ack(ackno, words, count)
    modifies flow.Repr()
    ensures Holds(flow, queue, rx, u) && u == Apply(s, DeliverAck(t, env))
    ensures u.net == s.net - multiset{t} + multiset(Tags(u.log.una, packets))
  {
    hide F.Embodies, Reached, SysInv, S.ProcessAck, SP.EntriesFresh, S.Tracked, S.Counted, Tags, SS.AckOk, R.CraftAck;
    ReachedIsSound(s);
    DeliveredAckIsOk(s, t);
    StepIsReached(s, DeliverAck(t, env));
    packets := F.HandleAck(flow, queue, ackno, words, count, env, RI.Rcv(t.at), s.tx, s.log);
    u := Apply(s, DeliverAck(t, env));
  }

  /** The slow timer ticks. */
  method TimerTick(flow: UcclFlow, queue: TxQueue, rx: RxTracking, env: S.Env, ghost s: Sys)
    returns (packets: seq<Packet>, ghost u: Sys)
    requires Holds(flow, queue, rx, s)
    modifies flow.Repr()
    ensures Holds(flow, queue, rx, u) && u == Apply(s, Tick(env))
    ensures u.net == s.net + multiset(Tags(s.log.una, packets))
  {
    hide F.Embodies, Reached, SysInv, S.PeriodicCheck, Tags, Numbers;
    StepIsReached(s, Tick(env));
    var alive;
    alive, packets := F.HandleTick(flow, queue, env, s.tx, s.log);
    u := Apply(s, Tick(env));
  }

  /** A data packet comes out of the network into a free buffer. */
  method ReceiveData(flow: UcclFlow, queue: TxQueue, rx: RxTracking, off: Off, seqno: U32, frame: Frame,
                     ghost t: Tagged, ghost s: Sys)
    returns (ret: R.ConsumeRet, ghost u: Sys)
    requires Holds(flow, queue, rx, s) && Enabled(s, DeliverData(t, off)) && t.pkt == Data(seqno, frame)
    modifies rx.Repr()
    ensures Holds(flow, queue, rx, u) && u == Apply(s, DeliverData(t, off)) && ret == R.Classify(s.rx, seqno)
  {
    hide F.Embodies, Reached, RI.RxState, R.Consume, R.Classify, SS.TxInv, RI.Reordered, RI.Mapped;
    ReachedIsSound(s);
    assert PacketOk(s, t);
    NxtBound(s);
    StepIsReached(s, DeliverData(t, off));
    ret := X.HandleData(rx, off, seqno, frame, t.n, s.rx, s.log.stream, Nxt(s), s.supplied, s.rxFrames);
    u := Apply(s, DeliverData(t, off));
  }

  /** The receiver answers with an acknowledgement. */
  method AnswerWithAck(flow: UcclFlow, queue: TxQueue, rx: RxTracking, ghost s: Sys) returns (ack: Packet, ghost u: Sys)
    requires Holds(flow, queue, rx, s)
    ensures Holds(flow, queue, rx, u) && u == Apply(s, SendAck) && u.net == s.net + multiset{TAck(ack, s.rx)}
    ensures ack == R.CraftAck(s.rx)
  {
    hide F.Embodies, Reached, SysInv;
    StepIsReached(s, SendAck);
    ack := X.CraftAck(rx, s.rx);
    u := Apply(s, SendAck);
  }

  /** The receiving application supplies a buffer. */
  method SupplyBuffer(flow: UcclFlow, queue: TxQueue, rx: RxTracking, buf: R.AppBuf, ghost s: Sys) returns (ghost u: Sys)
    requires Holds(flow, queue, rx, s)
    modifies rx.Repr()
    ensures Holds(flow, queue, rx, u) && u == Apply(s, Supply(buf))
  {
    hide F.Embodies, Reached, SysInv, RI.RxState, R.Supply;
    ReachedIsSound(s);
    ReceiverPart(s);
    StepIsReached(s, Supply(buf));
    X.HandleSupply(rx, buf, s.rx, s.log.stream, Nxt(s), s.supplied, s.rxFrames);
    u := Apply(s, Supply(buf));
  }

  /** A whole message is copied into its buffer. */
  method CopyMessage(flow: UcclFlow, queue: TxQueue, rx: RxTracking, ghost s: Sys) returns (ghost u: Sys)
    requires Holds(flow, queue, rx, s) && rx.rxDeserQ != []
    modifies rx.Repr()
    ensures Holds(flow, queue, rx, u) && u == Apply(s, CopyOut)
  {
    hide F.Embodies, Reached, SysInv, RI.RxState, R.CopyOut;
    ReachedIsSound(s);
    ReceiverPart(s);
    X.HandleCopy(rx, s.rx, s.log.stream, Nxt(s), s.supplied, s.rxFrames);
    StepIsReached(s, CopyOut);
    u := Apply(s, CopyOut);
  }

  /** The network loses or repeats a packet. */
  lemma NetworkMoves(flow: UcclFlow, queue: TxQueue, rx: RxTracking, s: Sys, step: Step)
    requires Holds(flow, queue, rx, s) && Enabled(s, step) && (step.Drop? || step.Duplicate?)
    ensures Holds(flow, queue, rx, Apply(s, step))
  {
    hide F.Embodies, Reached, SysInv;
    StepIsReached(s, step);
  }

  /**
   * Whatever was called: the k-th message the receiving objects have copied out is, byte for byte, the k-th one handed to
   * the sending objects, in the k-th buffer supplied; and a context the sending objects have marked done is that of a
   * message whose frames the receiving objects have all had in order.
   */
  lemma ObjectsDeliver(flow: UcclFlow, queue: TxQueue, rx: RxTracking, s: Sys, k: nat)
    requires Holds(flow, queue, rx, s)
    ensures k < |rx.delivered| ==>
      k < |s.supplied| && k < |s.log.msgs| && rx.delivered[k] == R.Delivery(s.supplied[k], s.log.msgs[k])
    ensures k < |flow.tx.done| ==>
      k < |s.log.asked| && flow.tx.done[k] == s.log.asked[k]
      && k < |s.log.msgs| && FramesOfAll(s.log.msgs[..k + 1]) <= s.rx.pushed
  {
    ObjectsShow(flow, queue, rx, s);
    hide Holds, Run, FramesOfAll;
    var states, steps :| EndsIn(states, steps, s);
    if k < |rx.delivered| {
      T.MessagesReachTheirBuffers(states, steps, |states| - 1, k);
    }
    if k < |flow.tx.done| {
      T.DoneMeansDelivered(states, steps, |states| - 1, k);
    }
  }

  lemma ObjectsShow(flow: UcclFlow, queue: TxQueue, rx: RxTracking, s: Sys)
    requires Holds(flow, queue, rx, s)
    ensures rx.delivered == s.rx.delivered && flow.tx.done == s.tx.done && Reached(s)
  {
    hide Reached, SS.TxInv, QueueShows, TrackOk, TrackShows;
  }

  // ----- One frame from end to end -----

  lemma ReachedFacts(s: Sys)
    requires Reached(s)
    ensures s.log.una <= Rcv(s) <= Nxt(s) && s.log.stream <= FramesOfAll(s.log.msgs)
    ensures Rcv(s) <= |s.log.stream| && s.rx.pushed == s.log.stream[..Rcv(s)]
    ensures |s.rx.delivered| + |s.rx.jobs| == Min(|s.supplied|, |Complete(s.rx.pushed)|)
  {
    var states, steps :| EndsIn(states, steps, s);
    assert |states| > 0;
    hide Run, Complete, FramesOfAll;
    T.InOrderDelivery(states, steps, |states| - 1);
    T.HandOverIsGreedy(states, steps, |states| - 1);
  }

  /** The only packet in flight is the one the receiver waits for. */
  lemma OnlyPacketArrives(s: Sys, t: Tagged, off: Off)
    requires Reached(s) && Enabled(s, DeliverData(t, off)) && Rcv(s) == 0 && Nxt(s) == 1
    ensures Rcv(Apply(s, DeliverData(t, off))) == 1
  {
    hide Reached, SysInv, RI.RxState, R.Consume, RI.Has, SS.TxInv, NetOk;
    StepIsReached(s, DeliverData(t, off));
    ReachedIsSound(s);
    var u := Apply(s, DeliverData(t, off));
    PacketIsNumbered(s, t);
    ReceiverPart(s);
    ReceiverPart(u);
    RI.ConsumeHolds(s.rx, off, 0, s.log.stream, 1, s.supplied, s.rxFrames, 0);
    HeldIsPushed(u.rx, s.log.stream, 1, s.supplied, s.rxFrames);
    ReachedFacts(u);
  }

  lemma PacketIsNumbered(s: Sys, t: Tagged)
    requires SysInv(s) && t in s.net && t.TData?
    ensures t.n < Nxt(s) <= |s.log.stream| && t.pkt == Data(Wrap(t.n), s.log.stream[t.n])
  {
    hide SS.TxInv, RI.RxState;
    assert PacketOk(s, t);
    NxtBound(s);
  }

  /** A receiver that holds the first frame has pushed it. */
  lemma HeldIsPushed(r: R.Rx, stream: seq<Frame>, sent: nat, supplied: seq<R.AppBuf>, frames: set<Off>)
    requires RI.RxState(r, stream, sent, supplied, frames) && RI.Has(r, 0)
    ensures RI.Rcv(r) > 0
  {
  }

  /** When the one message has been acknowledged, its context is done and it is ready to be copied, if it is not copied yet. */
  lemma OneMessageThere(s: Sys, msg: seq<Byte>, ctx: S.Ctx)
    requires Reached(s) && s.log.msgs == [msg] && s.log.asked == [ctx] && |Chunks(msg)| == 1 && s.log.una == 1
    requires |s.supplied| == 1
    ensures s.tx.done == [ctx] && |s.rx.delivered| + |s.rx.jobs| == 1
  {
    hide Reached, SysInv, SS.TxInv, Complete;
    ReachedIsSound(s);
    SenderPart(s);
    F.DoneIffAcknowledged(s.tx, s.log, msg, ctx);
    ReachedFacts(s);
    assert [msg][1..] == [] && FramesOfAll([msg]) == FramesOf(msg) + FramesOfAll([]);
    F.FramesCount(msg);
    assert s.rx.pushed == FramesOfAll([msg]);
    assert msg != [];
    ReassemblyUndoesSegmentation([msg]);
  }

  lemma SuppliedAtStart(s: Sys, buf: R.AppBuf)
    requires Init(s)
    ensures var u := Apply(s, Supply(buf));
      && u == s.(rx := s.rx.(appBufs := [buf]), supplied := [buf]) && Rcv(u) == 0 && F.AllAhead(u.tx)
      && u.tx.pool == s.tx.pool && u.tx.unacked == [] && u.rx.pool == s.rxFrames && u.log == SI.TxLog(0, [], [], [])
  {
    F.NewFlowIsAhead(s.tx.pool);
  }

  lemma TagOfFirst(s: Sys, una: nat, packets: seq<Packet>)
    requires packets != [] && multiset(Tags(una, packets)) <= s.net
    ensures TData(TrueNumber(una, packets[0]), packets[0]) in s.net
  {
    assert Tags(una, packets)[0] in multiset(Tags(una, packets));
  }

  lemma ReceiverShows(flow: UcclFlow, queue: TxQueue, rx: RxTracking, s: Sys)
    requires Holds(flow, queue, rx, s)
    ensures rx.socket.pool == s.rx.pool && |rx.rxDeserQ| == |s.rx.jobs|
  {
    hide F.Embodies, Reached;
    X.WorksAreJobs(rx.Gathering(), s.rx);
  }

  /** The first packet sent arrives in a free buffer. */
  method DeliverFirst(flow: UcclFlow, queue: TxQueue, rx: RxTracking, packets: seq<Packet>, ghost s: Sys)
    returns (ghost u: Sys)
    requires Holds(flow, queue, rx, s) && packets != [] && multiset(Tags(s.log.una, packets)) <= s.net
    requires Rcv(s) == 0 && Nxt(s) == 1 && s.rx.pool != {}
    modifies rx.Repr()
    ensures Holds(flow, queue, rx, u) && Rcv(u) == 1 && u == s.(rx := u.rx, net := u.net)
  {
    hide F.Embodies, Reached, SysInv, RxTracking.Shows, R.Consume, Tags;
    ghost var t := TData(TrueNumber(s.log.una, packets[0]), packets[0]);
    TagOfFirst(s, s.log.una, packets);
    ReachedIsSound(s);
    PacketIsNumbered(s, t);
    ReceiverShows(flow, queue, rx, s);
    var off :| off in rx.socket.pool;
    OnlyPacketArrives(s, t, off);
    var ret;
    ret, u := ReceiveData(flow, queue, rx, off, packets[0].seqno, packets[0].frame, t, s);
  }

  lemma AnswerMayArrive(s: Sys, env: S.Env)
    requires F.AllAhead(s.tx) && s.log.una == 0 && Rcv(s) == Nxt(s) == 1 && TAck(R.CraftAck(s.rx), s.rx) in s.net
    ensures Enabled(s, DeliverAck(TAck(R.CraftAck(s.rx), s.rx), env))
  {
    F.AheadIsFresh(s.tx, 1);
  }

  /** An acknowledgement and a tick change nothing in the history but the oldest number. */
  lemma AckTickHistory(s: Sys, t: Tagged, env: S.Env)
    requires Enabled(s, DeliverAck(t, env)) && Safe(s, DeliverAck(t, env))
    ensures var u := Apply(s, DeliverAck(t, env));
      && u.log == s.log.(una := Max(s.log.una, RI.Rcv(t.at))) && u.supplied == s.supplied
      && Apply(u, Tick(env)).log == u.log && Apply(u, Tick(env)).supplied == u.supplied
  {
    hide S.ProcessAck, S.PeriodicCheck, S.Tracked, S.Counted, SP.EntriesFresh, TimerSafe;
  }

  /** It is acknowledged, and the timer ticks. */
  method AckAndTick(flow: UcclFlow, queue: TxQueue, rx: RxTracking, env: S.Env, ghost s: Sys) returns (ghost u: Sys)
    requires Holds(flow, queue, rx, s) && F.AllAhead(s.tx) && s.log.una == 0 && Rcv(s) == Nxt(s) == 1
    modifies flow.Repr()
    ensures Holds(flow, queue, rx, u) && u.log == s.log.(una := 1) && u.supplied == s.supplied
  {
    hide Holds, F.AllAhead, Safe, Apply;
    var ack, packets;
    ghost var s1, s2;
    AnswerIsSent(s);
    ack, s1 := AnswerWithAck(flow, queue, rx, s);
    AnswerMayArrive(s1, env);
    HoldsIsReached(flow, queue, rx, s1);
    StepIsReached(s1, DeliverAck(TAck(ack, s.rx), env));
    AckTickHistory(s1, TAck(ack, s.rx), env);
    packets, s2 := ReceiveAck(flow, queue, rx, ack.ackno, ack.words, ack.count, env, TAck(ack, s.rx), s1);
    packets, u := TimerTick(flow, queue, rx, env, s2);
  }

  lemma AnswerIsSent(s: Sys)
    ensures Apply(s, SendAck) == s.(net := s.net + multiset{TAck(R.CraftAck(s.rx), s.rx)})
  {
  }

  lemma HoldsIsReached(flow: UcclFlow, queue: TxQueue, rx: RxTracking, s: Sys)
    requires Holds(flow, queue, rx, s)
    ensures Reached(s)
  {
  }

  /** The message is copied out, if it is not yet. */
  method CopyIfThere(flow: UcclFlow, queue: TxQueue, rx: RxTracking, msg: seq<Byte>, ctx: S.Ctx, buf: R.AppBuf, ghost s: Sys)
    returns (ghost u: Sys)
    requires Holds(flow, queue, rx, s) && s.log.msgs == [msg] && s.log.asked == [ctx] && |Chunks(msg)| == 1
    requires s.log.una == 1 && s.supplied == [buf]
    modifies rx.Repr()
    ensures Holds(flow, queue, rx, u) && flow.tx.done == [ctx] && rx.delivered == [R.Delivery(buf, msg)]
  {
    hide Holds, Chunks, Reached, Apply;
    HoldsIsReached(flow, queue, rx, s);
    OneMessageThere(s, msg, ctx);
    ReceiverShows(flow, queue, rx, s);
    u := s;
    if rx.rxDeserQ != [] {
      CopyHistory(s);
      u := CopyMessage(flow, queue, rx, s);
      HoldsIsReached(flow, queue, rx, u);
      OneMessageThere(u, msg, ctx);
    }
    ObjectsShow(flow, queue, rx, u);
    ObjectsDeliver(flow, queue, rx, u, 0);
  }

  lemma CopyHistory(s: Sys)
    requires Reached(s) && s.rx.jobs != []
    ensures var u := Apply(s, CopyOut);
      u.log == s.log && u.supplied == s.supplied && |u.rx.delivered| == |s.rx.delivered| + 1
  {
    hide Reached, SysInv;
    StepIsReached(s, CopyOut);
  }

  /**
   * New objects at both ends; a buffer is supplied, a message of one frame handed over and sent, the packet arrives, is
   * acknowledged, the timer ticks. If a path had room for the packet, the message is done and copied out.
   */
  method OneFrame(txFrames: set<Off>, rxFrames: set<Off>, msg: seq<Byte>, ctx: S.Ctx, buf: R.AppBuf,
                  pick: (nat, nat) -> PathId, now: Tsc, interval: nat, env: S.Env)
    returns (flow: UcclFlow, queue: TxQueue, rx: RxTracking, sent: bool, ghost s: Sys)
    requires 1 <= |txFrames| <= NUM_FRAMES && rxFrames != {} && |Chunks(msg)| == 1
    ensures Holds(flow, queue, rx, s)
    ensures sent ==> flow.tx.done == [ctx] && rx.delivered == [R.Delivery(buf, msg)]
  {
    hide F.Embodies, Reached, SysInv, Chunks, F.AllAhead, RxTracking.Shows, Apply, Tags;
    flow, queue, rx, s := Start(txFrames, rxFrames);
    SuppliedAtStart(s, buf);
    s := SupplyBuffer(flow, queue, rx, buf, s);
    var ok, packets;
    NoChunks(msg);
    ghost var s0 := s;
    ok, s := TakeMessage(flow, queue, rx, msg, ctx, s);
    F.SameWheelStaysAhead(s0.tx, s.tx);
    packets, s := TransmitBatch(flow, queue, rx, 1, pick, now, interval, s);
    sent := packets != [];
    if !sent {
      return;
    }
    s := DeliverFirst(flow, queue, rx, packets, s);
    s := AckAndTick(flow, queue, rx, env, s);
    s := CopyIfThere(flow, queue, rx, msg, ctx, buf, s);
  }
}
