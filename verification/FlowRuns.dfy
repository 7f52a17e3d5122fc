/**
 * The objects of a flow meet the protocol: in every state a run can reach, each method may be called, and what it leaves
 * behind is again such a state.
 */
module FlowRuns {
  import opened SerialNumbers
  import opened Messages
  import opened Packets
  import opened SackBitmap
  import opened TxTracking
  import opened TxQueue
  import opened Flow
  import S = Sender
  import SI = SenderInvariants
  import SP = SenderProgress
  import SM = SenderMessages
  import SS = SenderSteps

  lemma {:induction false} CarriesCompletable(t: S.Tx, k: nat, stream: seq<Frame>, base: nat)
    requires S.Tracked(t) && SM.Carries(t, k, stream, base)
    requires SM.CountFlags(stream[base..base + k], true) <= |t.ctxs|
    ensures Completable(t, k)
    decreases k
  {
    hide S.Tracked, SM.Carries, S.AckOne;
    SM.CarriesBounds(t, k, stream, base);
    if k > 0 {
      var s := stream[base..base + k];
      assert s[1..] == stream[base + 1..base + 1 + (k - 1)];
      SM.AckOneCarries(t, k, stream, base);
      OldestCarries(t, k, stream, base);
      CarriesCompletable(S.AckOne(t), k - 1, stream, base + 1);
    }
  }

  lemma OldestCarries(t: S.Tx, k: nat, stream: seq<Frame>, base: nat)
    requires SM.Carries(t, k, stream, base) && k > 0
    ensures t.unacked[0] in t.mem && t.mem[t.unacked[0]].frame == stream[base]
  {
  }

  /** No acknowledgement of packets in flight finds the list of waiting contexts empty. */
  lemma AcksComplete(t: S.Tx, log: SI.TxLog, k: nat)
    requires SS.TxInv(t, log) && k <= |t.unacked|
    ensures Completable(t, k)
  {
    hide SI.Inv, S.Tracked, SM.QueueOk, SM.Conserved, SM.Carries, SM.CountFlags, Completable;
    SI.InvGivesTracked(t, log);
    SM.EnoughContexts(t, log);
    SM.InvCarries(t, log, k);
    SM.CarriesBounds(t, k, log.stream, log.una);
    SM.FlagsWithin(log.stream, log.una, log.una + k);
    CarriesCompletable(t, k, log.stream, log.una);
  }

  /** Every timer that will send a packet again points to a buffer still in the chain. */
  lemma TimersPointIntoChain(t: S.Tx, log: SI.TxLog, tick: S.Tick)
    requires SI.Inv(t, log)
    ensures DueInChain(t.(tick := tick), S.Chain(t))
  {
    forall e | e in t.wheels[tick] && SeqGe(e.seqno, t.una)
      ensures e.buf in S.Chain(t)
    {
      var i :| 0 <= i < |t.wheels[tick]| && t.wheels[tick][i] == e;
      assert SI.Live(t, t.wheels[tick][i]);
      assert S.Chain(t)[Sub(e.seqno, t.una)] == e.buf;
    }
  }

  /** A queue of messages is untouched by whatever writes only into the chain. */
  lemma QueueSurvives(m1: map<Off, FrameBuf>, m2: map<Off, FrameBuf>, works: seq<TxWork>, t: S.Tx)
    requires QueueShows(m1, works, t.pending) && SI.Owned(t) && SameOutside(m1, m2, S.Chain(t))
    ensures QueueShows(m2, works, t.pending)
  {
    hide WorkShows, SI.Owned, S.Chain;
    forall i | 0 <= i < |works|
      ensures WorkShows(m2, works[i], t.pending[i])
    {
      ChunksArePending(t.pending, i);
      QueuedOutsideChain(t);
      WorkInUse(m1, works[i], t.pending[i]);
      WorkSurvives(m1, m2, works[i], t.pending[i]);
    }
  }

  lemma QueuedOutsideChain(t: S.Tx)
    requires SI.Owned(t)
    ensures forall b :: b in SI.PendingBufs(t.pending) ==> b !in S.Chain(t)
  {
    var a, b := S.Chain(t), SI.PendingBufs(t.pending);
    assert SI.AllBufs(t) == a + b + [];
    hide Distinct;
    DistinctPart(a, b, []);
  }

  /** The objects hold a state of `Sender` that is sound for the stream in `log`; all it sent is in the network. */
  ghost predicate Embodies(flow: UcclFlow, queue: TxQueue, t: S.Tx, log: SI.TxLog)
    reads flow, flow.Repr(), queue
  {
    && flow.Valid() && flow.Shows(t)
    && queue.tx == flow.tx && queue.socket == flow.socket && queue as object !in flow.Repr()
    && QueueShows(flow.socket.umem, queue.pendingTxMsgs, t.pending)
    && SS.TxInv(t, log) && t.out == []
  }

  /** The state after what was sent went into the network. */
  function Sent(t: S.Tx): S.Tx {
    t.(out := [])
  }

  /** A new flow is sound for the empty stream. */
  method StartFlow(frames: set<Off>) returns (flow: UcclFlow, queue: TxQueue)
    requires |frames| <= NUM_FRAMES
    ensures fresh(flow) && fresh(queue) && fresh(flow.Repr())
    ensures Embodies(flow, queue, S.Initial(frames), SI.TxLog(0, [], [], [])) && queue.doneAtOnce == []
  {
    hide SS.TxInv, TrackOk, TrackShows;
    flow := NewFlow(frames);
    queue := new TxQueue(flow.socket, flow.tx);
    SS.InitialTxInv(frames);
  }

  lemma TxInvGives(t: S.Tx, log: SI.TxLog)
    requires SS.TxInv(t, log)
    ensures SI.Inv(t, log) && SM.MsgInv(t, log) && SI.Owned(t) && SM.QueueOk(t) && S.Tracked(t) && S.Counted(t)
  {
    hide SI.Owned, S.Tracked, S.Counted;
    SM.InvGivesOwned(t, log);
    SI.InvGivesTracked(t, log);
  }

  /** An acknowledgement takes the objects from one sound state to the next. */
  method HandleAck(flow: UcclFlow, queue: TxQueue, ackno: U32, words: Words, count: U16, env: S.Env, ghost a: int,
                   ghost t: S.Tx, ghost log: SI.TxLog)
    returns (packets: seq<Packet>)
    requires Embodies(flow, queue, t, log) && SS.AckOk(t, log, a, words, count) && ackno == Wrap(a)
    modifies flow.Repr()
    ensures S.Tracked(t) && S.Counted(t) && packets == S.ProcessAck(t, ackno, words, count, env).out
    ensures Embodies(flow, queue, Sent(S.ProcessAck(t, ackno, words, count, env)),
                     log.(una := if a > log.una then a else log.una))
  {
    hide SS.TxInv, QueueShows, S.ProcessAck, S.Tracked, S.Counted, SS.AckOk, TrackOk, TrackShows, SI.Owned, SM.QueueOk;
    hide SI.Inv, SM.MsgInv, Sub, Completable, SameOutside, S.Chain;
    TxInvGives(t, log);
    if Sub(ackno, t.una) <= |t.unacked| {
      AcksComplete(t, log, Sub(ackno, t.una));
    }
    SS.ProcessAckStep(t, log, a, words, count, env);
    ghost var umem, u := flow.socket.umem, S.ProcessAck(t, ackno, words, count, env);
    ChainShown(flow.tx.Pointers(), t);
    flow.ProcessAck(ackno, words, count, env, t);
    AckLeavesPending(t, ackno, words, count, env);
    QueueSurvives(umem, flow.socket.umem, queue.pendingTxMsgs, t);
    SS.ClearOutKeepsTxInv(u, log.(una := if a > log.una then a else log.una));
    packets := flow.Flush(u);
  }

  /** A tick of the slow timer does so too. */
  method HandleTick(flow: UcclFlow, queue: TxQueue, env: S.Env, ghost t: S.Tx, ghost log: SI.TxLog)
    returns (alive: bool, packets: seq<Packet>)
    requires Embodies(flow, queue, t, log)
    modifies flow.Repr()
    ensures alive && packets == S.PeriodicCheck(t, env).out
    ensures Embodies(flow, queue, Sent(S.PeriodicCheck(t, env)), log)
  {
    hide SS.TxInv, QueueShows, S.PeriodicCheck, S.Tracked, S.Counted, TrackOk, TrackShows, SI.Owned, SM.QueueOk;
    hide SI.Inv, SM.MsgInv, SameOutside, S.Chain, DueInChain;
    TxInvGives(t, log);
    SS.TickStep(t, log, env);
    SP.NeverGivesUp(t);
    TimersPointIntoChain(t, log, (t.tick + 1) % S.RTO_SLOTS);
    ghost var umem := flow.socket.umem;
    ChainShown(flow.tx.Pointers(), t);
    alive := flow.PeriodicCheck(env, t);
    TickLeavesPending(t, log, env);
    QueueSurvives(umem, flow.socket.umem, queue.pendingTxMsgs, t);
    SS.ClearOutKeepsTxInv(S.PeriodicCheck(t, env), log);
    packets := flow.Flush(S.PeriodicCheck(t, env));
  }

  lemma TickLeavesPending(t: S.Tx, log: SI.TxLog, env: S.Env)
    requires SI.Inv(t, log)
    ensures S.PeriodicCheck(t, env).pending == t.pending
  {
    hide SI.Inv, S.PeriodicCheck, SI.PathsFollow;
    SP.PeriodicCheckKeeps(t, log, env);
  }

  /** So does sending a batch of new packets. */
  method HandleTransmit(flow: UcclFlow, queue: TxQueue, permitted: nat, pick: (nat, nat) -> PathId, now: Tsc, interval: nat,
                        ghost t: S.Tx, ghost log: SI.TxLog)
    returns (packets: seq<Packet>, ghost paths: seq<PathId>, ghost u: S.Tx)
    requires Embodies(flow, queue, t, log)
    modifies flow.Repr()
    ensures SendsOn(t, paths, u) && |paths| <= permitted && packets == u.out && Embodies(flow, queue, Sent(u), log)
  {
    hide SS.TxInv, QueueShows, TrackOk, TrackShows, SI.Owned, SM.QueueOk, SI.Inv, SM.MsgInv, SameOutside, S.Chain, SendsOn;
    hide S.Tracked, S.Counted;
    TxInvGives(t, log);
    ghost var umem := flow.socket.umem;
    ChainShown(flow.tx.Pointers(), t);
    paths, u := flow.TransmitPendingPackets(permitted, pick, now, interval, t);
    SendingIsSound(t, paths, u, log);
    QueueSurvives(umem, flow.socket.umem, queue.pendingTxMsgs, t);
    SS.ClearOutKeepsTxInv(u, log);
    packets := flow.Flush(u);
  }

  lemma {:induction false} SendingIsSound(t: S.Tx, paths: seq<PathId>, u: S.Tx, log: SI.TxLog)
    requires SS.TxInv(t, log) && SendsOn(t, paths, u)
    ensures SS.TxInv(u, log) && u.pending == t.pending
    decreases |paths|
  {
    hide SS.TxInv;
    if paths != [] {
      SS.TransmitStep(t, log, paths[0]);
      SendingIsSound(S.TransmitOne(t, paths[0]), paths[1..], u, log);
    }
  }

  /**
   * So does a message from the application; the stream grows by the frames that went to the chain. A message without a
   * single byte is done at once and changes nothing else.
   */
  method HandleMessage(flow: UcclFlow, queue: TxQueue, msg: seq<Byte>, ctx: S.Ctx, ghost t: S.Tx, ghost log: SI.TxLog)
    returns (ok: bool, ghost bufs: seq<Off>, ghost u: S.Tx, ghost log2: SI.TxLog)
    requires Embodies(flow, queue, t, log)
    modifies flow.Repr(), queue
    ensures ok <==> |Chunks(msg)| <= |t.pool|
    ensures ok ==> Embodies(flow, queue, u, log2)
    ensures queue.doneAtOnce == old(queue.doneAtOnce) + if msg == [] then [ctx] else []
    ensures msg == [] ==> u == t && log2 == log
    ensures ok && msg != [] ==>
      && SM.FreeFor(t, msg, bufs) && |bufs| == |Chunks(msg)|
      && SI.Owned(S.Submit(t, msg, bufs, ctx)) && SM.QueueOk(S.Submit(t, msg, bufs, ctx))
      && u == AppendAll(S.Submit(t, msg, bufs, ctx))
      && u == t.(mem := u.mem, pool := u.pool, pending := u.pending, unsent := u.unsent, ctxs := u.ctxs)
      && log2.msgs == log.msgs + [msg] && log2.asked == log.asked + [ctx] && log2.una == log.una
      && log.stream <= log2.stream
      && (u.pending == [] || |u.unsent| >= S.MAX_TW_PKTS)
  {
    hide SS.TxInv, QueueShows, TrackOk, TrackShows, SI.Owned, SM.QueueOk, SI.Inv, SM.MsgInv, S.Submit, AppendAll, Chunks;
    hide SM.FreeFor, S.Tracked, S.Counted;
    TxInvGives(t, log);
    ok, bufs := queue.TxMessages(msg, ctx, t);
    u, log2 := t, log;
    if ok && msg != [] {
      ghost var v, log1 := S.Submit(t, msg, bufs, ctx), log.(msgs := log.msgs + [msg], asked := log.asked + [ctx]);
      SS.SubmitStep(t, log, msg, bufs, ctx);
      SubmitLeaves(t, msg, bufs, ctx);
      log2 := AppendingIsSound(v, log1);
      u := AppendAll(v);
    }
  }

  /** So does resuming the queue after packets came in; the rest of a long message goes to the chain as far as it fits. */
  method HandleAppend(flow: UcclFlow, queue: TxQueue, ghost t: S.Tx, ghost log: SI.TxLog) returns (ghost log2: SI.TxLog)
    requires Embodies(flow, queue, t, log)
    modifies flow.Repr(), queue
    ensures SI.Owned(t) && SM.QueueOk(t) && Embodies(flow, queue, AppendAll(t), log2)
    ensures log2 == log.(stream := log2.stream) && log.stream <= log2.stream && queue.doneAtOnce == old(queue.doneAtOnce)
    ensures AppendAll(t).pending == [] || |AppendAll(t).unsent| >= S.MAX_TW_PKTS
  {
    hide SS.TxInv, QueueShows, TrackOk, TrackShows, SI.Owned, SM.QueueOk, SI.Inv, SM.MsgInv, AppendAll, S.Tracked, S.Counted;
    TxInvGives(t, log);
    log2 := AppendingIsSound(t, log);
    queue.DeserializeAndAppend(t);
  }

  lemma SubmitLeaves(t: S.Tx, msg: seq<Byte>, bufs: seq<Off>, ctx: S.Ctx)
    requires |bufs| == |Chunks(msg)|
    ensures var u := S.Submit(t, msg, bufs, ctx); u == t.(mem := u.mem, pool := u.pool, pending := u.pending)
  {
  }

  lemma {:induction false} AppendingIsSound(t: S.Tx, log: SI.TxLog) returns (log2: SI.TxLog)
    requires SS.TxInv(t, log)
    ensures SI.Owned(t) && SM.QueueOk(t) && SS.TxInv(AppendAll(t), log2)
    ensures log2 == log.(stream := log2.stream) && log.stream <= log2.stream
    ensures var u := AppendAll(t);
      && u == t.(mem := u.mem, unsent := u.unsent, ctxs := u.ctxs, pending := u.pending)
      && (u.pending == [] || |u.unsent| >= S.MAX_TW_PKTS)
    decreases S.MAX_TW_PKTS - |t.unsent|
  {
    hide SS.TxInv, SI.Owned, SM.QueueOk, S.AppendOnce, S.PendingOk, S.FittingFrames, SI.Inv, SM.MsgInv, S.Tracked, S.Counted;
    TxInvGives(t, log);
    AppendAllStep(t);
    log2 := log;
    if t.pending != [] && |t.unsent| < S.MAX_TW_PKTS {
      SS.AppendStep(t, log);
      SM.AppendLeaves(t);
      log2 := AppendingIsSound(S.AppendOnce(t), log.(stream := log.stream + S.FittingFrames(t)));
    }
  }

  // ----- One message from beginning to end -----

  /** Every timer entry belongs to a packet that has not been acknowledged. */
  ghost predicate AllAhead(t: S.Tx) {
    forall j, i :: 0 <= j < S.RTO_SLOTS && 0 <= i < |t.wheels[j]| ==> SeqGe(t.wheels[j][i].seqno, t.una)
  }

  lemma AheadIsFresh(t: S.Tx, k: nat)
    requires AllAhead(t) && k <= TWO31
    ensures SP.EntriesFresh(t, k)
  {
  }

  lemma TransmitStaysAhead(t: S.Tx, path: PathId, log: SI.TxLog)
    requires SI.Inv(t, log) && t.unsent != [] && t.unsent[0] in t.mem && AllAhead(t)
    ensures var u := S.TransmitOne(t, path);
      AllAhead(u) && u.una == t.una && |u.unacked| == |t.unacked| + 1 && |u.out| == |t.out| + 1
  {
    hide SI.Inv;
    SP.InvGivesNumbers(t, log);
    ComparatorsDecideOrder(SI.Nxt(t, log), log.una);
  }

  lemma {:induction false} SendingStaysAhead(t: S.Tx, paths: seq<PathId>, u: S.Tx, log: SI.TxLog)
    requires SS.TxInv(t, log) && SendsOn(t, paths, u) && AllAhead(t)
    ensures AllAhead(u) && u.una == t.una && |u.unacked| == |t.unacked| + |paths| && |u.out| == |t.out| + |paths|
    decreases |paths|
  {
    hide SS.TxInv, AllAhead;
    if paths != [] {
      SS.TxInvParts(t, log);
      TransmitStaysAhead(t, paths[0], log);
      SS.TransmitStep(t, log, paths[0]);
      SendingStaysAhead(S.TransmitOne(t, paths[0]), paths[1..], u, log);
    }
  }

  /** An acknowledgement of everything in flight, with an empty bitmap, may be handled. */
  lemma AckOfAllIsOk(t: S.Tx, log: SI.TxLog)
    requires SS.TxInv(t, log) && (t.unacked == [] || AllAhead(t))
    ensures SS.AckOk(t, log, SI.Nxt(t, log), ZeroWords(), 0) && t.nxt == Wrap(SI.Nxt(t, log))
  {
    hide SS.TxInv, SI.Inv;
    SS.TxInvParts(t, log);
    SP.InvGivesNumbers(t, log);
    if t.unacked != [] {
      AheadIsFresh(t, |t.unacked|);
    }
  }

  /** With one message asked for, its context is done exactly when all its frames have been acknowledged. */
  lemma DoneIffAcknowledged(t: S.Tx, log: SI.TxLog, msg: seq<Byte>, ctx: S.Ctx)
    requires SS.TxInv(t, log) && log.msgs == [msg] && log.asked == [ctx]
    ensures log.una <= |Chunks(msg)| && t.done == if log.una == |Chunks(msg)| then [ctx] else []
  {
    hide SI.Inv, SM.QueueOk, SM.CountFlags, Chunks;
    var all := FramesOfAll([msg]);
    assert [msg][1..] == [] && all == FramesOf(msg) + FramesOfAll([]);
    FramesCount(msg);
    assert log.stream <= all && log.stream[..log.una] == all[..log.una];
    SM.FinishedAreWhole([msg], log.una, 1);
    assert [msg][..1] == [msg];
    assert t.done <= [ctx];
    assert |t.done| >= 1 <==> log.una == |Chunks(msg)|;
  }

  lemma FramesCount(msg: seq<Byte>)
    ensures |FramesOf(msg)| == |Chunks(msg)|
  {
    ChunksJoin(msg);
    S.FlaggedLength(Chunks(msg), |msg|, |msg|);
  }

  /** The peer acknowledges all that is in flight. */
  method AckAll(flow: UcclFlow, queue: TxQueue, env: S.Env, ghost t: S.Tx, ghost log: SI.TxLog)
    returns (packets: seq<Packet>, ghost u: S.Tx, ghost log2: SI.TxLog)
    requires Embodies(flow, queue, t, log) && (t.unacked == [] || AllAhead(t))
    modifies flow.Repr()
    ensures Embodies(flow, queue, u, log2) && u.unacked == [] && log2 == log.(una := SI.Nxt(t, log))
  {
    hide SS.TxInv, SS.AckOk, S.ProcessAck, QueueShows, TrackOk, TrackShows, S.Tracked, S.Counted, AllAhead;
    AckOfAllIsOk(t, log);
    SS.ProcessAckStep(t, log, SI.Nxt(t, log), ZeroWords(), 0, env);
    ghost var v := S.ProcessAck(t, t.nxt, ZeroWords(), 0, env);
    packets := HandleAck(flow, queue, flow.pcb.sndNxt, ZeroWords(), 0, env, SI.Nxt(t, log), t, log);
    u, log2 := Sent(v), log.(una := SI.Nxt(t, log));
  }

  lemma TickLeavesFlight(t: S.Tx, log: SI.TxLog, env: S.Env)
    requires SS.TxInv(t, log)
    ensures S.PeriodicCheck(t, env).unacked == t.unacked
  {
    hide SI.Inv, S.PeriodicCheck, SI.PathsFollow, SI.SameButDue, SM.MsgInv;
    SP.PeriodicCheckKeeps(t, log, env);
    SI.SameButDueFacts(t.(tick := (t.tick + 1) % S.RTO_SLOTS), S.PeriodicCheck(t, env));
  }

  lemma SameWheelStaysAhead(t: S.Tx, u: S.Tx)
    requires u.wheels == t.wheels && u.una == t.una && AllAhead(t)
    ensures AllAhead(u)
  {
  }

  lemma EmbodiesGives(flow: UcclFlow, queue: TxQueue, t: S.Tx, log: SI.TxLog)
    requires Embodies(flow, queue, t, log)
    ensures SS.TxInv(t, log) && flow.tx.done == t.done && queue as object !in flow.Repr()
  {
  }

  /** All that is in flight is acknowledged, the timer ticks, and the acknowledgement comes again. */
  method AckTickAck(flow: UcclFlow, queue: TxQueue, env: S.Env, ghost t: S.Tx, ghost log: SI.TxLog)
    returns (ghost u: S.Tx)
    requires Embodies(flow, queue, t, log) && AllAhead(t)
    modifies flow.Repr()
    ensures Embodies(flow, queue, u, log.(una := SI.Nxt(t, log)))
  {
    hide Embodies, SS.TxInv, AllAhead, S.PeriodicCheck;
    ghost var log2;
    var again, alive;
    again, u, log2 := AckAll(flow, queue, env, t, log);
    EmbodiesGives(flow, queue, u, log2);
    TickLeavesFlight(u, log2, env);
    ghost var v := Sent(S.PeriodicCheck(u, env));
    alive, again := HandleTick(flow, queue, env, u, log2);
    again, u, log2 := AckAll(flow, queue, env, v, log2);
  }

  /**
   * A new flow takes a message, sends what its windows admit, has that acknowledged, ticks, and hears the same
   * acknowledgement again. The message is done exactly if all of it was sent.
   */
  method OneMessage(frames: set<Off>, msg: seq<Byte>, ctx: S.Ctx, permitted: nat, pick: (nat, nat) -> PathId, now: Tsc,
                    interval: nat, env: S.Env)
    returns (flow: UcclFlow, queue: TxQueue, ok: bool, packets: seq<Packet>)
    requires |frames| <= NUM_FRAMES
    ensures ok <==> |Chunks(msg)| <= |frames|
    ensures ok && msg != [] ==> flow.tx.done == if |packets| == |Chunks(msg)| then [ctx] else []
    ensures queue.doneAtOnce == if msg == [] then [ctx] else []
  {
    hide Embodies, SS.TxInv, SendsOn, AllAhead, Chunks, AppendAll, S.Submit, SM.FreeFor, SI.Owned, SM.QueueOk;
    flow, queue := StartFlow(frames);
    ghost var t0, log0 := S.Initial(frames), SI.TxLog(0, [], [], []);
    NewFlowIsAhead(frames);
    packets := [];
    ghost var bufs, t, log;
    ok, bufs, t, log := HandleMessage(flow, queue, msg, ctx, t0, log0);
    if !ok {
      return;
    }
    EmbodiesGives(flow, queue, t, log);
    SameWheelStaysAhead(t0, t);
    ghost var paths, u;
    packets, paths, u := HandleTransmit(flow, queue, permitted, pick, now, interval, t, log);
    SendingStaysAhead(t, paths, u, log);
    SameWheelStaysAhead(u, Sent(u));
    u := AckTickAck(flow, queue, env, Sent(u), log);
    if msg != [] {
      ghost var log2 := log.(una := |packets|);
      EmbodiesGives(flow, queue, u, log2);
      DoneIffAcknowledged(u, log2, msg, ctx);
    }
  }

  lemma NewFlowIsAhead(frames: set<Off>)
    ensures var t := S.Initial(frames); AllAhead(t) && t.unacked == [] && t.out == [] && t.pool == frames
  {
  }

  lemma AckLeavesPending(t: S.Tx, ackno: U32, words: Words, count: U16, env: S.Env)
    requires S.Tracked(t) && S.Counted(t)
    ensures S.ProcessAck(t, ackno, words, count, env).pending == t.pending
  {
    hide S.Tracked, S.Counted, S.Recover, S.ReceiveAcks, S.SettlePaths, SeqLt, SeqEq, SeqGt, Sub;
    if !SeqLt(ackno, t.una) && !SeqEq(ackno, t.una) && !SeqGt(ackno, t.nxt) {
      S.AcceptedAckIsInFlight(t, ackno);
      SP.ReceiveAcksReleases(t, Sub(ackno, t.una));
    } else {
      var n: int := t.dupAcks;
      var t1 := t.(dupAcks := (n + 1) % 0x1_0000, oooAcks := count);
      RecoverLeavesPending(t1, words, 0, count, Min(Min(env.txqFree, Clip(S.MaxUnackedPerEngine() - |t.unacked|)), BITS), env);
    }
  }

  lemma {:induction false} RecoverLeavesPending(t: S.Tx, words: Words, i: nat, left: nat, budget: nat, env: S.Env)
    requires budget <= BITS
    ensures S.Recover(t, words, i, left, budget, env).pending == t.pending
    decreases budget - i
  {
    if left > 0 && i < budget && i < |S.Chain(t)| {
      if TestBit(words, i) {
        RecoverLeavesPending(t, words, i + 1, left - 1, budget, env);
      } else {
        RecoverLeavesPending(S.RecoverOne(t, i, env.pick(i)), words, i + 1, left, budget, env);
      }
    }
  }

  function Clip(n: int): nat {
    if n < 0 then 0 else n
  }
}
