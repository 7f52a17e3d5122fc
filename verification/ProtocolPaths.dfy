/** Per-path accounting over whole runs. */
module ProtocolPaths {
  import opened SerialNumbers
  import opened Messages
  import opened Packets
  import opened Protocol
  import opened ProtocolInvariants
  import PathAccounting
  import PathRuns
  import S = Sender
  import SI = SenderInvariants
  import SP = SenderProgress
  import SM = SenderMessages
  import SS = SenderSteps
  import R = Receiver
  import RI = ReceiverInvariants

  ghost predicate PathsInv(s: Sys) {
    SI.PathsOk(s.tx, s.log)
  }

  lemma PathsReadOnly(t: S.Tx, u: S.Tx, log: SI.TxLog, log2: SI.TxLog)
    requires SI.PathsOk(t, log) && u.paths == t.paths && |u.unacked| == |t.unacked| && log2.una == log.una
    ensures SI.PathsOk(u, log2)
  {
  }

  lemma InFlightOnPath(t: S.Tx, log: SI.TxLog, n: nat)
    requires PathAccounting.Exact(t.paths, log.una, SI.Nxt(t, log)) && log.una <= n < SI.Nxt(t, log)
    ensures t.paths.pp[PathAccounting.PathOf(t.paths, Wrap(n))] > 0
  {
    PathAccounting.SlotOfWrapped(n);
    PathAccounting.CountIsPositive(t.paths.hist, log.una, SI.Nxt(t, log), n);
  }

  lemma TransmitKeepsPaths(s: Sys, path: PathId)
    requires SysInv(s) && PathsInv(s) && Enabled(s, Transmit(path)) && Safe(s, Transmit(path))
    requires |s.tx.unacked| < PATH_HISTORY
    ensures PathsInv(Apply(s, Transmit(path)))
  {
    hide SysInv, SS.TxInv, SI.Inv, SM.MsgInv, SI.PathsOk, S.TransmitOne;
    SenderPart(s);
    SP.InvGivesNumbers(s.tx, s.log);
    SP.TransmitOneKeepsPaths(s.tx, s.log, path);
    var tx := S.TransmitOne(s.tx, path);
    PathsReadOnly(tx, tx.(out := []), s.log, s.log);
  }

  lemma AckKeepsPaths(s: Sys, t: Tagged, env: S.Env)
    requires SysInv(s) && PathsInv(s) && Enabled(s, DeliverAck(t, env)) && Safe(s, DeliverAck(t, env))
    requires |s.tx.unacked| <= PATH_HISTORY
    ensures PathsInv(Apply(s, DeliverAck(t, env)))
  {
    hide SS.TxInv, SP.EntriesFresh, RI.RxState, S.ProcessAck, NetOk, SI.PathsOk, S.Tracked, S.Counted;
    DeliveredAckIsOk(s, t);
    var a := RI.Rcv(t.at);
    SS.ProcessAckKeepsPaths(s.tx, s.log, a, t.pkt.words, t.pkt.count, env);
    var tx := S.ProcessAck(s.tx, t.pkt.ackno, t.pkt.words, t.pkt.count, env);
    var log := s.log.(una := if a > s.log.una then a else s.log.una);
    PathsReadOnly(tx, tx.(out := []), log, log);
  }

  lemma FollowedPaths(t: S.Tx, u: S.Tx, log: SI.TxLog)
    requires SI.PathsFollow(t, u, log) && SI.PathsOk(t, log) && |t.unacked| <= PATH_HISTORY
    ensures SI.PathsOk(u, log)
  {
  }

  lemma TickKeepsPaths(s: Sys, env: S.Env)
    requires SysInv(s) && PathsInv(s) && Safe(s, Tick(env)) && |s.tx.unacked| <= PATH_HISTORY
    ensures PathsInv(Apply(s, Tick(env)))
  {
    hide SysInv, SS.TxInv, SI.Inv, SM.MsgInv, S.PeriodicCheck, SI.PathsOk, SI.PathsFollow, SI.DuePackets, TimerSafe,
         SI.SameButDue;
    SenderPart(s);
    SP.PeriodicCheckKeeps(s.tx, s.log, env);
    var tx := S.PeriodicCheck(s.tx, env);
    assert SI.PathsOk(tx, s.log) by {
      FollowedPaths(s.tx, tx, s.log);
    }
    PathsReadOnly(tx, tx.(out := []), s.log, s.log);
  }

  lemma {:induction false} NothingOnEmptyRange(hist: seq<PathId>, path: PathId)
    requires |hist| == PATH_HISTORY
    ensures PathAccounting.CountOn(hist, path, 0, 0) == 0
  {
  }

  /** Packets in flight that a retransmission has moved to another path. */
  function MovedInFlight(s: Sys): nat {
    PathAccounting.MovedIn(s.tx.paths, s.log.una, Nxt(s))
  }

  /** The packets the ring can tell apart: the paths' caps leave room for the packets in flight that were moved. */
  predicate FewMoved(s: Sys) {
    PLATFORM.maxUnackedPp * PLATFORM.maxPath + MovedInFlight(s) <= PATH_HISTORY
  }

  /** A path that admits a packet leaves a slot of the ring free for it. */
  lemma AdmittedFits(s: Sys, path: PathId)
    requires PathsInv(s) && FewMoved(s) && S.Admits(s.tx, path)
    ensures |s.tx.unacked| < PATH_HISTORY
  {
    assert s.tx.windows[path].cwnd <= PLATFORM.maxUnackedPp as real;
    assert s.tx.paths.pp[path] < PLATFORM.maxUnackedPp;
    PathAccounting.InFlightBound(s.tx.paths, s.log.una, Nxt(s));
  }

  /** Every step keeps the counters exact while no more packets are in flight than the history ring has slots. */
  lemma StepKeepsPaths(s: Sys, step: Step)
    requires SysInv(s) && PathsInv(s) && Enabled(s, step) && Safe(s, step)
    requires |s.tx.unacked| <= PATH_HISTORY && |Apply(s, step).tx.unacked| <= PATH_HISTORY
    ensures PathsInv(Apply(s, step))
  {
    hide SysInv, PathsInv, SI.PathsOk;
    match step
    case Submit(msg, bufs, ctx) => QueueingKeepsPaths(s, step);
    case Append => QueueingKeepsPaths(s, step);
    case Transmit(path) =>
      SP.TransmitOneSends(s.tx, path);
      TransmitKeepsPaths(s, path);
    case DeliverAck(t, env) => AckKeepsPaths(s, t, env);
    case Tick(env) => TickKeepsPaths(s, env);
    case _ => OtherStepsKeepPaths(s, step);
  }

  /** Only sending a new packet adds to what is in flight. */
  lemma FlightAfterStep(s: Sys, step: Step)
    requires SysInv(s) && Enabled(s, step) && Safe(s, step)
    ensures |Apply(s, step).tx.unacked| <= |s.tx.unacked| + if step.Transmit? then 1 else 0
  {
    hide SysInv, SS.TxInv, SP.EntriesFresh, S.ProcessAck, S.AppendOnce, S.PeriodicCheck, R.Consume, R.CopyOut, R.Supply;
    hide S.PendingOk, S.Submit, S.Tracked, S.Counted, RI.Whole, S.FittingFrames, TimerSafe, S.TransmitOne;
    match step
    case Submit(msg, bufs, ctx) => SubmitLeavesPaths(s.tx, msg, bufs, ctx);
    case Append => SM.AppendLeaves(s.tx);
    case Transmit(path) => SP.TransmitOneSends(s.tx, path);
    case Tick(env) => TickKeeps(s, env);
    case DeliverAck(t, env) => AckKeepsNxt(s, t, env);
    case _ =>
  }

  lemma AckKeepsNxt(s: Sys, t: Tagged, env: S.Env)
    requires SysInv(s) && Enabled(s, DeliverAck(t, env)) && Safe(s, DeliverAck(t, env))
    ensures |Apply(s, DeliverAck(t, env)).tx.unacked| <= |s.tx.unacked|
  {
    hide SS.TxInv, SP.EntriesFresh, RI.RxState, S.ProcessAck, NetOk, S.Tracked, S.Counted;
    DeliveredAckIsOk(s, t);
    SS.ProcessAckStep(s.tx, s.log, RI.Rcv(t.at), t.pkt.words, t.pkt.count, env);
  }

  lemma QueueingKeepsPaths(s: Sys, step: Step)
    requires PathsInv(s) && Enabled(s, step) && Safe(s, step) && (step.Submit? || step.Append?)
    ensures PathsInv(Apply(s, step))
  {
    hide SI.PathsOk, S.AppendOnce, S.Submit;
    var u := Apply(s, step);
    if step.Append? {
      SM.AppendLeaves(s.tx);
      PathsReadOnly(s.tx, u.tx, s.log, u.log);
    } else {
      SubmitLeavesPaths(s.tx, step.msg, step.bufs, step.ctx);
      PathsReadOnly(s.tx, u.tx, s.log, u.log);
    }
  }

  lemma SubmitLeavesPaths(t: S.Tx, msg: seq<Byte>, bufs: seq<Off>, ctx: S.Ctx)
    requires |bufs| == |Chunks(msg)|
    ensures S.Submit(t, msg, bufs, ctx).paths == t.paths && S.Submit(t, msg, bufs, ctx).unacked == t.unacked
  {
  }

  lemma OtherStepsKeepPaths(s: Sys, step: Step)
    requires PathsInv(s) && Enabled(s, step) && Safe(s, step)
    requires !step.Submit? && !step.Append? && !step.Transmit? && !step.DeliverAck? && !step.Tick?
    ensures PathsInv(Apply(s, step))
  {
    hide SI.PathsOk;
  }

  /**
   * In every run in which at most 4096 packets are ever in flight, every path's counter is exactly the number of packets
   * in flight on it, and it exceeds the path's cap by no more than the packets in flight moved to it from other paths.
   */
  lemma {:induction false} CountersAreExact(states: seq<Sys>, steps: seq<Step>, i: nat)
    requires Run(states, steps) && i < |states|
    requires forall j :: 0 <= j <= i ==> |states[j].tx.unacked| <= PATH_HISTORY
    ensures PathsInv(states[i])
  {
    hide SysInv, Apply, Safe, Enabled, PathsInv;
    if i == 0 {
      InitPaths(states[0]);
    } else {
      RunKeepsInv(states, steps, i - 1);
      assert Next(states[i - 1], steps[i - 1], states[i - 1 + 1]);
      hide Run;
      CountersAreExact(states, steps, i - 1);
      StepKeepsPaths(states[i - 1], steps[i - 1]);
    }
  }

  /**
   * If the packets in flight that were moved, added to the paths' caps, never exceed 4096, no more than 4096 packets ever
   * fly.
   */
  lemma {:induction false} FewMovedFit(states: seq<Sys>, steps: seq<Step>, i: nat)
    requires Run(states, steps) && i < |states| && forall j :: 0 <= j < i ==> FewMoved(states[j])
    ensures forall j :: 0 <= j <= i ==> |states[j].tx.unacked| <= PATH_HISTORY
  {
    hide SysInv, Apply, Safe, Enabled, PathsInv, FewMoved;
    if i == 0 {
      assert states[0].tx.unacked == [];
    } else {
      RunKeepsInv(states, steps, i - 1);
      assert Next(states[i - 1], steps[i - 1], states[i - 1 + 1]);
      hide Run;
      var s, step := states[i - 1], steps[i - 1];
      FewMovedFit(states, steps, i - 1);
      CountersAreExact(states, steps, i - 1);
      FlightAfterStep(s, step);
      if step.Transmit? {
        TransmitIsAdmitted(s, step.path);
        AdmittedFits(s, step.path);
      }
    }
  }

  lemma TransmitIsAdmitted(s: Sys, path: PathId)
    requires Enabled(s, Transmit(path))
    ensures S.Admits(s.tx, path)
  {
  }

  lemma InitPaths(s: Sys)
    requires Init(s)
    ensures PathsInv(s)
  {
    forall path: PathId
      ensures s.tx.paths.pp[path] == PathAccounting.CountOn(s.tx.paths.hist, path, 0, 0)
    {
      NothingOnEmptyRange(s.tx.paths.hist, path);
    }
  }

  /** The counter of a path with a packet in flight is positive, so no decrement wraps around. */
  lemma NoCounterUnderflows(states: seq<Sys>, steps: seq<Step>, i: nat, n: nat)
    requires Run(states, steps) && i < |states|
    requires forall j :: 0 <= j <= i ==> |states[j].tx.unacked| <= PATH_HISTORY
    requires states[i].log.una <= n < Nxt(states[i])
    ensures var p := states[i].tx.paths; p.pp[PathAccounting.PathOf(p, Wrap(n))] > 0
  {
    hide Run;
    CountersAreExact(states, steps, i);
    InFlightOnPath(states[i].tx, states[i].log, n);
  }

  /**
   * In every run in which at most 4096 packets are ever in flight, packets in flight exceed the sum of the paths' caps by
   * no more than the packets in flight that were moved to another path, and so by no more than the retransmissions in all
   * that moved a packet to another path.
   */
  lemma SmallFlightIsCapped(states: seq<Sys>, steps: seq<Step>, i: nat)
    requires Run(states, steps) && i < |states|
    requires forall j :: 0 <= j <= i ==> |states[j].tx.unacked| <= PATH_HISTORY
    ensures Nxt(states[i]) - states[i].log.una <= PLATFORM.maxUnackedPp * PLATFORM.maxPath + MovedInFlight(states[i])
    ensures MovedInFlight(states[i]) <= states[i].tx.paths.moves
  {
    hide Run;
    CountersAreExact(states, steps, i);
    PathAccounting.InFlightBound(states[i].tx.paths, states[i].log.una, Nxt(states[i]));
  }

  // ----- However many packets are in flight -----

  ghost predicate TallyInv(s: Sys) {
    SI.TallyOk(s.tx, s.log)
  }

  lemma TallyReadsOnly(t: S.Tx, u: S.Tx, log: SI.TxLog, log2: SI.TxLog)
    requires SI.TallyOk(t, log) && u.paths == t.paths && |u.unacked| == |t.unacked| && log2.una == log.una
    ensures SI.TallyOk(u, log2)
  {
  }

  lemma TransmitKeepsTally(s: Sys, path: PathId)
    requires SysInv(s) && TallyInv(s) && Enabled(s, Transmit(path)) && Safe(s, Transmit(path))
    requires PathAccounting.FewMoves(s.tx.paths)
    ensures TallyInv(Apply(s, Transmit(path)))
  {
    hide SysInv, SS.TxInv, SI.Inv, SM.MsgInv, SI.TallyOk, S.TransmitOne;
    SenderPart(s);
    SP.InvGivesNumbers(s.tx, s.log);
    SP.TransmitOneKeepsTally(s.tx, s.log, path);
    var tx := S.TransmitOne(s.tx, path);
    TallyReadsOnly(tx, tx.(out := []), s.log, s.log);
  }

  lemma AckKeepsTally(s: Sys, t: Tagged, env: S.Env)
    requires SysInv(s) && TallyInv(s) && Enabled(s, DeliverAck(t, env)) && Safe(s, DeliverAck(t, env))
    ensures TallyInv(Apply(s, DeliverAck(t, env)))
  {
    hide SS.TxInv, SP.EntriesFresh, RI.RxState, S.ProcessAck, NetOk, SI.TallyOk, S.Tracked, S.Counted;
    DeliveredAckIsOk(s, t);
    var a := RI.Rcv(t.at);
    SS.ProcessAckKeepsTally(s.tx, s.log, a, t.pkt.words, t.pkt.count, env);
    var tx := S.ProcessAck(s.tx, t.pkt.ackno, t.pkt.words, t.pkt.count, env);
    var log := s.log.(una := if a > s.log.una then a else s.log.una);
    TallyReadsOnly(tx, tx.(out := []), log, log);
  }

  lemma FollowedTally(t: S.Tx, u: S.Tx, log: SI.TxLog)
    requires SI.PathsFollow(t, u, log) && SI.TallyOk(t, log)
    ensures SI.TallyOk(u, log)
  {
  }

  lemma TickKeepsTally(s: Sys, env: S.Env)
    requires SysInv(s) && TallyInv(s) && Safe(s, Tick(env))
    ensures TallyInv(Apply(s, Tick(env)))
  {
    hide SysInv, SS.TxInv, SI.Inv, SM.MsgInv, S.PeriodicCheck, SI.TallyOk, SI.PathsFollow, SI.DuePackets, TimerSafe,
         SI.SameButDue;
    SenderPart(s);
    SP.PeriodicCheckKeeps(s.tx, s.log, env);
    var tx := S.PeriodicCheck(s.tx, env);
    FollowedTally(s.tx, tx, s.log);
    TallyReadsOnly(tx, tx.(out := []), s.log, s.log);
  }

  lemma QueueingKeepsTally(s: Sys, step: Step)
    requires TallyInv(s) && Enabled(s, step) && Safe(s, step) && (step.Submit? || step.Append?)
    ensures TallyInv(Apply(s, step))
  {
    hide SI.TallyOk, S.AppendOnce, S.Submit;
    var u := Apply(s, step);
    if step.Append? {
      SM.AppendLeaves(s.tx);
    } else {
      SubmitLeavesPaths(s.tx, step.msg, step.bufs, step.ctx);
    }
    TallyReadsOnly(s.tx, u.tx, s.log, u.log);
  }

  lemma OtherStepsKeepTally(s: Sys, step: Step)
    requires TallyInv(s) && Enabled(s, step) && Safe(s, step)
    requires !step.Submit? && !step.Append? && !step.Transmit? && !step.DeliverAck? && !step.Tick?
    ensures TallyInv(Apply(s, step))
  {
    hide SI.TallyOk;
  }

  /** Every step keeps the tallies, a new packet only while no counter can have wrapped around. */
  lemma StepKeepsTally(s: Sys, step: Step)
    requires SysInv(s) && TallyInv(s) && Enabled(s, step) && Safe(s, step)
    requires step.Transmit? ==> PathAccounting.FewMoves(s.tx.paths)
    ensures TallyInv(Apply(s, step))
  {
    hide SysInv, TallyInv, Enabled, Safe, Apply;
    match step
    case Submit(msg, bufs, ctx) => QueueingKeepsTally(s, step);
    case Append => QueueingKeepsTally(s, step);
    case Transmit(path) => TransmitKeepsTally(s, path);
    case DeliverAck(t, env) => AckKeepsTally(s, t, env);
    case Tick(env) => TickKeepsTally(s, env);
    case _ => OtherStepsKeepTally(s, step);
  }

  lemma FollowedMoves(t: S.Tx, u: S.Tx, log: SI.TxLog)
    requires SI.PathsFollow(t, u, log)
    ensures t.paths.moves <= u.paths.moves
  {
  }

  lemma AckKeepsMoves(s: Sys, t: Tagged, env: S.Env)
    requires SysInv(s) && Enabled(s, DeliverAck(t, env)) && Safe(s, DeliverAck(t, env))
    ensures s.tx.paths.moves <= Apply(s, DeliverAck(t, env)).tx.paths.moves
  {
    hide SS.TxInv, SP.EntriesFresh, RI.RxState, S.ProcessAck, NetOk, S.Tracked, S.Counted;
    DeliveredAckIsOk(s, t);
    SS.ProcessAckKeepsMoves(s.tx, s.log, RI.Rcv(t.at), t.pkt.words, t.pkt.count, env);
  }

  lemma TickKeepsMoves(s: Sys, env: S.Env)
    requires SysInv(s) && Safe(s, Tick(env))
    ensures s.tx.paths.moves <= Apply(s, Tick(env)).tx.paths.moves
  {
    hide SysInv, SS.TxInv, SI.Inv, SM.MsgInv, S.PeriodicCheck, SI.PathsFollow, SI.DuePackets, TimerSafe, SI.SameButDue;
    SenderPart(s);
    SP.PeriodicCheckKeeps(s.tx, s.log, env);
    FollowedMoves(s.tx, S.PeriodicCheck(s.tx, env), s.log);
  }

  /** No step takes a move back. */
  lemma MovesGrow(s: Sys, step: Step)
    requires SysInv(s) && Enabled(s, step) && Safe(s, step)
    ensures s.tx.paths.moves <= Apply(s, step).tx.paths.moves
  {
    hide SysInv, SS.TxInv, SP.EntriesFresh, S.ProcessAck, S.AppendOnce, S.PeriodicCheck, R.Consume, R.CopyOut, R.Supply;
    hide S.PendingOk, S.Submit, S.Tracked, S.Counted, RI.Whole, S.FittingFrames, TimerSafe;
    match step
    case Submit(msg, bufs, ctx) => SubmitLeavesPaths(s.tx, msg, bufs, ctx);
    case Append => SM.AppendLeaves(s.tx);
    case DeliverAck(t, env) => AckKeepsMoves(s, t, env);
    case Tick(env) => TickKeepsMoves(s, env);
    case _ =>
  }

  lemma InitTally(s: Sys)
    requires Init(s)
    ensures TallyInv(s)
  {
    PathRuns.EmptyIsTallied();
  }

  lemma {:induction false} RunKeepsTally(states: seq<Sys>, steps: seq<Step>, i: nat)
    requires Run(states, steps) && i < |states| && PathAccounting.FewMoves(states[i].tx.paths)
    ensures TallyInv(states[i])
  {
    hide SysInv, Apply, Safe, Enabled, TallyInv;
    if i == 0 {
      InitTally(states[0]);
    } else {
      RunKeepsInv(states, steps, i - 1);
      assert Next(states[i - 1], steps[i - 1], states[i - 1 + 1]);
      hide Run;
      MovesGrow(states[i - 1], steps[i - 1]);
      RunKeepsTally(states, steps, i - 1);
      StepKeepsTally(states[i - 1], steps[i - 1]);
    }
  }

  /**
   * In every run, however many packets are in flight: as long as the cap of a path and the retransmissions that moved a
   * packet to another path together stay below 2^16, packets in flight never exceed the sum of the paths' caps by more
   * than those retransmissions. `PathRuns.CappedIff` says that the bound on the moves cannot be relaxed.
   */
  lemma InFlightIsCapped(states: seq<Sys>, steps: seq<Step>, i: nat)
    requires Run(states, steps) && i < |states| && PLATFORM.maxUnackedPp + states[i].tx.paths.moves < 0x1_0000
    ensures Nxt(states[i]) - states[i].log.una <= PLATFORM.maxUnackedPp * PLATFORM.maxPath + states[i].tx.paths.moves
  {
    hide Run;
    RunKeepsTally(states, steps, i);
    PathAccounting.FlightIsCapped(states[i].tx.paths, states[i].log.una, Nxt(states[i]));
  }
}
