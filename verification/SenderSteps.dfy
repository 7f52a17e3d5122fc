/** The steps of the sending half, each with everything it keeps. */
module SenderSteps {
  import opened SerialNumbers
  import opened Messages
  import opened SackBitmap
  import opened Packets
  import opened Sender
  import opened SenderInvariants
  import opened SenderProgress
  import opened SenderMessages

  /** Between two steps the slot of the current tick is empty. */
  ghost predicate TxInv(t: Tx, log: TxLog) {
    Inv(t, log) && MsgInv(t, log) && t.wheels[t.tick] == []
  }

  /** No entry leaves the wheel and the tick stays. */
  ghost predicate WheelGrows(t: Tx, u: Tx) {
    u.tick == t.tick && forall j :: 0 <= j < RTO_SLOTS ==> t.wheels[j] <= u.wheels[j]
  }

  lemma SameFlightGrows(t: Tx, u: Tx)
    requires SameFlight(t, u)
    ensures WheelGrows(t, u)
  {
  }

  lemma SameChainKeepsMsgInv(t: Tx, u: Tx, log: TxLog)
    requires Owned(t) && MsgInv(t, log) && SameChain(t, u)
    ensures MsgInv(u, log)
  {
    PendingAreInUse(t);
    hide Owned, PendingOk;
    ToComeIgnoresOthers(t.mem, u.mem, t.pending);
  }

  lemma SameFlightKeeps(t: Tx, u: Tx, log: TxLog)
    requires TxInv(t, log) && Inv(u, log) && SameFlight(t, u)
    ensures TxInv(u, log)
  {
    assert ReadySlot(t.tick) != t.tick;
    hide Inv, MsgInv;
    InvGivesOwned(t, log);
    SameChainKeepsMsgInv(t, u, log);
  }

  lemma SentNewKeepsMsgInv(t: Tx, u: Tx, log: TxLog)
    requires Owned(t) && MsgInv(t, log) && t.unsent != [] && t.unsent[0] in t.mem && SentNew(t, u)
    ensures MsgInv(u, log)
  {
    PendingAreInUse(t);
    hide Owned, PendingOk;
    ToComeIgnoresOthers(t.mem, u.mem, t.pending);
  }

  /** Sending the oldest unsent frame. */
  lemma TransmitStep(t: Tx, log: TxLog, path: PathId)
    requires TxInv(t, log) && t.unsent != []
    ensures t.unsent[0] in t.mem
    ensures TxInv(TransmitOne(t, path), log) && SentNew(t, TransmitOne(t, path))
  {
    hide Inv, MsgInv, TransmitOne;
    TransmitOneKeeps(t, log, path);
    InvGivesOwned(t, log);
    SentNewKeepsMsgInv(t, TransmitOne(t, path), log);
    assert ReadySlot(t.tick) != t.tick;
  }

  /** Acknowledged buffers are not those of queued messages. */
  lemma AckLeavesQueue(t: Tx, u: Tx, log: TxLog, k: nat)
    requires Owned(t) && k <= |t.unacked| && Acknowledged(t, u, log, k)
    ensures forall b :: b in PendingBufs(t.pending) ==> b in t.mem && b in u.mem && u.mem[b] == t.mem[b]
  {
    PendingAreInUse(t);
    QueuedNotReleased(t, k);
    hide Owned, PendingBufs, Prefix, Chain;
  }

  lemma QueuedNotReleased(t: Tx, k: nat)
    requires Owned(t) && k <= |t.unacked|
    ensures forall b :: b in PendingBufs(t.pending) ==> b !in Prefix(t.unacked, k)
  {
    var p, q := t.unacked[..k], PendingBufs(t.pending);
    var rest := t.unacked[k..] + t.unsent + q;
    assert AllBufs(t) == [] + p + rest;
    hide Distinct, AllBufs, PendingBufs, Prefix;
    DistinctPart([], p, rest);
    PrefixIsTake(t.unacked, k);
    forall b | b in q
      ensures b !in Prefix(t.unacked, k)
    {
      assert b in rest;
    }
  }

  lemma PrefixIsTake(bufs: seq<Off>, k: nat)
    requires k <= |bufs|
    ensures forall b :: b in Prefix(bufs, k) <==> b in bufs[..k]
  {
  }

  lemma AcceptAckStep(t: Tx, log: TxLog, k: nat, env: Env)
    requires TxInv(t, log) && k <= |t.unacked| && EntriesFresh(t, k) && t.out == []
    ensures Tracked(t)
    ensures TxInv(AcceptAck(t, Wrap(log.una + k), k, env), log.(una := log.una + k))
    ensures AcceptAck(t, Wrap(log.una + k), k, env).out == []
    ensures |AcceptAck(t, Wrap(log.una + k), k, env).unacked| == |t.unacked| - k
    ensures WheelGrows(t, AcceptAck(t, Wrap(log.una + k), k, env))
  {
    hide AcceptAck, Inv, Tracked, EntriesFresh, ReceiveAcks, PendingOk, ContextsOk, Prefix;
    AcceptAckKeeps(t, log, k, env);
    AcceptAckReleases(t, log, k, env);
    var u := AcceptAck(t, Wrap(log.una + k), k, env);
    AcceptAckKeepsContexts(t, u, log, k);
    InvGivesOwned(t, log);
    hide Owned;
    AckLeavesQueue(t, u, log, k);
    ToComeIgnoresOthers(t.mem, u.mem, t.pending);
  }

  /** What handling an acknowledgement of number `a` needs to know about it. */
  ghost predicate AckOk(t: Tx, log: TxLog, a: int, words: Words, count: U16) {
    && Nxt(t, log) - TWO32 < a <= Nxt(t, log)
    && (a == log.una ==> AckFits(t, words, count))
    && (a > log.una ==> EntriesFresh(t, a - log.una))
  }

  /**
   * Exactly when an acknowledgement is acted on, however stale it is: modulo 2^32 it lies between the oldest number in
   * flight and the next one to be sent.
   */
  lemma ActedOnIff(t: Tx, log: TxLog, a: int)
    requires t.una == Wrap(log.una) && t.nxt == Wrap(Nxt(t, log)) && |t.unacked| < TWO31
    ensures !SeqLt(Wrap(a), t.una) && !SeqGt(Wrap(a), t.nxt) <==> (a - log.una) % TWO32 <= |t.unacked|
    ensures SeqEq(Wrap(a), t.una) <==> (a - log.una) % TWO32 == 0
    ensures Sub(Wrap(a), t.una) == (a - log.una) % TWO32
  {
    SubWrap(a, log.una);
    SubWrap(a, Nxt(t, log));
    LessModulo(a - log.una, |t.unacked|);
    hide Sub, Wrap;
  }

  lemma LessModulo(x: int, k: nat)
    requires k < TWO31
    ensures (x - k) % TWO32 == if x % TWO32 >= k then x % TWO32 - k else x % TWO32 - k + TWO32
  {
  }

  lemma ProcessAckCases(t: Tx, log: TxLog, a: int)
    requires Inv(t, log) && Nxt(t, log) - TWO32 < a <= Nxt(t, log)
    ensures Tracked(t) && Counted(t)
    ensures !SeqLt(Wrap(a), t.una) && !SeqGt(Wrap(a), t.nxt) <==> a >= log.una
    ensures SeqEq(Wrap(a), t.una) <==> a == log.una
    ensures a >= log.una ==> Sub(Wrap(a), t.una) == a - log.una
  {
    hide Inv;
    InvGivesTracked(t, log);
    InvGivesNumbers(t, log);
    hide SeqLt, SeqGt, SeqEq, Tracked, Counted, Sub, Wrap;
    ActedOnIff(t, log, a);
    WithinTurn(a - log.una, |t.unacked|);
  }

  lemma WithinTurn(x: int, k: nat)
    requires k - TWO32 < x <= k < TWO31
    ensures (x % TWO32 <= k <==> x >= 0) && (x % TWO32 == 0 <==> x == 0) && (x >= 0 ==> x % TWO32 == x)
  {
  }

  lemma TxInvParts(t: Tx, log: TxLog)
    requires TxInv(t, log)
    ensures Inv(t, log) && MsgInv(t, log)
  {
  }

  /** Handling an acknowledgement: the oldest number in flight becomes the acknowledged one if that is newer. */
  lemma ProcessAckStep(t: Tx, log: TxLog, a: int, words: Words, count: U16, env: Env)
    requires TxInv(t, log) && AckOk(t, log, a, words, count) && t.out == []
    ensures Tracked(t) && Counted(t)
    ensures var u, log2 := ProcessAck(t, Wrap(a), words, count, env), log.(una := if a > log.una then a else log.una);
      TxInv(u, log2) && Nxt(u, log2) == Nxt(t, log) && WheelGrows(t, u)
  {
    hide TxInv, Tracked, Counted, SeqLt, SeqEq, SeqGt, AcceptAck, DuplicateAck, AckFits, EntriesFresh;
    TxInvParts(t, log);
    ProcessAckCases(t, log, a);
    if a == log.una {
      DuplicateAckKeeps(t, log, words, count, env);
      SameFlightKeeps(t, DuplicateAck(t, words, count, env), log);
      SameFlightFacts(t, DuplicateAck(t, words, count, env));
      SameFlightGrows(t, DuplicateAck(t, words, count, env));
    } else if a > log.una {
      AcceptAckStep(t, log, a - log.una, env);
    }
  }

  lemma TickStep(t: Tx, log: TxLog, env: Env)
    requires TxInv(t, log)
    ensures TxInv(PeriodicCheck(t, env), log)
  {
    hide Inv, MsgInv, PeriodicCheck;
    PeriodicCheckKeeps(t, log, env);
    InvGivesOwned(t, log);
    TickKeepsMsgInv(t, log, (t.tick + 1) % RTO_SLOTS);
    SameChainKeepsMsgInv(t.(tick := (t.tick + 1) % RTO_SLOTS), PeriodicCheck(t, env), log);
  }

  lemma TickKeepsMsgInv(t: Tx, log: TxLog, tick: Tick)
    requires Owned(t) && MsgInv(t, log)
    ensures Owned(t.(tick := tick)) && MsgInv(t.(tick := tick), log)
  {
    assert AllBufs(t.(tick := tick)) == AllBufs(t);
  }

  lemma SubmitStep(t: Tx, log: TxLog, msg: seq<Byte>, bufs: seq<Off>, ctx: Ctx)
    requires TxInv(t, log) && FreeFor(t, msg, bufs) && msg != []
    ensures TxInv(Submit(t, msg, bufs, ctx), log.(msgs := log.msgs + [msg], asked := log.asked + [ctx]))
  {
    var u, log2 := Submit(t, msg, bufs, ctx), log.(msgs := log.msgs + [msg], asked := log.asked + [ctx]);
    assert u.wheels == t.wheels && u.tick == t.tick;
    hide Inv, MsgInv, Submit, Extends, FreeFor;
    InvGivesOwned(t, log);
    SubmitKeepsOwned(t, msg, bufs, ctx);
    SubmitExtends(t, log, msg, bufs, ctx);
    ExtendsKeepsInv(t, u, log, log2);
    SubmitKeepsMsgInv(t, log, msg, bufs, ctx);
  }

  lemma AppendStep(t: Tx, log: TxLog)
    requires TxInv(t, log) && CanAppend(t)
    ensures TxInv(AppendOnce(t), log.(stream := log.stream + FittingFrames(t)))
  {
    AppendLeaves(t);
    hide Inv, MsgInv, AppendOnce, FittingFrames, CanAppend;
    AppendKeepsInv(t, log);
    InvGivesOwned(t, log);
    AppendKeepsMsgInv(t, log);
  }

  lemma InitialTxInv(frames: set<Off>)
    requires |frames| <= NUM_FRAMES
    ensures TxInv(Initial(frames), TxLog(0, [], [], []))
  {
  }

  // ----- Handing packets to the network -----

  lemma ClearOutKeepsMsgInv(t: Tx, log: TxLog)
    requires MsgInv(t, log)
    ensures MsgInv(t.(out := []), log)
  {
  }

  lemma LiveAlike(t: Tx, u: Tx, e: Ent)
    requires Live(t, e) && u.una == t.una && u.unacked == t.unacked
    ensures Live(u, e)
  {
  }

  /** What has been sent may be handed to the network at any time. */
  lemma ClearOutKeepsTxInv(t: Tx, log: TxLog)
    requires TxInv(t, log)
    ensures TxInv(t.(out := []), log)
  {
    hide Conserved, ContextsOk, QueueOk, PendingOk, Distinct, Live, HasEntry, Wrap, PendingBufs;
    var u := t.(out := []);
    ClearOutKeepsMsgInv(t, log);
    assert AllBufs(u) == AllBufs(t) && Chain(u) == Chain(t);
    assert EntriesLive(u) by {
      forall j, k | 0 <= j < RTO_SLOTS && 0 <= k < |u.wheels[j]|
        ensures Live(u, u.wheels[j][k])
      {
        assert Live(t, t.wheels[j][k]);
        LiveAlike(t, u, t.wheels[j][k]);
      }
    }
    assert Covered(u) by {
      forall i | 0 <= i < |u.unacked|
        ensures CoveredAt(u, i)
      {
        assert CoveredAt(t, i);
        EntriesSurviveGrowth(t, u, Wrap(t.una + i));
      }
    }
  }

  // ----- Counters -----

  lemma ProcessAckKeepsPaths(t: Tx, log: TxLog, a: int, words: Words, count: U16, env: Env)
    requires TxInv(t, log) && AckOk(t, log, a, words, count) && t.out == []
    requires PathsOk(t, log) && |t.unacked| <= PATH_HISTORY
    ensures Tracked(t) && Counted(t)
    ensures var u, log2 := ProcessAck(t, Wrap(a), words, count, env), log.(una := if a > log.una then a else log.una);
      PathsOk(u, log2)
  {
    hide TxInv, Tracked, Counted, SeqLt, SeqEq, SeqGt, AcceptAck, DuplicateAck, AckFits, EntriesFresh, PathsOk, Inv, MsgInv;
    TxInvParts(t, log);
    ProcessAckCases(t, log, a);
    if a == log.una {
      DuplicateAckKeeps(t, log, words, count, env);
    } else if a > log.una {
      AcceptAckStep(t, log, a - log.una, env);
      AcceptAckKeepsPaths(t, log, a - log.una, env);
    }
  }

  /** No acknowledgement takes a move back. */
  lemma ProcessAckKeepsMoves(t: Tx, log: TxLog, a: int, words: Words, count: U16, env: Env)
    requires TxInv(t, log) && AckOk(t, log, a, words, count) && t.out == []
    ensures Tracked(t) && Counted(t) && t.paths.moves <= ProcessAck(t, Wrap(a), words, count, env).paths.moves
  {
    hide TxInv, Tracked, Counted, SeqLt, SeqEq, SeqGt, DuplicateAck, AckFits, EntriesFresh, TallyOk, PathsOk, Inv, MsgInv;
    hide SettlePaths, ReceiveAcks;
    TxInvParts(t, log);
    ProcessAckCases(t, log, a);
    if a == log.una {
      DuplicateAckKeeps(t, log, words, count, env);
    } else if a > log.una {
      SettlePathsKeepsMoves(t.paths, t.windows, t.una, 0, a - log.una, None, 0, env);
    }
  }

  lemma ProcessAckKeepsTally(t: Tx, log: TxLog, a: int, words: Words, count: U16, env: Env)
    requires TxInv(t, log) && AckOk(t, log, a, words, count) && t.out == [] && TallyOk(t, log)
    ensures Tracked(t) && Counted(t)
    ensures var u, log2 := ProcessAck(t, Wrap(a), words, count, env), log.(una := if a > log.una then a else log.una);
      TallyOk(u, log2)
  {
    hide TxInv, Tracked, Counted, SeqLt, SeqEq, SeqGt, AcceptAck, DuplicateAck, AckFits, EntriesFresh, TallyOk, PathsOk, Inv;
    hide MsgInv;
    TxInvParts(t, log);
    ProcessAckCases(t, log, a);
    if a == log.una {
      DuplicateAckKeeps(t, log, words, count, env);
    } else if a > log.una {
      AcceptAckStep(t, log, a - log.una, env);
      AcceptAckKeepsTally(t, log, a - log.una, env);
    }
  }
}
