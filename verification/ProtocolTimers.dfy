/** Retransmission by timer, over whole runs: a packet in flight is sent again within three ticks. */
module ProtocolTimers {
  import opened SerialNumbers
  import opened Messages
  import opened SackBitmap
  import opened Packets
  import opened Protocol
  import opened ProtocolInvariants
  import S = Sender
  import SI = SenderInvariants
  import SP = SenderProgress
  import SM = SenderMessages
  import SS = SenderSteps
  import R = Receiver
  import RI = ReceiverInvariants

  /** Some entry for `seqno` comes due at one of the next `ticks` ticks. */
  ghost predicate DueWithin(t: S.Tx, seqno: U32, ticks: nat) {
    exists m, k :: 1 <= m <= ticks && m < S.RTO_SLOTS && DueAt(t, seqno, m, k)
  }

  ghost predicate DueAt(t: S.Tx, seqno: U32, m: nat, k: nat) {
    var slot := t.wheels[(t.tick + m) % S.RTO_SLOTS];
    k < |slot| && slot[k].seqno == seqno
  }

  lemma SlotByDistance(tick: nat, j: nat) returns (m: nat)
    requires tick < S.RTO_SLOTS && j < S.RTO_SLOTS && j != tick
    ensures 1 <= m < S.RTO_SLOTS && (tick + m) % S.RTO_SLOTS == j
  {
    m := (j + S.RTO_SLOTS - tick) % S.RTO_SLOTS;
  }

  /** Every packet in flight has an entry that comes due within three ticks. */
  lemma InFlightIsDue(t: S.Tx, log: SI.TxLog, i: nat)
    requires SS.TxInv(t, log) && i < |t.unacked|
    ensures DueWithin(t, Wrap(log.una + i), S.RTO_EXPIRE_TICKS)
  {
    hide SM.MsgInv, SI.Owned, SI.Contents, SI.OutSound, SI.HeadOk, SI.EntriesLive;
    assert SI.CoveredAt(t, i);
    SI.WrapOfNext(log, t, i);
    var seqno := Wrap(log.una + i);
    var j, k :| 0 <= j < S.RTO_SLOTS && 0 <= k < |t.wheels[j]| && t.wheels[j][k].seqno == seqno;
    var m := SlotByDistance(t.tick, j);
    assert DueAt(t, seqno, m, k);
  }

  lemma GrowthKeepsDue(t: S.Tx, u: S.Tx, seqno: U32, ticks: nat)
    requires SS.WheelGrows(t, u) && DueWithin(t, seqno, ticks)
    ensures DueWithin(u, seqno, ticks)
  {
    var m, k :| 1 <= m <= ticks && m < S.RTO_SLOTS && DueAt(t, seqno, m, k);
    assert DueAt(u, seqno, m, k);
  }

  lemma AckGrowsWheel(s: Sys, t: Tagged, env: S.Env)
    requires SysInv(s) && Enabled(s, DeliverAck(t, env)) && Safe(s, DeliverAck(t, env))
    ensures SS.WheelGrows(s.tx, Apply(s, DeliverAck(t, env)).tx)
    ensures s.log.una <= Apply(s, DeliverAck(t, env)).log.una && Nxt(s) <= Nxt(Apply(s, DeliverAck(t, env)))
  {
    hide SysInv, SS.TxInv, SP.EntriesFresh, S.ProcessAck, S.Tracked, S.Counted, SS.WheelGrows, SS.AckOk, R.CraftAck, SI.Inv;
    hide SM.MsgInv, Tags;
    SenderPart(s);
    DeliveredAckIsOk(s, t);
    SS.ProcessAckStep(s.tx, s.log, RI.Rcv(t.at), t.pkt.words, t.pkt.count, env);
    SameWheelGrows(s.tx, S.ProcessAck(s.tx, t.pkt.ackno, t.pkt.words, t.pkt.count, env), Apply(s, DeliverAck(t, env)).tx);
  }

  lemma SubmitGrowsWheel(s: Sys, msg: seq<Byte>, bufs: seq<Off>, ctx: S.Ctx)
    requires Enabled(s, Submit(msg, bufs, ctx))
    ensures SS.WheelGrows(s.tx, Apply(s, Submit(msg, bufs, ctx)).tx)
    ensures Nxt(Apply(s, Submit(msg, bufs, ctx))) == Nxt(s)
  {
    hide S.PutFrames, SS.WheelGrows;
    SameWheelGrows(s.tx, s.tx, Apply(s, Submit(msg, bufs, ctx)).tx);
  }

  /** Apart from ticks, no step takes an entry off the wheel. */
  lemma OtherStepsGrowWheel(s: Sys, step: Step)
    requires SysInv(s) && Enabled(s, step) && Safe(s, step) && !step.Tick?
    ensures SS.WheelGrows(s.tx, Apply(s, step).tx)
    ensures Apply(s, step).timeouts == s.timeouts
  {
    hide SysInv, SS.TxInv, SP.EntriesFresh, S.ProcessAck, S.AppendOnce, S.TransmitOne, R.Consume, R.CopyOut, R.Supply;
    hide S.PendingOk, SM.FreeFor, S.Submit, S.Tracked, S.Counted, RI.Whole, SS.WheelGrows, S.FittingFrames;
    var u := Apply(s, step).tx;
    match step
    case Submit(msg, bufs, ctx) => SubmitGrowsWheel(s, msg, bufs, ctx);
    case Append =>
      SM.AppendLeaves(s.tx);
      SameWheelGrows(s.tx, s.tx, u);
    case Transmit(path) =>
      TransmitGrowsWheel(s.tx, path);
      SameWheelGrows(s.tx, S.TransmitOne(s.tx, path), u);
    case DeliverAck(t, env) => AckGrowsWheel(s, t, env);
    case _ =>
      SameWheelGrows(s.tx, s.tx, u);
  }

  lemma SameWheelGrows(t: S.Tx, u: S.Tx, v: S.Tx)
    requires (u == t || SS.WheelGrows(t, u)) && v.tick == u.tick && v.wheels == u.wheels
    ensures SS.WheelGrows(t, v)
  {
  }

  lemma TransmitGrowsWheel(t: S.Tx, path: PathId)
    requires t.unsent != [] && t.unsent[0] in t.mem
    ensures SS.WheelGrows(t, S.TransmitOne(t, path))
  {
    hide S.TransmitOne;
    SP.TransmitOneSends(t, path);
  }

  lemma {:induction false} DuePacketsContain(t: S.Tx, log: SI.TxLog, ents: seq<S.Ent>, k: nat)
    requires k < |ents| && SeqGe(ents[k].seqno, t.una) && log.una + Sub(ents[k].seqno, t.una) < |log.stream|
    ensures Data(ents[k].seqno, log.stream[log.una + Sub(ents[k].seqno, t.una)]) in SI.DuePackets(t, log, ents)
  {
    if k > 0 {
      DuePacketsContain(t, log, ents[1..], k - 1);
    }
  }

  lemma NumbersContain(una: nat, out: seq<Packet>, p: Packet)
    requires p in out && p.Data?
    ensures una + Sub(p.seqno, Wrap(una)) in Numbers(una, out)
  {
    var i :| 0 <= i < |out| && out[i] == p;
    assert Numbers(una, out)[i] == una + Sub(p.seqno, Wrap(una));
  }

  /** A packet whose entry is due at this tick is among those the timer sends again. */
  lemma DueIsSent(t: S.Tx, log: SI.TxLog, n: nat, k: nat)
    requires SI.Inv(t, log) && log.una <= n < SI.Nxt(t, log) && DueAt(t, Wrap(n), 1, k)
    ensures n in Numbers(log.una, SI.DuePackets(t, log, t.wheels[(t.tick + 1) % S.RTO_SLOTS]))
  {
    SP.InvGivesNumbers(t, log);
    SM.InvGivesLength(t, log);
    hide SI.Inv, SI.DuePackets, Numbers;
    var slot := t.wheels[(t.tick + 1) % S.RTO_SLOTS];
    SubWrap(n, log.una);
    ComparatorsDecideOrder(n, log.una);
    DuePacketsContain(t, log, slot, k);
    NumbersContain(log.una, SI.DuePackets(t, log, slot), Data(slot[k].seqno, log.stream[n]));
  }

  /** At a tick a packet in flight is sent again, or it is one tick closer to being so. */
  lemma TickFiresOrNears(t: S.Tx, log: SI.TxLog, env: S.Env, n: nat, ticks: nat)
    requires SI.Inv(t, log) && t.out == [] && log.una <= n < SI.Nxt(t, log) && DueWithin(t, Wrap(n), ticks)
    ensures var u := S.PeriodicCheck(t, env);
      n in Numbers(log.una, u.out) || (ticks > 0 && DueWithin(u, Wrap(n), ticks - 1))
  {
    hide SI.Inv, S.PeriodicCheck, SI.DuePackets, Numbers, SI.PathsFollow, SI.SameButDue;
    SP.PeriodicCheckKeeps(t, log, env);
    var u, v := S.PeriodicCheck(t, env), t.(tick := (t.tick + 1) % S.RTO_SLOTS);
    var m, k :| 1 <= m <= ticks && m < S.RTO_SLOTS && DueAt(t, Wrap(n), m, k);
    if m == 1 {
      DueIsSent(t, log, n, k);
      assert u.out == SI.DuePackets(t, log, t.wheels[v.tick]);
    } else {
      TickAdvances(v, u);
      NextSlot(t, v, m);
      assert DueAt(u, Wrap(n), m - 1, k);
    }
  }

  lemma TickAdvances(v: S.Tx, u: S.Tx)
    requires SI.SameButDue(v, u)
    ensures u.tick == v.tick
    ensures forall j :: 0 <= j < S.RTO_SLOTS && j != v.tick ==> v.wheels[j] <= u.wheels[j]
  {
  }

  lemma NextSlot(t: S.Tx, v: S.Tx, m: nat)
    requires v.tick == (t.tick + 1) % S.RTO_SLOTS && 2 <= m < S.RTO_SLOTS
    ensures (t.tick + m) % S.RTO_SLOTS == (v.tick + (m - 1)) % S.RTO_SLOTS
    ensures (t.tick + m) % S.RTO_SLOTS != v.tick
  {
  }

  function CountTicks(steps: seq<Step>): nat {
    if steps == [] then 0 else CountTicks(steps[..|steps| - 1]) + if steps[|steps| - 1].Tick? then 1 else 0
  }

  /** Numbers and the log of timeouts only grow. */
  lemma StepMovesOn(s: Sys, step: Step)
    requires SysInv(s) && Enabled(s, step)
    ensures Safe(s, step)
    ensures var u := Apply(s, step);
      s.log.una <= u.log.una && Nxt(s) <= Nxt(u) && s.timeouts <= u.timeouts
  {
    hide SysInv, SS.TxInv, SP.EntriesFresh, S.ProcessAck, S.AppendOnce, S.TransmitOne, S.PeriodicCheck, R.Consume, R.CopyOut;
    hide R.Supply, S.PendingOk, SM.FreeFor, S.Submit, RI.Whole, TimerSafe, S.Tracked, S.Counted, SS.WheelGrows, S.FittingFrames;
    StepIsSafe(s, step);
    match step
    case Submit(msg, bufs, ctx) => SubmitGrowsWheel(s, msg, bufs, ctx);
    case Transmit(path) => TransmitKeeps(s, path);
    case Tick(env) => TickKeeps(s, env);
    case Append => SM.AppendLeaves(s.tx);
    case DeliverAck(t, env) => AckGrowsWheel(s, t, env);
    case _ =>
  }

  function TickOf(step: Step): nat {
    if step.Tick? then 1 else 0
  }

  lemma TickStepFiresOrNears(s: Sys, env: S.Env, n: nat, ticks: nat)
    requires SysInv(s) && s.log.una <= n < Nxt(s) && DueWithin(s.tx, Wrap(n), ticks) && Safe(s, Tick(env))
    ensures var u := Apply(s, Tick(env));
      && s.timeouts <= u.timeouts
      && (n in u.timeouts[|s.timeouts|..] || (ticks > 0 && DueWithin(u.tx, Wrap(n), ticks - 1)))
  {
    hide DueWithin, Numbers, SS.TxInv, RI.RxState, NetOk, SI.Inv, SM.MsgInv, S.PeriodicCheck, TimerSafe;
    SS.TxInvParts(s.tx, s.log);
    TickFiresOrNears(s.tx, s.log, env, n, ticks);
    var u, tx := Apply(s, Tick(env)), S.PeriodicCheck(s.tx, env);
    assert u.timeouts[|s.timeouts|..] == Numbers(s.log.una, tx.out);
    OutDoesNotMatter(tx, Wrap(n), ticks);
  }

  /** One step brings a packet in flight to retransmission, or nearer to it by a tick if the step is one. */
  lemma StepFiresOrNears(s: Sys, step: Step, n: nat, ticks: nat)
    requires SysInv(s) && Enabled(s, step) && s.log.una <= n < Nxt(s) && DueWithin(s.tx, Wrap(n), ticks)
    ensures Safe(s, step)
    ensures var u := Apply(s, step);
      && s.timeouts <= u.timeouts
      && (n in u.timeouts[|s.timeouts|..] || (TickOf(step) <= ticks && DueWithin(u.tx, Wrap(n), ticks - TickOf(step))))
  {
    hide SysInv, DueWithin, Apply, Enabled, Safe, SS.WheelGrows;
    StepMovesOn(s, step);
    if step.Tick? {
      TickStepFiresOrNears(s, step.env, n, ticks);
    } else {
      OtherStepsGrowWheel(s, step);
      GrowthKeepsDue(s.tx, Apply(s, step).tx, Wrap(n), ticks);
    }
  }

  lemma OutDoesNotMatter(t: S.Tx, seqno: U32, ticks: nat)
    ensures ticks > 0 && DueWithin(t, seqno, ticks - 1) ==> DueWithin(t.(out := []), seqno, ticks - 1)
  {
    if ticks > 0 && DueWithin(t, seqno, ticks - 1) {
      var m, k :| 1 <= m <= ticks - 1 && m < S.RTO_SLOTS && DueAt(t, seqno, m, k);
      assert DueAt(t.(out := []), seqno, m, k);
    }
  }

  lemma CountTicksSnoc(steps: seq<Step>, i: nat, j: nat)
    requires i < j <= |steps|
    ensures CountTicks(steps[i..j]) == CountTicks(steps[i..j - 1]) + TickOf(steps[j - 1])
  {
    assert steps[i..j][..j - 1 - i] == steps[i..j - 1];
  }

  /** A packet due within `ticks` ticks and in flight until state `j` is sent again once that many ticks have passed. */
  lemma {:induction false} DueIsEventuallySent(states: seq<Sys>, steps: seq<Step>, i: nat, j: nat, n: nat, ticks: nat)
    requires Run(states, steps) && i <= j < |states|
    requires states[i].log.una <= n < Nxt(states[i]) && states[j].log.una <= n
    requires DueWithin(states[i].tx, Wrap(n), ticks)
    ensures states[i].timeouts <= states[j].timeouts
    ensures n < Nxt(states[j])
    ensures n in states[j].timeouts[|states[i].timeouts|..]
         || (CountTicks(steps[i..j]) <= ticks && DueWithin(states[j].tx, Wrap(n), ticks - CountTicks(steps[i..j])))
    decreases j
  {
    hide SysInv, Apply, Safe, Enabled, DueWithin, CountTicks, TickOf;
    if i == j {
      assert steps[i..j] == [];
      NoTicks();
    } else {
      RunKeepsInv(states, steps, j - 1);
      assert Next(states[j - 1], steps[j - 1], states[j - 1 + 1]);
      var s, step, u := states[j - 1], steps[j - 1], states[j];
      hide Run, Next;
      assert Enabled(s, step) && u == Apply(s, step) by {
        NextIsApply(s, step, u);
      }
      StepMovesOn(s, step);
      DueIsEventuallySent(states, steps, i, j - 1, n, ticks);
      CountTicksSnoc(steps, i, j);
      if n !in s.timeouts[|states[i].timeouts|..] {
        StepFiresOrNears(s, step, n, ticks - CountTicks(steps[i..j - 1]));
        if n in u.timeouts[|s.timeouts|..] {
          SuffixOfSuffix(states[i].timeouts, s.timeouts, u.timeouts, n);
        }
      } else {
        SuffixOfSuffix(states[i].timeouts, s.timeouts, u.timeouts, n);
      }
    }
  }

  lemma NextIsApply(s: Sys, step: Step, u: Sys)
    requires Next(s, step, u) && SysInv(s)
    ensures Enabled(s, step) && Safe(s, step) && u == Apply(s, step)
  {
    hide SysInv, Apply, Safe, Enabled;
    StepIsSafe(s, step);
  }

  lemma NoTicks()
    ensures CountTicks([]) == 0
  {
  }

  lemma SuffixOfSuffix(a: seq<nat>, b: seq<nat>, c: seq<nat>, n: nat)
    requires a <= b <= c && (n in b[|a|..] || n in c[|b|..])
    ensures n in c[|a|..]
  {
    assert c[|a|..] == b[|a|..] + c[|b|..];
  }

  /**
   * In every run, a packet that is in flight, and still is after three or more ticks of the slow timer, has been sent
   * again by the timer in between.
   */
  lemma ThreeTicksResend(states: seq<Sys>, steps: seq<Step>, i: nat, j: nat, n: nat)
    requires Run(states, steps) && i <= j < |states|
    requires states[i].log.una <= n < Nxt(states[i]) && states[j].log.una <= n
    requires CountTicks(steps[i..j]) >= S.RTO_EXPIRE_TICKS
    ensures |states[i].timeouts| <= |states[j].timeouts|
    ensures n in states[j].timeouts[|states[i].timeouts|..]
  {
    hide SysInv, SS.TxInv, Run, CountTicks;
    RunKeepsInv(states, steps, i);
    TxPart(states[i]);
    InFlightIsDue(states[i].tx, states[i].log, n - states[i].log.una);
    DueIsEventuallySent(states, steps, i, j, n, S.RTO_EXPIRE_TICKS);
    assert !DueWithin(states[j].tx, Wrap(n), 0);
  }

  // ----- Not before the third tick -----

  /** No entry carries the number that is to be sent next. */
  lemma NoEntryYet(t: S.Tx, log: SI.TxLog, j: nat, k: nat)
    requires SI.Inv(t, log) && j < S.RTO_SLOTS && k < |t.wheels[j]|
    ensures t.wheels[j][k].seqno != Wrap(SI.Nxt(t, log))
  {
    hide SI.Owned, SI.Contents, SI.OutSound, SI.HeadOk, SI.Covered;
    SP.InvGivesNumbers(t, log);
    var n := SI.Nxt(t, log);
    SubWrap(n, log.una);
    ComparatorsDecideOrder(n, log.una);
    assert SI.Live(t, t.wheels[j][k]);
  }

  /** Entries are added only to the slot that comes due at the third tick. */
  ghost predicate OnlyThird(t: S.Tx, u: S.Tx) {
    u.tick == t.tick && forall j :: 0 <= j < S.RTO_SLOTS && j != S.ReadySlot(t.tick) ==> u.wheels[j] == t.wheels[j]
  }

  lemma ThirdIsNotNear(t: S.Tx, u: S.Tx, seqno: U32, ticks: nat)
    requires OnlyThird(t, u) && ticks < S.RTO_EXPIRE_TICKS
    ensures DueWithin(u, seqno, ticks) ==> DueWithin(t, seqno, ticks)
  {
    if DueWithin(u, seqno, ticks) {
      var m: nat, k: nat :| 1 <= m <= ticks && m < S.RTO_SLOTS && DueAt(u, seqno, m, k);
      assert DueAt(t, seqno, m, k);
    }
  }

  lemma NewIsNotNear(t: S.Tx, log: SI.TxLog, path: PathId)
    requires SI.Inv(t, log) && t.unsent != [] && t.unsent[0] in t.mem
    ensures !DueWithin(S.TransmitOne(t, path).(out := []), Wrap(SI.Nxt(t, log)), 2)
  {
    hide SI.Inv, S.TransmitOne;
    SP.TransmitOneSends(t, path);
    var u := S.TransmitOne(t, path).(out := []);
    forall m: nat, k: nat | 1 <= m <= 2 && DueAt(u, Wrap(SI.Nxt(t, log)), m, k)
      ensures false
    {
      NoEntryYet(t, log, (t.tick + m) % S.RTO_SLOTS, k);
    }
  }

  lemma AckAddsThird(s: Sys, t: Tagged, env: S.Env)
    requires SysInv(s) && Enabled(s, DeliverAck(t, env)) && Safe(s, DeliverAck(t, env))
    ensures OnlyThird(s.tx, Apply(s, DeliverAck(t, env)).tx)
  {
    hide SysInv, SS.TxInv, SI.Inv, SM.MsgInv, S.ProcessAck, SP.EntriesFresh, OnlyThird, SI.AckFits;
    SenderPart(s);
    DeliveredAckIsOk(s, t);
    ProcessAckAddsThird(s.tx, s.log, RI.Rcv(t.at), t.pkt.words, t.pkt.count, env);
    OutIsApart(s.tx, S.ProcessAck(s.tx, t.pkt.ackno, t.pkt.words, t.pkt.count, env));
  }

  lemma OutIsApart(t: S.Tx, u: S.Tx)
    ensures OnlyThird(t, u) <==> OnlyThird(t, u.(out := []))
  {
  }

  lemma ProcessAckAddsThird(t: S.Tx, log: SI.TxLog, a: int, words: Words, count: U16, env: S.Env)
    requires SI.Inv(t, log) && SS.AckOk(t, log, a, words, count)
    ensures S.Tracked(t) && S.Counted(t) && OnlyThird(t, S.ProcessAck(t, Wrap(a), words, count, env))
  {
    hide SI.Inv, S.Tracked, S.Counted, SeqLt, SeqEq, SeqGt, S.AcceptAck, S.DuplicateAck, SI.AckFits, SP.EntriesFresh;
    SS.ProcessAckCases(t, log, a);
    if a == log.una {
      SI.DuplicateAckKeeps(t, log, words, count, env);
    } else if a > log.una {
      SP.AcceptAckReleases(t, log, a - log.una, env);
    }
  }

  lemma OthersAddThird(s: Sys, step: Step)
    requires SysInv(s) && Enabled(s, step) && Safe(s, step) && !step.Tick?
    ensures OnlyThird(s.tx, Apply(s, step).tx)
  {
    hide SysInv, SP.EntriesFresh, S.ProcessAck, S.AppendOnce, S.TransmitOne, R.Consume, R.CopyOut, R.Supply;
    hide S.PendingOk, SM.FreeFor, S.PutFrames, S.Tracked, S.Counted, RI.Whole, S.FittingFrames;
    match step
    case Append => SM.AppendLeaves(s.tx);
    case Transmit(path) => SP.TransmitOneSends(s.tx, path);
    case DeliverAck(t, env) => AckAddsThird(s, t, env);
    case _ =>
  }

  lemma {:induction false} DuePacketsComeFrom(t: S.Tx, log: SI.TxLog, ents: seq<S.Ent>, p: Packet)
    requires p in SI.DuePackets(t, log, ents)
    ensures p.Data? && exists k :: 0 <= k < |ents| && ents[k].seqno == p.seqno
  {
    hide SeqGe, Sub;
    var n := log.una + Sub(ents[0].seqno, t.una);
    var first := if SeqGe(ents[0].seqno, t.una) && n < |log.stream| then [Data(ents[0].seqno, log.stream[n])] else [];
    if p in first {
      assert ents[0].seqno == p.seqno;
    } else {
      DuePacketsComeFrom(t, log, ents[1..], p);
      var k :| 0 <= k < |ents[1..]| && ents[1..][k].seqno == p.seqno;
      assert ents[k + 1].seqno == p.seqno;
    }
  }

  /** What a tick sends again had an entry in the slot that came due. */
  lemma SentWasDue(t: S.Tx, log: SI.TxLog, n: nat) returns (k: nat)
    requires n in Numbers(log.una, SI.DuePackets(t, log, t.wheels[(t.tick + 1) % S.RTO_SLOTS]))
    ensures DueAt(t, Wrap(n), 1, k)
  {
    var slot := t.wheels[(t.tick + 1) % S.RTO_SLOTS];
    var out := SI.DuePackets(t, log, slot);
    hide SI.DuePackets;
    var i :| 0 <= i < |out| && Numbers(log.una, out)[i] == n;
    DuePacketsComeFrom(t, log, slot, out[i]);
    k :| 0 <= k < |slot| && slot[k].seqno == out[i].seqno;
    SI.WrapOfSub(out[i].seqno, Wrap(log.una), log.una);
  }

  lemma NearWasFarther(t: S.Tx, u: S.Tx, seqno: U32, m: nat, k: nat)
    requires SI.SameButDue(t.(tick := (t.tick + 1) % S.RTO_SLOTS), u) && 1 <= m < S.RTO_EXPIRE_TICKS && DueAt(u, seqno, m, k)
    ensures DueAt(t, seqno, m + 1, k)
  {
    var v := t.(tick := (t.tick + 1) % S.RTO_SLOTS);
    NextSlot(t, v, m + 1);
    assert (v.tick + m) % S.RTO_SLOTS != S.ReadySlot(v.tick);
  }

  /** A tick does not send again a packet that is not due, and brings it nearer by no more than a tick. */
  lemma TickNearsByOne(t: S.Tx, log: SI.TxLog, env: S.Env, n: nat, ticks: nat)
    requires SI.Inv(t, log) && t.out == [] && 1 <= ticks < S.RTO_EXPIRE_TICKS
    ensures var u := S.PeriodicCheck(t, env);
      n in Numbers(log.una, u.out) || DueWithin(u, Wrap(n), ticks - 1) ==> DueWithin(t, Wrap(n), ticks)
  {
    hide SI.Inv, S.PeriodicCheck, SI.DuePackets, SI.PathsFollow, SI.SameButDue, Numbers, DueAt;
    SP.PeriodicCheckKeeps(t, log, env);
    var u := S.PeriodicCheck(t, env);
    var out := SI.DuePackets(t, log, t.wheels[(t.tick + 1) % S.RTO_SLOTS]);
    assert u.out == out;
    if n in Numbers(log.una, u.out) {
      var k := SentWasDue(t, log, n);
    } else if DueWithin(u, Wrap(n), ticks - 1) {
      var m: nat, k: nat :| 1 <= m <= ticks - 1 && m < S.RTO_SLOTS && DueAt(u, Wrap(n), m, k);
      NearWasFarther(t, u, Wrap(n), m, k);
    }
  }

  lemma StepNearsByOne(s: Sys, step: Step, n: nat, ticks: nat)
    requires SysInv(s) && Enabled(s, step) && !DueWithin(s.tx, Wrap(n), ticks) && TickOf(step) <= ticks < S.RTO_EXPIRE_TICKS
    ensures Safe(s, step)
    ensures var u := Apply(s, step);
      && s.timeouts <= u.timeouts && n !in u.timeouts[|s.timeouts|..] && !DueWithin(u.tx, Wrap(n), ticks - TickOf(step))
  {
    hide SysInv, DueWithin, Apply, Enabled, Safe, OnlyThird, SS.WheelGrows;
    StepMovesOn(s, step);
    if step.Tick? {
      TickStepNears(s, step.env, n, ticks);
    } else {
      OtherStepsGrowWheel(s, step);
      OthersAddThird(s, step);
      ThirdIsNotNear(s.tx, Apply(s, step).tx, Wrap(n), ticks);
    }
  }

  lemma TickStepNears(s: Sys, env: S.Env, n: nat, ticks: nat)
    requires SysInv(s) && Safe(s, Tick(env)) && 1 <= ticks < S.RTO_EXPIRE_TICKS && !DueWithin(s.tx, Wrap(n), ticks)
    ensures var u := Apply(s, Tick(env));
      && s.timeouts <= u.timeouts && n !in u.timeouts[|s.timeouts|..] && !DueWithin(u.tx, Wrap(n), ticks - 1)
  {
    hide SysInv, DueWithin, Numbers, SS.TxInv, SI.Inv, SM.MsgInv, S.PeriodicCheck, TimerSafe;
    SenderPart(s);
    TickNearsByOne(s.tx, s.log, env, n, ticks);
    var u, tx := Apply(s, Tick(env)), S.PeriodicCheck(s.tx, env);
    assert u.timeouts[|s.timeouts|..] == Numbers(s.log.una, tx.out);
    SameDue(tx, tx.(out := []), Wrap(n), ticks - 1);
  }

  lemma SameDue(t: S.Tx, u: S.Tx, seqno: U32, ticks: nat)
    requires u.tick == t.tick && u.wheels == t.wheels
    ensures DueWithin(t, seqno, ticks) <==> DueWithin(u, seqno, ticks)
  {
    forall m, k
      ensures DueAt(t, seqno, m, k) <==> DueAt(u, seqno, m, k)
    {
    }
  }

  lemma NotFresh(a: seq<nat>, b: seq<nat>, c: seq<nat>, n: nat)
    requires a <= b <= c && n !in b[|a|..] && n !in c[|b|..]
    ensures a <= c && n !in c[|a|..]
  {
    assert c[|a|..] == b[|a|..] + c[|b|..];
  }

  /**
   * In every run, the timer does not send a packet again before the third tick after the packet was first sent. With the
   * theorem above: if it is still in flight then, it is sent again at exactly that tick.
   */
  lemma {:induction false} FirstTimeoutWaits(states: seq<Sys>, steps: seq<Step>, i: nat, j: nat, path: PathId)
    requires Run(states, steps) && i < j < |states| && steps[i] == Transmit(path)
    requires CountTicks(steps[i..j]) < S.RTO_EXPIRE_TICKS
    ensures states[i].timeouts <= states[j].timeouts && Nxt(states[i]) !in states[j].timeouts[|states[i].timeouts|..]
    ensures !DueWithin(states[j].tx, Wrap(Nxt(states[i])), 2 - CountTicks(steps[i..j]))
    decreases j
  {
    hide SysInv, Apply, Safe, Enabled, DueWithin, CountTicks;
    RunKeepsInv(states, steps, j - 1);
    assert Next(states[j - 1], steps[j - 1], states[j - 1 + 1]);
    var s, step, n := states[j - 1], steps[j - 1], Nxt(states[i]);
    hide Run, Next;
    assert Enabled(s, step) && Safe(s, step) && states[j] == Apply(s, step) by {
      NextIsApply(s, step, states[j]);
    }
    CountTicksSnoc(steps, i, j);
    if j == i + 1 {
      assert steps[i..i] == [];
      NoTicks();
      JustSent(s, path);
      assert states[j].timeouts[|s.timeouts|..] == [];
    } else {
      FirstTimeoutWaits(states, steps, i, j - 1, path);
      StepNearsByOne(s, step, n, 2 - CountTicks(steps[i..j - 1]));
      NotFresh(states[i].timeouts, s.timeouts, states[j].timeouts, n);
    }
  }

  lemma JustSent(s: Sys, path: PathId)
    requires SysInv(s) && Enabled(s, Transmit(path)) && Safe(s, Transmit(path))
    ensures Apply(s, Transmit(path)).timeouts == s.timeouts && !DueWithin(Apply(s, Transmit(path)).tx, Wrap(Nxt(s)), 2)
  {
    hide SysInv, DueWithin, SI.Inv, SM.MsgInv, SS.TxInv, S.TransmitOne;
    SenderPart(s);
    NewIsNotNear(s.tx, s.log, path);
  }

  lemma TxPart(s: Sys)
    requires SysInv(s)
    ensures SS.TxInv(s.tx, s.log)
  {
  }
}
