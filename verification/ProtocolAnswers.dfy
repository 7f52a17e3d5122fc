/**
 * What the sender does about losses, over whole runs: how it answers each acknowledgement and each tick, and how its counters
 * and its congestion windows follow from what has happened.
 */
module ProtocolAnswers {
  import opened SerialNumbers
  import opened Messages
  import opened SackBitmap
  import opened Packets
  import opened Protocol
  import opened ProtocolInvariants
  import opened ProtocolTheorems
  import Cubic
  import S = Sender
  import SI = SenderInvariants
  import SP = SenderProgress
  import SM = SenderMessages
  import SS = SenderSteps
  import SA = SenderAnswers
  import W = WindowSteps
  import R = Receiver
  import RI = ReceiverInvariants

  /** The step taken in a state of a run, and the state after it. */
  lemma StepTaken(states: seq<Sys>, steps: seq<Step>, i: nat)
    requires Run(states, steps) && i < |steps|
    ensures |states| == |steps| + 1 && SysInv(states[i]) && Enabled(states[i], steps[i]) && Safe(states[i], steps[i])
    ensures states[i + 1] == Apply(states[i], steps[i])
  {
    hide SysInv, Apply, Enabled, Safe;
    RunKeepsInv(states, steps, i);
    assert Next(states[i], steps[i], states[i + 1]);
    StepIsSafe(states[i], steps[i]);
  }

  // ----- Duplicate acknowledgements -----

  /** Numbers sent again for a duplicate: in order, all those missing at the receiver that the rules allow, and no others. */
  ghost predicate AllMissing(una: nat, at: R.Rx, budget: nat, ns: seq<nat>) {
    && (forall k, l :: 0 <= k < l < |ns| ==> ns[k] < ns[l])
    && (forall n: nat :: n in ns <==> WantedAgain(una, at, budget, n))
  }

  /** Number `n` lies within the budget, the receiver lacks it, and it holds fewer than its count says before it. */
  ghost predicate WantedAgain(una: nat, at: R.Rx, budget: nat, n: nat) {
    una <= n < una + budget && n < una + BITS && !RI.Has(at, n) && CountBelow(at.words, n - una) < at.count
  }

  lemma PlacesAreWanted(log: SI.TxLog, flight: nat, at: R.Rx, budget: nat, ms: seq<nat>)
    requires RI.Mapped(at) && at.rcvNxt == Wrap(log.una) && RI.Rcv(at) == log.una && budget <= BITS
    requires SI.ClearPlaces(at.words, ms, 0, flight) && log.una + flight <= |log.stream|
    requires forall p: nat :: p in ms <==> SA.Resent(at.words, at.count, budget, p)
    ensures AllMissing(log.una, at, budget, Numbers(log.una, SI.PacketsAt(log, ms)))
  {
    hide RI.Mapped, TestBit, SI.PacketsAt, RI.Has, Numbers, CountBelow;
    NumbersOfPackets(log, ms);
    var ns := Numbers(log.una, SI.PacketsAt(log, ms));
    forall n: nat
      ensures n in ns <==> WantedAgain(log.una, at, budget, n)
    {
      if log.una <= n < log.una + BITS {
        BitsAreHeld(at, n - log.una);
        assert n - log.una in ms <==> SA.Resent(at.words, at.count, budget, n - log.una);
        Shifted(log.una, ms, ns, n - log.una);
      }
    }
  }

  lemma Shifted(una: nat, ms: seq<nat>, ns: seq<nat>, p: nat)
    requires |ns| == |ms| && forall k :: 0 <= k < |ms| ==> ns[k] == una + ms[k]
    ensures una + p in ns <==> p in ms
  {
    if p in ms {
      var k :| 0 <= k < |ms| && ms[k] == p;
      assert ns[k] == una + p;
    }
  }

  /** The count of duplicates this acknowledgement brings. */
  function NextDuplicate(s: Sys): nat {
    (s.tx.dupAcks as int + 1) % 0x1_0000
  }

  lemma DuplicatePacket(s: Sys, t: Tagged, env: S.Env)
    requires SysInv(s) && Enabled(s, DeliverAck(t, env)) && RI.Rcv(t.at) == s.log.una
    ensures t.pkt == R.CraftAck(t.at) && t.pkt.ackno == Wrap(s.log.una) && t.at.rcvNxt == Wrap(s.log.una)
    ensures SI.AckFits(s.tx, t.at.words, t.at.count) && RI.Mapped(t.at)
  {
    hide SysInv, RI.Mapped, SI.AckFits;
    DeliveredAckIsOk(s, t);
    AckerFacts(s, t);
  }

  lemma DuplicateEffect(s: Sys, t: Tagged, env: S.Env)
    requires SysInv(s) && Enabled(s, DeliverAck(t, env)) && Safe(s, DeliverAck(t, env)) && RI.Rcv(t.at) == s.log.una
    ensures var u, n := S.ProcessAck(s.tx, t.pkt.ackno, t.pkt.words, t.pkt.count, env), NextDuplicate(s);
      && u.dupAcks == n && u.oooAcks == t.at.count && u.rtoConsecutive == s.tx.rtoConsecutive && u.windows == s.tx.windows
      && (n < 10 ==> u.out == [])
      && (n == 10 ==> (Nxt(s) == s.log.una ==> u.out == []) && (Nxt(s) > s.log.una ==>
            s.log.una < |s.log.stream| && u.out == [Data(Wrap(s.log.una), s.log.stream[s.log.una])]))
      && (n > 10 ==> AllMissing(s.log.una, t.at, SA.RecoveryBudget(s.tx, env), Numbers(s.log.una, u.out)))
  {
    hide SysInv, RI.Mapped, SI.AckFits, SI.Inv, SM.MsgInv, SS.TxInv, S.ProcessAck, S.DuplicateAck, AllMissing, Numbers;
    hide SI.PacketsAt, SI.Missing, SA.RecoveryBudget, R.CraftAck;
    SenderPart(s);
    DuplicatePacket(s, t, env);
    AckCarries(t.at);
    SA.EqualIsDuplicate(s.tx, s.log, t.at.words, t.at.count, env);
    SA.DuplicateAnswer(s.tx, s.log, t.at.words, t.at.count, env);
    MissingIsWanted(s, t, env);
    NoneBefore(s.tx, SI.PacketsAt(s.log, SI.Missing(t.at.words, 0, t.at.count, SA.RecoveryBudget(s.tx, env))));
  }

  lemma NoneBefore(t: S.Tx, out: seq<Packet>)
    requires t.out == []
    ensures t.out + out == out
  {
  }

  lemma AckCarries(at: R.Rx)
    ensures R.CraftAck(at) == Ack(at.rcvNxt, at.words, at.count)
  {
  }

  lemma MissingIsWanted(s: Sys, t: Tagged, env: S.Env)
    requires SysInv(s) && t.TAck? && RI.Rcv(t.at) == s.log.una && t.at.rcvNxt == Wrap(s.log.una) && RI.Mapped(t.at)
    requires SI.AckFits(s.tx, t.at.words, t.at.count)
    ensures SA.RecoveryBudget(s.tx, env) <= BITS
    ensures var ms := SI.Missing(t.at.words, 0, t.at.count, SA.RecoveryBudget(s.tx, env));
      && (forall k :: 0 <= k < |ms| ==> s.log.una + ms[k] < |s.log.stream|)
      && AllMissing(s.log.una, t.at, SA.RecoveryBudget(s.tx, env), Numbers(s.log.una, SI.PacketsAt(s.log, ms)))
  {
    hide SysInv, RI.Mapped, SI.AckFits, SI.Inv, SM.MsgInv, SS.TxInv, AllMissing, Numbers, SI.PacketsAt, SI.Missing, TestBit;
    hide SI.ClearPlaces, SA.Resent, CountBelow, Count;
    var budget := SA.RecoveryBudget(s.tx, env);
    hide SA.RecoveryBudget;
    SA.BudgetFits(s.tx, env);
    SenderPart(s);
    SA.FlightWithinStream(s.tx, s.log);
    FitsAlike(s.tx, s.tx, t.at.words, t.at.count);
    SI.MissingIsClear(s.tx, t.at.words, 0, t.at.count, budget);
    var ms := SI.Missing(t.at.words, 0, t.at.count, budget);
    WiderPlaces(t.at.words, ms, Min(budget, |s.tx.unacked|), |s.tx.unacked|);
    PlacesInFlight(t.at.words, ms, |s.tx.unacked|);
    forall p: nat
      ensures p in ms <==> SA.Resent(t.at.words, t.at.count, budget, p)
    {
      FromTheStart(t.at.words);
      SA.MissingIff(t.at.words, 0, t.at.count, budget, p);
    }
    PlacesAreWanted(s.log, |s.tx.unacked|, t.at, budget, ms);
  }

  lemma PlacesInFlight(words: Words, ms: seq<nat>, flight: nat)
    requires SI.ClearPlaces(words, ms, 0, flight)
    ensures forall k :: 0 <= k < |ms| ==> ms[k] < flight
  {
    hide TestBit;
  }

  lemma FromTheStart(words: Words)
    ensures CountBelow(words, 0) == 0
  {
  }

  /**
   * In every run, how a duplicate acknowledgement is answered, by the count of duplicates it brings: below ten with nothing; at
   * ten with the oldest packet in flight, if there is one; above ten with all packets the receiver lacks before the last
   * one it reports, as far as the budget reaches. The answer is what goes into the network.
   */
  lemma DuplicateIsAnswered(states: seq<Sys>, steps: seq<Step>, i: nat, t: Tagged, env: S.Env)
    requires Run(states, steps) && i < |steps| && steps[i] == DeliverAck(t, env) && t.TAck?
    requires RI.Rcv(t.at) == states[i].log.una
    ensures Enabled(states[i], DeliverAck(t, env)) && Safe(states[i], DeliverAck(t, env))
    ensures var s, u, n, answer := states[i], states[i + 1], NextDuplicate(states[i]), AnswerTo(states[i], t, env);
      && u.tx.dupAcks == n && u.tx.oooAcks == t.at.count && u.tx.rtoConsecutive == s.tx.rtoConsecutive
      && u.tx.windows == s.tx.windows && u.log == s.log
      && u.net == s.net - multiset{t} + multiset(Tags(s.log.una, answer))
      && (n < 10 ==> answer == [])
      && (n == 10 ==> (Nxt(s) == s.log.una ==> answer == []) && (Nxt(s) > s.log.una ==>
            s.log.una < |s.log.stream| && answer == [Data(Wrap(s.log.una), s.log.stream[s.log.una])]))
      && (n > 10 ==> AllMissing(s.log.una, t.at, SA.RecoveryBudget(s.tx, env), Numbers(s.log.una, answer)))
  {
    hide SysInv, AllMissing, Numbers, SA.RecoveryBudget, S.ProcessAck, SP.EntriesFresh, S.Tracked, S.Counted, Tags, Run;
    StepTaken(states, steps, i);
    DuplicateEffect(states[i], t, env);
  }

  // ----- Acknowledgements of new data, and old ones -----

  /** The paths of the packets an acknowledgement of number `a` covers. */
  function Settled(s: Sys, a: nat): seq<PathId> {
    W.AckedPaths(s.tx.paths, Wrap(s.log.una), if a > s.log.una then a - s.log.una else 0)
  }

  lemma NewEffect(s: Sys, t: Tagged, env: S.Env, q: PathId)
    requires SysInv(s) && Enabled(s, DeliverAck(t, env)) && Safe(s, DeliverAck(t, env)) && RI.Rcv(t.at) > s.log.una
    ensures Cubic.Bounded(s.tx.windows[q])
    ensures var u := S.ProcessAck(s.tx, t.pkt.ackno, t.pkt.words, t.pkt.count, env);
      && u.out == [] && u.dupAcks == 0 && u.oooAcks == 0 && u.rtoConsecutive == 0
      && u.windows[q] == W.Grown(s.tx.windows[q], Settled(s, RI.Rcv(t.at)), 0, q, env.samples)
  {
    hide SysInv, SI.Inv, SM.MsgInv, SS.TxInv, S.ProcessAck, W.Grown, W.AckedPaths, Cubic.Bounded, SP.EntriesFresh;
    SenderPart(s);
    DeliveredAckIsOk(s, t);
    SA.NewAnswer(s.tx, s.log, RI.Rcv(t.at), t.pkt.words, t.pkt.count, env, q);
  }

  /**
   * In every run, an acknowledgement of new data is answered with nothing. It sets the counts of duplicates and of timeouts
   * back to zero and grows each window by the stretches of acknowledged packets on its path.
   */
  lemma NewDataIsSettled(states: seq<Sys>, steps: seq<Step>, i: nat, t: Tagged, env: S.Env, q: PathId)
    requires Run(states, steps) && i < |steps| && steps[i] == DeliverAck(t, env) && t.TAck?
    requires RI.Rcv(t.at) > states[i].log.una
    ensures Enabled(states[i], DeliverAck(t, env)) && Safe(states[i], DeliverAck(t, env))
    ensures Cubic.Bounded(states[i].tx.windows[q])
    ensures var s, u, answer := states[i], states[i + 1], AnswerTo(states[i], t, env);
      && u.log == s.log.(una := RI.Rcv(t.at)) && answer == [] && u.net == s.net - multiset{t}
      && u.tx.dupAcks == 0 && u.tx.oooAcks == 0 && u.tx.rtoConsecutive == 0
      && u.tx.windows[q] == W.Grown(s.tx.windows[q], Settled(s, RI.Rcv(t.at)), 0, q, env.samples)
  {
    hide SysInv, S.ProcessAck, SP.EntriesFresh, S.Tracked, S.Counted, Run, W.Grown, Settled, Cubic.Bounded;
    StepTaken(states, steps, i);
    NewEffect(states[i], t, env, q);
    assert Tags(states[i + 1].log.una, []) == [];
  }

  lemma OldEffect(s: Sys, t: Tagged, env: S.Env)
    requires SysInv(s) && Enabled(s, DeliverAck(t, env)) && Safe(s, DeliverAck(t, env)) && RI.Rcv(t.at) < s.log.una
    ensures S.ProcessAck(s.tx, t.pkt.ackno, t.pkt.words, t.pkt.count, env) == s.tx && s.tx.out == []
  {
    hide SysInv, SI.Inv, SM.MsgInv, SS.TxInv, S.ProcessAck, SP.EntriesFresh;
    SenderPart(s);
    DeliveredAckIsOk(s, t);
    SA.OldIsIgnored(s.tx, s.log, RI.Rcv(t.at), t.pkt.words, t.pkt.count, env);
  }

  /** In every run, an old acknowledgement does nothing but leave the network. */
  lemma OldIsDropped(states: seq<Sys>, steps: seq<Step>, i: nat, t: Tagged, env: S.Env)
    requires Run(states, steps) && i < |steps| && steps[i] == DeliverAck(t, env) && t.TAck?
    requires RI.Rcv(t.at) < states[i].log.una
    ensures states[i + 1] == states[i].(net := states[i].net - multiset{t})
  {
    hide SysInv, S.ProcessAck, SP.EntriesFresh, S.Tracked, S.Counted, Run;
    StepTaken(states, steps, i);
    OldEffect(states[i], t, env);
    assert Tags(states[i + 1].log.una, []) == [];
  }

  // ----- The other steps -----

  /** Steps other than acknowledgements and ticks leave counts and windows alone. */
  lemma OtherEffect(s: Sys, step: Step)
    requires Enabled(s, step) && Safe(s, step) && !step.DeliverAck? && !step.Tick?
    ensures SA.SameCounts(s.tx, Apply(s, step).tx) && Apply(s, step).timeouts == s.timeouts
  {
    hide R.Consume, R.Supply, R.CopyOut, S.PutFrames, S.FittingFrames, S.Shortened;
  }

  /** A tick does not count duplicates. */
  lemma TickKeepsDuplicates(t: S.Tx, env: S.Env)
    ensures S.PeriodicCheck(t, env).dupAcks == t.dupAcks && S.PeriodicCheck(t, env).oooAcks == t.oooAcks
  {
    hide S.Drain;
    DrainKeepsDuplicates(t.(tick := (t.tick + 1) % S.RTO_SLOTS), 0, env);
  }

  lemma {:induction false} DrainKeepsDuplicates(t: S.Tx, i: nat, env: S.Env)
    ensures S.Drain(t, i, env).dupAcks == t.dupAcks && S.Drain(t, i, env).oooAcks == t.oooAcks
    decreases |t.wheels[t.tick]|
  {
    if t.wheels[t.tick] != [] {
      S.FireOneShortensSlot(t, env.pick(i));
      FireKeepsDuplicates(t, env.pick(i));
      hide S.FireOne;
      DrainKeepsDuplicates(S.FireOne(t, env.pick(i)), i + 1, env);
    }
  }

  lemma FireKeepsDuplicates(t: S.Tx, path: PathId)
    requires t.wheels[t.tick] != []
    ensures S.FireOne(t, path).dupAcks == t.dupAcks && S.FireOne(t, path).oooAcks == t.oooAcks
  {
    hide SeqGe, S.ShrinkWindow;
  }

  lemma DueAreInUse(s: Sys, env: S.Env)
    requires Safe(s, Tick(env))
    ensures W.DueInUse(s.tx, s.tx.wheels[(s.tx.tick + 1) % S.RTO_SLOTS])
  {
    hide SeqGe;
  }

  /** The slot that comes due at the next tick. */
  function NextSlot(s: Sys): seq<S.Ent> {
    s.tx.wheels[(s.tx.tick + 1) % S.RTO_SLOTS]
  }

  lemma {:induction false} TimeoutsAreSent(t: S.Tx, log: SI.TxLog, ents: seq<S.Ent>)
    requires forall k :: 0 <= k < |ents| ==> SI.Live(t, ents[k])
    requires log.una + |t.unacked| <= |log.stream|
    ensures |SI.DuePackets(t, log, ents)| == W.Timeouts(t.una, ents)
  {
    hide SeqGe, Sub;
    if ents != [] {
      assert SI.Live(t, ents[0]);
      TimeoutsAreSent(t, log, ents[1..]);
    }
  }

  lemma TickEffect(s: Sys, env: S.Env, q: PathId)
    requires SysInv(s) && Safe(s, Tick(env))
    ensures var u := Apply(s, Tick(env));
      && u.tx.windows[q] == W.Shrunk(s.tx.windows[q], W.Drawn(s.tx.una, NextSlot(s), 0, env.pick, q))
      && u.tx.dupAcks == s.tx.dupAcks && u.tx.oooAcks == s.tx.oooAcks
      && u.tx.rtoConsecutive == (s.tx.rtoConsecutive + W.Timeouts(s.tx.una, NextSlot(s))) % 0x1_0000
      && |u.timeouts| == |s.timeouts| + W.Timeouts(s.tx.una, NextSlot(s))
  {
    hide SysInv, S.PeriodicCheck, W.Shrunk, W.Drawn, W.Timeouts, W.DueInUse, TimerSafe, SI.DuePackets, SI.PathsFollow;
    hide SI.SameButDue, SI.Inv, SM.MsgInv, SS.TxInv;
    DueAreInUse(s, env);
    W.TickCuts(s.tx, env, q);
    TickKeepsDuplicates(s.tx, env);
    SenderPart(s);
    SP.PeriodicCheckKeeps(s.tx, s.log, env);
    SA.FlightWithinStream(s.tx, s.log);
    AllLive(s.tx, s.log, (s.tx.tick + 1) % S.RTO_SLOTS);
    TimeoutsAreSent(s.tx, s.log, NextSlot(s));
  }

  lemma AllLive(t: S.Tx, log: SI.TxLog, j: nat)
    requires SI.Inv(t, log) && j < S.RTO_SLOTS
    ensures forall k :: 0 <= k < |t.wheels[j]| ==> SI.Live(t, t.wheels[j][k])
  {
    hide SI.Live;
  }

  /**
   * In every run, a tick cuts the window of each path once for each packet in flight that was due and given that path, and
   * leaves the other windows alone.
   */
  lemma TickCutsDrawnPaths(states: seq<Sys>, steps: seq<Step>, i: nat, env: S.Env, q: PathId)
    requires Run(states, steps) && i < |steps| && steps[i] == Tick(env)
    ensures var s, u := states[i], states[i + 1];
      var n := W.Drawn(s.tx.una, NextSlot(s), 0, env.pick, q);
      && u.tx.windows[q].cwnd == Cubic.MaxReal(1.0, W.Left(n, s.tx.windows[q].cwnd))
      && (n == 0 ==> u.tx.windows[q] == s.tx.windows[q])
      && (n > 0 ==> u.tx.windows[q].ssthresh == 0.7 * W.Shrunk(s.tx.windows[q], n - 1).cwnd)
      && u.tx.windows[q] == W.Shrunk(s.tx.windows[q], n)
  {
    hide SysInv, Run, Apply, Enabled, Safe;
    StepTaken(states, steps, i);
    TickEffect(states[i], env, q);
    var s := states[i];
    W.BoundedAt(s.tx.windows, q);
    W.LossesCut(s.tx.windows[q], W.Drawn(s.tx.una, NextSlot(s), 0, env.pick, q));
  }

  // ----- What the counts mean -----

  /** Duplicates delivered since the oldest number in flight last moved. */
  ghost function Duplicates(states: seq<Sys>, steps: seq<Step>, i: nat): nat
    requires Run(states, steps) && i <= |steps|
  {
    if i == 0 then 0
    else
      var s, step, n := states[i - 1], steps[i - 1], Duplicates(states, steps, i - 1);
      if !step.DeliverAck? || !step.pkt.TAck? || RI.Rcv(step.pkt.at) < s.log.una then n
      else if RI.Rcv(step.pkt.at) == s.log.una then n + 1
      else 0
  }

  /** Packets sent again by the timer since the oldest number in flight last moved. */
  ghost function TimeoutsSince(states: seq<Sys>, steps: seq<Step>, i: nat): int
    requires Run(states, steps) && i <= |steps|
  {
    if i == 0 then 0
    else
      var s, step, n := states[i - 1], steps[i - 1], TimeoutsSince(states, steps, i - 1);
      if step.Tick? then n + |states[i].timeouts| - |s.timeouts|
      else if !step.DeliverAck? || !step.pkt.TAck? || RI.Rcv(step.pkt.at) <= s.log.una then n
      else 0
  }

  lemma OneMore(n: int, k: int)
    ensures (n % 0x1_0000 + k) % 0x1_0000 == (n + k) % 0x1_0000
  {
  }

  lemma AckIsTagged(s: Sys, t: Tagged, env: S.Env)
    requires Enabled(s, DeliverAck(t, env))
    ensures t.TAck?
  {
  }

  /**
   * In every state of every run the count of duplicates is the number of acknowledgements of the oldest number in flight
   * delivered since that number last moved, and the count of timeouts the number of packets the timer has sent again since
   * then, both modulo 2^16.
   */
  lemma {:induction false} CountsAreRight(states: seq<Sys>, steps: seq<Step>, i: nat)
    requires Run(states, steps) && i < |states|
    ensures states[i].tx.dupAcks == Duplicates(states, steps, i) % 0x1_0000
    ensures states[i].tx.rtoConsecutive == TimeoutsSince(states, steps, i) % 0x1_0000
  {
    hide SysInv, Apply, Enabled, Safe, SA.SameCounts;
    if i > 0 {
      CountsAreRight(states, steps, i - 1);
      StepTaken(states, steps, i - 1);
      CountsStep(states, steps, i);
    }
  }

  /** The two counts of a step: by how many duplicates and timeouts they grow, or that they start again. */
  lemma CountsStep(states: seq<Sys>, steps: seq<Step>, i: nat)
    requires Run(states, steps) && 0 < i < |states|
    requires states[i - 1].tx.dupAcks == Duplicates(states, steps, i - 1) % 0x1_0000
    requires states[i - 1].tx.rtoConsecutive == TimeoutsSince(states, steps, i - 1) % 0x1_0000
    ensures states[i].tx.dupAcks == Duplicates(states, steps, i) % 0x1_0000
    ensures states[i].tx.rtoConsecutive == TimeoutsSince(states, steps, i) % 0x1_0000
  {
    hide SysInv, Apply, Enabled, Safe, Run;
    RunShape(states, steps);
    StepTaken(states, steps, i - 1);
    var s, step := states[i - 1], steps[i - 1];
    if step.Tick? {
      CountsAfterTick(states, steps, i);
    } else if step.DeliverAck? {
      AckIsTagged(s, step.pkt, step.env);
      OneMore(Duplicates(states, steps, i - 1), 1);
      CountsAfterAck(states, steps, i);
    } else {
      OtherEffect(s, step);
    }
  }

  lemma CountsAfterTick(states: seq<Sys>, steps: seq<Step>, i: nat)
    requires Run(states, steps) && 0 < i < |states| && steps[i - 1].Tick?
    requires states[i - 1].tx.dupAcks == Duplicates(states, steps, i - 1) % 0x1_0000
    requires states[i - 1].tx.rtoConsecutive == TimeoutsSince(states, steps, i - 1) % 0x1_0000
    ensures states[i].tx.dupAcks == Duplicates(states, steps, i) % 0x1_0000
    ensures states[i].tx.rtoConsecutive == TimeoutsSince(states, steps, i) % 0x1_0000
  {
    hide SysInv, Apply, Enabled, Safe, Run, W.Timeouts, W.Shrunk, NextSlot, W.Drawn;
    RunShape(states, steps);
    StepTaken(states, steps, i - 1);
    TickEffect(states[i - 1], steps[i - 1].env, 0);
    OneMore(TimeoutsSince(states, steps, i - 1), |states[i].timeouts| - |states[i - 1].timeouts|);
  }

  lemma CountsAfterAck(states: seq<Sys>, steps: seq<Step>, i: nat)
    requires Run(states, steps) && 0 < i < |states| && steps[i - 1].DeliverAck? && steps[i - 1].pkt.TAck?
    ensures var s, u, a := states[i - 1].tx, states[i].tx, RI.Rcv(steps[i - 1].pkt.at);
      && (a < states[i - 1].log.una ==> u.dupAcks == s.dupAcks && u.rtoConsecutive == s.rtoConsecutive)
      && (a == states[i - 1].log.una ==> u.dupAcks == (s.dupAcks as int + 1) % 0x1_0000 && u.rtoConsecutive == s.rtoConsecutive)
      && (a > states[i - 1].log.una ==> u.dupAcks == 0 && u.rtoConsecutive == 0)
  {
    hide Run, AllMissing, SA.RecoveryBudget, AnswerTo, W.Grown, Settled, Tags, Numbers;
    RunShape(states, steps);
    var s, t, env := states[i - 1], steps[i - 1].pkt, steps[i - 1].env;
    assert steps[i - 1] == DeliverAck(t, env);
    if RI.Rcv(t.at) < s.log.una {
      OldIsDropped(states, steps, i - 1, t, env);
    } else if RI.Rcv(t.at) == s.log.una {
      DuplicateIsAnswered(states, steps, i - 1, t, env);
    } else {
      NewDataIsSettled(states, steps, i - 1, t, env, 0);
    }
  }

  lemma RunShape(states: seq<Sys>, steps: seq<Step>)
    requires Run(states, steps)
    ensures |states| == |steps| + 1
  {
  }

  /** The tenth duplicate in a row makes the sender send the oldest packet in flight again, whatever else happened between. */
  lemma TenthDuplicateResends(states: seq<Sys>, steps: seq<Step>, i: nat, t: Tagged, env: S.Env)
    requires Run(states, steps) && i < |steps| && steps[i] == DeliverAck(t, env) && t.TAck?
    requires RI.Rcv(t.at) == states[i].log.una < Nxt(states[i]) && Duplicates(states, steps, i) == 9
    ensures Enabled(states[i], DeliverAck(t, env)) && Safe(states[i], DeliverAck(t, env))
    ensures var s := states[i];
      s.log.una < |s.log.stream| && AnswerTo(s, t, env) == [Data(Wrap(s.log.una), s.log.stream[s.log.una])]
  {
    hide Run, AllMissing, SA.RecoveryBudget, AnswerTo, Duplicates, TimeoutsSince;
    RunShape(states, steps);
    CountsAreRight(states, steps, i);
    DuplicateIsAnswered(states, steps, i, t, env);
  }

  // ----- Windows over runs -----

  /** Packets on path `q` acknowledged so far. */
  ghost function AckedOn(states: seq<Sys>, steps: seq<Step>, i: nat, q: PathId): nat
    requires Run(states, steps) && i <= |steps|
  {
    if i == 0 then 0
    else
      var s, step, n := states[i - 1], steps[i - 1], AckedOn(states, steps, i - 1, q);
      if step.DeliverAck? && step.pkt.TAck? then n + W.PacketsOn(Settled(s, RI.Rcv(step.pkt.at)), 0, q) else n
  }

  /** No timeout has put a packet on path `q`. */
  ghost predicate NoneDrawn(states: seq<Sys>, steps: seq<Step>, i: nat, q: PathId)
    requires |states| == |steps| + 1 && i <= |steps|
  {
    forall j :: 0 <= j < i && steps[j].Tick? ==> W.Drawn(states[j].tx.una, NextSlot(states[j]), 0, steps[j].env.pick, q) == 0
  }

  /** The window of a path in slow start after `n` of its packets were acknowledged. */
  function SlowStart(n: nat): Cubic.Window {
    var cap := PLATFORM.maxUnackedPp as real;
    Cubic.Window(cap, Cubic.MinReal(1.0 + n as real, cap), 64.0, 1.0, 0.0, 0.0)
  }

  lemma SlowStartGoesOn(n: nat, ps: seq<PathId>, q: PathId, samples: nat -> Cubic.Sample)
    requires PLATFORM.maxUnackedPp < 64 || n + W.PacketsOn(ps, 0, q) < 64
    ensures Cubic.Bounded(SlowStart(n))
    ensures W.Grown(SlowStart(n), ps, 0, q, samples) == SlowStart(n + W.PacketsOn(ps, 0, q))
  {
    if W.PacketsOn(ps, 0, q) == 0 {
      W.NothingOn(ps, 0, q);
      W.UntouchedStays(SlowStart(n), ps, 0, q, samples);
    } else {
      W.SlowStartCounts(SlowStart(n), ps, 0, q, samples);
    }
  }

  /**
   * In every run, the window of a path on which no timeout has put a packet is one packet plus the packets on it that have been
   * acknowledged, up to the cap. This holds for every cap below the initial threshold, and up to the threshold for others.
   */
  lemma {:induction false} WindowIsAcked(states: seq<Sys>, steps: seq<Step>, i: nat, q: PathId)
    requires Run(states, steps) && i < |states| && NoneDrawn(states, steps, i, q)
    requires PLATFORM.maxUnackedPp < 64 || AckedOn(states, steps, i, q) < 64
    ensures states[i].tx.windows[q] == SlowStart(AckedOn(states, steps, i, q))
  {
    hide SysInv, Apply, Enabled, Safe, SlowStart, W.Drawn, W.PacketsOn, Settled;
    if i == 0 {
      FirstWindow(states[0], q);
    } else {
      WindowIsAcked(states, steps, i - 1, q);
      WindowStep(states, steps, i, q);
    }
  }

  lemma FirstWindow(s: Sys, q: PathId)
    requires Init(s)
    ensures s.tx.windows[q] == SlowStart(0)
  {
    assert 1.0 <= PLATFORM.maxUnackedPp as real;
  }

  lemma WindowStep(states: seq<Sys>, steps: seq<Step>, i: nat, q: PathId)
    requires Run(states, steps) && 0 < i < |states| && NoneDrawn(states, steps, i, q)
    requires PLATFORM.maxUnackedPp < 64 || AckedOn(states, steps, i, q) < 64
    requires states[i - 1].tx.windows[q] == SlowStart(AckedOn(states, steps, i - 1, q))
    ensures states[i].tx.windows[q] == SlowStart(AckedOn(states, steps, i, q))
  {
    hide SysInv, Apply, Enabled, Safe, Run, SlowStart, W.PacketsOn, W.Grown, W.Drawn, W.Shrunk, W.Left, Settled, NextSlot;
    RunShape(states, steps);
    StepTaken(states, steps, i - 1);
    var s, step := states[i - 1], steps[i - 1];
    if step.Tick? {
      TickCutsDrawnPaths(states, steps, i - 1, step.env, q);
    } else if step.DeliverAck? {
      AckIsTagged(s, step.pkt, step.env);
      WindowAfterAck(states, steps, i, q);
      SlowStartGoesOn(AckedOn(states, steps, i - 1, q), Settled(s, RI.Rcv(step.pkt.at)), q, step.env.samples);
    } else {
      OtherEffect(s, step);
    }
  }

  lemma WindowAfterAck(states: seq<Sys>, steps: seq<Step>, i: nat, q: PathId)
    requires Run(states, steps) && 0 < i < |states| && steps[i - 1].DeliverAck? && steps[i - 1].pkt.TAck?
    ensures var s := states[i - 1];
      && Cubic.Bounded(s.tx.windows[q])
      && states[i].tx.windows[q]
         == W.Grown(s.tx.windows[q], Settled(s, RI.Rcv(steps[i - 1].pkt.at)), 0, q, steps[i - 1].env.samples)
  {
    hide Run, AllMissing, SA.RecoveryBudget, AnswerTo, W.Grown, Tags, Numbers, W.AckedPaths;
    RunShape(states, steps);
    var s, t, env := states[i - 1], steps[i - 1].pkt, steps[i - 1].env;
    W.BoundedAt(s.tx.windows, q);
    assert steps[i - 1] == DeliverAck(t, env);
    if RI.Rcv(t.at) > s.log.una {
      NewDataIsSettled(states, steps, i - 1, t, env, q);
    } else {
      NothingSettled(s, RI.Rcv(t.at), s.tx.windows[q], q, env.samples);
      if RI.Rcv(t.at) < s.log.una {
        OldIsDropped(states, steps, i - 1, t, env);
      } else {
        DuplicateIsAnswered(states, steps, i - 1, t, env);
      }
    }
  }

  lemma NothingSettled(s: Sys, a: nat, w: Cubic.Window, q: PathId, samples: nat -> Cubic.Sample)
    requires a <= s.log.una && Cubic.Bounded(w)
    ensures W.Grown(w, Settled(s, a), 0, q, samples) == w
  {
    assert Settled(s, a) == [];
  }

  // ----- New packets over runs -----

  /**
   * In every run a new packet is sent only on a path whose window has room for it, and may be sent on every such path: after it
   * the path's counter is no more than the window.
   */
  lemma SendsStayInWindow(states: seq<Sys>, steps: seq<Step>, i: nat, path: PathId)
    requires Run(states, steps) && i < |steps|
    ensures Enabled(states[i], Transmit(path)) <==>
      states[i].tx.unsent != [] && states[i].tx.paths.pp[path] as real + 1.0 <= states[i].tx.windows[path].cwnd
    ensures steps[i] == Transmit(path) ==>
      && states[i + 1].tx.windows == states[i].tx.windows
      && states[i + 1].tx.paths.pp[path] == states[i].tx.paths.pp[path] + 1
      && states[i + 1].tx.paths.pp[path] as real <= states[i + 1].tx.windows[path].cwnd
  {
    hide SysInv, Run, S.TransmitOne;
    StepTaken(states, steps, i);
    W.AdmitsIff(states[i].tx, path);
    if steps[i] == Transmit(path) {
      W.SendStaysInWindow(states[i].tx, path);
    }
  }
}
