/** What the protocol promises, over whole runs. */
module ProtocolTheorems {
  import opened SerialNumbers
  import opened Messages
  import opened SackBitmap
  import opened Packets
  import opened Protocol
  import opened ProtocolInvariants
  import S = Sender
  import SI = SenderInvariants
  import SP = SenderProgress
  import SM = SenderMessages
  import SS = SenderSteps
  import R = Receiver
  import RI = ReceiverInvariants

  // ----- Delivery -----

  /**
   * In every state of every run, the frames the receiver has pushed are exactly frames 0..Rcv-1 of the sender's stream,
   * in order and once each; and the sender's oldest unacknowledged number never passes the receiver.
   */
  lemma InOrderDelivery(states: seq<Sys>, steps: seq<Step>, i: nat)
    requires Run(states, steps) && i < |states|
    ensures var s := states[i];
      s.log.una <= Rcv(s) <= Nxt(s) <= |s.log.stream| && s.rx.pushed == s.log.stream[..Rcv(s)]
    ensures states[i].log.stream <= FramesOfAll(states[i].log.msgs)
  {
    RunKeepsInv(states, steps, i);
    hide Run;
  }

  /** The stream only ever grows at its end. */
  lemma StepExtendsStream(s: Sys, step: Step)
    requires Enabled(s, step) && Safe(s, step)
    ensures s.log.stream <= Apply(s, step).log.stream && s.log.msgs <= Apply(s, step).log.msgs
    ensures s.log.una <= Apply(s, step).log.una
  {
    hide S.FittingFrames, S.AppendOnce, S.ProcessAck, S.PeriodicCheck, R.Consume, R.Supply, S.TransmitOne, S.Submit, R.CopyOut;
  }

  lemma {:induction false} StreamGrows(states: seq<Sys>, steps: seq<Step>, i: nat, j: nat)
    requires Run(states, steps) && i <= j < |states|
    ensures states[i].log.stream <= states[j].log.stream && states[i].log.msgs <= states[j].log.msgs
    ensures states[i].log.una <= states[j].log.una
    decreases j
  {
    hide Apply, Safe, Enabled, SysInv;
    if i < j {
      StreamGrows(states, steps, i, j - 1);
      RunKeepsInv(states, steps, j - 1);
      assert Next(states[j - 1], steps[j - 1], states[j - 1 + 1]);
      StepExtendsStream(states[j - 1], steps[j - 1]);
    }
  }

  /**
   * A context is marked done only when its message has arrived: the k-th context done is the k-th one asked for, and
   * every frame of the k-th message has been pushed by the receiver.
   */
  lemma DoneMeansDelivered(states: seq<Sys>, steps: seq<Step>, i: nat, k: nat)
    requires Run(states, steps) && i < |states| && k < |states[i].tx.done|
    ensures var s := states[i];
      && k < |s.log.asked| && s.tx.done[k] == s.log.asked[k]
      && k < |s.log.msgs|
      && FramesOfAll(s.log.msgs[..k + 1]) <= s.rx.pushed
  {
    hide Run, SysInv, FramesOfAll, SM.CountFlags;
    var s := states[i];
    RunKeepsInv(states, steps, i);
    InOrderDelivery(states, steps, i);
    ContextFacts(s, k);
    var all := FramesOfAll(s.log.msgs);
    FramesOfPrefix(s.log.msgs, k + 1);
    SM.FinishedAreWhole(s.log.msgs, s.log.una, k + 1);
    assert all[..s.log.una] == s.log.stream[..s.log.una];
  }

  lemma ContextFacts(s: Sys, k: nat)
    requires SysInv(s) && k < |s.tx.done|
    ensures k < |s.log.asked| == |s.log.msgs| && s.tx.done[k] == s.log.asked[k]
    ensures s.log.una <= |s.log.stream| && |s.tx.done| == SM.CountFlags(s.log.stream[..s.log.una], true)
    ensures forall j :: 0 <= j < |s.log.msgs| ==> s.log.msgs[j] != []
  {
    hide RI.RxState, NetOk, SI.Inv, FramesOfAll;
  }

  lemma {:induction false} FramesOfPrefix(msgs: seq<seq<Byte>>, k: nat)
    requires k <= |msgs|
    ensures FramesOfAll(msgs[..k]) <= FramesOfAll(msgs)
  {
    if k == 0 {
      assert msgs[..k] == [];
    } else {
      FramesOfPrefix(msgs[1..], k - 1);
      assert msgs[..k][1..] == msgs[1..][..k - 1];
    }
  }

  /** The n-th message goes, byte for byte, into the n-th buffer the application supplied. */
  lemma MessagesReachTheirBuffers(states: seq<Sys>, steps: seq<Step>, i: nat, k: nat)
    requires Run(states, steps) && i < |states| && k < |states[i].rx.delivered|
    ensures var s := states[i];
      && k < |s.supplied| && k < |s.log.msgs|
      && s.rx.delivered[k] == R.Delivery(s.supplied[k], s.log.msgs[k])
  {
    hide Run, SysInv, FramesOfAll, Complete, RI.Line;
    var s := states[i];
    RunKeepsInv(states, steps, i);
    InOrderDelivery(states, steps, i);
    DeliveredFacts(s);
    var gone, all := RI.Gone(s.rx), FramesOfAll(s.log.msgs);
    assert gone == all[..|gone|];
    hide RI.Gone;
    CompleteIsMonotone(all, |gone|);
    ReassemblyUndoesSegmentation(s.log.msgs);
    assert RI.BytesOf(s.rx.delivered)[k] == s.log.msgs[k];
    assert RI.BufsOf(s.rx.delivered)[k] == s.supplied[k];
  }

  lemma DeliveredFacts(s: Sys)
    requires SysInv(s)
    ensures |RI.Line(s.rx)| <= |s.rx.pushed| && Complete(RI.Gone(s.rx)) == RI.BytesOf(s.rx.delivered)
    ensures RI.BufsOf(s.rx.delivered) <= s.supplied
    ensures forall j :: 0 <= j < |s.log.msgs| ==> s.log.msgs[j] != []
  {
    hide NetOk, SI.Inv, FramesOfAll, Complete;
    assert s.supplied == RI.BufsOf(s.rx.delivered) + (RI.JobBufs(s.rx.jobs) + s.rx.appBufs);
  }

  // ----- Buffers -----

  /** Every packet buffer of the receiving engine is, at any time, in exactly one place. */
  lemma EveryBufferHasOnePlace(states: seq<Sys>, steps: seq<Step>, i: nat, b: Off)
    requires Run(states, steps) && i < |states| && b in states[i].rxFrames
    ensures var r := states[i].rx;
      var onLine := multiset(RI.Line(r))[b];
      (if b in r.pool then 1 else 0) + (if b in r.reass.Values then 1 else 0) + onLine == 1
  {
    RunKeepsInv(states, steps, i);
    hide Run;
    var r := states[i].rx;
    assert RI.Held(r, states[i].rxFrames);
    hide SysInv;
    var l := RI.Line(r);
    hide RI.Line;
    if b in l {
      DistinctOnce(l, b);
    } else {
      assert b !in multiset(l);
    }
  }

  lemma {:induction false} DistinctOnce(l: seq<Off>, b: Off)
    requires Distinct(l) && b in l
    ensures multiset(l)[b] == 1
  {
    assert l == [l[0]] + l[1..];
    if b in l[1..] {
      assert l[0] != b;
      DistinctOnce(l[1..], b);
    } else {
      assert b !in multiset(l[1..]);
    }
  }

  /** The set of buffers of the receiving engine never changes. */
  lemma {:induction false} BuffersAreConserved(states: seq<Sys>, steps: seq<Step>, i: nat)
    requires Run(states, steps) && i < |states|
    ensures states[i].rxFrames == states[0].rxFrames
    ensures states[i].rx.pool + states[i].rx.mem.Keys == states[0].rx.pool
  {
    RunKeepsInv(states, steps, i);
    assert RI.Held(states[i].rx, states[i].rxFrames);
    hide SysInv, Apply, Safe, Enabled, RI.Held;
    SameFrames(states, steps, i);
    HeldTotal(states[i].rx, states[i].rxFrames);
  }

  lemma HeldTotal(r: R.Rx, frames: set<Off>)
    requires RI.Held(r, frames)
    ensures r.pool + r.mem.Keys == frames
  {
  }

  lemma {:induction false} SameFrames(states: seq<Sys>, steps: seq<Step>, i: nat)
    requires Run(states, steps) && i < |states|
    ensures states[i].rxFrames == states[0].rxFrames == states[0].rx.pool
  {
    hide SysInv;
    if i > 0 {
      SameFrames(states, steps, i - 1);
      RunKeepsInv(states, steps, i - 1);
      assert Next(states[i - 1], steps[i - 1], states[i - 1 + 1]);
    }
  }

  // ----- Fast recovery -----

  /** The packets an acknowledgement makes the sender send again. */
  ghost function AnswerTo(s: Sys, t: Tagged, env: S.Env): seq<Packet>
    requires Enabled(s, DeliverAck(t, env)) && Safe(s, DeliverAck(t, env))
  {
    S.ProcessAck(s.tx, t.pkt.ackno, t.pkt.words, t.pkt.count, env).out
  }

  /** Strictly ascending numbers in flight that the receiver did not hold when it made the acknowledgement. */
  ghost predicate OnlyMissing(una: nat, nxt: nat, at: R.Rx, ns: seq<nat>) {
    && (forall k :: 0 <= k < |ns| ==> una <= ns[k] < nxt && !RI.Has(at, ns[k]))
    && (forall k, l :: 0 <= k < l < |ns| ==> ns[k] < ns[l])
  }

  lemma NumbersOfPackets(log: SI.TxLog, ms: seq<nat>)
    requires forall k :: 0 <= k < |ms| ==> log.una + ms[k] < |log.stream| && ms[k] < TWO32
    ensures |Numbers(log.una, SI.PacketsAt(log, ms))| == |ms|
    ensures forall k :: 0 <= k < |ms| ==> Numbers(log.una, SI.PacketsAt(log, ms))[k] == log.una + ms[k]
  {
    forall k | 0 <= k < |ms|
      ensures Numbers(log.una, SI.PacketsAt(log, ms))[k] == log.una + ms[k]
    {
      SubWrap(log.una + ms[k], log.una);
    }
  }

  lemma ClearPlacesAreMissing(log: SI.TxLog, flight: nat, at: R.Rx, ms: seq<nat>)
    requires RI.Mapped(at) && at.rcvNxt == Wrap(log.una) && RI.Rcv(at) == log.una
    requires SI.ClearPlaces(at.words, ms, 0, flight) && log.una + flight <= |log.stream|
    ensures OnlyMissing(log.una, log.una + flight, at, Numbers(log.una, SI.PacketsAt(log, ms)))
  {
    hide RI.Mapped, TestBit, SI.PacketsAt, RI.Has, Numbers;
    NumbersOfPackets(log, ms);
    forall k | 0 <= k < |ms|
      ensures !RI.Has(at, log.una + ms[k])
    {
      BitsAreHeld(at, ms[k]);
    }
  }

  lemma FitsAlike(t: S.Tx, v: S.Tx, words: Words, count: nat)
    requires SI.AckFits(t, words, count) && v.unacked == t.unacked
    ensures SI.AckFits(v, words, count) && SI.AckFits(v, words, 0) && count <= Count(words) - CountBelow(words, 0)
  {
    hide TestBit;
  }

  lemma NoPackets(una: nat, nxt: nat, at: R.Rx)
    ensures OnlyMissing(una, nxt, at, Numbers(una, []))
  {
  }

  /** Fast recovery sends only packets the receiver did not hold when it made the acknowledgement. */
  lemma RecoverySendsOnlyMissing(t: S.Tx, log: SI.TxLog, at: R.Rx, env: S.Env)
    requires SI.Inv(t, log) && t.out == [] && SI.AckFits(t, at.words, at.count)
    requires RI.Mapped(at) && at.rcvNxt == Wrap(log.una) && RI.Rcv(at) == log.una
    ensures OnlyMissing(log.una, SI.Nxt(t, log), at,
                        Numbers(log.una, S.FastRecovery(t, at.words, at.count, env).out))
  {
    hide SI.Inv, SI.SameFlight, SI.PathsFollow, SI.AckFits, SI.ClearPlaces, SI.Missing, SI.PacketsAt, S.Recover, RI.Mapped,
         Count, CountBelow, Numbers, OnlyMissing;
    SM.InvGivesLength(t, log);
    FitsAlike(t, t, at.words, at.count);
    NoPackets(log.una, SI.Nxt(t, log), at);
    var cap := S.MaxUnackedPerEngine();
    if |t.unacked| < cap {
      var budget := Min(Min(env.txqFree, cap - |t.unacked|), BITS);
      SI.RecoverSendsMissing(t, log, at.words, 0, at.count, budget, env);
      SI.MissingIsClear(t, at.words, 0, at.count, budget);
      var ms := SI.Missing(at.words, 0, at.count, budget);
      WiderPlaces(at.words, ms, Min(budget, |t.unacked|), |t.unacked|);
      ClearPlacesAreMissing(log, |t.unacked|, at, ms);
      assert t.out + SI.PacketsAt(log, ms) == SI.PacketsAt(log, ms);
    }
  }

  lemma WiderPlaces(words: Words, ms: seq<nat>, hi: nat, hi2: nat)
    requires SI.ClearPlaces(words, ms, 0, hi) && hi <= hi2
    ensures SI.ClearPlaces(words, ms, 0, hi2)
  {
    hide TestBit;
  }

  /** Past the threshold a duplicate acknowledgement is answered by fast recovery. */
  lemma AnswerIsRecovery(t: S.Tx, ackno: U32, words: Words, count: U16, env: S.Env)
    requires S.Tracked(t) && S.Counted(t) && !SeqLt(ackno, t.una) && SeqEq(ackno, t.una)
    requires (t.dupAcks + 1) % 0x1_0000 > S.DUP_ACK_THRES
    ensures var n: int := t.dupAcks;
      var v := t.(dupAcks := (n + 1) % 0x1_0000, oooAcks := count);
      S.ProcessAck(t, ackno, words, count, env) == S.FastRecovery(v, words, count, env)
  {
    hide S.FastRecovery, S.FastRetransmit, S.AcceptAck, S.Tracked, S.Counted;
  }

  lemma RecoveryAnswer(s: Sys, t: Tagged, env: S.Env)
    requires SysInv(s) && Enabled(s, DeliverAck(t, env)) && Safe(s, DeliverAck(t, env))
    requires RI.Rcv(t.at) == s.log.una && (s.tx.dupAcks + 1) % 0x1_0000 > S.DUP_ACK_THRES
    ensures OnlyMissing(s.log.una, Nxt(s), t.at, Numbers(s.log.una, AnswerTo(s, t, env)))
  {
    hide SS.TxInv, RI.RxState, NetOk, SI.AckFits, SP.EntriesFresh, S.Tracked, S.Counted, RI.Mapped, RI.Reordered, Numbers,
         OnlyMissing, S.ProcessAck, S.FastRecovery, SI.Inv, SM.MsgInv, SI.SameFlight, SI.PathsFollow, SeqLt, SeqEq, SeqGt;
    DeliveredAckIsOk(s, t);
    AckerFacts(s, t);
    SS.TxInvParts(s.tx, s.log);
    SS.ProcessAckCases(s.tx, s.log, s.log.una);
    var n: int := s.tx.dupAcks;
    var v := s.tx.(dupAcks := (n + 1) % 0x1_0000, oooAcks := t.at.count);
    SI.CountersDoNotMatter(s.tx, v, s.log);
    FitsAlike(s.tx, v, t.at.words, t.at.count);
    RecoverySendsOnlyMissing(v, s.log, t.at, env);
    AnswerIsRecovery(s.tx, t.pkt.ackno, t.at.words, t.at.count, env);
  }

  lemma AckerFacts(s: Sys, t: Tagged)
    requires SysInv(s) && t in s.net && t.TAck?
    ensures RI.Mapped(t.at) && t.at.rcvNxt == Wrap(RI.Rcv(t.at))
  {
    hide SS.TxInv, RI.RxState, RI.Mapped;
    assert PacketOk(s, t);
  }

  /**
   * A duplicate acknowledgement beyond the threshold makes the sender send again, in ascending order, only packets in
   * flight that the receiver did not hold when it made the acknowledgement.
   */
  lemma FastRecoveryIsSelective(states: seq<Sys>, steps: seq<Step>, i: nat, t: Tagged, env: S.Env)
    requires Run(states, steps) && i < |steps| && steps[i] == DeliverAck(t, env) && t.TAck?
    requires RI.Rcv(t.at) == states[i].log.una && (states[i].tx.dupAcks + 1) % 0x1_0000 > S.DUP_ACK_THRES
    ensures Enabled(states[i], DeliverAck(t, env)) && Safe(states[i], DeliverAck(t, env))
    ensures var s := states[i];
      OnlyMissing(s.log.una, Nxt(s), t.at, Numbers(s.log.una, AnswerTo(s, t, env)))
  {
    hide SysInv, Apply, Enabled, Safe, OnlyMissing, Numbers, AnswerTo;
    RunKeepsInv(states, steps, i);
    assert Next(states[i], steps[i], states[i + 1]);
    RecoveryAnswer(states[i], t, env);
  }

  // ----- Hand-over to the application -----

  lemma {:induction false} JobsComplete(a: seq<Frame>, mem: map<Off, Frame>, jobs: seq<R.Job>)
    requires Rest(a) == [] && forall j :: 0 <= j < |jobs| ==> RI.Whole(mem, jobs[j].frames)
    ensures forall k :: 0 <= k < |RI.JobFrames(jobs)| ==> RI.JobFrames(jobs)[k] in mem
    ensures var b := a + R.FramesIn(mem, RI.JobFrames(jobs));
      |Complete(b)| == |Complete(a)| + |jobs| && Rest(b) == []
    decreases |jobs|
  {
    hide Complete, Rest, FirstMessage, Join, Payloads;
    if jobs == [] {
      assert R.FramesIn(mem, []) == [] && a + [] == a;
    } else {
      var fs, rest := jobs[0].frames, jobs[1..];
      assert RI.Whole(mem, jobs[0].frames);
      var msg := R.FramesIn(mem, fs);
      RI.WholeIsOneMessage(mem, fs);
      ReadOneMessage(a, msg);
      JobsComplete(a + msg, mem, rest);
      assert R.FramesIn(mem, fs + RI.JobFrames(rest)) == msg + R.FramesIn(mem, RI.JobFrames(rest));
      assert a + (msg + R.FramesIn(mem, RI.JobFrames(rest))) == a + msg + R.FramesIn(mem, RI.JobFrames(rest));
    }
  }

  lemma {:induction false} TailCompletesNothing(a: seq<Frame>, tail: seq<Frame>)
    requires forall i :: 0 <= i < |tail| ==> !tail[i].last
    ensures Complete(a + tail) == Complete(a)
    decreases |tail|
  {
    hide Complete, Rest, FirstMessage;
    if tail == [] {
      assert a + tail == a;
    } else {
      var t, f := tail[..|tail| - 1], tail[|tail| - 1];
      TailCompletesNothing(a, t);
      ReadOneMore(a + t, f);
      assert a + t + [f] == a + tail;
    }
  }

  lemma PushedByPlace(s: Sys)
    requires SysInv(s)
    ensures |RI.Line(s.rx)| <= |s.rx.pushed|
    ensures forall k :: 0 <= k < |RI.Line(s.rx)| ==> RI.Line(s.rx)[k] in s.rx.mem
    ensures s.rx.pushed == RI.Gone(s.rx) + R.FramesIn(s.rx.mem, RI.Line(s.rx))
  {
    hide SS.TxInv, NetOk, RI.Reordered, RI.Mapped, RI.Held, RI.Gathered, Complete, Rest;
    var r := s.rx;
    var k := |r.pushed| - |RI.Line(r)|;
    assert r.pushed[k..] == R.FramesIn(r.mem, RI.Line(r));
    assert r.pushed == r.pushed[..k] + r.pushed[k..];
  }

  /**
   * However arrivals and supplied buffers interleave, as many messages have been handed over as there are both buffers
   * supplied and complete messages pushed.
   */
  lemma HandOverIsGreedy(states: seq<Sys>, steps: seq<Step>, i: nat)
    requires Run(states, steps) && i < |states|
    ensures var s := states[i];
      |s.rx.delivered| + |s.rx.jobs| == Min(|s.supplied|, |Complete(s.rx.pushed)|)
  {
    hide Run, SysInv, Complete;
    RunKeepsInv(states, steps, i);
    GreedyCount(states[i]);
  }

  lemma LineFacts(s: Sys)
    requires SysInv(s)
    ensures Complete(RI.Gone(s.rx)) == RI.BytesOf(s.rx.delivered) && Rest(RI.Gone(s.rx)) == []
    ensures forall j :: 0 <= j < |s.rx.jobs| ==> RI.Whole(s.rx.mem, s.rx.jobs[j].frames)
    ensures forall j :: 0 <= j < |s.rx.chain| ==> s.rx.chain[j] in s.rx.mem && !s.rx.mem[s.rx.chain[j]].last
    ensures |s.supplied| == |s.rx.delivered| + |s.rx.jobs| + |s.rx.appBufs|
    ensures s.rx.ready == [] || s.rx.appBufs == []
    ensures s.rx.appBufs == [] ==> s.rx.chain == []
  {
    hide SS.TxInv, NetOk, RI.Reordered, RI.Mapped, RI.Held, RI.Line, Complete, Rest;
  }

  lemma FramesInConcat(mem: map<Off, Frame>, a: seq<Off>, b: seq<Off>)
    requires forall k :: 0 <= k < |a + b| ==> (a + b)[k] in mem
    ensures (forall k :: 0 <= k < |a| ==> a[k] in mem) && (forall k :: 0 <= k < |b| ==> b[k] in mem)
    ensures R.FramesIn(mem, a + b) == R.FramesIn(mem, a) + R.FramesIn(mem, b)
  {
    assert forall k :: 0 <= k < |a| ==> (a + b)[k] == a[k];
    assert forall k :: 0 <= k < |b| ==> (a + b)[|a| + k] == b[k];
  }

  lemma GreedyCount(s: Sys)
    requires SysInv(s)
    ensures |s.rx.delivered| + |s.rx.jobs| == Min(|s.supplied|, |Complete(s.rx.pushed)|)
  {
    hide SysInv, Complete, Rest, RI.Whole, RI.Gone, R.FramesIn, RI.JobFrames;
    PushedByPlace(s);
    LineFacts(s);
    var r, gone, js := s.rx, RI.Gone(s.rx), RI.JobFrames(s.rx.jobs);
    JobsComplete(gone, r.mem, r.jobs);
    var b := gone + R.FramesIn(r.mem, js);
    var rest := r.chain + r.ready;
    assert RI.Line(r) == js + rest;
    FramesInConcat(r.mem, js, rest);
    assert r.pushed == b + R.FramesIn(r.mem, rest);
    if r.appBufs == [] {
      CompleteIsMonotone(r.pushed, |b|);
      assert r.pushed[..|b|] == b;
    } else {
      assert rest == r.chain;
      ChainIsIncomplete(r.mem, r.chain);
      TailCompletesNothing(b, R.FramesIn(r.mem, rest));
    }
  }

  lemma ChainIsIncomplete(mem: map<Off, Frame>, chain: seq<Off>)
    requires forall j :: 0 <= j < |chain| ==> chain[j] in mem && !mem[chain[j]].last
    ensures forall j :: 0 <= j < |R.FramesIn(mem, chain)| ==> !R.FramesIn(mem, chain)[j].last
  {
  }

  // ----- How stale a packet may be -----

  lemma DataInNet(s: Sys, t: Tagged)
    requires SysInv(s) && t in s.net && t.TData?
    ensures t.pkt.Data? && t.pkt.seqno == Wrap(t.n) && s.rx.rcvNxt == Wrap(Rcv(s)) && s.rx.rcvNxt !in s.rx.reass
  {
    hide SS.TxInv;
    assert PacketOk(s, t);
  }

  lemma AckInNet(s: Sys, t: Tagged)
    requires SysInv(s) && t in s.net && t.TAck?
    ensures t.pkt.Ack? && t.pkt.ackno == Wrap(RI.Rcv(t.at)) && SI.Inv(s.tx, s.log)
  {
    hide RI.RxState, SI.Inv, SM.MsgInv;
    assert PacketOk(s, t);
  }

  /**
   * In every run, exactly when a data packet in the network is taken for a new one, whatever its age: its number, modulo
   * 2^32, lies in the receiver's window and is not buffered. For one the receiver has already had in order that means that
   * it is stale by more than 2^32 - 1024.
   */
  lemma DataIsTakenForNewIff(states: seq<Sys>, steps: seq<Step>, i: nat, t: Tagged)
    requires Run(states, steps) && i < |states| && t in states[i].net && t.TData?
    ensures t.pkt.Data?
    ensures var s := states[i];
      && (R.Classify(s.rx, t.pkt.seqno) == R.OooTrackableExpectedOrInOrder
          <==> (t.n - Rcv(s)) % TWO32 < BITS && t.pkt.seqno !in s.rx.reass)
      && (t.n < Rcv(s) && (t.n - Rcv(s)) % TWO32 < BITS ==> t.n < Rcv(s) - (TWO32 - BITS))
  {
    hide Run, SysInv, R.Classify;
    RunKeepsInv(states, steps, i);
    DataInNet(states[i], t);
    RI.TakenForNewIff(states[i].rx, t.n);
  }

  /**
   * In every run, exactly when an acknowledgement in the network is acted on, whatever its age. For one that is behind
   * the oldest number in flight that means that it is stale by 2^32 or more, counted from the next number to be sent.
   */
  lemma AckIsActedOnIff(states: seq<Sys>, steps: seq<Step>, i: nat, t: Tagged)
    requires Run(states, steps) && i < |states| && t in states[i].net && t.TAck?
    ensures t.pkt.Ack?
    ensures var s, a := states[i], RI.Rcv(t.at);
      && (!SeqLt(t.pkt.ackno, s.tx.una) && !SeqGt(t.pkt.ackno, s.tx.nxt) <==> (a - s.log.una) % TWO32 <= |s.tx.unacked|)
      && (a < s.log.una && (a - s.log.una) % TWO32 <= |s.tx.unacked| ==> a <= Nxt(s) - TWO32)
  {
    hide Run, SysInv, SI.Inv, SeqLt, SeqGt, SeqEq, Sub;
    RunKeepsInv(states, steps, i);
    AckInNet(states[i], t);
    SP.InvGivesNumbers(states[i].tx, states[i].log);
    SS.ActedOnIff(states[i].tx, states[i].log, RI.Rcv(t.at));
  }

  /**
   * In every run, exactly when an entry of the timer's wheel passes the timer's test, whatever number `n` it was made for.
   * For one that is behind the oldest number in flight by up to a whole turn that means that it is more than 2^31 behind.
   */
  lemma EntryPassesIff(states: seq<Sys>, steps: seq<Step>, i: nat, slot: S.Tick, k: nat, n: nat)
    requires Run(states, steps) && i < |states| && k < |states[i].tx.wheels[slot]|
    requires states[i].tx.wheels[slot][k].seqno == Wrap(n)
    ensures var s := states[i];
      && (SeqGe(s.tx.wheels[slot][k].seqno, s.tx.una) <==> (n - s.log.una) % TWO32 < TWO31)
      && (n < s.log.una <= n + TWO32 && (n - s.log.una) % TWO32 < TWO31 ==> s.log.una - n > TWO31)
  {
    hide Run, SysInv, SI.Inv, SM.MsgInv;
    RunKeepsInv(states, steps, i);
    SenderPart(states[i]);
    SP.InvGivesNumbers(states[i].tx, states[i].log);
    SubWrap(n, states[i].log.una);
  }
}
