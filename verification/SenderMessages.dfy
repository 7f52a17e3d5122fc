/**
 * Messages on the sending half: how they become the stream of frames, and when their contexts are marked done.
 */
module SenderMessages {
  import opened SerialNumbers
  import opened Messages
  import opened Packets
  import opened Sender
  import opened SenderInvariants

  /** How many frames carry the flag for a message's last frame, or for its first. */
  function CountFlags(frames: seq<Frame>, last: bool): nat {
    if frames == [] then 0
    else (if (if last then frames[0].last else frames[0].first) then 1 else 0) + CountFlags(frames[1..], last)
  }

  /** The frames the queued messages will still contribute, in order. */
  ghost function ToCome(mem: map<Off, Cell>, ps: seq<Pending>): seq<Frame>
    requires forall i :: 0 <= i < |ps| ==> PendingOk(mem, ps[i])
  {
    if ps == [] then [] else FramesToCome(mem, ps[0]) + ToCome(mem, ps[1..])
  }

  /** The contexts of queued messages of which nothing has been appended yet. */
  function CtxsToCome(ps: seq<Pending>): seq<Ctx> {
    if ps == [] then [] else (if ps[0].offset == 0 then [ps[0].ctx] else []) + CtxsToCome(ps[1..])
  }

  ghost predicate QueueOk(t: Tx) {
    && (forall i :: 0 <= i < |t.pending| ==> PendingOk(t.mem, t.pending[i]))
    && (forall i :: 0 < i < |t.pending| ==> t.pending[i].offset == 0)
  }

  /** The stream and what is queued are exactly the frames of the submitted messages. */
  ghost predicate Conserved(t: Tx, log: TxLog)
    requires QueueOk(t)
  {
    && log.stream + ToCome(t.mem, t.pending) == FramesOfAll(log.msgs)
    && (forall i :: 0 <= i < |log.msgs| ==> log.msgs[i] != [])
  }

  /** Contexts go in the order of their messages; one is done for each last frame acknowledged. */
  ghost predicate ContextsOk(t: Tx, log: TxLog) {
    && log.asked == t.done + t.ctxs + CtxsToCome(t.pending)
    && |log.asked| == |log.msgs|
    && log.una <= |log.stream|
    && |t.done| == CountFlags(log.stream[..log.una], true)
    && |t.done| + |t.ctxs| == CountFlags(log.stream, false)
  }

  ghost predicate MsgInv(t: Tx, log: TxLog) {
    QueueOk(t) && Conserved(t, log) && ContextsOk(t, log)
  }

  // ----- Counting flags -----

  lemma {:induction false} CountFlagsConcat(a: seq<Frame>, b: seq<Frame>, last: bool)
    ensures CountFlags(a + b, last) == CountFlags(a, last) + CountFlags(b, last)
  {
    if a == [] {
      assert a + b == b;
    } else {
      assert (a + b)[1..] == a[1..] + b;
      CountFlagsConcat(a[1..], b, last);
    }
  }

  lemma {:induction false} CountNoFlags(frames: seq<Frame>, last: bool)
    requires forall i :: 0 <= i < |frames| ==> !(if last then frames[i].last else frames[i].first)
    ensures CountFlags(frames, last) == 0
  {
    if frames != [] {
      CountNoFlags(frames[1..], last);
    }
  }

  lemma CountFlagsUpTo(frames: seq<Frame>, m: nat, n: nat, last: bool)
    requires m <= n <= |frames|
    ensures CountFlags(frames[..n], last) == CountFlags(frames[..m], last) + CountFlags(frames[m..n], last)
  {
    assert frames[..n] == frames[..m] + frames[m..n];
    CountFlagsConcat(frames[..m], frames[m..n], last);
  }

  /** The frames of one message: one first flag at the front, one last flag at the end. */
  lemma FlagsOfMessage(msg: seq<Byte>, n: nat)
    requires msg != [] && n <= |FramesOf(msg)|
    ensures FramesOf(msg) != []
    ensures CountFlags(FramesOf(msg)[..n], true) == if n == |FramesOf(msg)| then 1 else 0
    ensures CountFlags(FramesOf(msg)[..n], false) == if n == 0 then 0 else 1
  {
    FramesOfShape(msg);
    var fs := FramesOf(msg);
    hide FramesOf, Payloads;
    if n > 0 {
      var h := fs[..n];
      CountNoFlags(h[1..], false);
      if n == |fs| {
        assert h == h[..n - 1] + [fs[n - 1]];
        CountFlagsConcat(h[..n - 1], [fs[n - 1]], true);
        assert [fs[n - 1]][1..] == [];
        CountNoFlags(h[..n - 1], true);
      } else {
        CountNoFlags(h, true);
      }
    }
  }

  /**
   * In the first `n` frames of the messages: messages finished never exceed messages begun, and message `k` is finished
   * only if all its frames are there.
   */
  lemma {:induction false} FinishedAreWhole(msgs: seq<seq<Byte>>, n: nat, k: nat)
    requires forall i :: 0 <= i < |msgs| ==> msgs[i] != []
    requires n <= |FramesOfAll(msgs)| && k <= |msgs|
    ensures CountFlags(FramesOfAll(msgs)[..n], true) <= CountFlags(FramesOfAll(msgs)[..n], false) <= |msgs|
    ensures CountFlags(FramesOfAll(msgs)[..n], true) >= k <==> n >= |FramesOfAll(msgs[..k])|
  {
    var all := FramesOfAll(msgs);
    if msgs == [] {
      assert all[..n] == [] && msgs[..k] == [];
    } else {
      var a, rest := FramesOf(msgs[0]), FramesOfAll(msgs[1..]);
      var m := Min(n, |a|);
      FlagsOfMessage(msgs[0], m);
      FinishedAreWhole(msgs[1..], n - m, if k == 0 then 0 else k - 1);
      assert all[..n] == a[..m] + rest[..n - m];
      CountFlagsConcat(a[..m], rest[..n - m], true);
      CountFlagsConcat(a[..m], rest[..n - m], false);
      if k > 0 {
        assert msgs[..k][1..] == msgs[1..][..k - 1];
      } else {
        assert msgs[..k] == [];
      }
      if n < |a| {
        assert rest[..n - m] == [];
      }
    }
  }

  // ----- Acknowledgements complete contexts -----

  /** The oldest `k` buffers in flight hold the frames of the stream from `base` on. */
  ghost predicate Carries(t: Tx, k: nat, stream: seq<Frame>, base: nat) {
    && k <= |t.unacked| && base + k <= |stream|
    && forall i :: 0 <= i < k ==> t.unacked[i] in t.mem && t.mem[t.unacked[i]].frame == stream[base + i]
  }

  lemma AckOneCarries(t: Tx, k: nat, stream: seq<Frame>, base: nat)
    requires Tracked(t) && k > 0 && Carries(t, k, stream, base)
    ensures var u := AckOne(t);
      && Tracked(u) && Carries(u, k - 1, stream, base + 1)
      && u.done == (if stream[base].last && t.ctxs != [] then t.done + t.ctxs[..1] else t.done)
      && u.ctxs == (if stream[base].last && t.ctxs != [] then t.ctxs[1..] else t.ctxs)
  {
    AckOneKeepsTracked(t);
    var u := AckOne(t);
    forall i | 0 <= i < k - 1
      ensures u.unacked[i] in u.mem && u.mem[u.unacked[i]].frame == stream[base + 1 + i]
    {
      assert Chain(t)[0] != Chain(t)[i + 1];
    }
  }

  lemma AckOneFirst(t: Tx, k: nat)
    requires 0 < k <= |t.unacked| && Tracked(t)
    ensures Tracked(AckOne(t)) && ReceiveAcks(t, k) == ReceiveAcks(AckOne(t), k - 1)
  {
    hide Tracked, AckOne;
    AckOneKeepsTracked(t);
  }

  /** Acknowledging a stretch of the stream completes, oldest first, one context for each last frame in it. */
  lemma {:induction false} ReceiveAcksCompletes(t: Tx, k: nat, stream: seq<Frame>, base: nat)
    requires Tracked(t) && Carries(t, k, stream, base)
    requires CountFlags(stream[base..base + k], true) <= |t.ctxs|
    ensures var c := CountFlags(stream[base..base + k], true);
      ReceiveAcks(t, k).done == t.done + t.ctxs[..c] && ReceiveAcks(t, k).ctxs == t.ctxs[c..]
    decreases k
  {
    hide Tracked, Carries, AckOne;
    CarriesBounds(t, k, stream, base);
    if k > 0 {
      var s := stream[base..base + k];
      assert s[1..] == stream[base + 1..base + 1 + (k - 1)];
      AckOneCarries(t, k, stream, base);
      ReceiveAcksCompletes(AckOne(t), k - 1, stream, base + 1);
      var c := CountFlags(s, true);
      hide ReceiveAcks;
      assert ReceiveAcks(t, k) == ReceiveAcks(AckOne(t), k - 1) by {
        AckOneFirst(t, k);
      }
      assert c > 0 ==> t.ctxs[..c] == t.ctxs[..1] + t.ctxs[1..][..c - 1];
    } else {
      assert stream[base..base + k] == [];
      assert t.done + t.ctxs[..0] == t.done;
    }
  }

  lemma CarriesBounds(t: Tx, k: nat, stream: seq<Frame>, base: nat)
    requires Carries(t, k, stream, base)
    ensures k <= |t.unacked| && base + k <= |stream|
  {
  }

  lemma PendingIgnoresOthers(m1: map<Off, Cell>, m2: map<Off, Cell>, p: Pending)
    requires PendingOk(m1, p)
    requires forall b :: b in p.chunks ==> b in m1 && b in m2 && m2[b].frame.payload == m1[b].frame.payload
    ensures PendingOk(m2, p) && FramesToCome(m2, p) == FramesToCome(m1, p)
  {
    hide Flagged, Total;
    assert PayloadsIn(m2, p.chunks) == PayloadsIn(m1, p.chunks);
  }

  lemma {:induction false} ToComeIgnoresOthers(m1: map<Off, Cell>, m2: map<Off, Cell>, ps: seq<Pending>)
    requires forall i :: 0 <= i < |ps| ==> PendingOk(m1, ps[i])
    requires forall b :: b in PendingBufs(ps) ==> b in m1 && b in m2 && m2[b].frame.payload == m1[b].frame.payload
    ensures forall i :: 0 <= i < |ps| ==> PendingOk(m2, ps[i])
    ensures ToCome(m2, ps) == ToCome(m1, ps)
  {
    hide PendingOk, FramesToCome;
    if ps != [] {
      assert PendingBufs(ps) == ps[0].chunks + PendingBufs(ps[1..]);
      PendingIgnoresOthers(m1, m2, ps[0]);
      ToComeIgnoresOthers(m1, m2, ps[1..]);
    }
  }

  /** Messages begun but not finished outnumber the last frames still in the chain. */
  lemma EnoughContexts(t: Tx, log: TxLog)
    requires MsgInv(t, log)
    ensures CountFlags(log.stream[log.una..], true) <= |t.ctxs|
  {
    var all, n := FramesOfAll(log.msgs), |log.stream|;
    assert all[..n] == log.stream && log.stream[..n] == log.stream;
    FinishedAreWhole(log.msgs, n, 0);
    CountFlagsUpTo(log.stream, log.una, n, true);
    assert log.stream[log.una..n] == log.stream[log.una..];
  }

  lemma InvCarries(t: Tx, log: TxLog, k: nat)
    requires Inv(t, log) && k <= |t.unacked|
    ensures Carries(t, k, log.stream, log.una)
  {
    hide Inv;
    InvGivesLength(t, log);
    forall i | 0 <= i < k
      ensures t.unacked[i] in t.mem && t.mem[t.unacked[i]].frame == log.stream[log.una + i]
    {
      BufferInFlight(t, log, i);
    }
  }

  lemma InvGivesLength(t: Tx, log: TxLog)
    requires Inv(t, log)
    ensures log.una + |t.unacked| <= |log.stream|
  {
  }

  lemma FlagsWithin(stream: seq<Frame>, m: nat, n: nat)
    requires m <= n <= |stream|
    ensures CountFlags(stream[m..n], true) <= CountFlags(stream[m..], true)
    ensures CountFlags(stream[..n], true) == CountFlags(stream[..m], true) + CountFlags(stream[m..n], true)
  {
    CountFlagsUpTo(stream, m, n, true);
    assert stream[m..] == stream[m..n] + stream[n..];
    CountFlagsConcat(stream[m..n], stream[n..], true);
  }

  lemma AcceptAckKeepsContexts(t: Tx, u: Tx, log: TxLog, k: nat)
    requires Inv(t, log) && MsgInv(t, log) && k <= |t.unacked| && Tracked(t)
    requires u.ctxs == ReceiveAcks(t, k).ctxs && u.done == ReceiveAcks(t, k).done && u.pending == t.pending
    ensures ContextsOk(u, log.(una := log.una + k))
  {
    hide Inv, Tracked, QueueOk, Conserved, Carries, ReceiveAcks, CountFlags;
    EnoughContexts(t, log);
    InvCarries(t, log, k);
    CarriesBounds(t, k, log.stream, log.una);
    FlagsWithin(log.stream, log.una, log.una + k);
    ReceiveAcksCompletes(t, k, log.stream, log.una);
    var c := CountFlags(log.stream[log.una..log.una + k], true);
    assert t.ctxs[..c] + t.ctxs[c..] == t.ctxs;
    assert t.done + t.ctxs[..c] + t.ctxs[c..] == t.done + t.ctxs;
  }

  // ----- Filling buffers -----

  /** Frames written to distinct buffers are there afterwards, and no other buffer changes. */
  lemma {:induction false} PutFramesPuts(mem: map<Off, Cell>, bufs: seq<Off>, frames: seq<Frame>)
    requires |bufs| == |frames| && Distinct(bufs)
    ensures var m := PutFrames(mem, bufs, frames);
      && m.Keys == mem.Keys + AsSet(bufs)
      && (forall b :: b in mem && b !in bufs ==> m[b] == mem[b])
      && (forall i :: 0 <= i < |bufs| ==> bufs[i] in m && m[bufs[i]].frame == frames[i])
      && (forall i :: 0 <= i < |bufs| ==> m[bufs[i]].seqno == if bufs[i] in mem then mem[bufs[i]].seqno else 0)
    decreases |bufs|
  {
    if bufs != [] {
      var cell := if bufs[0] in mem then mem[bufs[0]].(frame := frames[0]) else Cell(0, frames[0]);
      var mem1, rest := mem[bufs[0] := cell], bufs[1..];
      PutFramesPuts(mem1, rest, frames[1..]);
      var m := PutFrames(mem, bufs, frames);
      assert m == PutFrames(mem1, rest, frames[1..]);
      assert bufs == [bufs[0]] + rest;
      assert bufs[0] !in rest;
      hide PutFrames, Distinct;
      forall i | 0 <= i < |bufs|
        ensures bufs[i] in m && m[bufs[i]].frame == frames[i]
        ensures m[bufs[i]].seqno == if bufs[i] in mem then mem[bufs[i]].seqno else 0
      {
        if i > 0 {
          assert rest[i - 1] == bufs[i];
        }
      }
    }
  }

  lemma {:induction false} PendingBufsAppend(ps: seq<Pending>, p: Pending)
    ensures PendingBufs(ps + [p]) == PendingBufs(ps) + p.chunks
  {
    if ps == [] {
      assert ps + [p] == [p];
      assert PendingBufs([p]) == p.chunks + PendingBufs([]);
    } else {
      assert (ps + [p])[1..] == ps[1..] + [p];
      PendingBufsAppend(ps[1..], p);
    }
  }

  lemma {:induction false} ToComeAppend(mem: map<Off, Cell>, ps: seq<Pending>, p: Pending)
    requires forall i :: 0 <= i < |ps + [p]| ==> PendingOk(mem, (ps + [p])[i])
    ensures (forall i :: 0 <= i < |ps| ==> PendingOk(mem, ps[i])) && PendingOk(mem, p)
    ensures ToCome(mem, ps + [p]) == ToCome(mem, ps) + FramesToCome(mem, p)
    ensures CtxsToCome(ps + [p]) == CtxsToCome(ps) + if p.offset == 0 then [p.ctx] else []
  {
    hide PendingOk, FramesToCome;
    assert forall i :: 0 <= i < |ps| ==> (ps + [p])[i] == ps[i];
    assert (ps + [p])[|ps|] == p;
    if ps == [] {
      assert ps + [p] == [p];
      assert ToCome(mem, [p]) == FramesToCome(mem, p) + ToCome(mem, []);
      assert CtxsToCome([p]) == (if p.offset == 0 then [p.ctx] else []) + CtxsToCome([]);
    } else {
      assert (ps + [p])[1..] == ps[1..] + [p];
      assert (ps + [p])[0] == ps[0];
      ToComeAppend(mem, ps[1..], p);
      ConcatAssoc(FramesToCome(mem, ps[0]), ToCome(mem, ps[1..]), FramesToCome(mem, p));
      ConcatAssoc(if ps[0].offset == 0 then [ps[0].ctx] else [], CtxsToCome(ps[1..]), if p.offset == 0 then [p.ctx] else []);
    }
  }

  /** `u` is `t` with the chain extended at its unsent end and other buffers changed, `log2` is `log` accordingly. */
  ghost predicate Extends(t: Tx, u: Tx, log: TxLog, log2: TxLog) {
    && u.unacked == t.unacked && t.unsent <= u.unsent && u.hasHead == t.hasHead
    && u.una == t.una && u.nxt == t.nxt && u.tick == t.tick && u.wheels == t.wheels && u.out == t.out
    && u.done == t.done && u.paths == t.paths
    && log2.una == log.una && log.stream <= log2.stream && |log2.stream| == log.una + |Chain(u)|
    && (forall i :: 0 <= i < |Chain(t)| ==>
          Chain(t)[i] in t.mem && Chain(t)[i] in u.mem && u.mem[Chain(t)[i]] == t.mem[Chain(t)[i]])
    && (forall i :: |Chain(t)| <= i < |Chain(u)| ==>
          Chain(u)[i] in u.mem && u.mem[Chain(u)[i]].frame == log2.stream[log.una + i])
  }

  lemma ExtendsKeepsContents(t: Tx, u: Tx, log: TxLog, log2: TxLog)
    requires Inv(t, log) && Extends(t, u, log, log2)
    ensures Contents(u, log2)
  {
    hide Owned, EntriesLive, Covered, OutSound, HeadOk, Wrap;
    var c, d := Chain(t), Chain(u);
    assert c <= d;
    forall i | 0 <= i < |d|
      ensures d[i] in u.mem && u.mem[d[i]].frame == log2.stream[log.una + i]
      ensures i < |u.unacked| ==> u.mem[d[i]].seqno == Wrap(log.una + i)
    {
      assert i < |c| ==> c[i] == d[i];
    }
  }

  lemma ExtendsKeepsInv(t: Tx, u: Tx, log: TxLog, log2: TxLog)
    requires Inv(t, log) && Owned(u) && Extends(t, u, log, log2)
    ensures Inv(u, log2)
  {
    ExtendsKeepsContents(t, u, log, log2);
    hide Owned, Contents;
    assert EntriesLive(u) by {
      forall j, k | 0 <= j < RTO_SLOTS && 0 <= k < |u.wheels[j]|
        ensures Live(u, u.wheels[j][k])
      {
        assert Live(t, t.wheels[j][k]);
      }
    }
    assert Covered(u) by {
      forall i | 0 <= i < |u.unacked|
        ensures CoveredAt(u, i)
      {
        assert CoveredAt(t, i);
        EntriesSurviveGrowth(t, u, Wrap(t.una + i));
      }
    }
    assert OutSound(u, log2) by {
      forall i | 0 <= i < |u.out|
        ensures Sound(u, log2, u.out[i])
      {
        assert Sound(t, log, t.out[i]);
      }
    }
  }

  // ----- Submitting a message -----

  /** Buffers for a message: as many as it needs, all different and all free. */
  ghost predicate FreeFor(t: Tx, msg: seq<Byte>, bufs: seq<Off>) {
    && |bufs| == |Chunks(msg)|
    && Distinct(bufs)
    && forall b :: b in bufs ==> b in t.pool
  }

  lemma TakeFromPool(pool: set<Off>, mem: map<Off, Cell>, mem2: map<Off, Cell>, s: set<Off>)
    requires pool !! mem.Keys && s <= pool && mem2.Keys == mem.Keys + s
    ensures pool - s !! mem2.Keys
    ensures |pool - s| + |mem2.Keys| == |pool| + |mem.Keys|
  {
    assert |pool - s| == |pool| - |s|;
    assert |mem.Keys + s| == |mem.Keys| + |s|;
  }

  lemma SubmitTakes(t: Tx, msg: seq<Byte>, bufs: seq<Off>, ctx: Ctx)
    requires |bufs| == |Chunks(msg)|
    ensures Submit(t, msg, bufs, ctx).pool == t.pool - AsSet(bufs)
    ensures Submit(t, msg, bufs, ctx).pending == t.pending + [Pending(bufs, |msg|, 0, ctx)]
    ensures Submit(t, msg, bufs, ctx).ctxs == t.ctxs && Submit(t, msg, bufs, ctx).done == t.done
    ensures Distinct(bufs) ==> Submit(t, msg, bufs, ctx).mem.Keys == t.mem.Keys + AsSet(bufs)
    ensures AllBufs(Submit(t, msg, bufs, ctx)) == AllBufs(t) + bufs
  {
    PendingBufsAppend(t.pending, Pending(bufs, |msg|, 0, ctx));
    if Distinct(bufs) {
      PutFramesPuts(t.mem, bufs, Unflagged(Chunks(msg)));
    }
  }

  lemma KeysAfterTake(keys: set<Off>, a: seq<Off>, bufs: seq<Off>)
    requires forall b :: b in keys <==> b in a
    ensures forall b :: b in keys + AsSet(bufs) <==> b in a + bufs
  {
  }

  lemma TakenAreNew(keys: set<Off>, pool: set<Off>, a: seq<Off>, bufs: seq<Off>)
    requires (forall b :: b in keys <==> b in a) && pool !! keys && AsSet(bufs) <= pool
    ensures forall x :: x in a ==> x !in bufs
  {
    forall x | x in a
      ensures x !in bufs
    {
      assert x in keys;
      assert x in bufs ==> x in AsSet(bufs);
    }
  }

  lemma OwnedAfterTake(t: Tx, u: Tx, bufs: seq<Off>)
    requires Owned(t) && Distinct(bufs) && AsSet(bufs) <= t.pool
    requires AllBufs(u) == AllBufs(t) + bufs
    requires u.mem.Keys == t.mem.Keys + AsSet(bufs) && u.pool == t.pool - AsSet(bufs)
    ensures Owned(u)
  {
    hide AllBufs, Distinct, AsSet;
    var a := AllBufs(t);
    KeysAre(t);
    TakenAreNew(t.mem.Keys, t.pool, a, bufs);
    DistinctConcat(a, bufs);
    KeysAfterTake(t.mem.Keys, a, bufs);
    TakeFromPool(t.pool, t.mem, u.mem, AsSet(bufs));
    assert forall b :: b in u.mem <==> b in u.mem.Keys;
  }

  lemma KeysAre(t: Tx)
    requires Owned(t)
    ensures forall b :: b in t.mem.Keys <==> b in AllBufs(t)
  {
  }

  lemma SubmitKeepsOwned(t: Tx, msg: seq<Byte>, bufs: seq<Off>, ctx: Ctx)
    requires Owned(t) && FreeFor(t, msg, bufs)
    ensures Owned(Submit(t, msg, bufs, ctx))
  {
    hide Owned, Submit, AllBufs, Distinct;
    SubmitTakes(t, msg, bufs, ctx);
    OwnedAfterTake(t, Submit(t, msg, bufs, ctx), bufs);
  }

  lemma SubmitExtends(t: Tx, log: TxLog, msg: seq<Byte>, bufs: seq<Off>, ctx: Ctx)
    requires Inv(t, log) && FreeFor(t, msg, bufs)
    ensures Extends(t, Submit(t, msg, bufs, ctx), log, log.(msgs := log.msgs + [msg], asked := log.asked + [ctx]))
  {
    hide EntriesLive, Covered, OutSound, HeadOk, Wrap;
    PutFramesPuts(t.mem, bufs, Unflagged(Chunks(msg)));
  }

  lemma SubmittedMessageIsOk(t: Tx, msg: seq<Byte>, bufs: seq<Off>, ctx: Ctx)
    requires FreeFor(t, msg, bufs) && msg != []
    ensures var u, p := Submit(t, msg, bufs, ctx), Pending(bufs, |msg|, 0, ctx);
      PendingOk(u.mem, p) && FramesToCome(u.mem, p) == FramesOf(msg)
  {
    hide PutFrames, Distinct, AsSet, Chunks, Flagged, Total;
    var mem := Submit(t, msg, bufs, ctx).mem;
    ChunksJoin(msg);
    PutFramesPuts(t.mem, bufs, Unflagged(Chunks(msg)));
    assert PayloadsIn(mem, bufs) == Chunks(msg);
  }

  lemma PendingAreInUse(t: Tx)
    requires Owned(t)
    ensures forall b :: b in PendingBufs(t.pending) ==> b in t.mem && b in AllBufs(t)
  {
  }

  lemma SubmitLeavesQueue(t: Tx, msg: seq<Byte>, bufs: seq<Off>, ctx: Ctx)
    requires Owned(t) && QueueOk(t) && FreeFor(t, msg, bufs)
    ensures var u := Submit(t, msg, bufs, ctx);
      (forall i :: 0 <= i < |t.pending| ==> PendingOk(u.mem, t.pending[i]))
      && ToCome(u.mem, t.pending) == ToCome(t.mem, t.pending)
  {
    var u := Submit(t, msg, bufs, ctx);
    PendingAreInUse(t);
    assert forall b :: b in PendingBufs(t.pending) ==> b in t.mem && b in u.mem && u.mem[b] == t.mem[b] by {
      PutFramesPuts(t.mem, bufs, Unflagged(Chunks(msg)));
    }
    hide Owned, FreeFor, PutFrames;
    ToComeIgnoresOthers(t.mem, u.mem, t.pending);
  }

  lemma SubmitKeepsMsgInv(t: Tx, log: TxLog, msg: seq<Byte>, bufs: seq<Off>, ctx: Ctx)
    requires Owned(t) && MsgInv(t, log) && FreeFor(t, msg, bufs) && msg != []
    ensures MsgInv(Submit(t, msg, bufs, ctx), log.(msgs := log.msgs + [msg], asked := log.asked + [ctx]))
  {
    hide Owned, FreeFor, PendingOk, Submit, CountFlags;
    FreeForLength(t, msg, bufs);
    var u, p := Submit(t, msg, bufs, ctx), Pending(bufs, |msg|, 0, ctx);
    SubmitTakes(t, msg, bufs, ctx);
    SubmittedMessageIsOk(t, msg, bufs, ctx);
    SubmitLeavesQueue(t, msg, bufs, ctx);
    ToComeAppend(u.mem, t.pending, p);
    FramesOfAllAppend(log.msgs, msg);
    ConcatAssoc(log.stream, ToCome(u.mem, t.pending), FramesOf(msg));
    ConcatAssoc(t.done + t.ctxs, CtxsToCome(t.pending), [ctx]);
  }

  lemma FreeForLength(t: Tx, msg: seq<Byte>, bufs: seq<Off>)
    requires FreeFor(t, msg, bufs)
    ensures |bufs| == |Chunks(msg)|
  {
  }

  lemma ConcatAssoc<T>(a: seq<T>, b: seq<T>, c: seq<T>)
    ensures a + (b + c) == a + b + c
  {
  }

  // ----- Appending frames to the chain -----

  lemma {:induction false} TotalOfNonEmpty(pieces: seq<seq<Byte>>)
    requires forall i :: 0 <= i < |pieces| ==> |pieces[i]| > 0
    ensures Total(pieces) >= |pieces|
  {
    if pieces != [] {
      TotalOfNonEmpty(pieces[1..]);
    }
  }

  lemma PayloadsInSplit(mem: map<Off, Cell>, bufs: seq<Off>, n: nat)
    requires forall b :: b in bufs ==> b in mem
    requires n <= |bufs|
    ensures PayloadsIn(mem, bufs)[..n] == PayloadsIn(mem, bufs[..n])
    ensures PayloadsIn(mem, bufs)[n..] == PayloadsIn(mem, bufs[n..])
  {
  }

  /** What stays queued of a message that did not fit whole is again a queued message, with the other frames to come. */
  lemma ShortenedIsOk(t: Tx)
    requires CanAppend(t) && Fitting(t) < |t.pending[0].chunks|
    ensures PendingOk(t.mem, Shortened(t)) && Shortened(t).offset > t.pending[0].offset
    ensures FramesToCome(t.mem, t.pending[0]) == FittingFrames(t) + FramesToCome(t.mem, Shortened(t))
  {
    hide Flagged, Total;
    var p, n := t.pending[0], Fitting(t);
    var pieces := PayloadsIn(t.mem, p.chunks);
    PayloadsInSplit(t.mem, p.chunks, n);
    FlaggedSplit(pieces, p.len, p.len - p.offset, n);
    TotalSplit(pieces, n);
    TotalOfNonEmpty(pieces[..n]);
    TotalOfNonEmpty(pieces[n..]);
    FlaggedLength(pieces[..n], p.len, p.len - p.offset);
  }

  /** Of the frames that fit, only the first can begin a message, and does so when the message is fresh. */
  lemma FittingFlags(t: Tx)
    requires CanAppend(t)
    ensures Payloads(FittingFrames(t)) == PayloadsIn(t.mem, t.pending[0].chunks[..Fitting(t)])
    ensures forall i :: 0 <= i < Fitting(t) ==> (FittingFrames(t)[i].first <==> i == 0 && t.pending[0].offset == 0)
  {
    var p, n := t.pending[0], Fitting(t);
    var pieces := PayloadsIn(t.mem, p.chunks);
    FlaggedShape(pieces, p.len, p.len - p.offset);
    var all, fs := FramesToCome(t.mem, p), FittingFrames(t);
    assert Payloads(fs) == Payloads(all)[..n];
  }

  lemma BufsByPlace(t: Tx)
    requires CanAppend(t)
    ensures var p, n := t.pending[0], Fitting(t);
      AllBufs(t) == Chain(t) + p.chunks[..n] + p.chunks[n..] + PendingBufs(t.pending[1..])
  {
    var p, n := t.pending[0], Fitting(t);
    assert p.chunks == p.chunks[..n] + p.chunks[n..];
  }

  /** The buffers being appended are in use and in no other place. */
  lemma TakenAreApart(t: Tx)
    requires Owned(t) && CanAppend(t)
    ensures var taken := t.pending[0].chunks[..Fitting(t)];
      && Distinct(taken)
      && (forall b :: b in taken ==> b in t.mem && b !in Chain(t) && b !in t.pending[0].chunks[Fitting(t)..])
      && (forall b :: b in taken ==> b !in PendingBufs(t.pending[1..]))
  {
    BufsByPlace(t);
    hide PendingOk, Distinct, AllBufs, Chain, PendingBufs;
    var p, n := t.pending[0], Fitting(t);
    SecondIsApart(Chain(t), p.chunks[..n], p.chunks[n..], PendingBufs(t.pending[1..]));
  }

  lemma SecondIsApart(a: seq<Off>, b: seq<Off>, c: seq<Off>, d: seq<Off>)
    requires Distinct(a + b + c + d)
    ensures Distinct(b)
    ensures forall x :: x in b ==> x in a + b + c + d && x !in a && x !in c && x !in d
  {
    assert a + b + c + d == a + b + (c + d);
    hide Distinct;
    DistinctPart(a, b, c + d);
    forall x | x in b
      ensures x in a + b + c + d && x !in c && x !in d
    {
      assert x in a + b && x !in c + d;
    }
  }

  lemma AppendWrites(t: Tx)
    requires Owned(t) && CanAppend(t)
    ensures var u, taken := AppendOnce(t), t.pending[0].chunks[..Fitting(t)];
      && u.mem.Keys == t.mem.Keys
      && (forall b :: b in t.mem && b !in taken ==> u.mem[b] == t.mem[b])
      && (forall i :: 0 <= i < |taken| ==> taken[i] in u.mem && u.mem[taken[i]].frame == FittingFrames(t)[i])
  {
    hide FittingFrames, Shortened, PutFrames, PendingBufs, Distinct;
    var taken := t.pending[0].chunks[..Fitting(t)];
    TakenAreApart(t);
    PutFramesPuts(t.mem, taken, FittingFrames(t));
    assert t.mem.Keys + AsSet(taken) == t.mem.Keys;
  }

  lemma InTwoParts(a: seq<Off>, b: seq<Off>, c: seq<Off>)
    ensures a + (b + c) == a + b + c
  {
  }

  lemma AppendMovesBufs(t: Tx)
    requires CanAppend(t)
    ensures AllBufs(AppendOnce(t)) == AllBufs(t)
    ensures Chain(AppendOnce(t)) == Chain(t) + t.pending[0].chunks[..Fitting(t)]
  {
    hide FittingFrames, PutFrames, PendingOk, PayloadsIn, Total;
    var u, p, n := AppendOnce(t), t.pending[0], Fitting(t);
    BufsByPlace(t);
    assert Chain(u) == Chain(t) + p.chunks[..n];
    assert PendingBufs(u.pending) == p.chunks[n..] + PendingBufs(t.pending[1..]) by {
      if n == |p.chunks| {
        assert p.chunks[n..] == [];
      } else {
        assert u.pending[0].chunks == p.chunks[n..] && u.pending[1..] == t.pending[1..];
      }
    }
    assert AllBufs(u) == Chain(u) + PendingBufs(u.pending);
    hide Chain, AppendOnce, PendingBufs, AllBufs;
    InTwoParts(Chain(u), p.chunks[n..], PendingBufs(t.pending[1..]));
  }

  lemma AppendKeepsOwned(t: Tx)
    requires Owned(t) && CanAppend(t)
    ensures Owned(AppendOnce(t))
  {
    AppendLeaves(t);
    hide AllBufs, Distinct, AppendOnce, PendingOk;
    AppendWrites(t);
    AppendMovesBufs(t);
  }

  lemma AppendLeaves(t: Tx)
    requires CanAppend(t)
    ensures var u := AppendOnce(t);
      && u == t.(mem := u.mem, unsent := u.unsent, ctxs := u.ctxs, pending := u.pending)
      && u.unsent == t.unsent + t.pending[0].chunks[..Fitting(t)]
      && u.ctxs == (if FittingFrames(t)[0].first then t.ctxs + [t.pending[0].ctx] else t.ctxs)
      && u.pending == (if Fitting(t) == |t.pending[0].chunks| then [] else [Shortened(t)]) + t.pending[1..]
  {
  }

  lemma AppendLeavesChain(t: Tx, b: Off)
    requires Owned(t) && CanAppend(t) && b in Chain(t)
    ensures b in t.mem && b in AppendOnce(t).mem && AppendOnce(t).mem[b] == t.mem[b]
  {
    hide Owned, AppendOnce, FittingFrames, Chain, PendingOk, PendingBufs, Distinct;
    ChainIsInUse(t);
    AppendWrites(t);
    TakenAreApart(t);
  }

  lemma AppendFills(t: Tx, i: nat)
    requires Owned(t) && CanAppend(t) && i < |FittingFrames(t)|
    ensures var u, d := AppendOnce(t), Chain(AppendOnce(t));
      && |d| == |Chain(t)| + |FittingFrames(t)|
      && d[|Chain(t)| + i] in u.mem && u.mem[d[|Chain(t)| + i]].frame == FittingFrames(t)[i]
  {
    var taken := t.pending[0].chunks[..Fitting(t)];
    assert |FittingFrames(t)| == |taken|;
    hide Owned, AppendOnce, FittingFrames, Chain, PendingOk, PendingBufs, Distinct;
    AppendWrites(t);
    AppendMovesBufs(t);
    assert Chain(AppendOnce(t))[|Chain(t)| + i] == taken[i];
  }

  lemma AppendLeavesAll(t: Tx)
    requires Owned(t) && CanAppend(t)
    ensures var u, c := AppendOnce(t), Chain(t);
      forall i :: 0 <= i < |c| ==> c[i] in t.mem && c[i] in u.mem && u.mem[c[i]] == t.mem[c[i]]
  {
    hide Owned, AppendOnce, Chain, CanAppend;
    var u, c := AppendOnce(t), Chain(t);
    forall i | 0 <= i < |c|
      ensures c[i] in t.mem && c[i] in u.mem && u.mem[c[i]] == t.mem[c[i]]
    {
      AppendLeavesChain(t, c[i]);
    }
  }

  lemma AppendFillsAll(t: Tx)
    requires Owned(t) && CanAppend(t) && |Chain(AppendOnce(t))| == |Chain(t)| + |FittingFrames(t)|
    ensures var u, c, d := AppendOnce(t), Chain(t), Chain(AppendOnce(t));
      forall i :: |c| <= i < |d| ==> d[i] in u.mem && u.mem[d[i]].frame == FittingFrames(t)[i - |c|]
  {
    hide Owned, AppendOnce, FittingFrames, Chain, CanAppend;
    var u, c, d := AppendOnce(t), Chain(t), Chain(AppendOnce(t));
    forall i | |c| <= i < |d|
      ensures d[i] in u.mem && u.mem[d[i]].frame == FittingFrames(t)[i - |c|]
    {
      AppendFills(t, i - |c|);
    }
  }

  /** The chain before the appended buffers is as it was, and the appended buffers hold the frames that fit. */
  lemma AppendChain(t: Tx)
    requires Owned(t) && CanAppend(t)
    ensures var u, c, d := AppendOnce(t), Chain(t), Chain(AppendOnce(t));
      && |d| == |c| + |FittingFrames(t)|
      && (forall i :: 0 <= i < |c| ==> c[i] in t.mem && c[i] in u.mem && u.mem[c[i]] == t.mem[c[i]])
      && (forall i :: |c| <= i < |d| ==> d[i] in u.mem && u.mem[d[i]].frame == FittingFrames(t)[i - |c|])
  {
    assert |FittingFrames(t)| > 0;
    hide Owned, AppendOnce, FittingFrames, Chain, CanAppend;
    AppendFills(t, 0);
    AppendLeavesAll(t);
    AppendFillsAll(t);
  }

  lemma ChainIsInUse(t: Tx)
    requires Owned(t)
    ensures forall b :: b in Chain(t) ==> b in t.mem
  {
    forall b | b in Chain(t)
      ensures b in t.mem
    {
      assert b in AllBufs(t);
    }
  }

  lemma AppendExtends(t: Tx, log: TxLog)
    requires Inv(t, log) && CanAppend(t)
    ensures Extends(t, AppendOnce(t), log, log.(stream := log.stream + FittingFrames(t)))
  {
    hide EntriesLive, Covered, OutSound, HeadOk, Wrap, Owned, AppendOnce, FittingFrames, Chain, PendingOk, PendingBufs;
    AppendLeaves(t);
    AppendChain(t);
  }

  lemma AppendKeepsInv(t: Tx, log: TxLog)
    requires Inv(t, log) && CanAppend(t)
    ensures Inv(AppendOnce(t), log.(stream := log.stream + FittingFrames(t)))
  {
    hide Inv, AppendOnce, FittingFrames, PendingOk, Extends, Owned;
    AppendExtends(t, log);
    InvGivesOwned(t, log);
    AppendKeepsOwned(t);
    ExtendsKeepsInv(t, AppendOnce(t), log, log.(stream := log.stream + FittingFrames(t)));
  }

  lemma InvGivesOwned(t: Tx, log: TxLog)
    requires Inv(t, log)
    ensures Owned(t)
  {
  }

  // ----- Appending keeps messages and contexts -----

  /** The messages behind the first are untouched. */
  lemma RestSurvives(t: Tx)
    requires Owned(t) && QueueOk(t) && CanAppend(t)
    ensures var u, rest := AppendOnce(t), t.pending[1..];
      && (forall i :: 0 <= i < |rest| ==> PendingOk(u.mem, rest[i]) && PendingOk(t.mem, rest[i]) && rest[i].offset == 0)
      && ToCome(u.mem, rest) == ToCome(t.mem, rest)
      && ToCome(t.mem, t.pending) == FramesToCome(t.mem, t.pending[0]) + ToCome(t.mem, rest)
  {
    hide AppendOnce, PendingOk, FittingFrames, FramesToCome, PendingBufs;
    var u, rest := AppendOnce(t), t.pending[1..];
    AppendWrites(t);
    TakenAreApart(t);
    QueueIsInUse(t);
    hide Owned;
    ToComeIgnoresOthers(t.mem, u.mem, rest);
  }

  lemma AppendKeepsQueue(t: Tx)
    requires Owned(t) && QueueOk(t) && CanAppend(t)
    ensures QueueOk(AppendOnce(t))
    ensures FittingFrames(t) + ToCome(AppendOnce(t).mem, AppendOnce(t).pending) == ToCome(t.mem, t.pending)
  {
    hide AppendOnce, FittingFrames, Owned, PendingOk, FramesToCome, Shortened;
    var u, rest := AppendOnce(t), t.pending[1..];
    RestSurvives(t);
    AppendLeaves(t);
    if Fitting(t) == |t.pending[0].chunks| {
      FittingIsWhole(t);
      assert u.pending == rest;
    } else {
      var q := Shortened(t);
      ShortenedIsOk(t);
      assert PendingOk(u.mem, q) && FramesToCome(u.mem, q) == FramesToCome(t.mem, q) by {
        AppendWrites(t);
        TakenAreApart(t);
        QueueIsInUse(t);
        ShortenedSurvives(t, u.mem);
      }
      assert u.pending[0] == q && u.pending[1..] == rest;
      ConcatAssoc(FittingFrames(t), FramesToCome(u.mem, q), ToCome(u.mem, rest));
    }
  }

  lemma FittingIsWhole(t: Tx)
    requires CanAppend(t) && Fitting(t) == |t.pending[0].chunks|
    ensures FittingFrames(t) == FramesToCome(t.mem, t.pending[0])
  {
    var p := t.pending[0];
    FlaggedLength(PayloadsIn(t.mem, p.chunks), p.len, p.len - p.offset);
  }

  lemma QueueIsInUse(t: Tx)
    requires Owned(t) && t.pending != []
    ensures forall b :: b in PendingBufs(t.pending[1..]) ==> b in t.mem
    ensures forall b :: b in t.pending[0].chunks ==> b in t.mem
  {
    PendingAreInUse(t);
    assert PendingBufs(t.pending) == t.pending[0].chunks + PendingBufs(t.pending[1..]);
  }

  lemma ShortenedSurvives(t: Tx, mem: map<Off, Cell>)
    requires CanAppend(t) && Fitting(t) < |t.pending[0].chunks|
    requires forall b :: b in t.pending[0].chunks[Fitting(t)..] ==> b in mem && b in t.mem && mem[b] == t.mem[b]
    requires PendingOk(t.mem, Shortened(t))
    ensures PendingOk(mem, Shortened(t)) && FramesToCome(mem, Shortened(t)) == FramesToCome(t.mem, Shortened(t))
  {
    var q := Shortened(t);
    assert PayloadsIn(mem, q.chunks) == PayloadsIn(t.mem, q.chunks);
  }

  lemma FlagsOfFitting(t: Tx)
    requires CanAppend(t)
    ensures CountFlags(FittingFrames(t), false) == if t.pending[0].offset == 0 then 1 else 0
    ensures FittingFrames(t)[0].first <==> t.pending[0].offset == 0
  {
    FittingFlags(t);
    var fs := FittingFrames(t);
    hide FittingFrames;
    CountNoFlags(fs[1..], false);
  }

  /** A message's context leaves the queue with its first buffer. */
  lemma AppendTakesContext(t: Tx)
    requires CanAppend(t)
    ensures CtxsToCome(t.pending)
         == (if t.pending[0].offset == 0 then [t.pending[0].ctx] else []) + CtxsToCome(AppendOnce(t).pending)
  {
    hide AppendOnce, FittingFrames, PendingOk, Shortened;
    AppendLeaves(t);
    var u, rest := AppendOnce(t), t.pending[1..];
    if Fitting(t) == |t.pending[0].chunks| {
      assert u.pending == rest;
    } else {
      ShortenedIsOk(t);
      assert u.pending[0] == Shortened(t) && u.pending[1..] == rest;
      assert CtxsToCome(u.pending) == CtxsToCome(rest);
    }
  }

  lemma AppendKeepsContexts(t: Tx, log: TxLog)
    requires ContextsOk(t, log) && CanAppend(t)
    ensures ContextsOk(AppendOnce(t), log.(stream := log.stream + FittingFrames(t)))
  {
    hide AppendOnce, FittingFrames, PendingOk, CountFlags, CtxsToCome;
    AppendTakesContext(t);
    FlagsOfFitting(t);
    AppendLeaves(t);
    CountFlagsConcat(log.stream, FittingFrames(t), false);
    assert (log.stream + FittingFrames(t))[..log.una] == log.stream[..log.una];
    var p, rest := t.pending[0], CtxsToCome(AppendOnce(t).pending);
    ConcatAssoc(t.done, t.ctxs, [p.ctx]);
    ConcatAssoc(t.done + t.ctxs, [p.ctx], rest);
    assert [] + rest == rest;
  }

  lemma AppendKeepsMsgInv(t: Tx, log: TxLog)
    requires Owned(t) && MsgInv(t, log) && CanAppend(t)
    ensures MsgInv(AppendOnce(t), log.(stream := log.stream + FittingFrames(t)))
  {
    hide Owned, AppendOnce, FittingFrames, ContextsOk, PendingOk;
    AppendKeepsQueue(t);
    AppendKeepsContexts(t, log);
    ConcatAssoc(log.stream, FittingFrames(t), ToCome(AppendOnce(t).mem, AppendOnce(t).pending));
  }
}
