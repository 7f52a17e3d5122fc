/** The steps of the sending half that move packets along: sending new ones and accepting acknowledgements. */
module SenderProgress {
  import opened SerialNumbers
  import opened Messages
  import opened Packets
  import opened Sender
  import opened SenderInvariants
  import PathAccounting

  // ----- Timer tick -----

  /** The counter the give-up test reads is 16 bits wide and the limit is not: the flow is never given up. */
  lemma NeverGivesUp(t: Tx)
    ensures !GivesUp(t)
  {
  }

  lemma TickOnlyKeepsInv(t: Tx, log: TxLog, tick: nat)
    requires Inv(t, log) && tick < RTO_SLOTS
    ensures Inv(t.(tick := tick), log)
    ensures PathsFollow(t, t.(tick := tick), log)
  {
    var u := t.(tick := tick);
    assert AllBufs(u) == AllBufs(t) && Chain(u) == Chain(t);
    assert EntriesLive(u) by {
      forall j, k | 0 <= j < RTO_SLOTS && 0 <= k < |u.wheels[j]|
        ensures Live(u, u.wheels[j][k])
      {
        assert Live(t, t.wheels[j][k]);
      }
    }
    assert Covered(u) by {
      forall i | 0 <= i < |u.unacked|
        ensures CoveredAt(u, i)
      {
        assert CoveredAt(t, i);
        EntriesSurviveGrowth(t, u, Wrap(t.una + i));
      }
    }
    assert OutSound(u, log) by {
      forall i | 0 <= i < |u.out|
        ensures Sound(u, log, u.out[i])
      {
        assert Sound(t, log, t.out[i]);
      }
    }
    NothingSent(t, log);
    SamePathsFollow(t, t, u, log);
  }

  /** A tick sends again exactly the packets in flight that are due, and leaves the slot it drained empty. */
  lemma PeriodicCheckKeeps(t: Tx, log: TxLog, env: Env)
    requires Inv(t, log)
    ensures var v := t.(tick := (t.tick + 1) % RTO_SLOTS);
      var u := PeriodicCheck(t, env);
      && Inv(u, log) && SameButDue(v, u) && PathsFollow(t, u, log)
      && u.out == t.out + DuePackets(t, log, t.wheels[v.tick])
      && u.wheels[u.tick] == []
  {
    hide Inv, PathsFollow, Drain, SameButDue;
    NeverGivesUp(t);
    var v := t.(tick := (t.tick + 1) % RTO_SLOTS);
    TickOnlyKeepsInv(t, log, v.tick);
    DrainKeeps(v, log, 0, env);
    var u := PeriodicCheck(t, env);
    SameButDueFacts(v, u);
    PathsFollowTrans(t, v, u, log);
    DuePacketsOfSameChain(t, v, log, t.wheels[v.tick]);
  }

  // ----- Sending a new packet -----

  /** `u` is `t` after the oldest unsent buffer went out under the next number. */
  ghost predicate SentNew(t: Tx, u: Tx)
    requires t.unsent != [] && t.unsent[0] in t.mem
  {
    var buf, r := t.unsent[0], ReadySlot(t.tick);
    && u.unacked == t.unacked + [buf] && u.unsent == t.unsent[1..] && u.hasHead
    && u.nxt == Wrap(t.nxt + 1) && u.una == t.una && u.tick == t.tick
    && u.pending == t.pending && u.pool == t.pool && u.ctxs == t.ctxs && u.done == t.done
    && u.mem == t.mem[buf := t.mem[buf].(seqno := t.nxt)]
    && u.wheels == t.wheels[r := t.wheels[r] + [Ent(buf, t.nxt)]]
    && u.out == t.out + [Data(t.nxt, t.mem[buf].frame)]
  }

  lemma TransmitOneSends(t: Tx, path: PathId)
    requires t.unsent != [] && t.unsent[0] in t.mem
    ensures SentNew(t, TransmitOne(t, path))
  {
  }

  lemma ChainAfterSend(t: Tx, u: Tx)
    requires t.unsent != [] && t.unsent[0] in t.mem && SentNew(t, u)
    ensures Chain(u) == Chain(t) && Chain(t)[|t.unacked|] == t.unsent[0]
  {
  }

  lemma SentNewKeepsOwned(t: Tx, u: Tx)
    requires Owned(t) && t.unsent != [] && t.unsent[0] in t.mem && SentNew(t, u)
    ensures Owned(u)
  {
    ChainAfterSend(t, u);
    assert AllBufs(u) == AllBufs(t);
    assert u.mem.Keys == t.mem.Keys;
  }

  lemma SentNewKeepsContents(t: Tx, u: Tx, log: TxLog)
    requires Inv(t, log) && t.unsent != [] && t.unsent[0] in t.mem && SentNew(t, u)
    ensures Contents(u, log)
  {
    hide Owned, EntriesLive, Covered, OutSound, HeadOk, Wrap;
    InvGivesTracked(t, log);
    ChainAfterSend(t, u);
    var c, d := Chain(t), |t.unacked|;
    forall i | 0 <= i < |c|
      ensures c[i] in u.mem && u.mem[c[i]].frame == log.stream[log.una + i]
      ensures i < |u.unacked| ==> u.mem[c[i]].seqno == Wrap(log.una + i)
    {
      assert i != d ==> c[i] != c[d];
    }
  }

  lemma SentNewKeepsWheel(t: Tx, u: Tx, log: TxLog)
    requires Inv(t, log) && t.unsent != [] && t.unsent[0] in t.mem && SentNew(t, u)
    ensures EntriesLive(u) && Covered(u)
  {
    hide Owned, Contents, OutSound, HeadOk;
    InvGivesTracked(t, log);
    var r, d := ReadySlot(t.tick), |t.unacked|;
    WrapOfNext(log, t, d);
    forall j, k | 0 <= j < RTO_SLOTS && 0 <= k < |u.wheels[j]|
      ensures Live(u, u.wheels[j][k])
    {
      if k < |t.wheels[j]| {
        assert Live(t, t.wheels[j][k]);
      }
    }
    forall i | 0 <= i < |u.unacked|
      ensures CoveredAt(u, i)
    {
      if i < d {
        assert CoveredAt(t, i);
        EntriesSurviveGrowth(t, u, Wrap(t.una + i));
      } else {
        assert u.wheels[r][|t.wheels[r]|].seqno == Wrap(t.una + i);
      }
    }
  }

  lemma SentNewKeepsOut(t: Tx, u: Tx, log: TxLog)
    requires Inv(t, log) && t.unsent != [] && t.unsent[0] in t.mem && SentNew(t, u)
    ensures OutSound(u, log)
  {
    hide Owned, EntriesLive, Covered;
    InvGivesTracked(t, log);
    ChainAfterSend(t, u);
    forall i | 0 <= i < |u.out|
      ensures Sound(u, log, u.out[i])
    {
      assert i < |t.out| ==> Sound(t, log, t.out[i]);
    }
  }

  lemma FirstUnsent(t: Tx, log: TxLog)
    requires Inv(t, log) && t.unsent != []
    ensures t.unsent[0] in t.mem
    ensures Nxt(t, log) < |log.stream| && t.mem[t.unsent[0]].frame == log.stream[Nxt(t, log)]
    ensures t.nxt == Wrap(Nxt(t, log))
  {
    assert Chain(t)[|t.unacked|] == t.unsent[0];
  }

  /** A new packet carries the next frame of the stream. */
  lemma TransmitOneKeeps(t: Tx, log: TxLog, path: PathId)
    requires Inv(t, log) && t.unsent != []
    ensures t.unsent[0] in t.mem && Nxt(t, log) < |log.stream|
    ensures var u := TransmitOne(t, path);
      && Inv(u, log) && SentNew(t, u)
      && u.out == t.out + [Data(Wrap(Nxt(t, log)), log.stream[Nxt(t, log)])]
  {
    hide Owned, Contents, EntriesLive, Covered, OutSound, TransmitOne;
    FirstUnsent(t, log);
    var u := TransmitOne(t, path);
    TransmitOneSends(t, path);
    SentNewKeepsOwned(t, u);
    SentNewKeepsContents(t, u, log);
    SentNewKeepsWheel(t, u, log);
    SentNewKeepsOut(t, u, log);
    WrapAdd(Nxt(t, log), 1);
  }

  /** Within the ring, and on a path its window admits, the counters stay exact and paid for. */
  lemma TransmitOneKeepsPaths(t: Tx, log: TxLog, path: PathId)
    requires t.unsent != [] && t.unsent[0] in t.mem && t.nxt == Wrap(Nxt(t, log))
    requires PathsOk(t, log) && |t.unacked| < PATH_HISTORY && Admits(t, path)
    ensures PathsOk(TransmitOne(t, path), log)
  {
    var u := TransmitOne(t, path);
    assert u.paths == PathAccounting.Sent(t.paths, t.nxt, path) && |u.unacked| == |t.unacked| + 1;
    assert t.windows[path].cwnd <= PLATFORM.maxUnackedPp as real;
    hide PathAccounting.Exact, PathAccounting.Paid, PathAccounting.Sent, TransmitOne;
    PathAccounting.SendToFreeSlot(t.paths, log.una, Nxt(t, log), path);
    PathAccounting.SendKeepsPaid(t.paths, log.una, Nxt(t, log), path);
  }

  /** On a path its window admits, the tallies stay right as long as no counter can have wrapped around. */
  lemma TransmitOneKeepsTally(t: Tx, log: TxLog, path: PathId)
    requires t.unsent != [] && t.unsent[0] in t.mem && t.nxt == Wrap(Nxt(t, log))
    requires TallyOk(t, log) && PathAccounting.FewMoves(t.paths) && Admits(t, path)
    ensures TallyOk(TransmitOne(t, path), log)
  {
    var u := TransmitOne(t, path);
    assert u.paths == PathAccounting.Sent(t.paths, t.nxt, path) && |u.unacked| == |t.unacked| + 1;
    assert t.windows[path].cwnd <= PLATFORM.maxUnackedPp as real;
    hide PathAccounting.Tallied, PathAccounting.Sent, TransmitOne;
    PathAccounting.SendKeepsTallied(t.paths, t.nxt, path, log.una, Nxt(t, log));
  }

  // ----- Accepting an acknowledgement -----

  function Prefix(bufs: seq<Off>, k: nat): set<Off>
    requires k <= |bufs|
  {
    set i | 0 <= i < k :: bufs[i]
  }

  lemma PrefixStep(bufs: seq<Off>, k: nat)
    requires 0 < k <= |bufs|
    ensures Prefix(bufs, k) == {bufs[0]} + Prefix(bufs[1..], k - 1)
  {
    forall b | b in Prefix(bufs, k)
      ensures b in {bufs[0]} + Prefix(bufs[1..], k - 1)
    {
      var i :| 0 <= i < k && bufs[i] == b;
      assert i > 0 ==> bufs[1..][i - 1] == b;
    }
    forall b | b in Prefix(bufs[1..], k - 1)
      ensures b in Prefix(bufs, k)
    {
      var i :| 0 <= i < k - 1 && bufs[1..][i] == b;
      assert bufs[i + 1] == b;
    }
    assert bufs[0] in Prefix(bufs, k);
  }

  /** Acknowledging `k` packets releases the `k` oldest buffers and nothing else. */
  lemma {:induction false} ReceiveAcksReleases(t: Tx, k: nat)
    requires k <= |t.unacked| && Tracked(t)
    ensures var u := ReceiveAcks(t, k);
      && u.unacked == t.unacked[k..]
      && u.mem == t.mem - Prefix(t.unacked, k)
      && u.pool == t.pool + Prefix(t.unacked, k)
      && u.hasHead == (if k == 0 then t.hasHead else |Chain(t)| > k)
      && u == t.(unacked := u.unacked, mem := u.mem, pool := u.pool, hasHead := u.hasHead, ctxs := u.ctxs,
                 done := u.done)
    decreases k
  {
    hide Tracked;
    if k == 0 {
      assert Prefix(t.unacked, 0) == {};
    } else {
      AckOneKeepsTracked(t);
      ReceiveAcksReleases(AckOne(t), k - 1);
      PrefixStep(t.unacked, k);
      MinusTwice(t.mem, {t.unacked[0]}, Prefix(t.unacked[1..], k - 1));
      assert t.unacked[1..][k - 1..] == t.unacked[k..];
    }
  }

  lemma MinusTwice(m: map<Off, Cell>, a: set<Off>, b: set<Off>)
    ensures (m - a) - b == m - (a + b)
  {
  }

  /** Every acknowledged packet comes off the counter of its path, so exact counters stay exact. */
  lemma {:induction false} SettlePathsKeepsExact(p: PathAccounting.Paths, w: Windows, una: int, nxt: int, i: nat, k: nat,
                                                 last: Option<PathId>, accumulated: nat, env: Env)
    requires i <= k && PathAccounting.Exact(p, una + i, nxt) && una + k <= nxt <= una + i + PATH_HISTORY
    requires PathAccounting.Paid(p, una + i, nxt)
    ensures var q := SettlePaths(p, w, Wrap(una), i, k, last, accumulated, env).0;
      PathAccounting.Exact(q, una + k, nxt) && PathAccounting.Paid(q, una + k, nxt)
    decreases k - i
  {
    hide PathAccounting.Paid, PathAccounting.CountOn, PathAccounting.Acked, GrowWindow;
    if i < k {
      hide PathAccounting.Exact;
      var seqno: U32 := (Wrap(una) + i) % TWO32;
      WrapAdd(una, i);
      PathAccounting.AckKeepsExact(p, una + i, nxt);
      PathAccounting.AckKeepsPaid(p, una + i, nxt);
      var path := PathAccounting.PathOf(p, seqno);
      var switch := last.Some? && last.value != path;
      var w1 := if switch then GrowWindow(w, last.value, accumulated, env.samples(i)) else w;
      SettlePathsKeepsExact(PathAccounting.Acked(p, seqno), w1, una, nxt, i + 1, k, Some(path),
                            (if switch then 0 else accumulated) + 1, env);
    }
  }

  /** The same for the tallies, however many packets are in flight. */
  lemma {:induction false} SettlePathsKeepsTallied(p: PathAccounting.Paths, w: Windows, una: int, nxt: int, i: nat, k: nat,
                                                   last: Option<PathId>, accumulated: nat, env: Env)
    requires i <= k && PathAccounting.Tallied(p, una + i, nxt)
    ensures var q := SettlePaths(p, w, Wrap(una), i, k, last, accumulated, env).0;
      PathAccounting.Tallied(q, una + k, nxt)
    decreases k - i
  {
    hide PathAccounting.Tallied, GrowWindow;
    if i < k {
      var seqno: U32 := (Wrap(una) + i) % TWO32;
      PathAccounting.AckKeepsTallied(p, seqno, una + i, nxt);
      hide PathAccounting.Acked;
      var path := PathAccounting.PathOf(p, seqno);
      var switch := last.Some? && last.value != path;
      var w1 := if switch then GrowWindow(w, last.value, accumulated, env.samples(i)) else w;
      SettlePathsKeepsTallied(PathAccounting.Acked(p, seqno), w1, una, nxt, i + 1, k, Some(path),
                              (if switch then 0 else accumulated) + 1, env);
    }
  }

  lemma {:induction false} SettlePathsKeepsMoves(p: PathAccounting.Paths, w: Windows, una: U32, i: nat, k: nat,
                                                 last: Option<PathId>, accumulated: nat, env: Env)
    requires i <= k
    ensures SettlePaths(p, w, una, i, k, last, accumulated, env).0.moves == p.moves
    decreases k - i
  {
    hide GrowWindow;
    if i < k {
      var seqno: U32 := (una + i) % TWO32;
      assert PathAccounting.Acked(p, seqno).moves == p.moves;
      hide PathAccounting.Acked;
      var path := PathAccounting.PathOf(p, seqno);
      var switch := last.Some? && last.value != path;
      var w1 := if switch then GrowWindow(w, last.value, accumulated, env.samples(i)) else w;
      SettlePathsKeepsMoves(PathAccounting.Acked(p, seqno), w1, una, i + 1, k, Some(path),
                            (if switch then 0 else accumulated) + 1, env);
    }
  }

  /** `u` is `t` after `k` packets were acknowledged. */
  ghost predicate Acknowledged(t: Tx, u: Tx, log: TxLog, k: nat)
    requires k <= |t.unacked|
  {
    && u.unacked == t.unacked[k..] && u.unsent == t.unsent && u.pending == t.pending
    && u.mem == t.mem - Prefix(t.unacked, k) && u.pool == t.pool + Prefix(t.unacked, k)
    && u.hasHead == (if k == 0 then t.hasHead else |Chain(t)| > k)
    && u.una == Wrap(log.una + k) && u.nxt == t.nxt && u.tick == t.tick && u.wheels == t.wheels && u.out == t.out
  }

  lemma AcceptAckReleases(t: Tx, log: TxLog, k: nat, env: Env)
    requires Inv(t, log) && k <= |t.unacked|
    ensures Tracked(t)
    ensures Acknowledged(t, AcceptAck(t, Wrap(log.una + k), k, env), log, k)
    ensures AcceptAck(t, Wrap(log.una + k), k, env).ctxs == ReceiveAcks(t, k).ctxs
    ensures AcceptAck(t, Wrap(log.una + k), k, env).done == ReceiveAcks(t, k).done
  {
    hide Inv, ReceiveAcks, SettlePaths, Tracked, Prefix;
    InvGivesTracked(t, log);
    ReceiveAcksReleases(t, k);
  }

  lemma InvGivesNumbers(t: Tx, log: TxLog)
    requires Inv(t, log)
    ensures t.una == Wrap(log.una) && t.nxt == Wrap(Nxt(t, log)) && |t.unacked| <= NUM_FRAMES < TWO31
  {
    InFlightFitsPool(t);
  }

  lemma AcceptAckKeepsPaths(t: Tx, log: TxLog, k: nat, env: Env)
    requires Inv(t, log) && k <= |t.unacked| <= PATH_HISTORY && PathsOk(t, log)
    ensures Tracked(t)
    ensures PathsOk(AcceptAck(t, Wrap(log.una + k), k, env), log.(una := log.una + k))
  {
    hide Inv, ReceiveAcks, SettlePaths, Tracked, Prefix, PathAccounting.Exact, PathAccounting.Paid;
    InvGivesTracked(t, log);
    InvGivesNumbers(t, log);
    ReceiveAcksReleases(t, k);
    SettlePathsKeepsExact(t.paths, t.windows, log.una, Nxt(t, log), 0, k, None, 0, env);
  }

  lemma AcceptAckKeepsTally(t: Tx, log: TxLog, k: nat, env: Env)
    requires Inv(t, log) && k <= |t.unacked| && TallyOk(t, log)
    ensures Tracked(t)
    ensures TallyOk(AcceptAck(t, Wrap(log.una + k), k, env), log.(una := log.una + k))
  {
    hide Inv, ReceiveAcks, SettlePaths, Tracked, Prefix, PathAccounting.Tallied;
    InvGivesTracked(t, log);
    InvGivesNumbers(t, log);
    ReceiveAcksReleases(t, k);
    SettlePathsKeepsTallied(t.paths, t.windows, log.una, Nxt(t, log), 0, k, None, 0, env);
  }

  /** No wheel entry is so old that the new oldest number leaves it more than half the number space behind. */
  ghost predicate EntriesFresh(t: Tx, k: nat) {
    forall j, i :: 0 <= j < RTO_SLOTS && 0 <= i < |t.wheels[j]| ==> Diff(t.wheels[j][i].seqno, t.una) - k >= -TWO31
  }

  /** Taking the first `k` of distinct buffers out of the set of them leaves the set of the others. */
  lemma DropPrefix(bufs: seq<Off>, k: nat)
    requires Distinct(bufs) && k <= |bufs|
    ensures Distinct(bufs[k..])
    ensures forall b :: b in bufs[k..] <==> b in bufs && b !in Prefix(bufs, k)
    ensures forall b :: b in Prefix(bufs, k) ==> b in bufs
  {
    var rest := bufs[k..];
    assert bufs == bufs[..k] + rest;
    forall b
      ensures b in rest <==> b in bufs && b !in Prefix(bufs, k)
    {
      if b in rest {
        var i :| 0 <= i < |rest| && rest[i] == b;
        assert bufs[i + k] == b;
      }
    }
  }

  lemma MoveToPool(pool: set<Off>, mem: map<Off, Cell>, s: set<Off>)
    requires pool !! mem.Keys && s <= mem.Keys
    ensures pool + s !! (mem - s).Keys
    ensures |pool + s| + |(mem - s).Keys| == |pool| + |mem.Keys|
  {
    assert (mem - s).Keys == mem.Keys - s;
    assert |mem.Keys - s| == |mem.Keys| - |s|;
    assert |pool + s| == |pool| + |s|;
  }

  lemma AcknowledgedKeepsOwned(t: Tx, u: Tx, log: TxLog, k: nat)
    requires Owned(t) && k <= |t.unacked| && Acknowledged(t, u, log, k)
    ensures Owned(u)
  {
    hide Distinct, Prefix, AllBufs;
    BufsAfterAck(t, u, log, k);
    DropPrefix(AllBufs(t), k);
    MoveToPool(t.pool, t.mem, Prefix(t.unacked, k));
  }

  lemma BufsAfterAck(t: Tx, u: Tx, log: TxLog, k: nat)
    requires k <= |t.unacked| && Acknowledged(t, u, log, k)
    ensures k <= |AllBufs(t)| && AllBufs(u) == AllBufs(t)[k..]
    ensures Prefix(AllBufs(t), k) == Prefix(t.unacked, k)
  {
    assert forall i :: 0 <= i < k ==> AllBufs(t)[i] == t.unacked[i];
  }

  lemma AcknowledgedKeepsContents(t: Tx, u: Tx, log: TxLog, k: nat)
    requires Inv(t, log) && k <= |t.unacked| && Acknowledged(t, u, log, k)
    ensures Contents(u, log.(una := log.una + k))
  {
    hide Owned, EntriesLive, Covered, OutSound, HeadOk, Wrap;
    InvGivesTracked(t, log);
    var c, d := Chain(t), Chain(u);
    assert d == c[k..];
    forall i | 0 <= i < |d|
      ensures d[i] in u.mem && u.mem[d[i]].frame == log.stream[log.una + k + i]
      ensures i < |u.unacked| ==> u.mem[d[i]].seqno == Wrap(log.una + k + i)
    {
      assert d[i] == c[i + k];
      forall j | 0 <= j < k
        ensures t.unacked[j] != d[i]
      {
        assert c[j] == t.unacked[j] && c[j] != c[i + k];
      }
    }
  }

  lemma SubAfterAck(e: U32, log: TxLog, k: nat, n: nat)
    requires k <= n < TWO31
    requires Diff(e, Wrap(log.una)) - k >= -TWO31
    requires SeqGe(e, Wrap(log.una + k))
    requires SeqGe(e, Wrap(log.una)) ==> Sub(e, Wrap(log.una)) < n
    ensures SeqGe(e, Wrap(log.una)) && Sub(e, Wrap(log.una + k)) == Sub(e, Wrap(log.una)) - k
  {
    SubIsCyclic(e, Wrap(log.una));
    SubIsCyclic(e, Wrap(log.una + k));
    WrapAdd(log.una, k);
  }

  /** An entry of the wheel still names the packet it was made for, or none in flight. */
  lemma AcknowledgedKeepsLive(t: Tx, u: Tx, log: TxLog, k: nat, e: Ent)
    requires t.una == Wrap(log.una) && u.una == Wrap(log.una + k)
    requires k <= |t.unacked| < TWO31 && u.unacked == t.unacked[k..]
    requires Live(t, e) && Diff(e.seqno, t.una) - k >= -TWO31
    ensures Live(u, e)
  {
    if SeqGe(e.seqno, u.una) {
      SubAfterAck(e.seqno, log, k, |t.unacked|);
    }
  }

  lemma AcknowledgedKeepsLives(t: Tx, u: Tx, log: TxLog, k: nat)
    requires Inv(t, log) && k <= |t.unacked| && Acknowledged(t, u, log, k) && EntriesFresh(t, k)
    ensures EntriesLive(u)
  {
    hide Owned, Contents, OutSound, HeadOk, Covered, Live, Wrap, Prefix, Chain, Diff;
    InvGivesNumbers(t, log);
    forall j, i | 0 <= j < RTO_SLOTS && 0 <= i < |u.wheels[j]|
      ensures Live(u, u.wheels[j][i])
    {
      assert Live(t, t.wheels[j][i]);
      AcknowledgedKeepsLive(t, u, log, k, t.wheels[j][i]);
    }
  }

  lemma AcknowledgedKeepsCovered(t: Tx, u: Tx, log: TxLog, k: nat)
    requires Inv(t, log) && k <= |t.unacked| && Acknowledged(t, u, log, k)
    ensures Covered(u)
  {
    hide Owned, Contents, OutSound, HeadOk, EntriesLive, HasEntry, Prefix, Chain;
    forall i | 0 <= i < |u.unacked|
      ensures CoveredAt(u, i)
    {
      assert CoveredAt(t, i + k);
      WrapAdd(log.una, i + k);
      WrapAdd(log.una + k, i);
      EntriesSurviveGrowth(t, u, Wrap(t.una + i + k));
    }
  }

  /** Accepting an acknowledgement advances the oldest number and keeps the invariant. */
  lemma AcceptAckKeeps(t: Tx, log: TxLog, k: nat, env: Env)
    requires Inv(t, log) && k <= |t.unacked| && EntriesFresh(t, k) && t.out == []
    ensures Tracked(t)
    ensures var u := AcceptAck(t, Wrap(log.una + k), k, env);
      Inv(u, log.(una := log.una + k)) && Acknowledged(t, u, log, k)
  {
    hide AcceptAck, Inv, EntriesFresh, Tracked, Acknowledged;
    AcceptAckReleases(t, log, k, env);
    AcknowledgedKeepsInv(t, AcceptAck(t, Wrap(log.una + k), k, env), log, k);
  }

  lemma AcknowledgedKeepsInv(t: Tx, u: Tx, log: TxLog, k: nat)
    requires Inv(t, log) && k <= |t.unacked| && EntriesFresh(t, k) && t.out == [] && Acknowledged(t, u, log, k)
    ensures Inv(u, log.(una := log.una + k))
  {
    AcknowledgedKeepsRest(t, u, log, k);
    hide Owned, Contents, EntriesLive, Covered, EntriesFresh, Prefix, Numbered, HeadOk, Wrap;
    AcknowledgedKeepsOwned(t, u, log, k);
    AcknowledgedKeepsContents(t, u, log, k);
    AcknowledgedKeepsLives(t, u, log, k);
    AcknowledgedKeepsCovered(t, u, log, k);
  }

  /** The numbers, and whether there is a head of the chain. */
  lemma AcknowledgedKeepsRest(t: Tx, u: Tx, log: TxLog, k: nat)
    requires Inv(t, log) && k <= |t.unacked| && t.out == [] && Acknowledged(t, u, log, k)
    ensures Numbered(u, log.(una := log.una + k)) && HeadOk(u) && OutSound(u, log.(una := log.una + k))
  {
    hide Owned, Contents, EntriesLive, Covered, Prefix;
    assert |Chain(u)| == |Chain(t)| - k;
  }
}
