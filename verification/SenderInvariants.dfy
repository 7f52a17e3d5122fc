/**
 * What every step of the sending half keeps. The state is related to a log of the run: the unbounded number of the
 * oldest packet in flight, the frames handed to the transmit chain so far, the messages submitted and their contexts.
 */
module SenderInvariants {
  import opened SerialNumbers
  import opened Messages
  import opened SackBitmap
  import opened Packets
  import opened Sender
  import PathAccounting

  datatype TxLog = TxLog(una: nat, stream: seq<Frame>, msgs: seq<seq<Byte>>, asked: seq<Ctx>)

  function Nxt(t: Tx, log: TxLog): nat {
    log.una + |t.unacked|
  }

  function PendingBufs(ps: seq<Pending>): seq<Off> {
    if ps == [] then [] else ps[0].chunks + PendingBufs(ps[1..])
  }

  /** Every buffer in use is in exactly one place: in flight, unsent, or in a queued message. */
  function AllBufs(t: Tx): seq<Off> {
    Chain(t) + PendingBufs(t.pending)
  }

  ghost predicate Owned(t: Tx) {
    && Distinct(AllBufs(t))
    && (forall b :: b in t.mem <==> b in AllBufs(t))
    && t.pool !! t.mem.Keys
    && |t.pool| + |t.mem.Keys| <= NUM_FRAMES
  }

  ghost predicate Numbered(t: Tx, log: TxLog) {
    t.una == Wrap(log.una) && t.nxt == Wrap(Nxt(t, log))
  }

  /** The chain holds the stream from the oldest packet in flight on, and what was sent carries its own number. */
  ghost predicate Contents(t: Tx, log: TxLog) {
    && |log.stream| == log.una + |Chain(t)|
    && (forall i :: 0 <= i < |Chain(t)| ==> Chain(t)[i] in t.mem && t.mem[Chain(t)[i]].frame == log.stream[log.una + i])
    && (forall i :: 0 <= i < |t.unacked| ==> t.mem[Chain(t)[i]].seqno == Wrap(log.una + i))
  }

  ghost predicate HeadOk(t: Tx) {
    && (t.unacked != [] ==> t.hasHead)
    && (t.hasHead ==> Chain(t) != [])
  }

  /** An entry that passes the timer's test names the buffer in flight under its number. */
  ghost predicate Live(t: Tx, e: Ent) {
    SeqGe(e.seqno, t.una) ==> Sub(e.seqno, t.una) < |t.unacked| && t.unacked[Sub(e.seqno, t.una)] == e.buf
  }

  ghost predicate HasEntry(t: Tx, seqno: U32) {
    exists j, k :: 0 <= j < RTO_SLOTS && 0 <= k < |t.wheels[j]| && t.wheels[j][k].seqno == seqno
  }

  ghost predicate EntriesLive(t: Tx) {
    forall j, k :: 0 <= j < RTO_SLOTS && 0 <= k < |t.wheels[j]| ==> Live(t, t.wheels[j][k])
  }

  /** Every packet in flight has an entry on the wheel. */
  ghost predicate Covered(t: Tx) {
    forall i :: 0 <= i < |t.unacked| ==> CoveredAt(t, i)
  }

  ghost predicate CoveredAt(t: Tx, i: nat) {
    HasEntry(t, Wrap(t.una + i))
  }

  /** A packet on its way carries the frame of a number in flight. */
  ghost predicate Sound(t: Tx, log: TxLog, p: Packet) {
    && p.Data?
    && Sub(p.seqno, t.una) < |t.unacked|
    && log.una + |t.unacked| <= |log.stream|
    && p.frame == log.stream[log.una + Sub(p.seqno, t.una)]
  }

  ghost predicate OutSound(t: Tx, log: TxLog) {
    forall i :: 0 <= i < |t.out| ==> Sound(t, log, t.out[i])
  }

  /** The part of the invariant that concerns buffers, numbers and the wheel. */
  ghost predicate Inv(t: Tx, log: TxLog) {
    && Owned(t)
    && Numbered(t, log)
    && Contents(t, log)
    && HeadOk(t)
    && EntriesLive(t)
    && Covered(t)
    && OutSound(t, log)
  }

  // ----- Consequences -----

  lemma {:induction false} DistinctFitsIn(bufs: seq<Off>, s: set<Off>)
    requires Distinct(bufs) && forall b :: b in bufs ==> b in s
    ensures |bufs| <= |s|
  {
    if bufs != [] {
      var rest := bufs[1..];
      assert forall i :: 0 <= i < |rest| ==> rest[i] == bufs[i + 1];
      DistinctFitsIn(rest, s - {bufs[0]});
      assert bufs[0] in s;
    }
  }

  /** The buffer pool bounds what can be in flight, far below half the number space. */
  lemma InFlightFitsPool(t: Tx)
    requires Owned(t)
    ensures |AllBufs(t)| <= NUM_FRAMES
    ensures |t.unacked| <= NUM_FRAMES < TWO31
  {
    DistinctFitsIn(AllBufs(t), t.mem.Keys);
  }

  lemma InvGivesTracked(t: Tx, log: TxLog)
    requires Inv(t, log)
    ensures Tracked(t) && Counted(t)
  {
    InFlightFitsPool(t);
    SubWrap(Nxt(t, log), log.una);
    var c, a := Chain(t), AllBufs(t);
    assert c == a[..|c|];
  }

  // ----- Sending a packet in flight again -----

  /** `u` is `t` after the packet `d` places into the flight went out again. */
  ghost predicate SentAgain(t: Tx, u: Tx, log: TxLog, d: nat)
    requires d < |t.unacked| && log.una + d < |log.stream|
  {
    var seqno, r := Wrap(log.una + d), ReadySlot(t.tick);
    && u.pending == t.pending && u.unacked == t.unacked && u.unsent == t.unsent && u.hasHead == t.hasHead
    && u.pool == t.pool && u.ctxs == t.ctxs && u.done == t.done
    && u.una == t.una && u.nxt == t.nxt && u.tick == t.tick
    && t.unacked[d] in t.mem
    && u.mem == t.mem[t.unacked[d] := t.mem[t.unacked[d]].(seqno := seqno)]
    && u.wheels == t.wheels[r := t.wheels[r] + [Ent(t.unacked[d], seqno)]]
    && u.out == t.out + [Data(seqno, log.stream[log.una + d])]
  }

  lemma SentAgainKeepsOwned(t: Tx, u: Tx, log: TxLog, d: nat)
    requires Inv(t, log) && d < |t.unacked| && SentAgain(t, u, log, d)
    ensures Owned(u)
  {
    assert AllBufs(u) == AllBufs(t);
    assert u.mem.Keys == t.mem.Keys;
  }

  lemma SentAgainKeepsContents(t: Tx, u: Tx, log: TxLog, d: nat)
    requires Inv(t, log) && d < |t.unacked| && SentAgain(t, u, log, d)
    ensures Contents(u, log)
  {
    hide Owned, EntriesLive, Covered, OutSound, HeadOk, Wrap;
    InvGivesTracked(t, log);
    var c := Chain(t);
    assert c == Chain(u) && c[d] == t.unacked[d];
    forall i | 0 <= i < |c|
      ensures c[i] in u.mem && u.mem[c[i]].frame == log.stream[log.una + i]
      ensures i < |u.unacked| ==> u.mem[c[i]].seqno == Wrap(log.una + i)
    {
      assert i != d ==> c[i] != c[d];
    }
  }

  lemma SentAgainKeepsWheel(t: Tx, u: Tx, log: TxLog, d: nat)
    requires Inv(t, log) && d < |t.unacked| && SentAgain(t, u, log, d)
    ensures EntriesLive(u) && Covered(u)
  {
    hide Owned, Contents, OutSound, HeadOk;
    InvGivesTracked(t, log);
    SubWrap(log.una + d, log.una);
    var e := Ent(t.unacked[d], Wrap(log.una + d));
    forall j, k | 0 <= j < RTO_SLOTS && 0 <= k < |u.wheels[j]|
      ensures Live(u, u.wheels[j][k])
    {
      if k < |t.wheels[j]| {
        assert Live(t, t.wheels[j][k]);
      }
    }
    forall i | 0 <= i < |u.unacked|
      ensures CoveredAt(u, i)
    {
      assert CoveredAt(t, i);
      EntriesSurviveGrowth(t, u, Wrap(t.una + i));
    }
  }

  lemma EntriesSurviveGrowth(t: Tx, u: Tx, seqno: U32)
    requires forall j :: 0 <= j < RTO_SLOTS ==> t.wheels[j] <= u.wheels[j]
    ensures HasEntry(t, seqno) ==> HasEntry(u, seqno)
  {
    if HasEntry(t, seqno) {
      var j, k :| 0 <= j < RTO_SLOTS && 0 <= k < |t.wheels[j]| && t.wheels[j][k].seqno == seqno;
      assert u.wheels[j][k].seqno == seqno;
    }
  }

  lemma SentAgainKeepsOut(t: Tx, u: Tx, log: TxLog, d: nat)
    requires Inv(t, log) && d < |t.unacked| && SentAgain(t, u, log, d)
    ensures OutSound(u, log)
  {
    InFlightFitsPool(t);
    SubWrap(log.una + d, log.una);
    hide Owned, HeadOk, EntriesLive, Covered, Wrap, Sub, OutSound;
    OutGrows(t, u, log, Data(Wrap(log.una + d), log.stream[log.una + d]));
  }

  lemma OutGrows(t: Tx, u: Tx, log: TxLog, p: Packet)
    requires OutSound(t, log) && Sound(t, log, p)
    requires u.una == t.una && |u.unacked| == |t.unacked| && u.out == t.out + [p]
    ensures OutSound(u, log)
  {
    hide Sub;
    forall i | 0 <= i < |u.out|
      ensures Sound(u, log, u.out[i])
    {
      assert i < |t.out| ==> Sound(t, log, t.out[i]);
    }
  }

  lemma SentAgainKeepsInv(t: Tx, u: Tx, log: TxLog, d: nat)
    requires Inv(t, log) && d < |t.unacked| && SentAgain(t, u, log, d)
    ensures Inv(u, log)
  {
    hide Owned, Contents, EntriesLive, Covered, OutSound;
    SentAgainKeepsOwned(t, u, log, d);
    SentAgainKeepsContents(t, u, log, d);
    SentAgainKeepsWheel(t, u, log, d);
    SentAgainKeepsOut(t, u, log, d);
  }

  /** Retransmitting the buffer in flight under a number sends that number's frame. */
  lemma RetransmitInFlight(t: Tx, log: TxLog, d: nat, path: PathId)
    requires Inv(t, log) && d < |t.unacked|
    ensures var u := Retransmit(t, t.unacked[d], Wrap(log.una + d), path);
      && SentAgain(t, u, log, d)
      && u.paths == PathAccounting.Moved(t.paths, Wrap(log.una + d), path)
      && u.windows == t.windows && u.rtoConsecutive == t.rtoConsecutive
  {
    assert Chain(t)[d] == t.unacked[d];
  }

  /** Counters exact, and their excess over the cap paid for by packets moved from other paths. */
  ghost predicate PathsOk(t: Tx, log: TxLog) {
    PathAccounting.Exact(t.paths, log.una, Nxt(t, log)) && PathAccounting.Paid(t.paths, log.una, Nxt(t, log))
  }

  /** Buffers, messages and numbers are the same; only headers, the wheel, paths and windows may differ. */
  ghost predicate SameChain(t: Tx, u: Tx) {
    && u.pending == t.pending && u.unacked == t.unacked && u.unsent == t.unsent && u.hasHead == t.hasHead
    && u.pool == t.pool && u.ctxs == t.ctxs && u.done == t.done
    && u.una == t.una && u.nxt == t.nxt && u.tick == t.tick
    && u.mem.Keys == t.mem.Keys
    && (forall b :: b in t.mem ==> u.mem[b].frame == t.mem[b].frame)
    && t.out <= u.out
  }

  /** `u` is `t` after some packets in flight went out again. */
  ghost predicate SameFlight(t: Tx, u: Tx) {
    && SameChain(t, u)
    && (forall j :: 0 <= j < RTO_SLOTS ==> t.wheels[j] <= u.wheels[j])
    && (forall j :: 0 <= j < RTO_SLOTS && j != ReadySlot(t.tick) ==> u.wheels[j] == t.wheels[j])
  }

  lemma SentAgainIsSameFlight(t: Tx, u: Tx, log: TxLog, d: nat)
    requires Inv(t, log) && d < |t.unacked| && SentAgain(t, u, log, d)
    ensures Inv(u, log) && SameFlight(t, u)
  {
    SentAgainKeepsInv(t, u, log, d);
    hide Inv, Wrap, Contents;
  }

  /** Whether or not they are exact, the counters are right modulo 2^16 and their excess is paid for by moves. */
  ghost predicate TallyOk(t: Tx, log: TxLog) {
    PathAccounting.Tallied(t.paths, log.una, Nxt(t, log))
  }

  /** If the counters were exact and paid for before, or right modulo 2^16, the retransmissions kept them so. */
  ghost predicate PathsFollow(t: Tx, u: Tx, log: TxLog) {
    && (|t.unacked| <= PATH_HISTORY && PathsOk(t, log) ==> PathsOk(u, log))
    && (TallyOk(t, log) ==> TallyOk(u, log))
    && t.paths.moves <= u.paths.moves
  }

  lemma MovedPathsOk(t: Tx, u: Tx, log: TxLog, d: nat, path: PathId)
    requires d < |t.unacked| <= PATH_HISTORY && u.unacked == t.unacked && PathsOk(t, log)
    requires u.paths == PathAccounting.Moved(t.paths, Wrap(log.una + d), path)
    ensures PathsOk(u, log)
  {
    hide PathAccounting.Exact, PathAccounting.Paid, PathAccounting.Moved, Wrap;
    PathAccounting.MoveKeepsExact(t.paths, log.una, Nxt(t, log), log.una + d, path);
    PathAccounting.MoveKeepsPaid(t.paths, log.una, Nxt(t, log), log.una + d, path);
  }

  lemma MovedPathsFollow(t: Tx, u: Tx, log: TxLog, d: nat, path: PathId)
    requires d < |t.unacked| && u.unacked == t.unacked
    requires u.paths == PathAccounting.Moved(t.paths, Wrap(log.una + d), path)
    ensures PathsFollow(t, u, log)
  {
    assert t.paths.moves <= u.paths.moves;
    hide PathAccounting.Tallied, PathAccounting.Moved, Wrap, PathsOk;
    if |t.unacked| <= PATH_HISTORY && PathsOk(t, log) {
      MovedPathsOk(t, u, log, d, path);
    }
    if TallyOk(t, log) {
      PathAccounting.MoveKeepsTallied(t.paths, Wrap(log.una + d), path, log.una, Nxt(t, log));
    }
  }

  lemma RetransmitKeeps(t: Tx, log: TxLog, d: nat, path: PathId)
    requires Inv(t, log) && d < |t.unacked|
    ensures var u := Retransmit(t, t.unacked[d], Wrap(log.una + d), path);
      && Inv(u, log) && SameFlight(t, u) && PathsFollow(t, u, log)
      && u.out == t.out + [Data(Wrap(log.una + d), log.stream[log.una + d])]
  {
    var u := Retransmit(t, t.unacked[d], Wrap(log.una + d), path);
    RetransmitInFlight(t, log, d, path);
    SentAgainIsSameFlight(t, u, log, d);
    hide Inv;
    MovedPathsFollow(t, u, log, d, path);
  }

  lemma WrapOfNext(log: TxLog, t: Tx, i: nat)
    requires t.una == Wrap(log.una)
    ensures Wrap(t.una + i) == Wrap(log.una + i)
  {
    WrapAdd(log.una, i);
  }

  // ----- Fast retransmit and fast recovery -----

  lemma FastRetransmitKeeps(t: Tx, log: TxLog, path: PathId)
    requires Inv(t, log)
    ensures var u := FastRetransmit(t, path);
      && Inv(u, log) && SameFlight(t, u) && PathsFollow(t, u, log)
      && u.out == t.out + if t.unacked == [] then [] else [Data(t.una, log.stream[log.una])]
  {
    assert t.una == t.nxt <==> t.unacked == [] by {
      InvGivesTracked(t, log);
      SubIsCyclic(t.nxt, t.una);
    }
    assert t.unacked != [] ==> t.hasHead && Chain(t)[0] == t.unacked[0];
    assert t.una == Wrap(log.una);
    hide Inv, SameFlight, PathsFollow;
    if t.unacked != [] {
      RetransmitKeeps(t, log, 0, path);
    } else {
      NothingSent(t, log);
    }
  }

  lemma NothingSent(t: Tx, log: TxLog)
    ensures SameFlight(t, t) && PathsFollow(t, t, log)
  {
  }

  /** The clear bits met before `left` set ones have been seen. */
  function Missing(words: Words, i: nat, left: nat, budget: nat): seq<nat>
    requires budget <= BITS
    decreases budget - i
  {
    if left == 0 || i >= budget then []
    else if TestBit(words, i) then Missing(words, i + 1, left - 1, budget)
    else [i] + Missing(words, i + 1, left, budget)
  }

  /** Every set bit of an acknowledgement is a packet in flight, and it reports no more set bits than there are. */
  ghost predicate AckFits(t: Tx, words: Words, count: nat) {
    && count <= Count(words)
    && forall i :: 0 <= i < BITS && TestBit(words, i) ==> i < |t.unacked|
  }

  lemma {:induction false} SetBitAhead(words: Words, i: nat, hi: nat)
    requires i <= hi <= BITS && CountBelow(words, i) < CountBelow(words, hi)
    ensures exists b :: i <= b < hi && TestBit(words, b)
  {
    if !TestBit(words, hi - 1) {
      SetBitAhead(words, i, hi - 1);
    }
  }

  /** Places from `lo` to below `hi` in ascending order whose bits are clear. */
  ghost predicate ClearPlaces(words: Words, places: seq<nat>, lo: nat, hi: nat) {
    && (forall k :: 0 <= k < |places| ==> lo <= places[k] < hi && places[k] < BITS && !TestBit(words, places[k]))
    && (forall k, l :: 0 <= k < l < |places| ==> places[k] < places[l])
  }

  lemma ClearPlacesCons(words: Words, i: nat, places: seq<nat>, hi: nat)
    requires i < hi && i < BITS && !TestBit(words, i) && ClearPlaces(words, places, i + 1, hi)
    ensures ClearPlaces(words, [i] + places, i, hi)
  {
  }

  /** What a walk reports missing is clear in the bitmap, in flight and within the budget. */
  lemma {:induction false} MissingIsClear(t: Tx, words: Words, i: nat, left: nat, budget: nat)
    requires AckFits(t, words, 0) && budget <= BITS && i <= BITS
    requires left <= Count(words) - CountBelow(words, i)
    ensures ClearPlaces(words, Missing(words, i, left, budget), i, Min(budget, |t.unacked|))
    decreases budget - i
  {
    hide TestBit;
    if left > 0 && i < budget {
      SetBitAhead(words, i, BITS);
      assert i < |t.unacked|;
      if TestBit(words, i) {
        MissingIsClear(t, words, i + 1, left - 1, budget);
      } else {
        MissingIsClear(t, words, i + 1, left, budget);
        ClearPlacesCons(words, i, Missing(words, i + 1, left, budget), Min(budget, |t.unacked|));
      }
    }
  }

  /** The packets sent for a list of places in the flight. */
  ghost function PacketsAt(log: TxLog, places: seq<nat>): seq<Packet>
    requires forall k :: 0 <= k < |places| ==> log.una + places[k] < |log.stream|
  {
    seq(|places|, k requires 0 <= k < |places| => Data(Wrap(log.una + places[k]), log.stream[log.una + places[k]]))
  }

  lemma SameFlightTrans(t: Tx, u: Tx, v: Tx)
    requires SameFlight(t, u) && SameFlight(u, v)
    ensures SameFlight(t, v)
  {
  }

  lemma PathsFollowTrans(t: Tx, u: Tx, v: Tx, log: TxLog)
    requires PathsFollow(t, u, log) && PathsFollow(u, v, log)
    requires u.unacked == t.unacked
    ensures PathsFollow(t, v, log)
  {
    hide PathsOk, TallyOk;
  }

  /** The `i`-th buffer in flight holds frame `una + i` of the stream under that number. */
  lemma BufferInFlight(t: Tx, log: TxLog, i: nat)
    requires Inv(t, log) && i < |t.unacked|
    ensures log.una + |t.unacked| <= |log.stream|
    ensures Chain(t)[i] == t.unacked[i]
    ensures t.unacked[i] in t.mem
    ensures t.mem[t.unacked[i]] == Cell(Wrap(log.una + i), log.stream[log.una + i])
    ensures (t.una + i) % TWO32 == Wrap(log.una + i)
  {
    hide EntriesLive, Covered, OutSound, Owned, HeadOk;
    assert Chain(t)[i] == t.unacked[i];
    WrapOfNext(log, t, i);
  }

  lemma SameFlightFacts(t: Tx, u: Tx)
    requires SameFlight(t, u)
    ensures u.unacked == t.unacked && u.unsent == t.unsent && u.una == t.una && t.out <= u.out
  {
  }

  /** A packet in flight passes the header check, so the walk sends it. */
  lemma RecoverOneKeeps(t: Tx, log: TxLog, i: nat, path: PathId)
    requires Inv(t, log) && i < |t.unacked|
    ensures var u := RecoverOne(t, i, path);
      && Inv(u, log) && SameFlight(t, u) && PathsFollow(t, u, log)
      && u.out == t.out + [Data(Wrap(log.una + i), log.stream[log.una + i])]
  {
    hide Inv, SameFlight, PathsFollow;
    BufferInFlight(t, log, i);
    RetransmitKeeps(t, log, i, path);
  }

  /**
   * Fast recovery sends exactly the packets the bitmap shows missing: the walk ends with the reported count, never by
   * leaving the packets in flight, and the header check never stops a packet.
   */
  lemma {:induction false} RecoverSendsMissing(t: Tx, log: TxLog, words: Words, i: nat, left: nat, budget: nat, env: Env)
    requires Inv(t, log) && AckFits(t, words, 0) && i <= BITS && budget <= BITS
    requires left <= Count(words) - CountBelow(words, i)
    ensures var u := Recover(t, words, i, left, budget, env);
      && Inv(u, log) && SameFlight(t, u) && PathsFollow(t, u, log)
      && (forall k :: 0 <= k < |Missing(words, i, left, budget)| ==>
            Missing(words, i, left, budget)[k] < |t.unacked| <= |log.stream| - log.una)
      && u.out == t.out + PacketsAt(log, Missing(words, i, left, budget))
    decreases budget - i, 1
  {
    hide SameFlight, PathsFollow, TestBit, HasEntry, EntriesLive, Covered, OutSound, Owned;
    MissingIsClear(t, words, i, left, budget);
    var ms := Missing(words, i, left, budget);
    if left == 0 || i >= budget {
      NothingSent(t, log);
      assert PacketsAt(log, ms) == [];
    } else {
      SetBitAhead(words, i, BITS);
      assert i < |t.unacked|;
      if TestBit(words, i) {
        RecoverSendsMissing(t, log, words, i + 1, left - 1, budget, env);
      } else {
        RecoverStep(t, log, words, i, left, budget, env);
      }
    }
  }

  lemma {:induction false} RecoverStep(t: Tx, log: TxLog, words: Words, i: nat, left: nat, budget: nat, env: Env)
    requires Inv(t, log) && AckFits(t, words, 0) && i < budget <= BITS && i < |t.unacked| && !TestBit(words, i)
    requires 0 < left <= Count(words) - CountBelow(words, i)
    ensures var u := Recover(t, words, i, left, budget, env);
      && Inv(u, log) && SameFlight(t, u) && PathsFollow(t, u, log)
      && (forall k :: 0 <= k < |Missing(words, i, left, budget)| ==>
            Missing(words, i, left, budget)[k] < |t.unacked| <= |log.stream| - log.una)
      && u.out == t.out + PacketsAt(log, Missing(words, i, left, budget))
    decreases budget - i, 0
  {
    hide Inv, SameFlight, PathsFollow, TestBit;
    BufferInFlight(t, log, i);
    MissingIsClear(t, words, i, left, budget);
    var v := RecoverOne(t, i, env.pick(i));
    RecoverOneKeeps(t, log, i, env.pick(i));
    SameFlightFacts(t, v);
    RecoverSendsMissing(v, log, words, i + 1, left, budget, env);
    var u := Recover(t, words, i, left, budget, env);
    SameFlightTrans(t, v, u);
    SameFlightFacts(v, u);
    PathsFollowTrans(t, v, u, log);
    var ms := Missing(words, i + 1, left, budget);
    PacketsAtCons(log, i, ms);
  }

  lemma PacketsAtCons(log: TxLog, i: nat, ms: seq<nat>)
    requires log.una + i < |log.stream| && forall k :: 0 <= k < |ms| ==> log.una + ms[k] < |log.stream|
    ensures PacketsAt(log, [i] + ms) == [Data(Wrap(log.una + i), log.stream[log.una + i])] + PacketsAt(log, ms)
  {
  }

  lemma FastRecoveryKeeps(t: Tx, log: TxLog, words: Words, count: U16, env: Env)
    requires Inv(t, log) && AckFits(t, words, count)
    ensures var u := FastRecovery(t, words, count, env);
      Inv(u, log) && SameFlight(t, u) && PathsFollow(t, u, log)
  {
    hide Inv, SameFlight, PathsFollow, Recover, TestBit;
    var cap := MaxUnackedPerEngine();
    NothingSent(t, log);
    if |t.unacked| < cap {
      RecoverSendsMissing(t, log, words, 0, count, Min(Min(env.txqFree, cap - |t.unacked|), BITS), env);
    }
  }

  /** `t` with other values in the counters that no invariant reads. */
  lemma CountersDoNotMatter(t: Tx, u: Tx, log: TxLog)
    requires Inv(t, log)
    requires u == t.(dupAcks := u.dupAcks, oooAcks := u.oooAcks, rtoConsecutive := u.rtoConsecutive, windows := u.windows,
                     paths := u.paths)
    ensures Inv(u, log) && SameFlight(t, u)
    ensures u.paths == t.paths ==> PathsFollow(t, u, log)
  {
    InvReadsOnly(t, u, log);
    hide Inv;
  }

  lemma InvReadsOnly(t: Tx, u: Tx, log: TxLog)
    requires Inv(t, log)
    requires u == t.(dupAcks := u.dupAcks, oooAcks := u.oooAcks, rtoConsecutive := u.rtoConsecutive, windows := u.windows,
                     paths := u.paths)
    ensures Inv(u, log)
  {
    assert AllBufs(u) == AllBufs(t) && Chain(u) == Chain(t);
    assert EntriesLive(u) by {
      forall j, k | 0 <= j < RTO_SLOTS && 0 <= k < |u.wheels[j]|
        ensures Live(u, u.wheels[j][k])
      {
        assert Live(t, t.wheels[j][k]);
      }
    }
    assert Covered(u) by {
      forall i | 0 <= i < |u.unacked|
        ensures CoveredAt(u, i)
      {
        assert CoveredAt(t, i);
        EntriesSurviveGrowth(t, u, Wrap(t.una + i));
      }
    }
    assert OutSound(u, log) by {
      forall i | 0 <= i < |u.out|
        ensures Sound(u, log, u.out[i])
      {
        assert Sound(t, log, t.out[i]);
      }
    }
  }

  lemma DuplicateAckKeeps(t: Tx, log: TxLog, words: Words, count: U16, env: Env)
    requires Inv(t, log) && AckFits(t, words, count)
    ensures var u := DuplicateAck(t, words, count, env);
      Inv(u, log) && SameFlight(t, u) && PathsFollow(t, u, log)
  {
    hide Inv, SameFlight, PathsFollow, FastRecovery, FastRetransmit, TestBit;
    var n: int := t.dupAcks;
    var v := t.(dupAcks := (n + 1) % 0x1_0000, oooAcks := count);
    CountersDoNotMatter(t, v, log);
    FastRetransmitKeeps(v, log, env.pick(0));
    FastRecoveryKeeps(v, log, words, count, env);
    var u := DuplicateAck(t, words, count, env);
    NothingSent(v, log);
    assert SameFlight(v, u) && PathsFollow(v, u, log) && Inv(u, log);
    SameFlightTrans(t, v, u);
    SameFlightFacts(t, v);
    SameFlightFacts(v, u);
    PathsFollowTrans(t, v, u, log);
  }

  // ----- Retransmission timer -----

  function PopHead(t: Tx): Tx
    requires t.wheels[t.tick] != []
  {
    t.(wheels := t.wheels[t.tick := t.wheels[t.tick][1..]])
  }

  lemma PopKeepsEntry(t: Tx, seqno: U32)
    requires t.wheels[t.tick] != [] && HasEntry(t, seqno)
    requires t.wheels[t.tick][0].seqno == seqno ==>
      exists k :: 0 <= k < |t.wheels[ReadySlot(t.tick)]| && t.wheels[ReadySlot(t.tick)][k].seqno == seqno
    ensures HasEntry(PopHead(t), seqno)
  {
    var u, r := PopHead(t), ReadySlot(t.tick);
    if t.wheels[t.tick][0].seqno == seqno {
      var k :| 0 <= k < |t.wheels[r]| && t.wheels[r][k].seqno == seqno;
      assert u.wheels[r][k].seqno == seqno;
    } else {
      var j, k :| 0 <= j < RTO_SLOTS && 0 <= k < |t.wheels[j]| && t.wheels[j][k].seqno == seqno;
      if j == t.tick {
        assert u.wheels[j][k - 1].seqno == seqno;
      } else {
        assert u.wheels[j][k].seqno == seqno;
      }
    }
  }

  lemma PopKeepsLive(t: Tx)
    requires EntriesLive(t) && t.wheels[t.tick] != []
    ensures EntriesLive(PopHead(t))
  {
    var u := PopHead(t);
    forall j, k | 0 <= j < RTO_SLOTS && 0 <= k < |u.wheels[j]|
      ensures Live(u, u.wheels[j][k])
    {
      assert Live(t, t.wheels[j][if j == t.tick then k + 1 else k]);
    }
  }

  /** The head of the due slot may go if it is stale or its packet has a fresh entry. */
  lemma PopKeepsWheel(t: Tx, log: TxLog)
    requires Inv(t, log) && t.wheels[t.tick] != []
    requires var e := t.wheels[t.tick][0];
      SeqGe(e.seqno, t.una) ==>
        exists k :: 0 <= k < |t.wheels[ReadySlot(t.tick)]| && t.wheels[ReadySlot(t.tick)][k].seqno == e.seqno
    ensures EntriesLive(PopHead(t)) && Covered(PopHead(t))
  {
    hide Contents, OutSound, Owned, HeadOk, EntriesLive, Numbered, HasEntry;
    PopKeepsLive(t);
    var u := PopHead(t);
    InvGivesTracked(t, log);
    forall i | 0 <= i < |u.unacked|
      ensures CoveredAt(u, i)
    {
      assert CoveredAt(t, i);
      SubWrap(t.una + i, t.una);
      PopKeepsEntry(t, Wrap(t.una + i));
    }
  }

  lemma PopKeepsInv(t: Tx, log: TxLog)
    requires Inv(t, log) && t.wheels[t.tick] != []
    requires var e := t.wheels[t.tick][0];
      SeqGe(e.seqno, t.una) ==>
        exists k :: 0 <= k < |t.wheels[ReadySlot(t.tick)]| && t.wheels[ReadySlot(t.tick)][k].seqno == e.seqno
    ensures Inv(PopHead(t), log)
  {
    PopKeepsWheel(t, log);
    hide EntriesLive, Covered, SeqGe;
    WheelIsApart(t, PopHead(t).wheels, log);
    hide Owned, Numbered, Contents, HeadOk, OutSound;
  }

  /** What does not concern the wheel does not read it. */
  lemma WheelIsApart(t: Tx, wheels: Wheels, log: TxLog)
    requires Owned(t) && Numbered(t, log) && Contents(t, log) && HeadOk(t) && OutSound(t, log)
    ensures var u := t.(wheels := wheels);
      Owned(u) && Numbered(u, log) && Contents(u, log) && HeadOk(u) && OutSound(u, log)
  {
    var u := t.(wheels := wheels);
    assert AllBufs(u) == AllBufs(t) && Chain(u) == Chain(t);
    hide Chain, AllBufs, Wrap, Distinct;
    forall i | 0 <= i < |u.out|
      ensures Sound(u, log, u.out[i])
    {
      assert Sound(t, log, t.out[i]);
    }
  }

  /** The packets a list of wheel entries calls for: those still in flight. */
  ghost function DuePackets(t: Tx, log: TxLog, ents: seq<Ent>): seq<Packet> {
    if ents == [] then []
    else
      var e := ents[0];
      var n := log.una + Sub(e.seqno, t.una);
      (if SeqGe(e.seqno, t.una) && n < |log.stream| then [Data(e.seqno, log.stream[n])] else [])
      + DuePackets(t, log, ents[1..])
  }

  /** `u` is `t` after entries of the slot that is due were handled. */
  ghost predicate SameButDue(t: Tx, u: Tx) {
    && SameChain(t, u)
    && (forall j :: 0 <= j < RTO_SLOTS && j != t.tick ==> t.wheels[j] <= u.wheels[j])
    && (forall j :: 0 <= j < RTO_SLOTS && j != t.tick && j != ReadySlot(t.tick) ==> u.wheels[j] == t.wheels[j])
  }

  lemma WrapOfSub(a: U32, b: U32, n: int)
    requires b == Wrap(n)
    ensures Wrap(n + Sub(a, b)) == a
  {
    WrapAdd(n, Sub(a, b));
    SubIsCyclic(a, b);
  }

  /** Handling an entry whose packet is in flight is sending the packet again and then dropping the entry. */
  lemma FireIsSendThenPop(t: Tx, path: PathId)
    requires t.wheels[t.tick] != []
    ensures var e := t.wheels[t.tick][0];
      var w := Retransmit(t, e.buf, e.seqno, path);
      && w.wheels[t.tick] == t.wheels[t.tick]
      && w.tick == t.tick
      && Retransmit(PopHead(t), e.buf, e.seqno, path) == PopHead(w)
  {
    var e := t.wheels[t.tick][0];
    var a, b := Retransmit(PopHead(t), e.buf, e.seqno, path), PopHead(Retransmit(t, e.buf, e.seqno, path));
    assert ReadySlot(t.tick) != t.tick;
    assert a.wheels == b.wheels;
  }

  lemma LiveEntryNames(t: Tx, log: TxLog)
    requires Inv(t, log) && t.wheels[t.tick] != []
    ensures var e := t.wheels[t.tick][0];
      SeqGe(e.seqno, t.una) ==>
        var d := Sub(e.seqno, t.una);
        d < |t.unacked| && e.buf == t.unacked[d] && e.seqno == Wrap(log.una + d)
  {
    hide Contents, OutSound, Owned, HeadOk, Covered;
    var e := t.wheels[t.tick][0];
    assert Live(t, t.wheels[t.tick][0]);
    WrapOfSub(e.seqno, t.una, log.una);
  }

  lemma SendThenPopIsSameButDue(t: Tx, w: Tx, u: Tx)
    requires t.wheels[t.tick] != [] && SameFlight(t, w)
    requires u == PopHead(w).(rtoConsecutive := u.rtoConsecutive, windows := u.windows)
    ensures SameButDue(t, u) && u.wheels[t.tick] == t.wheels[t.tick][1..]
  {
    assert ReadySlot(t.tick) != t.tick;
  }

  lemma FireStale(t: Tx, log: TxLog, path: PathId)
    requires Inv(t, log) && t.wheels[t.tick] != [] && !SeqGe(t.wheels[t.tick][0].seqno, t.una)
    ensures var u := FireOne(t, path);
      && Inv(u, log) && SameButDue(t, u) && PathsFollow(t, u, log)
      && u.out == t.out && u.wheels[t.tick] == t.wheels[t.tick][1..]
  {
    hide Inv, PathsFollow, SameButDue, SameFlight;
    PopKeepsInv(t, log);
    NothingSent(t, log);
    SendThenPopIsSameButDue(t, t, PopHead(t));
    SamePathsFollow(t, t, PopHead(t), log);
  }

  lemma FireLive(t: Tx, log: TxLog, path: PathId, d: nat)
    requires Inv(t, log) && t.wheels[t.tick] != []
    requires SeqGe(t.wheels[t.tick][0].seqno, t.una)
    requires d < |t.unacked| && t.wheels[t.tick][0] == Ent(t.unacked[d], Wrap(log.una + d))
    ensures var u := FireOne(t, path);
      && Inv(u, log) && SameButDue(t, u) && PathsFollow(t, u, log)
      && log.una + d < |log.stream|
      && u.out == t.out + [Data(Wrap(log.una + d), log.stream[log.una + d])]
      && u.wheels[t.tick] == t.wheels[t.tick][1..]
  {
    hide Inv, PathsFollow, SameButDue, SameFlight, SeqGe;
    var e, u := t.wheels[t.tick][0], FireOne(t, path);
    var w := Retransmit(t, e.buf, e.seqno, path);
    RetransmitKeeps(t, log, d, path);
    BufferInFlight(t, log, d);
    FireIsSendThenPop(t, path);
    var r := ReadySlot(t.tick);
    assert w.wheels[r][|t.wheels[r]|].seqno == e.seqno;
    PopKeepsInv(w, log);
    CountersDoNotMatter(PopHead(w), u, log);
    SamePathsFollow(t, w, u, log);
    SendThenPopIsSameButDue(t, w, u);
  }

  lemma FireOneKeeps(t: Tx, log: TxLog, path: PathId)
    requires Inv(t, log) && t.wheels[t.tick] != []
    ensures var u := FireOne(t, path);
      && Inv(u, log) && SameButDue(t, u) && PathsFollow(t, u, log)
      && u.out == t.out + DuePackets(t, log, t.wheels[t.tick][..1])
      && u.wheels[t.tick] == t.wheels[t.tick][1..]
  {
    LiveEntryNames(t, log);
    hide Inv, PathsFollow, SameButDue, FireOne;
    var e := t.wheels[t.tick][0];
    assert t.wheels[t.tick][..1] == [e];
    assert [e][1..] == [];
    if SeqGe(e.seqno, t.una) {
      FireLive(t, log, path, Sub(e.seqno, t.una));
    } else {
      FireStale(t, log, path);
    }
  }

  lemma SamePathsFollow(t: Tx, w: Tx, u: Tx, log: TxLog)
    requires PathsFollow(t, w, log) && u.paths == w.paths && u.unacked == w.unacked
    ensures PathsFollow(t, u, log)
  {
  }

  lemma DuePacketsOfSameChain(t: Tx, u: Tx, log: TxLog, ents: seq<Ent>)
    requires u.una == t.una
    ensures DuePackets(u, log, ents) == DuePackets(t, log, ents)
  {
  }

  lemma SameButDueTrans(t: Tx, u: Tx, v: Tx)
    requires SameButDue(t, u) && SameButDue(u, v)
    ensures SameButDue(t, v)
  {
  }

  lemma SameButDueRefl(t: Tx)
    ensures SameButDue(t, t)
  {
  }

  lemma SameButDueFacts(t: Tx, u: Tx)
    requires SameButDue(t, u)
    ensures u.tick == t.tick && u.una == t.una && u.unacked == t.unacked && t.out <= u.out
  {
  }

  lemma DuePacketsSplit(t: Tx, log: TxLog, ents: seq<Ent>)
    requires ents != []
    ensures DuePackets(t, log, ents) == DuePackets(t, log, ents[..1]) + DuePackets(t, log, ents[1..])
  {
    assert ents[..1][1..] == [];
  }

  /** Draining the due slot sends again exactly the packets of it that are still in flight, in order, and empties it. */
  lemma {:induction false} DrainKeeps(t: Tx, log: TxLog, i: nat, env: Env)
    requires Inv(t, log)
    ensures var u := Drain(t, i, env);
      && Inv(u, log) && SameButDue(t, u) && PathsFollow(t, u, log)
      && u.out == t.out + DuePackets(t, log, t.wheels[t.tick])
      && u.wheels[t.tick] == []
    decreases |t.wheels[t.tick]|
  {
    hide Inv, PathsFollow, SameButDue, SameFlight, FireOne;
    var ents := t.wheels[t.tick];
    if ents == [] {
      NothingSent(t, log);
      SameButDueRefl(t);
    } else {
      var v := FireOne(t, env.pick(i));
      FireOneKeeps(t, log, env.pick(i));
      SameButDueFacts(t, v);
      DrainKeeps(v, log, i + 1, env);
      var u := Drain(v, i + 1, env);
      SameButDueFacts(v, u);
      SameButDueTrans(t, v, u);
      PathsFollowTrans(t, v, u, log);
      DuePacketsOfSameChain(t, v, log, ents[1..]);
      DuePacketsSplit(t, log, ents);
    }
  }
}
