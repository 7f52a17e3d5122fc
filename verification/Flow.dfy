/**
 * The sending side of a flow as the engine runs it: loops over linked buffers, tables changed in place. Every method is
 * proved to take the object from a state `t` of `Sender` to the state the step there computes.
 */
module Flow {
  import opened SerialNumbers
  import opened Messages
  import opened SackBitmap
  import opened Packets
  import opened TxTracking
  import PathAccounting
  import Cubic
  import Pcb
  import S = Sender
  import SP = SenderProgress
  import W = WindowSteps

  const TWO64 := 0x1_0000_0000_0000_0000
  const PATH_TRIES := 16

  /** A reading of the processor's cycle counter. */
  type Tsc = n: nat | n < TWO64

  /** The ring of path numbers, the counters of packets in flight and the time each path last carried a new packet. */
  class PathTable {
    const hist: array<PathId>
    const pp: array<U16>
    var lastTx: seq<Tsc>
    ghost var tally: seq<int>
    ghost var moved: seq<bool>
    ghost var moves: nat

    ghost predicate Valid()
      reads this
    {
      && hist.Length == PATH_HISTORY && pp.Length == PLATFORM.maxPath && hist as object != pp as object
      && |lastTx| == |tally| == PLATFORM.maxPath && |moved| == PATH_HISTORY
    }

    ghost function View(): PathAccounting.Paths
      requires Valid()
      reads this, hist, pp
    {
      PathAccounting.RawPaths(hist[..], pp[..], tally, moved, moves)
    }

    constructor ()
      ensures Valid() && View() == PathAccounting.Empty() && fresh(hist) && fresh(pp)
    {
      hist := new PathId[PATH_HISTORY](_ => 0);
      pp := new U16[PLATFORM.maxPath](_ => 0);
      lastTx := seq(PLATFORM.maxPath, _ => 0);
      tally, moved, moves := seq(PLATFORM.maxPath, _ => 0), seq(PATH_HISTORY, _ => false), 0;
      new;
      assert hist[..] == PathAccounting.Empty().hist;
      assert pp[..] == PathAccounting.Empty().pp;
      assert tally == PathAccounting.Empty().tally && moved == PathAccounting.Empty().moved;
    }

    method GetPathId(seqno: U32) returns (path: PathId)
      requires Valid()
      ensures path == PathAccounting.PathOf(View(), seqno)
    {
      path := hist[seqno % PATH_HISTORY];
    }

    method SetPathId(seqno: U32, path: PathId)
      requires Valid()
      modifies hist
      ensures View() == PathAccounting.SetPath(old(View()), seqno, path)
    {
      hist[seqno % PATH_HISTORY] := path;
    }

    method IncUnackedPktsPp(path: PathId)
      requires Valid()
      modifies pp, `tally
      ensures Valid() && View() == PathAccounting.Inc(old(View()), path)
    {
      var n: int := pp[path];
      tally := tally[path := tally[path] + 1];
      pp[path] := (n + 1) % 0x1_0000;
    }

    method DecUnackedPktsPp(path: PathId)
      requires Valid()
      modifies pp, `tally
      ensures Valid() && View() == PathAccounting.Dec(old(View()), path)
    {
      var n: int := pp[path];
      tally := tally[path := tally[path] - 1];
      pp[path] := (n - 1) % 0x1_0000;
    }

    /** A new packet goes out on `path` at time `now`. */
    method RecordSent(seqno: U32, path: PathId, now: Tsc)
      requires Valid()
      modifies hist, pp, `lastTx, `tally, `moved
      ensures Valid() && View() == PathAccounting.Sent(old(View()), seqno, path) && lastTx == old(lastTx)[path := now]
    {
      SetPathId(seqno, path);
      moved := moved[PathAccounting.Slot(seqno) := false];
      IncUnackedPktsPp(path);
      lastTx := lastTx[path := now];
    }

    /** A packet in flight is sent again on another path. */
    method MovePath(seqno: U32, path: PathId)
      requires Valid()
      modifies hist, pp, `tally, `moved, `moves
      ensures Valid() && View() == PathAccounting.Moved(old(View()), seqno, path)
    {
      var was := GetPathId(seqno);
      DecUnackedPktsPp(was);
      IncUnackedPktsPp(path);
      SetPathId(seqno, path);
      if path != was {
        moved, moves := moved[PathAccounting.Slot(seqno) := true], moves + 1;
      }
    }
  }

  /** The chain after a header was written: links and pointers are the same. */
  function WithHeader(k: Track, off: Off, seqno: U32): Track
    requires off in k.umem
  {
    k.(umem := k.umem[off := k.umem[off].(seqno := seqno)])
  }

  lemma HeaderKeepsTrack(k: Track, off: Off, seqno: U32, t: S.Tx)
    requires TrackOk(k) && TrackShows(k, t.unacked, t.unsent, t.hasHead, t.mem) && off in k.umem
    ensures off in t.mem && t.mem[off].frame == k.umem[off].frame
    ensures TrackOk(WithHeader(k, off, seqno))
    ensures TrackShows(WithHeader(k, off, seqno), t.unacked, t.unsent, t.hasHead, t.mem[off := t.mem[off].(seqno := seqno)])
    ensures off in k.chain ==> SameOutside(k.umem, WithHeader(k, off, seqno).umem, k.chain)
  {
    var m := WithHeader(k, off, seqno).umem;
    forall i | 0 <= i < |k.chain|
      ensures LinkAt(m, k.chain, i)
    {
      assert LinkAt(k.umem, k.chain, i);
    }
    assert Cells(m) == Cells(k.umem)[off := Cells(k.umem)[off].(seqno := seqno)];
  }

  class UcclFlow {
    const socket: Socket
    const tx: TxTracking
    const pcb: Pcb.Pcb
    const table: PathTable
    const cubicPp: array<Cubic.Window>

    ghost function Repr(): set<object>
      reads this
    {
      {socket, tx, pcb, table, table.hist, table.pp, cubicPp}
    }

    ghost predicate Valid()
      reads this, Repr()
    {
      && tx.socket == socket && tx.Valid() && table.Valid()
      && cubicPp.Length == PLATFORM.maxPath
      && cubicPp as object != table.hist as object && cubicPp as object != table.pp as object
    }

    /** The object holds the sender's state `t`, apart from the queue of messages not yet on the chain. */
    ghost predicate Shows(t: S.Tx)
      reads this, Repr()
      requires Valid()
    {
      && tx.Shows(t) && pcb.Shows(t)
      && t.paths == table.View()
      && t.windows == cubicPp[..]
    }

    constructor (socket: Socket, tx: TxTracking, pcb: Pcb.Pcb, table: PathTable, cubicPp: array<Cubic.Window>)
      requires tx.socket == socket && tx.Valid() && table.Valid() && cubicPp.Length == PLATFORM.maxPath
      requires cubicPp as object != table.hist as object && cubicPp as object != table.pp as object
      ensures Valid() && this.socket == socket && this.tx == tx && this.pcb == pcb && this.table == table
      ensures this.cubicPp == cubicPp
    {
      this.socket, this.tx, this.pcb, this.table, this.cubicPp := socket, tx, pcb, table, cubicPp;
    }

    /** Send a buffer of the chain again, on another path. */
    method Resend(msgbuf: Off, seqno: U32, path: PathId, ghost t: S.Tx)
      requires Valid() && Shows(t) && msgbuf in tx.chain && msgbuf in socket.umem
      modifies Repr()
      ensures Valid() && Shows(S.Retransmit(t, msgbuf, seqno, path))
      ensures PathAccounting.PathOf(table.View(), seqno) == path && cubicPp[..] == old(cubicPp[..])
      ensures tx.chain == old(tx.chain) && SameOutside(old(socket.umem), socket.umem, tx.chain)
    {
      hide TrackOk, TrackShows, Cells, SameOutside, PathAccounting.Moved, PathAccounting.PathOf, S.WindowOk;
      MovedIsOn(table.View(), seqno, path);
      HeaderKeepsTrack(tx.Pointers(), msgbuf, seqno, t);
      table.MovePath(seqno, path);
      socket.SendData(msgbuf, seqno);
      pcb.AddToRtoWheel(msgbuf, seqno);
      assert tx.Pointers() == WithHeader(old(tx.Pointers()), msgbuf, seqno);
    }

    /** Send the oldest packet in flight again. */
    method FastRetransmit(path: PathId, ghost t: S.Tx)
      requires Valid() && Shows(t)
      modifies Repr()
      ensures Valid() && Shows(S.FastRetransmit(t, path))
      ensures tx.chain == old(tx.chain) && SameOutside(old(socket.umem), socket.umem, tx.chain)
    {
      hide TrackOk, TrackShows, SameOutside, S.Retransmit, Cells;
      ChainShown(tx.Pointers(), t);
      HeadShown(tx.Pointers(), t);
      NothingOutside(socket.umem, tx.chain);
      var msgbuf, seqno := tx.oldestUnacked, pcb.sndUna;
      if msgbuf.Some? && seqno != pcb.sndNxt {
        Resend(msgbuf.value, seqno, path, t);
      }
    }

    /** Send the buffer at place `index` of the chain again if its header carries the number that place calls for. */
    method ResendMissing(msgbuf: Off, index: nat, path: PathId, ghost t: S.Tx)
      requires Valid() && Shows(t) && index < |tx.chain| && msgbuf == tx.chain[index] && S.Chain(t) == tx.chain
      modifies Repr()
      ensures Valid() && Shows(S.RecoverOne(t, index, path)) && S.Chain(S.RecoverOne(t, index, path)) == tx.chain
      ensures tx.chain == old(tx.chain) && SameOutside(old(socket.umem), socket.umem, tx.chain)
    {
      hide TrackOk, TrackShows, SameOutside, S.RecoverOne, S.Retransmit, Cells;
      BufferShown(tx.Pointers(), t, index);
      NothingOutside(socket.umem, tx.chain);
      RecoverOneSends(t, index, path);
      var n: int := pcb.sndUna;
      var seqno: U32 := (n + index) % TWO32;
      RetransmitLeavesChain(t, msgbuf, seqno, path);
      if socket.umem[msgbuf].seqno == seqno {
        Resend(msgbuf, seqno, path, t);
      }
    }

    /**
     * Fast recovery: walk the linked buffers beside the bitmap of an acknowledgement and send the missing ones again,
     * until the reported number of received packets has been seen or the budget is used up.
     */
    method RecoverMissing(words: Words, sackBitmapCount: nat, hardBudget: nat, env: S.Env, ghost t: S.Tx)
      requires Valid() && Shows(t) && hardBudget <= BITS && t.hasHead
      modifies Repr()
      ensures Valid() && Shows(S.Recover(t, words, 0, sackBitmapCount, hardBudget, env))
      ensures tx.chain == old(tx.chain) && SameOutside(old(socket.umem), socket.umem, tx.chain)
    {
      hide TrackOk, TrackShows, SameOutside, S.Recover, S.RecoverOne, TestWord, Cells, S.Chain;
      ChainShown(tx.Pointers(), t);
      HeadShown(tx.Pointers(), t);
      NothingOutside(socket.umem, tx.chain);
      ghost var u := t;
      var msgbuf, left, index := tx.oldestUnacked, sackBitmapCount, 0;
      while left > 0 && msgbuf.Some? && index < hardBudget
        invariant Valid() && Shows(u) && tx.chain == old(tx.chain) && S.Chain(u) == tx.chain
        invariant msgbuf == if index < |tx.chain| then Some(tx.chain[index]) else None
        invariant S.Recover(u, words, index, left, hardBudget, env)
               == S.Recover(t, words, 0, sackBitmapCount, hardBudget, env)
        invariant SameOutside(old(socket.umem), socket.umem, tx.chain)
        decreases hardBudget - index
      {
        RecoverUnfolds(u, words, index, left, hardBudget, env);
        ghost var before := socket.umem;
        if !TestWord(words[index / WORD_BITS], index % WORD_BITS) {
          ResendMissing(msgbuf.value, index, env.pick(index), u);
          OutsideTrans(old(socket.umem), before, socket.umem, tx.chain);
          u := S.RecoverOne(u, index, env.pick(index));
        } else {
          left := left - 1;
        }
        BufferShown(tx.Pointers(), u, index);
        msgbuf := socket.umem[msgbuf.value].next;
        index := index + 1;
      }
      RecoverEnds(u, words, index, left, hardBudget, env);
    }

    method GrowCwnd(path: PathId, distance: nat, sample: Cubic.Sample, ghost w: S.Windows)
      requires Valid() && w == cubicPp[..]
      modifies cubicPp
      ensures cubicPp[..] == S.GrowWindow(w, path, distance, sample)
      ensures cubicPp[path] == Cubic.OnAck(old(cubicPp[path]), distance, sample)
    {
      hide Cubic.OnAck;
      assert S.WindowOk(w[path]) && cubicPp[path] == w[path];
      cubicPp[path] := Cubic.OnAck(cubicPp[path], distance, sample);
    }

    /**
     * Take the acknowledged packets off the counters of their paths. A path's window grows once for each stretch of
     * packets on it.
     */
    method SettleAcked(numAcked: nat, env: S.Env, ghost w: S.Windows)
      requires Valid() && w == cubicPp[..]
      modifies table.pp, table`tally, cubicPp
      ensures Valid()
      ensures (table.View(), cubicPp[..]) == S.SettlePaths(old(table.View()), w, pcb.sndUna, 0, numAcked, None, 0, env)
    {
      hide S.SettlePaths, PathAccounting.Acked, PathAccounting.Dec, S.GrowWindow;
      var accumulated, last: Option<PathId>, seqno := 0, None, pcb.sndUna;
      ghost var v := w;
      for i := 0 to numAcked
        invariant Valid() && v == cubicPp[..] && seqno == (pcb.sndUna + i) % TWO32
        invariant last.None? <==> i == 0
        invariant last.Some? ==> accumulated > 0
        invariant S.SettlePaths(table.View(), v, pcb.sndUna, i, numAcked, last, accumulated, env)
               == S.SettlePaths(old(table.View()), w, pcb.sndUna, 0, numAcked, None, 0, env)
      {
        W.SettleUnfolds(table.View(), v, pcb.sndUna, i, numAcked, last, accumulated, env);
        var path := table.GetPathId(seqno);
        if last.Some? && path != last.value {
          GrowCwnd(last.value, accumulated, env.samples(i), v);
          v := S.GrowWindow(v, last.value, accumulated, env.samples(i));
          accumulated := 0;
        }
        last, accumulated := Some(path), accumulated + 1;
        table.DecUnackedPktsPp(path);
        NextNumber(pcb.sndUna, i);
        var n: int := seqno;
        seqno := (n + 1) % TWO32;
      }
      W.SettleEnds(table.View(), v, pcb.sndUna, numAcked, last, accumulated, env);
      if accumulated > 0 && last.Some? {
        GrowCwnd(last.value, accumulated, env.samples(numAcked), v);
        v := S.GrowWindow(v, last.value, accumulated, env.samples(numAcked));
      }
    }

    /** An acknowledgement of new data. */
    method AcceptAck(ackno: U32, env: S.Env, ghost t: S.Tx)
      requires Valid() && Shows(t) && Sub(ackno, t.una) <= |t.unacked| && S.Tracked(t)
      requires Completable(t, Sub(ackno, t.una))
      modifies Repr()
      ensures Valid() && Shows(S.AcceptAck(t, ackno, Sub(ackno, t.una), env))
      ensures SameOutside(old(socket.umem), socket.umem, old(tx.chain))
    {
      hide TrackOk, TrackShows, SameOutside, S.SettlePaths, S.ReceiveAcks, S.Tracked, Completable;
      var una, acked: int := pcb.sndUna, ackno;
      var numAcked := (acked - una) % TWO32;
      SP.ReceiveAcksReleases(t, numAcked);
      tx.ReceiveAcks(numAcked, t);
      SettleAcked(numAcked, env, t.windows);
      pcb.sndUna := ackno;
      pcb.duplicateAcks, pcb.sndOooAcks, pcb.rtoRexmitsConsecutive := 0, 0, 0;
    }

    /** The receiver is still missing the oldest packet in flight. */
    method CountDuplicate(words: Words, sackBitmapCount: U16, env: S.Env, ghost t: S.Tx)
      requires Valid() && Shows(t)
      modifies Repr()
      ensures Valid() && Shows(S.DuplicateAck(t, words, sackBitmapCount, env))
      ensures tx.chain == old(tx.chain) && SameOutside(old(socket.umem), socket.umem, tx.chain)
    {
      hide TrackOk, TrackShows, SameOutside, S.FastRetransmit, S.Recover, Cells;
      NothingOutside(socket.umem, tx.chain);
      ChainShown(tx.Pointers(), t);
      HeadShown(tx.Pointers(), t);
      var dups: int := pcb.duplicateAcks;
      pcb.duplicateAcks := (dups + 1) % 0x1_0000;
      pcb.sndOooAcks := sackBitmapCount;
      ghost var u := t.(dupAcks := pcb.duplicateAcks, oooAcks := sackBitmapCount);
      if pcb.duplicateAcks < S.DUP_ACK_THRES {
        return;
      }
      if pcb.duplicateAcks == S.DUP_ACK_THRES {
        FastRetransmit(env.pick(0), u);
        return;
      }
      var cap := S.MaxUnackedPerEngine();
      if env.unpulled > cap || tx.numUnacked >= cap || tx.oldestUnacked.None? {
        return;
      }
      var budget := Min(Min(env.txqFree, cap - tx.numUnacked), BITS);
      RecoverMissing(words, sackBitmapCount, budget, env, u);
    }

    /** An acknowledgement arrives: old, a duplicate, beyond what was sent, or news. */
    method ProcessAck(ackno: U32, words: Words, sackBitmapCount: U16, env: S.Env, ghost t: S.Tx)
      requires Valid() && Shows(t) && S.Tracked(t) && S.Counted(t)
      requires Sub(ackno, t.una) <= |t.unacked| ==> Completable(t, Sub(ackno, t.una))
      modifies Repr()
      ensures Valid() && Shows(S.ProcessAck(t, ackno, words, sackBitmapCount, env))
      ensures SameOutside(old(socket.umem), socket.umem, old(tx.chain))
    {
      hide TrackOk, TrackShows, SameOutside, S.DuplicateAck, S.AcceptAck, S.Tracked, Completable, S.Counted, SeqLt, SeqGt;
      hide SeqEq, Sub;
      NothingOutside(socket.umem, tx.chain);
      if SeqLt(ackno, pcb.sndUna) {
        return;
      } else if SeqEq(ackno, pcb.sndUna) {
        CountDuplicate(words, sackBitmapCount, env, t);
      } else if SeqGt(ackno, pcb.sndNxt) {
        return;
      } else {
        S.AcceptedAckIsInFlight(t, ackno);
        AcceptAck(ackno, env, t);
      }
    }

    /** Send a packet again because its timer ran out; its path's window shrinks. */
    method RtoRetransmit(msgbuf: Off, seqno: U32, path: PathId, ghost t: S.Tx)
      requires Valid() && Shows(t) && msgbuf in tx.chain
      modifies Repr()
      ensures Valid() && Shows(S.RtoRetransmit(t, msgbuf, seqno, path))
      ensures cubicPp[path].cwnd == Cubic.MaxReal(1.0, 0.3 * old(cubicPp[path].cwnd))
      ensures forall q: PathId :: q != path ==> cubicPp[q] == old(cubicPp[q])
      ensures tx.chain == old(tx.chain) && SameOutside(old(socket.umem), socket.umem, tx.chain)
    {
      hide TrackOk, TrackShows, SameOutside, S.Retransmit, S.ShrinkWindow;
      ChainInUse(tx.Pointers(), msgbuf);
      ghost var u := S.Retransmit(t, msgbuf, seqno, path);
      Resend(msgbuf, seqno, path, t);
      var n: int := pcb.rtoRexmitsConsecutive;
      pcb.rtoRexmitsConsecutive := (n + 1) % 0x1_0000;
      var lossPath := table.GetPathId(seqno);
      ShrinkCwnd(lossPath, u.windows);
    }

    method ShrinkCwnd(path: PathId, ghost w: S.Windows)
      requires Valid() && w == cubicPp[..]
      modifies cubicPp
      ensures cubicPp[..] == S.ShrinkWindow(w, path)
      ensures cubicPp[path] == Cubic.OnLoss(old(cubicPp[path]))
      ensures forall q: PathId :: q != path ==> cubicPp[q] == old(cubicPp[q])
    {
      hide Cubic.OnLoss;
      assert S.WindowOk(w[path]) && cubicPp[path] == w[path];
      cubicPp[path] := Cubic.OnLoss(cubicPp[path]);
    }

    /** Take the head of the slot that came due; send its packet again unless it was acknowledged meanwhile. */
    method FireOldest(path: PathId, ghost t: S.Tx)
      requires Valid() && Shows(t) && t.wheels[t.tick] != [] && DueInChain(t, tx.chain)
      modifies Repr()
      ensures Valid() && Shows(S.FireOne(t, path))
      ensures tx.chain == old(tx.chain) && SameOutside(old(socket.umem), socket.umem, tx.chain)
    {
      hide TrackOk, TrackShows, SameOutside, S.RtoRetransmit, SeqGe;
      NothingOutside(socket.umem, tx.chain);
      var slot := pcb.wheels[pcb.rtoTick];
      var entry := slot[0];
      pcb.wheels := pcb.wheels[pcb.rtoTick := slot[1..]];
      if SeqGe(entry.seqno, pcb.sndUna) {
        RtoRetransmit(entry.buf, entry.seqno, path, t.(wheels := pcb.wheels));
      }
    }

    /** One tick of the slow timer: empty the slot that comes due. */
    method PeriodicCheck(env: S.Env, ghost t: S.Tx) returns (alive: bool)
      requires Valid() && Shows(t) && DueInChain(t.(tick := (t.tick + 1) % S.RTO_SLOTS), tx.chain)
      modifies Repr()
      ensures Valid() && Shows(S.PeriodicCheck(t, env)) && alive == !S.GivesUp(t)
      ensures tx.chain == old(tx.chain) && SameOutside(old(socket.umem), socket.umem, tx.chain)
    {
      hide TrackOk, TrackShows, SameOutside, S.FireOne, S.Drain, DueInChain;
      NothingOutside(socket.umem, tx.chain);
      if pcb.rtoRexmitsConsecutive >= S.RTO_MAX_CONSECUTIVE {
        return false;
      }
      pcb.AdvanceRtoTick();
      var i := 0;
      ghost var v := t.(tick := (t.tick + 1) % S.RTO_SLOTS);
      ghost var u := v;
      while pcb.wheels[pcb.rtoTick] != []
        invariant Valid() && Shows(u) && tx.chain == old(tx.chain) && DueInChain(u, tx.chain)
        invariant S.Drain(u, i, env) == S.Drain(v, 0, env)
        invariant SameOutside(old(socket.umem), socket.umem, tx.chain)
        decreases |pcb.wheels[pcb.rtoTick]|
      {
        ghost var before := socket.umem;
        DrainUnfolds(u, i, env);
        FireKeepsDue(u, env.pick(i), tx.chain);
        FireOldest(env.pick(i), u);
        OutsideTrans(old(socket.umem), before, socket.umem, tx.chain);
        u := S.FireOne(u, env.pick(i));
        i := i + 1;
      }
      DrainEnds(u, i, env);
      return true;
    }

    /** The path has no room in its window or carried a new packet too recently. */
    ghost predicate Unusable(path: PathId, now: Tsc, interval: nat)
      requires Valid()
      reads this, Repr()
    {
      cubicPp[path].cwnd < table.pp[path] as real + 1.0 || (now - table.lastTx[path]) % TWO64 < interval
    }

    /** Draw paths until one is usable, at most sixteen times. */
    method FindPath(pick: (nat, nat) -> PathId, i: nat, now: Tsc, interval: nat) returns (path: Option<PathId>)
      requires Valid()
      ensures path.Some? ==> Usable(table.pp[path.value], cubicPp[path.value], table.lastTx[path.value], now, interval)
      ensures path.None? ==> forall k: nat :: k < PATH_TRIES ==> Unusable(pick(i, k), now, interval)
    {
      var tries := 0;
      while tries < PATH_TRIES
        invariant 0 <= tries <= PATH_TRIES
        invariant forall k: nat :: k < tries ==> Unusable(pick(i, k), now, interval)
      {
        var p := pick(i, tries);
        if Usable(table.pp[p], cubicPp[p], table.lastTx[p], now, interval) {
          return Some(p);
        }
        tries := tries + 1;
      }
      return None;
    }

    /** Give a buffer of the chain the next sequence number and send it. */
    method SendNew(msgbuf: Off, path: PathId, now: Tsc, ghost t: S.Tx)
      requires Valid() && Shows(t) && msgbuf in tx.chain && msgbuf in socket.umem && msgbuf in t.mem
      modifies Repr()
      ensures Valid() && Shows(Numbered(t, msgbuf, path))
      ensures tx.chain == old(tx.chain) && SameOutside(old(socket.umem), socket.umem, tx.chain)
      ensures table.lastTx == old(table.lastTx)[path := now]
    {
      hide TrackOk, TrackShows, Cells, SameOutside, PathAccounting.Sent, PathAccounting.Slot, Numbered, S.WindowOk;
      HeaderKeepsTrack(tx.Pointers(), msgbuf, pcb.sndNxt, t);
      var seqno := pcb.GetSndNxt();
      table.RecordSent(seqno, path, now);
      socket.SendData(msgbuf, seqno);
      pcb.AddToRtoWheel(msgbuf, seqno);
      assert tx.Pointers() == WithHeader(old(tx.Pointers()), msgbuf, seqno);
      NumberedFields(t, msgbuf, path);
    }

    /** Send the oldest unsent buffer, if there is one, under the next sequence number. */
    method TransmitOne(path: PathId, now: Tsc, ghost t: S.Tx) returns (sent: bool)
      requires Valid() && Shows(t)
      modifies Repr()
      ensures Valid() && sent == (t.unsent != []) && (sent ==> t.unsent[0] in t.mem)
      ensures Shows(if sent then S.TransmitOne(t, path) else t)
      ensures tx.chain == old(tx.chain) && SameOutside(old(socket.umem), socket.umem, tx.chain)
      ensures table.lastTx == if sent then old(table.lastTx)[path := now] else old(table.lastTx)
      ensures !sent ==> table.View() == old(table.View()) && cubicPp[..] == old(cubicPp[..])
    {
      hide TrackOk, TrackShows, SameOutside, Numbered, S.TransmitOne;
      NothingOutside(socket.umem, tx.chain);
      OldestUnsentShown(tx.Pointers(), t);
      var msgbuf := tx.GetAndUpdateOldestUnsent(t);
      sent := msgbuf.Some?;
      if sent {
        SendNew(msgbuf.value, path, now, TakeUnsent(t));
        TransmitIsNumbered(t, path);
      }
    }

    /**
     * Send up to `permitted` unsent packets, each on a path with room. The packets sent are the steps of `Sender` on
     * `paths`; sending stops early only when nothing is left to send or sixteen draws in a row gave no usable path.
     */
    method TransmitPendingPackets(permitted: nat, pick: (nat, nat) -> PathId, now: Tsc, interval: nat, ghost t: S.Tx)
      returns (ghost paths: seq<PathId>, ghost u: S.Tx)
      requires Valid() && Shows(t)
      modifies Repr()
      ensures Valid() && Shows(u) && SendsOn(t, paths, u) && |paths| <= permitted
      ensures |paths| < permitted && u.unsent != [] ==>
        forall k: nat :: k < PATH_TRIES ==> Unusable(pick(|paths|, k), now, interval)
      ensures interval > 0 ==> forall i, j :: 0 <= i < j < |paths| ==> paths[i] != paths[j]
      ensures tx.chain == old(tx.chain) && SameOutside(old(socket.umem), socket.umem, tx.chain)
    {
      hide TrackOk, TrackShows, Cells, SameOutside, S.TransmitOne, SendsOn, Usable, S.Admits;
      NothingOutside(socket.umem, tx.chain);
      SendsNothing(t);
      paths, u := [], t;
      for i := 0 to permitted
        invariant Valid() && Shows(u) && SendsOn(t, paths, u) && |paths| == i
        invariant tx.chain == old(tx.chain) && SameOutside(old(socket.umem), socket.umem, tx.chain)
        invariant forall k :: 0 <= k < |paths| ==> table.lastTx[paths[k]] == now
        invariant interval > 0 ==> forall i, j :: 0 <= i < j < |paths| ==> paths[i] != paths[j]
      {
        var path := FindPath(pick, i, now, interval);
        if path.None? {
          return;
        }
        UsableAdmits(u, path.value, table.lastTx[path.value], now, interval);
        ghost var before := socket.umem;
        var sent := TransmitOne(path.value, now, u);
        OutsideTrans(old(socket.umem), before, socket.umem, tx.chain);
        if !sent {
          return;
        }
        SendsOneMore(t, paths, u, path.value);
        paths, u := paths + [path.value], S.TransmitOne(u, path.value);
      }
    }

    /** Hand what was sent to the network. */
    method Flush(ghost t: S.Tx) returns (packets: seq<Packet>)
      requires Valid() && Shows(t)
      modifies socket
      ensures Valid() && Shows(t.(out := [])) && packets == t.out
      ensures socket.umem == old(socket.umem)
    {
      hide TrackOk, TrackShows;
      packets := socket.Flush();
    }
  }

  // ----- Facts the walks use -----

  lemma NothingOutside(m: map<Off, FrameBuf>, chain: seq<Off>)
    ensures SameOutside(m, m, chain)
  {
  }

  lemma MovedIsOn(p: PathAccounting.Paths, seqno: U32, path: PathId)
    ensures PathAccounting.PathOf(PathAccounting.Moved(p, seqno, path), seqno) == path
  {
  }

  lemma OutsideTrans(a: map<Off, FrameBuf>, b: map<Off, FrameBuf>, c: map<Off, FrameBuf>, chain: seq<Off>)
    requires SameOutside(a, b, chain) && SameOutside(b, c, chain)
    ensures SameOutside(a, c, chain)
  {
  }

  lemma HeadShown(k: Track, t: S.Tx)
    requires TrackOk(k) && TrackShows(k, t.unacked, t.unsent, t.hasHead, t.mem)
    ensures t.hasHead <==> k.oldestUnacked.Some?
    ensures t.hasHead ==> k.chain != [] && k.oldestUnacked == Some(k.chain[0]) && k.chain[0] in k.umem
  {
    if k.chain != [] {
      assert LinkAt(k.umem, k.chain, 0);
    }
  }

  lemma LinkOf(k: Track, i: nat)
    requires TrackOk(k) && i < |k.chain|
    ensures LinkAt(k.umem, k.chain, i)
  {
  }

  lemma BufferShown(k: Track, t: S.Tx, i: nat)
    requires TrackOk(k) && TrackShows(k, t.unacked, t.unsent, t.hasHead, t.mem) && i < |k.chain|
    ensures k.chain[i] in k.umem && k.chain[i] in t.mem && t.mem[k.chain[i]].seqno == k.umem[k.chain[i]].seqno
    ensures k.umem[k.chain[i]].next == if i + 1 < |k.chain| then Some(k.chain[i + 1]) else None
    ensures S.Chain(t) == k.chain
  {
    hide TrackOk, S.Chain;
    LinkOf(k, i);
    ChainShown(k, t);
  }

  lemma RecoverUnfolds(t: S.Tx, words: Words, i: nat, left: nat, budget: nat, env: S.Env)
    requires i < budget <= BITS && left > 0 && i < |S.Chain(t)|
    ensures S.Recover(t, words, i, left, budget, env)
         == if TestWord(words[i / WORD_BITS], i % WORD_BITS)
            then S.Recover(t, words, i + 1, left - 1, budget, env)
            else S.Recover(S.RecoverOne(t, i, env.pick(i)), words, i + 1, left, budget, env)
  {
  }

  lemma RecoverEnds(t: S.Tx, words: Words, i: nat, left: nat, budget: nat, env: S.Env)
    requires budget <= BITS && (left == 0 || i >= budget || i >= |S.Chain(t)|)
    ensures S.Recover(t, words, i, left, budget, env) == t
  {
  }

  lemma RecoverOneSends(t: S.Tx, i: nat, path: PathId)
    requires i < |S.Chain(t)| && S.Chain(t)[i] in t.mem
    ensures var seqno: U32 := (t.una + i) % TWO32;
      S.RecoverOne(t, i, path)
      == if t.mem[S.Chain(t)[i]].seqno == seqno then S.Retransmit(t, S.Chain(t)[i], seqno, path) else t
  {
  }

  lemma RetransmitLeavesChain(t: S.Tx, buf: Off, seqno: U32, path: PathId)
    ensures S.Chain(S.Retransmit(t, buf, seqno, path)) == S.Chain(t)
  {
  }

  lemma NextNumber(una: U32, i: nat)
    ensures ((una + i) % TWO32 + 1) % TWO32 == (una + (i + 1)) % TWO32
  {
  }

  /** Every due entry that will be sent again points into the chain. */
  ghost predicate DueInChain(t: S.Tx, chain: seq<Off>) {
    forall e :: e in t.wheels[t.tick] && SeqGe(e.seqno, t.una) ==> e.buf in chain
  }

  lemma ChainInUse(k: Track, o: Off)
    requires TrackOk(k) && o in k.chain
    ensures o in k.umem
  {
    var i :| 0 <= i < |k.chain| && k.chain[i] == o;
    assert LinkAt(k.umem, k.chain, i);
  }

  lemma DrainUnfolds(t: S.Tx, i: nat, env: S.Env)
    requires t.wheels[t.tick] != []
    ensures S.Drain(t, i, env) == S.Drain(S.FireOne(t, env.pick(i)), i + 1, env)
  {
  }

  lemma DrainEnds(t: S.Tx, i: nat, env: S.Env)
    requires t.wheels[t.tick] == []
    ensures S.Drain(t, i, env) == t
  {
  }

  lemma FireKeepsDue(t: S.Tx, path: PathId, chain: seq<Off>)
    requires t.wheels[t.tick] != [] && DueInChain(t, chain)
    ensures var u := S.FireOne(t, path);
      DueInChain(u, chain) && u.tick == t.tick && u.wheels[u.tick] == t.wheels[t.tick][1..]
  {
    S.FireOneShortensSlot(t, path);
    var u := S.FireOne(t, path);
    assert u.una == t.una;
    forall e | e in u.wheels[u.tick]
      ensures e in t.wheels[t.tick]
    {
    }
  }

  /** Room in the window, and quiet for `interval` cycles of a 64-bit counter. */
  predicate Usable(inFlight: U16, window: Cubic.Window, lastTx: Tsc, now: Tsc, interval: nat) {
    && inFlight + S.SWITCH_PATH_THRES <= window.cwnd.Floor
    && (now - lastTx) % TWO64 >= interval
  }

  lemma UsableAdmits(t: S.Tx, path: PathId, lastTx: Tsc, now: Tsc, interval: nat)
    requires Usable(t.paths.pp[path], t.windows[path], lastTx, now, interval)
    ensures S.Admits(t, path) && (interval > 0 ==> lastTx != now)
  {
  }

  /** `u` comes from `t` by sending the oldest unsent packet on each of `paths` in turn, each with room for it. */
  ghost predicate SendsOn(t: S.Tx, paths: seq<PathId>, u: S.Tx)
    decreases |paths|
  {
    if paths == [] then u == t
    else
      && t.unsent != [] && t.unsent[0] in t.mem && S.Admits(t, paths[0])
      && SendsOn(S.TransmitOne(t, paths[0]), paths[1..], u)
  }

  lemma SendsNothing(t: S.Tx)
    ensures SendsOn(t, [], t)
  {
  }

  lemma {:induction false} SendsOneMore(t: S.Tx, paths: seq<PathId>, u: S.Tx, path: PathId)
    requires SendsOn(t, paths, u) && u.unsent != [] && u.unsent[0] in u.mem && S.Admits(u, path)
    ensures SendsOn(t, paths + [path], S.TransmitOne(u, path))
    decreases |paths|
  {
    if paths == [] {
      assert paths + [path] == [path];
      SendsNothing(S.TransmitOne(u, path));
    } else {
      SendsOneMore(S.TransmitOne(t, paths[0]), paths[1..], u, path);
      assert (paths + [path])[1..] == paths[1..] + [path];
    }
  }

  function TakeUnsent(t: S.Tx): S.Tx
    requires t.unsent != []
  {
    t.(unacked := t.unacked + [t.unsent[0]], unsent := t.unsent[1..], hasHead := true)
  }

  /** The state after a buffer went out under the next number. */
  function Numbered(t: S.Tx, buf: Off, path: PathId): S.Tx
    requires buf in t.mem
  {
    var u := t.(nxt := (t.nxt + 1) % TWO32, paths := PathAccounting.Sent(t.paths, t.nxt, path));
    S.AddToWheel(S.SendBuffer(u, buf, t.nxt), buf, t.nxt)
  }

  lemma NumberedFields(t: S.Tx, buf: Off, path: PathId)
    requires buf in t.mem
    ensures var u, r := Numbered(t, buf, path), S.ReadySlot(t.tick);
      u == t.(nxt := Wrap(t.nxt + 1), paths := PathAccounting.Sent(t.paths, t.nxt, path),
              mem := t.mem[buf := t.mem[buf].(seqno := t.nxt)], out := t.out + [Data(t.nxt, t.mem[buf].frame)],
              wheels := t.wheels[r := t.wheels[r] + [S.Ent(buf, t.nxt)]])
  {
  }

  lemma TransmitIsNumbered(t: S.Tx, path: PathId)
    requires t.unsent != [] && t.unsent[0] in t.mem
    ensures S.TransmitOne(t, path) == Numbered(TakeUnsent(t), t.unsent[0], path)
  {
  }

  lemma OldestUnsentShown(k: Track, t: S.Tx)
    requires TrackOk(k) && TrackShows(k, t.unacked, t.unsent, t.hasHead, t.mem)
    ensures t.unsent != [] ==> t.unsent[0] in t.mem && t.unsent[0] in k.umem && t.unsent[0] in k.chain
  {
    if t.unsent != [] {
      assert LinkAt(k.umem, k.chain, k.numUnacked);
    }
  }

  /** A new flow: an empty chain, all numbers zero, windows open for one packet. */
  method NewFlow(frames: set<Off>) returns (flow: UcclFlow)
    ensures fresh(flow) && fresh(flow.Repr()) && flow.Valid() && flow.Shows(S.Initial(frames))
  {
    hide PathAccounting.Empty, TrackOk;
    var socket := new Socket(frames);
    var tx := new TxTracking(socket);
    var pcb := new Pcb.Pcb();
    var table := new PathTable();
    var w := Cubic.Initial(PLATFORM.maxUnackedPp);
    var cubicPp := new Cubic.Window[PLATFORM.maxPath](_ => w);
    assert cubicPp[..] == seq(PLATFORM.maxPath, _ => Cubic.Initial(PLATFORM.maxUnackedPp));
    flow := new UcclFlow(socket, tx, pcb, table, cubicPp);
    assert tx.chain[..0] == [] && Cells(map[]) == map[];
  }
}
