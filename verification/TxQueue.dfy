/**
 * Messages on their way to the transmit chain. A message arrives as a chain of filled buffers; its buffers are flagged and
 * hung behind the unsent ones as far as there is room, and what does not fit waits as a shorter chain.
 */
module TxQueue {
  import opened Messages
  import opened Packets
  import opened TxTracking
  import S = Sender
  import SI = SenderInvariants
  import SM = SenderMessages

  /** A message the application handed over: its first buffer still waiting, its length, and how much has left already. */
  datatype TxWork = TxWork(deserMsgs: Option<Off>, len: nat, offset: nat, ctx: S.Ctx)

  /** The work item stands for the queued message `p`: its buffers are linked and carry no flags yet. */
  ghost predicate WorkShows(umem: map<Off, FrameBuf>, w: TxWork, p: S.Pending) {
    && p.chunks != [] && Linked(umem, p.chunks)
    && w == TxWork(Some(p.chunks[0]), p.len, p.offset, p.ctx)
    && forall i :: 0 <= i < |p.chunks| ==> BlankAt(umem, p.chunks, i)
  }

  ghost predicate BlankAt(umem: map<Off, FrameBuf>, offs: seq<Off>, i: nat)
    requires i < |offs|
  {
    offs[i] in umem && !umem[offs[i]].frame.first && !umem[offs[i]].frame.last
  }

  ghost predicate QueueShows(umem: map<Off, FrameBuf>, works: seq<TxWork>, ps: seq<S.Pending>) {
    |works| == |ps| && forall i :: 0 <= i < |ps| ==> WorkShows(umem, works[i], ps[i])
  }

  /** The first `n` buffers carry `frames` now; nothing else changed. */
  ghost predicate Filled(before: map<Off, FrameBuf>, umem: map<Off, FrameBuf>, bufs: seq<Off>, frames: seq<Frame>, n: nat)
    requires n <= |bufs| && n <= |frames|
  {
    && umem.Keys == before.Keys
    && (forall i :: 0 <= i < n ==> bufs[i] in before && umem[bufs[i]] == before[bufs[i]].(frame := frames[i]))
    && (forall o :: o in before && o !in bufs[..n] ==> umem[o] == before[o])
  }

  lemma FilledOneMore(before: map<Off, FrameBuf>, umem: map<Off, FrameBuf>, bufs: seq<Off>, frames: seq<Frame>, n: nat)
    requires n < |bufs| && n < |frames| && Distinct(bufs) && Filled(before, umem, bufs, frames, n) && bufs[n] in before
    ensures Filled(before, umem[bufs[n] := before[bufs[n]].(frame := frames[n])], bufs, frames, n + 1)
  {
    assert bufs[..n + 1] == bufs[..n] + [bufs[n]];
    forall i | 0 <= i < n
      ensures bufs[i] != bufs[n]
    {
    }
  }

  /** The flags of a buffer follow from the bytes before it and after it. */
  lemma FrameAt(mem: map<Off, S.Cell>, p: S.Pending, i: nat)
    requires S.PendingOk(mem, p) && i < |p.chunks|
    ensures var pieces, left := S.PayloadsIn(mem, p.chunks), p.len - p.offset;
      && Total(pieces[..i + 1]) == Total(pieces[..i]) + |pieces[i]| <= left
      && |S.FramesToCome(mem, p)| == |p.chunks|
      && S.FramesToCome(mem, p)[i]
         == Frame(pieces[i], left - Total(pieces[..i]) == p.len, left - Total(pieces[..i + 1]) == 0)
  {
    var pieces, left := S.PayloadsIn(mem, p.chunks), p.len - p.offset;
    S.FlaggedLength(pieces, p.len, left);
    FlaggedSplit(pieces, p.len, left, i);
    S.FlaggedLength(pieces[..i], p.len, left);
    TotalSplit(pieces, i + 1);
    TotalSplit(pieces[..i + 1], i);
    assert pieces[..i + 1][..i] == pieces[..i] && pieces[..i + 1][i..] == [pieces[i]];
    assert Total([pieces[i]]) == |pieces[i]|;
  }

  /** What is left of a message after `n` buffers is nothing exactly when those were all. */
  lemma NothingLeft(mem: map<Off, S.Cell>, p: S.Pending, n: nat)
    requires S.PendingOk(mem, p) && n <= |p.chunks|
    ensures Total(S.PayloadsIn(mem, p.chunks)[..n]) <= p.len - p.offset
    ensures Total(S.PayloadsIn(mem, p.chunks)[..n]) == p.len - p.offset <==> n == |p.chunks|
  {
    var pieces := S.PayloadsIn(mem, p.chunks);
    TotalSplit(pieces, n);
    SM.TotalOfNonEmpty(pieces[n..]);
    assert pieces[n..] == [] <==> n == |p.chunks|;
  }

  class TxQueue {
    const socket: Socket
    const tx: TxTracking
    var pendingTxMsgs: seq<TxWork>
    var doneAtOnce: seq<S.Ctx>     // contexts of messages without a single byte

    constructor (socket: Socket, tx: TxTracking)
      ensures this.socket == socket && this.tx == tx && pendingTxMsgs == [] && doneAtOnce == []
    {
      this.socket, this.tx, pendingTxMsgs, doneAtOnce := socket, tx, [], [];
    }

    /** Walk a message's buffers, setting the flags of its first and last one, until they or the budget are used up. */
    method FlagBuffers(work: TxWork, budget: nat, ghost p: S.Pending)
      returns (tail: Option<Off>, cur: Option<Off>, numFrames: nat, remaining: nat)
      requires WorkShows(socket.umem, work, p) && S.PendingOk(Cells(socket.umem), p)
      modifies socket`umem
      ensures numFrames == Min(|p.chunks|, budget)
      ensures tail == if numFrames == 0 then None else Some(p.chunks[numFrames - 1])
      ensures cur == if numFrames < |p.chunks| then Some(p.chunks[numFrames]) else None
      ensures remaining == p.len - p.offset - Total(old(S.PayloadsIn(Cells(socket.umem), p.chunks))[..numFrames])
      ensures |old(S.FramesToCome(Cells(socket.umem), p))| == |p.chunks|
      ensures Filled(old(socket.umem), socket.umem, p.chunks, old(S.FramesToCome(Cells(socket.umem), p)), numFrames)
    {
      hide S.PendingOk, Filled, Cells, Distinct, Total, S.PayloadsIn, S.FramesToCome;
      ghost var before := socket.umem;
      StartFilling(before, p);
      ghost var frames, pieces := S.FramesToCome(Cells(before), p), S.PayloadsIn(Cells(before), p.chunks);
      tail, cur, numFrames, remaining := None, work.deserMsgs, 0, work.len - work.offset;
      while cur.Some? && numFrames < budget
        invariant numFrames <= Min(|p.chunks|, budget)
        invariant tail == if numFrames == 0 then None else Some(p.chunks[numFrames - 1])
        invariant cur == if numFrames < |p.chunks| then Some(p.chunks[numFrames]) else None
        invariant remaining == p.len - p.offset - Total(pieces[..numFrames])
        invariant Filled(before, socket.umem, p.chunks, frames, numFrames)
        decreases budget - numFrames
      {
        var msgbuf := cur.value;
        ghost var now := socket.umem;
        FillStep(before, now, p, numFrames);
        if remaining == work.len {
          socket.MarkFirst(msgbuf);
        }
        remaining := remaining - |socket.umem[msgbuf].frame.payload|;
        if remaining == 0 {
          assert socket.umem[msgbuf].next == None by {
            NothingLeft(Cells(before), p, numFrames + 1);
          }
          socket.MarkLast(msgbuf);
        }
        assert socket.umem == now[msgbuf := socket.umem[msgbuf]];
        tail, cur := cur, socket.umem[msgbuf].next;
        numFrames := numFrames + 1;
      }
    }

    /** Flag the buffers of the first queued message that fit, and cut them off from the others. */
    method TakeFitting(ghost t: S.Tx) returns (tail: Off, cur: Option<Off>, numFrames: nat, remaining: nat)
      requires tx.socket == socket && tx.Valid() && tx.Shows(t) && SI.Owned(t) && S.CanAppend(t)
      requires QueueShows(socket.umem, pendingTxMsgs, t.pending)
      modifies socket`umem
      ensures numFrames == S.Fitting(t) > 0 && tail == t.pending[0].chunks[numFrames - 1]
      ensures numFrames < |t.pending[0].chunks| ==> cur == Some(t.pending[0].chunks[numFrames])
      ensures remaining == 0 <==> numFrames == |t.pending[0].chunks|
      ensures remaining > 0 ==> pendingTxMsgs[0].len - remaining == S.Shortened(t).offset
      ensures CutOut(old(socket.umem), socket.umem, t.pending[0].chunks[..numFrames], S.FittingFrames(t))
    {
      hide TrackOk, TrackShows, SI.Owned, WorkShows, Cells, S.PendingOk, S.FittingFrames, S.FramesToCome;
      hide Filled, CutOut, Total, S.PayloadsIn, Distinct, Linked, S.Chain;
      ghost var p, n, umem := t.pending[0], S.Fitting(t), socket.umem;
      var work := pendingTxMsgs[0];
      TrackIsLinked(tx.Pointers(), t);
      ChainShown(tx.Pointers(), t);
      assert WorkShows(socket.umem, work, p);
      WorkFields(socket.umem, work, p);
      FittingBuffers(t);
      var last: Option<Off>;
      last, cur, numFrames, remaining := FlagBuffers(work, S.MAX_TW_PKTS - tx.numUnsent, p);
      tail := last.value;
      FilledIsCutOut(umem, socket.umem, p.chunks, S.FramesToCome(t.mem, p), n);
      socket.SetNext(tail, None);
      NothingLeft(t.mem, p, n);
      ShortenedOffset(t);
    }

    /** Flag as many buffers of the first queued message as fit and hang them behind the chain. */
    method AppendMessage(ghost t: S.Tx)
      requires tx.socket == socket && tx.Valid() && tx.Shows(t) && SI.Owned(t) && S.CanAppend(t)
      requires QueueShows(socket.umem, pendingTxMsgs, t.pending)
      modifies `pendingTxMsgs, tx, socket`umem
      ensures tx.Valid() && tx.Shows(S.AppendOnce(t))
      ensures QueueShows(socket.umem, pendingTxMsgs, S.AppendOnce(t).pending)
    {
      hide TrackOk, TrackShows, SI.Owned, S.AppendOnce, WorkShows, Cells, S.PendingOk, S.FittingFrames, S.Shortened;
      hide CutOut, S.PutFrames, Distinct, Linked, Appended, SameQueued, S.Chain, SI.PendingBufs;
      ghost var k, works := tx.Pointers(), pendingTxMsgs;
      ghost var taken := t.pending[0].chunks[..S.Fitting(t)];
      var work := pendingTxMsgs[0];
      assert WorkShows(socket.umem, work, t.pending[0]);
      WorkFields(socket.umem, work, t.pending[0]);
      FittingBuffers(t);
      ChainShown(k, t);
      var tail, cur, numFrames, remaining := TakeFitting(t);
      ghost var cut := socket.umem;
      CutOutTrack(k, t, cut, taken, S.FittingFrames(t));
      CutOutHead(k.umem, cut, taken, S.FittingFrames(t));
      if remaining == 0 {
        pendingTxMsgs := pendingTxMsgs[1..];
      } else {
        pendingTxMsgs := [work.(deserMsgs := cur, offset := work.len - remaining)] + pendingTxMsgs[1..];
      }
      var first := socket.umem[work.deserMsgs.value].frame.first;
      tx.Append(work.deserMsgs, Some(tail), numFrames, if first then Some(work.ctx) else None, taken,
                t.(mem := S.AppendOnce(t).mem));
      SM.AppendLeaves(t);
      AppendedSame(k, t, cut);
      TrackIsLinked(k, t);
      QueueAfter(k.umem, socket.umem, t, works, pendingTxMsgs);
    }

    /** Append queued messages until the queue is empty or the chain holds enough unsent buffers. */
    method DeserializeAndAppend(ghost t: S.Tx)
      requires tx.socket == socket && tx.Valid() && tx.Shows(t) && SI.Owned(t) && SM.QueueOk(t)
      requires QueueShows(socket.umem, pendingTxMsgs, t.pending)
      modifies `pendingTxMsgs, tx, socket`umem
      ensures tx.Valid() && tx.Shows(AppendAll(t)) && QueueShows(socket.umem, pendingTxMsgs, AppendAll(t).pending)
      decreases S.MAX_TW_PKTS - |t.unsent|
    {
      hide TrackOk, TrackShows, SI.Owned, S.AppendOnce, WorkShows, Cells, S.PendingOk, S.FittingFrames, SM.QueueOk;
      AppendAllStep(t);
      ChainShown(tx.Pointers(), t);
      if pendingTxMsgs == [] || tx.numUnsent >= S.MAX_TW_PKTS {
        return;
      }
      AppendMessage(t);
      DeserializeAndAppend(S.AppendOnce(t));
    }

    /** Fill a fresh buffer and hang it behind the one before it. */
    method ChainFrame(tail: Option<Off>, payload: seq<Byte>, ghost before: map<Off, FrameBuf>, ghost bufs: seq<Off>,
                      ghost pieces: seq<seq<Byte>>) returns (msgbuf: Off)
      requires Segmented(before, socket.umem, bufs, pieces) && socket.pool != {} && socket.pool !! socket.umem.Keys
      requires tail == (if bufs == [] then None else Some(bufs[|bufs| - 1]))
      modifies socket
      ensures Segmented(before, socket.umem, bufs + [msgbuf], pieces + [payload])
      ensures msgbuf in old(socket.pool) && socket.pool == old(socket.pool) - {msgbuf} && socket.sent == old(socket.sent)
      ensures socket.pool !! socket.umem.Keys
    {
      hide Segmented;
      ghost var umem := socket.umem;
      msgbuf := socket.NewFrame(payload);
      if tail.Some? {
        SegmentedTail(before, umem, bufs, pieces);
        socket.SetNext(tail.value, Some(msgbuf));
      }
      SegmentedOneMore(before, umem, bufs, pieces, msgbuf, payload, socket.umem);
    }

    /**
     * Cut a message into a chain of fresh buffers. The program stops when the pool runs empty on the way, and at the last
     * line, where it dereferences the tail, if there is no buffer at all; otherwise, and only then, `ok` is returned.
     */
    method Segment(msg: seq<Byte>) returns (head: Option<Off>, ok: bool, ghost bufs: seq<Off>)
      requires socket.pool !! socket.umem.Keys
      modifies socket
      ensures ok <==> msg != [] && |Chunks(msg)| <= |old(socket.pool)|
      ensures |bufs| <= |Chunks(msg)| && Segmented(old(socket.umem), socket.umem, bufs, Chunks(msg)[..|bufs|])
      ensures AsSet(bufs) <= old(socket.pool) && socket.pool == old(socket.pool) - AsSet(bufs)
      ensures socket.sent == old(socket.sent)
      ensures ok ==> bufs != [] && head == Some(bufs[0]) && |bufs| == |Chunks(msg)|
    {
      hide Segmented, AsSet, Chunks, FromPool, CutUpTo;
      ghost var pieces: seq<seq<Byte>>, before := [], socket.umem;
      bufs := [];
      NothingSegmented(before, socket.pool);
      NothingCut(msg);
      var first, tail: Option<Off>, cursor := None, None, 0;
      while cursor < |msg|
        invariant cursor <= |msg| && CutUpTo(msg, cursor, pieces) && (cursor > 0 <==> bufs != [])
        invariant first == (if bufs == [] then None else Some(bufs[0]))
        invariant tail == (if bufs == [] then None else Some(bufs[|bufs| - 1]))
        invariant |pieces| == |bufs| && Segmented(before, socket.umem, bufs, pieces)
        invariant FromPool(old(socket.pool), socket.pool, bufs) && socket.pool !! socket.umem.Keys
        invariant socket.sent == old(socket.sent)
        decreases |msg| - cursor
      {
        var n := Min(|msg| - cursor, MAX_PAYLOAD);
        PiecesSoFar(msg, cursor, pieces);
        NextChunk(msg, cursor, pieces);
        if socket.pool == {} {
          AllTaken(old(socket.pool), bufs);
          FromPoolAll(old(socket.pool), socket.pool, bufs);
          return None, false, bufs;
        }
        ghost var pool := socket.pool;
        var msgbuf := ChainFrame(tail, msg[cursor..cursor + n], before, bufs, pieces);
        FromPoolOneMore(old(socket.pool), pool, bufs, msgbuf);
        if first.None? {
          first := Some(msgbuf);
        }
        tail := Some(msgbuf);
        bufs, pieces := bufs + [msgbuf], pieces + [msg[cursor..cursor + n]];
        cursor := cursor + n;
      }
      PiecesSoFar(msg, cursor, pieces);
      AllCut(msg, pieces);
      FromPoolAll(old(socket.pool), socket.pool, bufs);
      head, ok := first, tail.Some?;
    }

    /** Queue a message behind the others. */
    method Enqueue(msg: seq<Byte>, ctx: S.Ctx, ghost t: S.Tx) returns (ok: bool, ghost bufs: seq<Off>)
      requires tx.socket == socket && tx.Valid() && tx.Shows(t) && SI.Owned(t)
      requires QueueShows(socket.umem, pendingTxMsgs, t.pending)
      modifies `pendingTxMsgs, socket
      ensures ok <==> msg != [] && |Chunks(msg)| <= |t.pool|
      ensures ok ==> SM.FreeFor(t, msg, bufs) && |bufs| == |Chunks(msg)|
      ensures ok ==> tx.Valid() && tx.Shows(S.Submit(t, msg, bufs, ctx))
      ensures ok ==> QueueShows(socket.umem, pendingTxMsgs, S.Submit(t, msg, bufs, ctx).pending)
    {
      hide TrackOk, TrackShows, SI.Owned, WorkShows, Cells, Segmented, AsSet, Chunks, S.PutFrames, SM.FreeFor;
      ghost var before, works := tx.Pointers(), pendingTxMsgs;
      TrackIsLinked(before, t);
      PoolIsApart(before.umem, t);
      var head;
      head, ok, bufs := Segment(msg);
      if !ok {
        return;
      }
      assert Chunks(msg)[..|bufs|] == Chunks(msg);
      pendingTxMsgs := pendingTxMsgs + [TxWork(head, |msg|, 0, ctx)];
      SegmentedIsFree(before.umem, socket.umem, bufs, msg, t);
      SegmentedTrack(before, socket.umem, bufs, Chunks(msg), t);
      SegmentedQueue(before.umem, socket.umem, bufs, msg, ctx, works, t.pending);
    }

    /**
     * A message from the application: it is queued, and what fits goes to the chain at once. One without a single byte is
     * done at once. The program stops if there are not enough free buffers for the message.
     */
    method TxMessages(msg: seq<Byte>, ctx: S.Ctx, ghost t: S.Tx) returns (ok: bool, ghost bufs: seq<Off>)
      requires tx.socket == socket && tx.Valid() && tx.Shows(t) && SI.Owned(t) && SM.QueueOk(t)
      requires QueueShows(socket.umem, pendingTxMsgs, t.pending)
      modifies this, tx, socket
      ensures ok <==> |Chunks(msg)| <= |t.pool|
      ensures doneAtOnce == old(doneAtOnce) + if msg == [] then [ctx] else []
      ensures msg == [] ==> pendingTxMsgs == old(pendingTxMsgs) && unchanged(tx) && unchanged(socket)
      ensures ok && msg != [] ==> SM.FreeFor(t, msg, bufs) && |bufs| == |Chunks(msg)|
      ensures ok && msg != [] ==> var u := S.Submit(t, msg, bufs, ctx);
        && SI.Owned(u) && SM.QueueOk(u) && tx.Valid() && tx.Shows(AppendAll(u))
        && QueueShows(socket.umem, pendingTxMsgs, AppendAll(u).pending)
    {
      hide TrackOk, TrackShows, SI.Owned, WorkShows, Cells, Chunks, SM.QueueOk, SM.FreeFor, S.Submit, AppendAll;
      NoChunks(msg);
      if msg == [] {
        doneAtOnce := doneAtOnce + [ctx];
        return true, [];
      }
      ok, bufs := Enqueue(msg, ctx, t);
      if !ok {
        return;
      }
      SubmitKeepsQueue(t, msg, bufs, ctx);
      DeserializeAndAppend(S.Submit(t, msg, bufs, ctx));
    }
  }

  // ----- Segmenting -----

  /** `umem` is `before` with a chain of new, unflagged buffers holding `pieces`. */
  ghost predicate Segmented(before: map<Off, FrameBuf>, umem: map<Off, FrameBuf>, bufs: seq<Off>, pieces: seq<seq<Byte>>) {
    && |bufs| == |pieces| && Linked(umem, bufs) && umem.Keys == before.Keys + AsSet(bufs)
    && (forall o :: o in before ==> umem[o] == before[o])
    && (forall i :: 0 <= i < |bufs| ==> NewAt(before, umem, bufs, pieces, i))
  }

  ghost predicate NewAt(before: map<Off, FrameBuf>, umem: map<Off, FrameBuf>, bufs: seq<Off>, pieces: seq<seq<Byte>>, i: nat)
    requires i < |bufs| == |pieces|
  {
    bufs[i] !in before && bufs[i] in umem
    && umem[bufs[i]].seqno == 0 && umem[bufs[i]].frame == Frame(pieces[i], false, false)
  }

  lemma NothingSegmented(umem: map<Off, FrameBuf>, pool: set<Off>)
    ensures Segmented(umem, umem, [], []) && FromPool(pool, pool, [])
  {
  }

  /** `pieces` are the chunks of the message up to `cursor`. */
  ghost predicate CutUpTo(msg: seq<Byte>, cursor: nat, pieces: seq<seq<Byte>>) {
    cursor <= |msg| && Chunks(msg) == pieces + Chunks(msg[cursor..])
  }

  lemma NothingCut(msg: seq<Byte>)
    ensures CutUpTo(msg, 0, [])
  {
    assert msg[0..] == msg;
  }

  lemma AllCut(msg: seq<Byte>, pieces: seq<seq<Byte>>)
    requires CutUpTo(msg, |msg|, pieces)
    ensures pieces == Chunks(msg)
  {
    assert msg[|msg|..] == [];
  }

  lemma NextChunk(msg: seq<Byte>, cursor: nat, pieces: seq<seq<Byte>>)
    requires cursor < |msg| && CutUpTo(msg, cursor, pieces)
    ensures var n := Min(|msg| - cursor, MAX_PAYLOAD);
      n > 0 && |pieces| < |Chunks(msg)| && CutUpTo(msg, cursor + n, pieces + [msg[cursor..cursor + n]])
  {
    var n := Min(|msg| - cursor, MAX_PAYLOAD);
    assert msg[cursor..][..n] == msg[cursor..cursor + n] && msg[cursor..][n..] == msg[cursor + n..];
  }

  /** The buffers come out of the pool, each once. */
  ghost predicate FromPool(before: set<Off>, pool: set<Off>, bufs: seq<Off>) {
    AsSet(bufs) <= before && pool == before - AsSet(bufs) && |AsSet(bufs)| == |bufs|
  }

  lemma FromPoolOneMore(before: set<Off>, pool: set<Off>, bufs: seq<Off>, b: Off)
    requires FromPool(before, pool, bufs) && b in pool
    ensures FromPool(before, pool - {b}, bufs + [b])
  {
    assert AsSet(bufs + [b]) == AsSet(bufs) + {b};
  }

  lemma FromPoolAll(before: set<Off>, pool: set<Off>, bufs: seq<Off>)
    requires FromPool(before, pool, bufs)
    ensures AsSet(bufs) <= before && pool == before - AsSet(bufs) && |bufs| <= |before|
  {
    assert |before - AsSet(bufs)| == |before| - |AsSet(bufs)|;
  }

  lemma AllTaken(before: set<Off>, bufs: seq<Off>)
    requires FromPool(before, {}, bufs)
    ensures |bufs| == |before|
  {
    assert |before - AsSet(bufs)| == |before| - |AsSet(bufs)|;
  }

  lemma PiecesSoFar(msg: seq<Byte>, cursor: nat, pieces: seq<seq<Byte>>)
    requires CutUpTo(msg, cursor, pieces)
    ensures |pieces| <= |Chunks(msg)| && Chunks(msg)[..|pieces|] == pieces
  {
  }

  lemma NoChunks(msg: seq<Byte>)
    ensures Chunks(msg) == [] <==> msg == []
  {
  }

  lemma SegmentedTail(before: map<Off, FrameBuf>, umem: map<Off, FrameBuf>, bufs: seq<Off>, pieces: seq<seq<Byte>>)
    requires Segmented(before, umem, bufs, pieces) && bufs != []
    ensures bufs[|bufs| - 1] in umem
  {
    assert LinkAt(umem, bufs, |bufs| - 1);
  }

  lemma SegmentedOneMore(before: map<Off, FrameBuf>, umem: map<Off, FrameBuf>, bufs: seq<Off>, pieces: seq<seq<Byte>>,
                         b: Off, piece: seq<Byte>, umem2: map<Off, FrameBuf>)
    requires Segmented(before, umem, bufs, pieces) && b !in umem
    requires bufs != [] ==> bufs[|bufs| - 1] in umem
    requires var m := umem[b := FrameBuf(None, 0, Frame(piece, false, false))];
      umem2 == if bufs == [] then m else m[bufs[|bufs| - 1] := m[bufs[|bufs| - 1]].(next := Some(b))]
    ensures Segmented(before, umem2, bufs + [b], pieces + [piece])
  {
    var c := bufs + [b];
    forall i | 0 <= i < |c|
      ensures LinkAt(umem2, c, i) && NewAt(before, umem2, c, pieces + [piece], i)
    {
      if i < |bufs| {
        assert LinkAt(umem, bufs, i) && NewAt(before, umem, bufs, pieces, i);
      }
    }
    assert bufs != [] ==> NewAt(before, umem, bufs, pieces, |bufs| - 1);
    assert AsSet(c) == AsSet(bufs) + {b};
  }

  lemma StartFilling(umem: map<Off, FrameBuf>, p: S.Pending)
    requires S.PendingOk(Cells(umem), p)
    ensures forall b :: b in p.chunks ==> b in Cells(umem)
    ensures |S.FramesToCome(Cells(umem), p)| == |p.chunks| == |S.PayloadsIn(Cells(umem), p.chunks)|
    ensures Filled(umem, umem, p.chunks, S.FramesToCome(Cells(umem), p), 0)
    ensures Total(S.PayloadsIn(Cells(umem), p.chunks)[..0]) == 0 && p.offset < p.len
  {
    S.FlaggedLength(S.PayloadsIn(Cells(umem), p.chunks), p.len, p.len - p.offset);
  }

  /** The buffer the walk has come to, and the flags it will get. */
  lemma FillStep(before: map<Off, FrameBuf>, umem: map<Off, FrameBuf>, p: S.Pending, n: nat)
    requires S.PendingOk(Cells(before), p) && n < |p.chunks| && |S.FramesToCome(Cells(before), p)| == |p.chunks|
    requires Linked(before, p.chunks) && BlankAt(before, p.chunks, n)
    requires Filled(before, umem, p.chunks, S.FramesToCome(Cells(before), p), n)
    ensures var b, pieces, left := p.chunks[n], S.PayloadsIn(Cells(before), p.chunks), p.len - p.offset;
      && b in umem && b in before && umem[b] == before[b] && !umem[b].frame.first && !umem[b].frame.last
      && umem[b].next == (if n + 1 < |p.chunks| then Some(p.chunks[n + 1]) else None)
      && Total(pieces[..n + 1]) == Total(pieces[..n]) + |umem[b].frame.payload| <= left
      && Filled(before, umem[b := umem[b].(frame := Frame(umem[b].frame.payload, left - Total(pieces[..n]) == p.len,
                                                          left - Total(pieces[..n + 1]) == 0))],
                p.chunks, S.FramesToCome(Cells(before), p), n + 1)
  {
    assert LinkAt(before, p.chunks, n);
    FrameAt(Cells(before), p, n);
    FilledOneMore(before, umem, p.chunks, S.FramesToCome(Cells(before), p), n);
    assert p.chunks[n] !in p.chunks[..n];
  }

  // ----- Appending the flagged buffers -----

  /** The memory after the last flagged buffer was cut off from the ones that stay behind. */
  function CutAfter(umem: map<Off, FrameBuf>, taken: seq<Off>): map<Off, FrameBuf>
    requires taken != [] && taken[|taken| - 1] in umem
  {
    var last := taken[|taken| - 1];
    umem[last := umem[last].(next := None)]
  }

  /** `umem` is `before` with the buffers `taken` filled and linked to one another; nothing else changed. */
  ghost predicate CutOut(before: map<Off, FrameBuf>, umem: map<Off, FrameBuf>, taken: seq<Off>, frames: seq<Frame>) {
    && |frames| == |taken| && umem.Keys == before.Keys
    && (forall o :: o in before && o !in taken ==> umem[o] == before[o])
    && (forall i :: 0 <= i < |taken| ==> CutAt(before, umem, taken, frames, i))
  }

  ghost predicate CutAt(before: map<Off, FrameBuf>, umem: map<Off, FrameBuf>, taken: seq<Off>, frames: seq<Frame>, i: nat)
    requires i < |taken| == |frames|
  {
    && taken[i] in before && taken[i] in umem
    && umem[taken[i]] == before[taken[i]].(frame := frames[i], next := if i + 1 < |taken| then Some(taken[i + 1]) else None)
  }

  lemma FilledIsCutOut(before: map<Off, FrameBuf>, umem: map<Off, FrameBuf>, bufs: seq<Off>, frames: seq<Frame>, n: nat)
    requires Linked(before, bufs) && 0 < n <= |bufs| == |frames| && Filled(before, umem, bufs, frames, n)
    ensures bufs[..n][n - 1] in umem
    ensures CutOut(before, CutAfter(umem, bufs[..n]), bufs[..n], frames[..n])
  {
    var m := CutAfter(umem, bufs[..n]);
    forall i | 0 <= i < n
      ensures CutAt(before, m, bufs[..n], frames[..n], i)
    {
      assert LinkAt(before, bufs, i);
    }
  }

  lemma CutOutCells(before: map<Off, FrameBuf>, umem: map<Off, FrameBuf>, taken: seq<Off>, frames: seq<Frame>)
    requires CutOut(before, umem, taken, frames) && Distinct(taken)
    ensures Cells(umem) == S.PutFrames(Cells(before), taken, frames)
  {
    SM.PutFramesPuts(Cells(before), taken, frames);
    hide Distinct, S.PutFrames;
    var m := S.PutFrames(Cells(before), taken, frames);
    forall i | 0 <= i < |taken|
      ensures taken[i] in before && taken[i] in umem
      ensures Cells(umem)[taken[i]] == m[taken[i]]
    {
      assert CutAt(before, umem, taken, frames, i);
    }
    assert AsSet(taken) <= before.Keys;
  }

  lemma CutOutLinks(before: map<Off, FrameBuf>, umem: map<Off, FrameBuf>, taken: seq<Off>, frames: seq<Frame>)
    requires CutOut(before, umem, taken, frames) && Distinct(taken)
    ensures Linked(umem, taken)
  {
    forall i | 0 <= i < |taken|
      ensures LinkAt(umem, taken, i)
    {
      assert CutAt(before, umem, taken, frames, i);
    }
  }

  lemma CutOutLeaves(before: map<Off, FrameBuf>, umem: map<Off, FrameBuf>, taken: seq<Off>, frames: seq<Frame>,
                     chain: seq<Off>)
    requires CutOut(before, umem, taken, frames) && Linked(before, chain) && forall b :: b in taken ==> b !in chain
    ensures Linked(umem, chain)
  {
    forall i | 0 <= i < |chain|
      ensures LinkAt(umem, chain, i)
    {
      assert LinkAt(before, chain, i);
      assert chain[i] in chain;
    }
  }

  lemma SameLinks(k: Track, umem: map<Off, FrameBuf>, t: S.Tx, mem: map<Off, S.Cell>)
    requires TrackOk(k) && TrackShows(k, t.unacked, t.unsent, t.hasHead, t.mem)
    requires Linked(umem, k.chain) && Cells(umem) == mem
    ensures TrackOk(k.(umem := umem)) && TrackShows(k.(umem := umem), t.unacked, t.unsent, t.hasHead, mem)
  {
    hide Linked, Cells;
  }

  lemma TrackIsLinked(k: Track, t: S.Tx)
    requires TrackOk(k) && TrackShows(k, t.unacked, t.unsent, t.hasHead, t.mem)
    ensures Linked(k.umem, k.chain) && t.mem == Cells(k.umem)
  {
  }

  /** The transmit chain does not notice that the buffers to be appended were filled and cut out. */
  lemma CutOutTrack(k: Track, t: S.Tx, umem: map<Off, FrameBuf>, taken: seq<Off>, frames: seq<Frame>)
    requires TrackOk(k) && TrackShows(k, t.unacked, t.unsent, t.hasHead, t.mem)
    requires CutOut(k.umem, umem, taken, frames) && Distinct(taken) && forall b :: b in taken ==> b !in k.chain
    ensures Linked(umem, taken) && Distinct(k.chain + taken)
    ensures TrackOk(k.(umem := umem))
    ensures TrackShows(k.(umem := umem), t.unacked, t.unsent, t.hasHead, S.PutFrames(t.mem, taken, frames))
  {
    hide Distinct, Linked, Cells, CutOut, S.PutFrames, TrackOk, TrackShows;
    ChainShown(k, t);
    TrackIsLinked(k, t);
    CutOutCells(k.umem, umem, taken, frames);
    CutOutLinks(k.umem, umem, taken, frames);
    CutOutLeaves(k.umem, umem, taken, frames, k.chain);
    SameLinks(k, umem, t, Cells(umem));
    DistinctConcat(k.chain, taken);
  }

  /** The buffers that fit, with their frames, and where they are not. */
  lemma FittingBuffers(t: S.Tx)
    requires SI.Owned(t) && S.CanAppend(t)
    ensures var n := S.Fitting(t);
      var taken := t.pending[0].chunks[..n];
      && 0 < n <= |t.pending[0].chunks| == |S.FramesToCome(t.mem, t.pending[0])|
      && S.FramesToCome(t.mem, t.pending[0])[..n] == S.FittingFrames(t) && |S.FittingFrames(t)| == n
      && Distinct(taken) && (forall b :: b in taken ==> b !in S.Chain(t))
      && S.AppendOnce(t).mem == S.PutFrames(t.mem, taken, S.FittingFrames(t))
  {
    var p := t.pending[0];
    S.FlaggedLength(S.PayloadsIn(t.mem, p.chunks), p.len, p.len - p.offset);
    hide SI.Owned, S.PutFrames;
    SM.TakenAreApart(t);
  }

  lemma WorkSurvives(m1: map<Off, FrameBuf>, m2: map<Off, FrameBuf>, w: TxWork, p: S.Pending)
    requires WorkShows(m1, w, p) && forall b :: b in p.chunks ==> b in m1 && b in m2 && m2[b] == m1[b]
    ensures WorkShows(m2, w, p)
  {
    forall i | 0 <= i < |p.chunks|
      ensures LinkAt(m2, p.chunks, i) && BlankAt(m2, p.chunks, i)
    {
      assert LinkAt(m1, p.chunks, i) && BlankAt(m1, p.chunks, i);
    }
  }

  /** The buffers that did not fit are still a chain of blank buffers. */
  lemma RestShows(m: map<Off, FrameBuf>, w: TxWork, p: S.Pending, q: S.Pending, n: nat)
    requires WorkShows(m, w, p) && n < |p.chunks| && q.chunks == p.chunks[n..]
    ensures WorkShows(m, TxWork(Some(p.chunks[n]), q.len, q.offset, q.ctx), q)
  {
    forall i | 0 <= i < |q.chunks|
      ensures LinkAt(m, q.chunks, i) && BlankAt(m, q.chunks, i)
    {
      assert LinkAt(m, p.chunks, n + i) && BlankAt(m, p.chunks, n + i);
    }
  }

  /** What stays queued is neither in the chain nor among the buffers being appended. */
  lemma QueuedAreApart(t: S.Tx)
    requires SI.Owned(t) && S.CanAppend(t)
    ensures var p, n := t.pending[0], S.Fitting(t);
      forall b :: b in p.chunks[n..] || b in SI.PendingBufs(t.pending[1..]) ==>
        b in t.mem && b !in S.Chain(t) && b !in p.chunks[..n]
  {
    hide S.PendingOk;
    SM.BufsByPlace(t);
    SM.QueueIsInUse(t);
    var p, n := t.pending[0], S.Fitting(t);
    var a, b, c, d := S.Chain(t), p.chunks[..n], p.chunks[n..], SI.PendingBufs(t.pending[1..]);
    hide SI.AllBufs, S.Chain, SI.PendingBufs, S.CanAppend;
    assert a + b + c + d == (a + b) + (c + d) + [];
    hide Distinct;
    DistinctPart(a + b, c + d, []);
    forall x | x in c || x in d
      ensures x in c + d
    {
    }
    forall x | x in a || x in b
      ensures x in a + b
    {
    }
  }

  lemma {:induction false} ChunksArePending(ps: seq<S.Pending>, i: nat)
    requires i < |ps|
    ensures forall b :: b in ps[i].chunks ==> b in SI.PendingBufs(ps)
    decreases |ps|
  {
    if i > 0 {
      ChunksArePending(ps[1..], i - 1);
    }
  }

  /** Hanging buffers behind the chain writes one link, in the chain. */
  lemma AppendedElsewhere(k: Track, taken: seq<Off>, b: Off)
    requires TrackOk(k) && taken != [] && b !in k.chain && b in k.umem
    ensures b in Appended(k, taken).umem && Appended(k, taken).umem[b] == k.umem[b]
  {
  }

  /** `m` differs from `umem` only in the chain and the buffers that fit. */
  ghost predicate SameQueued(umem: map<Off, FrameBuf>, m: map<Off, FrameBuf>, t: S.Tx)
    requires S.CanAppend(t)
  {
    forall b :: b in umem && b !in S.Chain(t) && b !in t.pending[0].chunks[..S.Fitting(t)] ==> b in m && m[b] == umem[b]
  }

  lemma OtherWorkSurvives(umem: map<Off, FrameBuf>, m: map<Off, FrameBuf>, t: S.Tx, w: TxWork, i: nat)
    requires SI.Owned(t) && S.CanAppend(t) && t.mem == Cells(umem) && SameQueued(umem, m, t)
    requires 1 <= i < |t.pending| && WorkShows(umem, w, t.pending[i])
    ensures WorkShows(m, w, t.pending[i])
  {
    hide SI.Owned, WorkShows, S.Chain, SI.PendingBufs, S.PendingOk;
    QueuedAreApart(t);
    assert t.pending[1..][i - 1] == t.pending[i];
    ChunksArePending(t.pending[1..], i - 1);
    WorkSurvives(umem, m, w, t.pending[i]);
  }

  lemma ShortenedWorkSurvives(umem: map<Off, FrameBuf>, m: map<Off, FrameBuf>, t: S.Tx, w: TxWork)
    requires SI.Owned(t) && S.CanAppend(t) && t.mem == Cells(umem) && SameQueued(umem, m, t)
    requires S.Fitting(t) < |t.pending[0].chunks| && WorkShows(umem, w, t.pending[0])
    ensures var p, q, n := t.pending[0], S.Shortened(t), S.Fitting(t);
      WorkShows(m, TxWork(Some(p.chunks[n]), w.len, q.offset, w.ctx), q)
  {
    hide SI.Owned, WorkShows, S.Chain, SI.PendingBufs, S.PendingOk;
    QueuedAreApart(t);
    var p, q, n := t.pending[0], S.Shortened(t), S.Fitting(t);
    WorkFields(umem, w, p);
    RestShows(umem, w, p, q, n);
    WorkSurvives(umem, m, TxWork(Some(p.chunks[n]), q.len, q.offset, q.ctx), q);
  }

  /** The messages that stay queued are as they were, the first one shorter. */
  lemma QueueAfter(umem: map<Off, FrameBuf>, m: map<Off, FrameBuf>, t: S.Tx, works: seq<TxWork>, rest: seq<TxWork>)
    requires SI.Owned(t) && S.CanAppend(t) && t.mem == Cells(umem) && SameQueued(umem, m, t)
    requires QueueShows(umem, works, t.pending)
    requires var n, c := S.Fitting(t), t.pending[0].chunks;
      rest == if n == |c| then works[1..]
              else [TxWork(Some(c[n]), works[0].len, S.Shortened(t).offset, works[0].ctx)] + works[1..]
    ensures QueueShows(m, rest, S.AppendOnce(t).pending)
  {
    hide SI.Owned, S.AppendOnce, WorkShows, S.FittingFrames, S.Chain, SI.PendingBufs, S.PendingOk, SameQueued, Cells;
    SM.AppendLeaves(t);
    forall i | 1 <= i < |works|
      ensures WorkShows(m, works[i], t.pending[i])
    {
      OtherWorkSurvives(umem, m, t, works[i], i);
    }
    if S.Fitting(t) < |t.pending[0].chunks| {
      ShortenedWorkSurvives(umem, m, t, works[0]);
    }
  }

  lemma WorkFields(umem: map<Off, FrameBuf>, w: TxWork, p: S.Pending)
    requires WorkShows(umem, w, p)
    ensures p.chunks != [] && w == TxWork(Some(p.chunks[0]), p.len, p.offset, p.ctx) && Linked(umem, p.chunks)
  {
  }

  lemma ShortenedOffset(t: S.Tx)
    requires S.CanAppend(t)
    ensures var p, n := t.pending[0], S.Fitting(t);
      n <= |p.chunks| && (forall b :: b in p.chunks ==> b in t.mem)
      && S.Shortened(t).offset == p.offset + Total(S.PayloadsIn(t.mem, p.chunks)[..n])
  {
    SM.PayloadsInSplit(t.mem, t.pending[0].chunks, S.Fitting(t));
  }

  lemma CutOutHead(before: map<Off, FrameBuf>, umem: map<Off, FrameBuf>, taken: seq<Off>, frames: seq<Frame>)
    requires CutOut(before, umem, taken, frames) && taken != []
    ensures taken[0] in umem && |frames| == |taken| && umem[taken[0]].frame == frames[0]
  {
    assert CutAt(before, umem, taken, frames, 0);
  }

  /** Filling, cutting and appending leave the other queued buffers alone. */
  lemma AppendedSame(k: Track, t: S.Tx, cut: map<Off, FrameBuf>)
    requires TrackOk(k.(umem := cut)) && S.CanAppend(t) && S.Chain(t) == k.chain
    requires var taken := t.pending[0].chunks[..S.Fitting(t)];
      taken != [] && CutOut(k.umem, cut, taken, S.FittingFrames(t))
    ensures SameQueued(k.umem, Appended(k.(umem := cut), t.pending[0].chunks[..S.Fitting(t)]).umem, t)
  {
    hide TrackOk, S.PendingOk, S.FittingFrames, Appended, S.Chain;
    var taken := t.pending[0].chunks[..S.Fitting(t)];
    forall b | b in k.umem && b !in S.Chain(t) && b !in taken
      ensures b in Appended(k.(umem := cut), taken).umem && Appended(k.(umem := cut), taken).umem[b] == k.umem[b]
    {
      AppendedElsewhere(k.(umem := cut), taken, b);
    }
  }

  /** Append as long as there is a message and room for it. */
  ghost function AppendAll(t: S.Tx): S.Tx
    requires SI.Owned(t) && SM.QueueOk(t)
    decreases S.MAX_TW_PKTS - |t.unsent|
  {
    if t.pending == [] || |t.unsent| >= S.MAX_TW_PKTS then t
    else
      AppendKeepsQueue(t);
      AppendAll(S.AppendOnce(t))
  }

  lemma AppendKeepsQueue(t: S.Tx)
    requires SI.Owned(t) && SM.QueueOk(t) && t.pending != [] && |t.unsent| < S.MAX_TW_PKTS
    ensures S.CanAppend(t) && SI.Owned(S.AppendOnce(t)) && SM.QueueOk(S.AppendOnce(t))
    ensures |S.AppendOnce(t).unsent| > |t.unsent|
  {
    assert S.PendingOk(t.mem, t.pending[0]);
    hide SI.Owned, S.AppendOnce, S.PendingOk, S.FittingFrames;
    SM.AppendKeepsOwned(t);
    SM.AppendKeepsQueue(t);
    SM.AppendLeaves(t);
    FittingBuffers(t);
  }

  lemma AppendAllStep(t: S.Tx)
    requires SI.Owned(t) && SM.QueueOk(t)
    ensures t.pending == [] || |t.unsent| >= S.MAX_TW_PKTS ==> AppendAll(t) == t
    ensures t.pending != [] && |t.unsent| < S.MAX_TW_PKTS ==>
      && S.CanAppend(t) && SI.Owned(S.AppendOnce(t)) && SM.QueueOk(S.AppendOnce(t))
      && |S.AppendOnce(t).unsent| > |t.unsent| && AppendAll(t) == AppendAll(S.AppendOnce(t))
  {
    hide SI.Owned, SM.QueueOk, S.AppendOnce, S.PendingOk;
    if t.pending != [] && |t.unsent| < S.MAX_TW_PKTS {
      AppendKeepsQueue(t);
    }
  }

  // ----- Queueing a message -----

  lemma PoolIsApart(umem: map<Off, FrameBuf>, t: S.Tx)
    requires SI.Owned(t) && t.mem == Cells(umem)
    ensures t.pool !! umem.Keys
  {
    assert t.mem.Keys == umem.Keys;
  }

  lemma SegmentedIsFree(before: map<Off, FrameBuf>, umem: map<Off, FrameBuf>, bufs: seq<Off>, msg: seq<Byte>, t: S.Tx)
    requires Segmented(before, umem, bufs, Chunks(msg)) && AsSet(bufs) <= t.pool
    ensures SM.FreeFor(t, msg, bufs) && |bufs| == |Chunks(msg)|
  {
  }

  lemma SegmentedCells(before: map<Off, FrameBuf>, umem: map<Off, FrameBuf>, bufs: seq<Off>, pieces: seq<seq<Byte>>)
    requires Segmented(before, umem, bufs, pieces)
    ensures |bufs| == |pieces| && Cells(umem) == S.PutFrames(Cells(before), bufs, S.Unflagged(pieces))
  {
    assert Distinct(bufs) && umem.Keys == before.Keys + AsSet(bufs);
    SM.PutFramesPuts(Cells(before), bufs, S.Unflagged(pieces));
    hide Linked, S.PutFrames, Distinct;
    var m := S.PutFrames(Cells(before), bufs, S.Unflagged(pieces));
    assert m.Keys == umem.Keys;
    forall i | 0 <= i < |bufs|
      ensures bufs[i] in umem && Cells(umem)[bufs[i]] == m[bufs[i]]
    {
      assert NewAt(before, umem, bufs, pieces, i);
    }
    hide Segmented;
    SegmentedKeeps(before, umem, bufs, pieces);
    forall o | o in umem
      ensures Cells(umem)[o] == m[o]
    {
      if o in bufs {
        var i :| 0 <= i < |bufs| && bufs[i] == o;
      }
    }
  }

  lemma SegmentedTrack(k: Track, umem: map<Off, FrameBuf>, bufs: seq<Off>, pieces: seq<seq<Byte>>, t: S.Tx)
    requires TrackOk(k) && TrackShows(k, t.unacked, t.unsent, t.hasHead, t.mem)
    requires Segmented(k.umem, umem, bufs, pieces)
    ensures |bufs| == |pieces| && TrackOk(k.(umem := umem))
    ensures TrackShows(k.(umem := umem), t.unacked, t.unsent, t.hasHead, S.PutFrames(t.mem, bufs, S.Unflagged(pieces)))
  {
    hide TrackOk, TrackShows, Cells, S.PutFrames;
    TrackIsLinked(k, t);
    SegmentedCells(k.umem, umem, bufs, pieces);
    forall i | 0 <= i < |k.chain|
      ensures LinkAt(umem, k.chain, i)
    {
      assert LinkAt(k.umem, k.chain, i);
    }
    SameLinks(k, umem, t, Cells(umem));
  }

  lemma SegmentedQueue(before: map<Off, FrameBuf>, umem: map<Off, FrameBuf>, bufs: seq<Off>, msg: seq<Byte>, ctx: S.Ctx,
                       works: seq<TxWork>, ps: seq<S.Pending>)
    requires Segmented(before, umem, bufs, Chunks(msg)) && bufs != [] && QueueShows(before, works, ps)
    ensures QueueShows(umem, works + [TxWork(Some(bufs[0]), |msg|, 0, ctx)], ps + [S.Pending(bufs, |msg|, 0, ctx)])
  {
    hide WorkShows, Segmented, Chunks;
    SegmentedKeeps(before, umem, bufs, Chunks(msg));
    forall i | 0 <= i < |works|
      ensures WorkShows(umem, works[i], ps[i])
    {
      WorkInUse(before, works[i], ps[i]);
      WorkSurvives(before, umem, works[i], ps[i]);
    }
    SegmentedWork(before, umem, bufs, msg, ctx);
  }

  lemma SegmentedKeeps(before: map<Off, FrameBuf>, umem: map<Off, FrameBuf>, bufs: seq<Off>, pieces: seq<seq<Byte>>)
    requires Segmented(before, umem, bufs, pieces)
    ensures forall o :: o in before ==> o in umem && umem[o] == before[o]
  {
  }

  lemma WorkInUse(umem: map<Off, FrameBuf>, w: TxWork, p: S.Pending)
    requires WorkShows(umem, w, p)
    ensures forall b :: b in p.chunks ==> b in umem
  {
    forall i | 0 <= i < |p.chunks|
      ensures p.chunks[i] in umem
    {
      assert LinkAt(umem, p.chunks, i);
    }
  }

  lemma SegmentedWork(before: map<Off, FrameBuf>, umem: map<Off, FrameBuf>, bufs: seq<Off>, msg: seq<Byte>, ctx: S.Ctx)
    requires Segmented(before, umem, bufs, Chunks(msg)) && bufs != []
    ensures WorkShows(umem, TxWork(Some(bufs[0]), |msg|, 0, ctx), S.Pending(bufs, |msg|, 0, ctx))
  {
    forall i | 0 <= i < |bufs|
      ensures BlankAt(umem, bufs, i)
    {
      assert NewAt(before, umem, bufs, Chunks(msg), i);
    }
  }

  lemma SubmitKeepsQueue(t: S.Tx, msg: seq<Byte>, bufs: seq<Off>, ctx: S.Ctx)
    requires SI.Owned(t) && SM.QueueOk(t) && SM.FreeFor(t, msg, bufs) && msg != []
    ensures |bufs| == |Chunks(msg)| && SI.Owned(S.Submit(t, msg, bufs, ctx)) && SM.QueueOk(S.Submit(t, msg, bufs, ctx))
  {
    hide SI.Owned, SM.FreeFor, S.PendingOk, S.Submit;
    SM.FreeForLength(t, msg, bufs);
    SM.SubmitKeepsOwned(t, msg, bufs, ctx);
    SM.SubmitTakes(t, msg, bufs, ctx);
    SM.SubmittedMessageIsOk(t, msg, bufs, ctx);
    SM.SubmitLeavesQueue(t, msg, bufs, ctx);
  }
}
