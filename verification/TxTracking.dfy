/**
 * The transmit chain as the engine keeps it: packet buffers linked by their `next` fields in the shared packet memory, three
 * pointers into the chain and three counts. Every method is proved against the step of `Sender` it carries out.
 */
module TxTracking {
  import opened SerialNumbers
  import opened Messages
  import opened Packets
  import S = Sender

  /** The descriptor of a packet buffer, kept in the packet memory beside the packet itself. */
  datatype FrameBuf = FrameBuf(next: Option<Off>, seqno: U32, frame: Frame)

  /** The engine's socket: the packet memory, the pool of free buffers, and what has been handed to the network. */
  class Socket {
    var umem: map<Off, FrameBuf>
    var pool: set<Off>
    var sent: seq<Packet>

    constructor (frames: set<Off>)
      ensures umem == map[] && pool == frames && sent == []
    {
      umem, pool, sent := map[], frames, [];
    }

    /** Return a buffer to the pool; its descriptor is cleared. */
    method PushFrame(off: Off)
      modifies this
      ensures umem == old(umem) - {off} && pool == old(pool) + {off} && sent == old(sent)
    {
      umem := umem - {off};
      pool := pool + {off};
    }

    /** Take a free buffer and fill it; its link and its flags start out clear. */
    method NewFrame(payload: seq<Byte>) returns (off: Off)
      requires pool != {}
      modifies this
      ensures off in old(pool) && pool == old(pool) - {off} && sent == old(sent)
      ensures umem == old(umem)[off := FrameBuf(None, 0, Frame(payload, false, false))]
    {
      off :| off in pool;
      pool := pool - {off};
      umem := umem[off := FrameBuf(None, 0, Frame(payload, false, false))];
    }

    /** A packet arrives in a free buffer. */
    method Receive(off: Off, seqno: U32, frame: Frame)
      modifies this
      ensures umem == old(umem)[off := FrameBuf(None, seqno, frame)] && pool == old(pool) - {off} && sent == old(sent)
    {
      umem := umem[off := FrameBuf(None, seqno, frame)];
      pool := pool - {off};
    }

    method SetNext(off: Off, next: Option<Off>)
      requires off in umem
      modifies `umem
      ensures umem == old(umem)[off := old(umem)[off].(next := next)]
    {
      umem := umem[off := umem[off].(next := next)];
    }

    method MarkFirst(off: Off)
      requires off in umem
      modifies `umem
      ensures umem == old(umem)[off := old(umem)[off].(frame := old(umem)[off].frame.(first := true))]
    {
      umem := umem[off := umem[off].(frame := umem[off].frame.(first := true))];
    }

    method MarkLast(off: Off)
      requires off in umem
      modifies `umem
      ensures umem == old(umem)[off := old(umem)[off].(frame := old(umem)[off].frame.(last := true))]
    {
      umem := umem[off := umem[off].(frame := umem[off].frame.(last := true))];
    }

    /** Write the header of a data packet and send it. */
    method SendData(off: Off, seqno: U32)
      requires off in umem
      modifies this
      ensures umem == old(umem)[off := old(umem)[off].(seqno := seqno)] && pool == old(pool)
      ensures sent == old(sent) + [Data(seqno, umem[off].frame)]
    {
      umem := umem[off := umem[off].(seqno := seqno)];
      sent := sent + [Data(seqno, umem[off].frame)];
    }

    /** The network takes copies of the packets sent since it last did. */
    method Flush() returns (packets: seq<Packet>)
      modifies `sent
      ensures packets == old(sent) && sent == []
    {
      packets, sent := sent, [];
    }
  }

  /** The contents of the buffers, without their links. */
  function Cells(umem: map<Off, FrameBuf>): map<Off, S.Cell> {
    map o | o in umem :: S.Cell(umem[o].seqno, umem[o].frame)
  }

  /** `offs` are in use, all different, and each one's link leads to the next; the last one's link is null. */
  ghost predicate Linked(umem: map<Off, FrameBuf>, offs: seq<Off>) {
    && Distinct(offs)
    && forall i :: 0 <= i < |offs| ==> LinkAt(umem, offs, i)
  }

  ghost predicate LinkAt(umem: map<Off, FrameBuf>, offs: seq<Off>, i: nat)
    requires i < |offs|
  {
    offs[i] in umem && umem[offs[i]].next == if i + 1 < |offs| then Some(offs[i + 1]) else None
  }

  /** Buffers outside the chain are as they were. */
  ghost predicate SameOutside(m1: map<Off, FrameBuf>, m2: map<Off, FrameBuf>, chain: seq<Off>) {
    forall o :: o in m1 && o !in chain ==> o in m2 && m2[o] == m1[o]
  }

  lemma LinkedTail(umem: map<Off, FrameBuf>, offs: seq<Off>)
    requires Linked(umem, offs) && offs != []
    ensures Linked(umem - {offs[0]}, offs[1..])
  {
    var rest := offs[1..];
    forall i | 0 <= i < |rest|
      ensures LinkAt(umem - {offs[0]}, rest, i)
    {
      assert LinkAt(umem, offs, i + 1);
    }
  }

  /** Hanging a second chain behind the first. */
  lemma LinkedJoin(umem: map<Off, FrameBuf>, a: seq<Off>, b: seq<Off>)
    requires Linked(umem, a) && Linked(umem, b) && a != [] && b != [] && Distinct(a + b)
    ensures var last := a[|a| - 1];
      last in umem && Linked(umem[last := umem[last].(next := Some(b[0]))], a + b)
  {
    var last, c := a[|a| - 1], a + b;
    assert LinkAt(umem, a, |a| - 1);
    var m := umem[last := umem[last].(next := Some(b[0]))];
    assert c[|a| - 1] == last;
    forall i | 0 <= i < |c|
      ensures LinkAt(m, c, i)
    {
      if i < |a| {
        assert LinkAt(umem, a, i);
        assert i < |a| - 1 ==> c[i] != c[|a| - 1];
      } else {
        assert LinkAt(umem, b, i - |a|);
        assert c[i] != c[|a| - 1];
      }
    }
  }

  /** The fields of the tracking object that describe the chain, with the packet memory they point into. */
  datatype Track = Track(
    umem: map<Off, FrameBuf>, chain: seq<Off>,
    oldestUnacked: Option<Off>, oldestUnsent: Option<Off>, last: Option<Off>,
    numUnacked: nat, numUnsent: nat, numTracked: nat)

  /** The chain is the buffers in flight followed by the unsent ones, and the three pointers stand at the right ones. */
  ghost predicate TrackOk(k: Track) {
    && Linked(k.umem, k.chain)
    && k.numTracked == |k.chain| == k.numUnacked + k.numUnsent
    && k.last == (if k.chain == [] then None else Some(k.chain[|k.chain| - 1]))
    && k.oldestUnsent == (if k.numUnsent == 0 then None else Some(k.chain[k.numUnacked]))
    && (k.numUnacked > 0 ==> k.oldestUnacked.Some?)
    && (k.oldestUnacked.Some? ==> k.chain != [] && k.oldestUnacked.value == k.chain[0])
  }

  /** The chain holds these buffers in flight and unsent, with these contents. */
  ghost predicate TrackShows(k: Track, unacked: seq<Off>, unsent: seq<Off>, hasHead: bool, mem: map<Off, S.Cell>) {
    && k.numUnacked <= |k.chain|
    && unacked == k.chain[..k.numUnacked] && unsent == k.chain[k.numUnacked..]
    && hasHead == k.oldestUnacked.Some?
    && mem == Cells(k.umem)
  }

  /** The pointers after the oldest buffer in flight was released. */
  function Released(k: Track): Track
    requires k.chain != [] && k.chain[0] in k.umem && k.numUnacked > 0 && k.numTracked > 0
  {
    var more := k.numTracked > 1;
    Track(k.umem - {k.chain[0]}, k.chain[1..],
          if more then k.umem[k.chain[0]].next else None, if more then k.oldestUnsent else None,
          if more then k.last else None, k.numUnacked - 1, k.numUnsent, k.numTracked - 1)
  }

  lemma ReleasedKeeps(k: Track, t: S.Tx)
    requires TrackOk(k) && TrackShows(k, t.unacked, t.unsent, t.hasHead, t.mem) && k.numUnacked > 0
    ensures k.chain[0] in k.umem && k.oldestUnacked == Some(k.chain[0])
    ensures k.numTracked > 1 ==> Some(k.chain[0]) != k.last && Some(k.chain[0]) != k.oldestUnsent
    ensures TrackOk(Released(k)) && t.unacked != []
    ensures var u := S.AckOne(t); TrackShows(Released(k), u.unacked, u.unsent, u.hasHead, u.mem)
  {
    ReleasedIsOk(k);
    CellsMinus(k.umem, k.chain[0]);
    ReleasedParts(k.chain, k.numUnacked);
    hide Linked, Cells, Distinct;
  }

  lemma ReleasedParts(c: seq<Off>, n: nat)
    requires 0 < n <= |c|
    ensures c[1..][..n - 1] == c[..n][1..] && c[1..][n - 1..] == c[n..]
  {
  }

  lemma ReleasedIsOk(k: Track)
    requires TrackOk(k) && k.numUnacked > 0
    ensures k.chain[0] in k.umem && k.oldestUnacked == Some(k.chain[0])
    ensures k.numTracked > 1 ==>
      k.umem[k.chain[0]].next == Some(k.chain[1]) && Some(k.chain[0]) != k.last && Some(k.chain[0]) != k.oldestUnsent
    ensures TrackOk(Released(k))
  {
    assert LinkAt(k.umem, k.chain, 0);
    LinkedTail(k.umem, k.chain);
    assert forall i :: 0 < i < |k.chain| ==> k.chain[i] != k.chain[0];
    hide Linked, Distinct;
  }

  /** The pointers after a chain was hung behind the last buffer. */
  function Appended(k: Track, bufs: seq<Off>): Track
    requires bufs != []
  {
    Track(if k.last.None? || k.last.value !in k.umem then k.umem
          else k.umem[k.last.value := k.umem[k.last.value].(next := Some(bufs[0]))],
          k.chain + bufs, k.oldestUnacked, if k.oldestUnsent.None? then Some(bufs[0]) else k.oldestUnsent,
          Some(bufs[|bufs| - 1]), k.numUnacked, k.numUnsent + |bufs|, k.numTracked + |bufs|)
  }

  /** The memory after the link was set still holds the same cells, and the two chains are one. */
  lemma AppendedLinks(k: Track, bufs: seq<Off>)
    requires TrackOk(k) && bufs != [] && Linked(k.umem, bufs) && Distinct(k.chain + bufs)
    ensures k.last.Some? ==> k.last.value in k.umem && k.last.value in k.chain
    ensures Linked(Appended(k, bufs).umem, k.chain + bufs)
    ensures Cells(Appended(k, bufs).umem) == Cells(k.umem)
  {
    if k.last.Some? {
      assert LinkAt(k.umem, k.chain, |k.chain| - 1);
      LinkedJoin(k.umem, k.chain, bufs);
      CellsAfterLink(k.umem, k.last.value, Some(bufs[0]));
    } else {
      assert k.chain + bufs == bufs;
    }
  }

  lemma AppendedKeeps(k: Track, bufs: seq<Off>, t: S.Tx)
    requires TrackOk(k) && TrackShows(k, t.unacked, t.unsent, t.hasHead, t.mem)
    requires bufs != [] && Linked(k.umem, bufs) && Distinct(k.chain + bufs)
    ensures k.last.Some? ==> k.last.value in k.umem && k.last.value in k.chain
    ensures TrackOk(Appended(k, bufs)) && TrackShows(Appended(k, bufs), t.unacked, t.unsent + bufs, t.hasHead, t.mem)
  {
    hide Linked, Cells, Distinct;
    AppendedLinks(k, bufs);
    AppendedIsOk(k, bufs);
    hide TrackOk;
    var c, n := k.chain, k.numUnacked;
    assert (c + bufs)[..n] == c[..n] && (c + bufs)[n..] == c[n..] + bufs;
  }

  lemma AppendedIsOk(k: Track, bufs: seq<Off>)
    requires TrackOk(k) && bufs != [] && Linked(Appended(k, bufs).umem, k.chain + bufs)
    ensures TrackOk(Appended(k, bufs))
  {
    hide Linked;
  }

  /** The pointers after the oldest unsent buffer was taken for sending. */
  function Taken(k: Track): Track
    requires k.oldestUnsent.Some? && k.oldestUnsent.value in k.umem && k.numUnsent > 0
  {
    k.(oldestUnsent := if k.oldestUnsent != k.last then k.umem[k.oldestUnsent.value].next else None,
       oldestUnacked := if k.oldestUnacked.None? then k.oldestUnsent else k.oldestUnacked,
       numUnacked := k.numUnacked + 1, numUnsent := k.numUnsent - 1)
  }

  lemma TakenKeeps(k: Track, t: S.Tx)
    requires TrackOk(k) && TrackShows(k, t.unacked, t.unsent, t.hasHead, t.mem) && k.oldestUnsent.Some?
    ensures k.oldestUnsent.value in k.umem && k.numUnsent > 0 && t.unsent != [] && k.oldestUnsent.value == t.unsent[0]
    ensures TrackOk(Taken(k))
    ensures TrackShows(Taken(k), t.unacked + [t.unsent[0]], t.unsent[1..], true, t.mem)
  {
    var c, n := k.chain, k.numUnacked;
    assert LinkAt(k.umem, c, n);
    assert c[..n + 1] == c[..n] + [c[n]] && c[n..][1..] == c[n + 1..];
    if k.oldestUnsent == k.last {
      assert n == |c| - 1;
    }
    hide Cells;
  }

  class TxTracking {
    const socket: Socket
    var oldestUnacked: Option<Off>
    var oldestUnsent: Option<Off>
    var last: Option<Off>
    var numUnacked: nat
    var numUnsent: nat
    var numTracked: nat
    var pollCtxs: seq<S.Ctx>
    var done: seq<S.Ctx>
    ghost var chain: seq<Off>

    ghost function Pointers(): Track
      reads this, socket
    {
      Track(socket.umem, chain, oldestUnacked, oldestUnsent, last, numUnacked, numUnsent, numTracked)
    }

    ghost predicate Valid()
      reads this, socket
    {
      TrackOk(Pointers())
    }

    /** This object and its socket hold the sender's state `t`, as far as they hold it. */
    ghost predicate Shows(t: S.Tx)
      reads this, socket
    {
      && TrackShows(Pointers(), t.unacked, t.unsent, t.hasHead, t.mem)
      && t.pool == socket.pool && t.ctxs == pollCtxs && t.done == done && t.out == socket.sent
    }

    constructor (socket: Socket)
      requires socket.umem == map[]
      ensures Valid() && this.socket == socket && chain == [] && pollCtxs == [] && done == []
      ensures oldestUnacked == oldestUnsent == last == None && numUnacked == 0
    {
      this.socket := socket;
      oldestUnacked, oldestUnsent, last := None, None, None;
      numUnacked, numUnsent, numTracked := 0, 0, 0;
      pollCtxs, done, chain := [], [], [];
    }

    /** Release the oldest buffer in flight; if it ends a message, the oldest context is done. */
    method ReleaseOldest()
      requires Valid() && numUnacked > 0
      requires chain[0] in socket.umem && (socket.umem[chain[0]].frame.last ==> pollCtxs != [])
      modifies this, socket
      ensures Pointers() == old(Released(Pointers()))
      ensures socket.pool == old(socket.pool + {chain[0]}) && socket.sent == old(socket.sent)
      ensures old(socket.umem[chain[0]].frame.last) ==> pollCtxs == old(pollCtxs[1..]) && done == old(done + [pollCtxs[0]])
      ensures !old(socket.umem[chain[0]].frame.last) ==> pollCtxs == old(pollCtxs) && done == old(done)
    {
      var msgbuf := oldestUnacked.value;
      if numTracked > 1 {
        assert Some(msgbuf) != last && Some(msgbuf) != oldestUnsent;
        oldestUnacked := socket.umem[msgbuf].next;
      } else {
        oldestUnacked, oldestUnsent, last := None, None, None;
      }
      if socket.umem[msgbuf].frame.last {
        done := done + [pollCtxs[0]];
        pollCtxs := pollCtxs[1..];
      }
      socket.PushFrame(msgbuf);
      numUnacked, numTracked := numUnacked - 1, numTracked - 1;
      chain := chain[1..];
    }

    /** Release the acknowledged buffers; never an unsent one, and never the last one while there are others. */
    method ReceiveAcks(numAckedPkts: nat, ghost t: S.Tx)
      requires Valid() && Shows(t) && numAckedPkts <= |t.unacked| && S.Tracked(t) && Completable(t, numAckedPkts)
      modifies this, socket
      ensures Valid() && Shows(S.ReceiveAcks(t, numAckedPkts))
      ensures SameOutside(old(socket.umem), socket.umem, old(chain))
    {
      hide TrackOk, TrackShows, S.Tracked, S.AckOne, S.ReceiveAcks, Completable, Released;
      var left: nat := numAckedPkts;
      ghost var u := t;
      while left > 0
        invariant left <= |u.unacked| && Valid() && Shows(u) && S.Tracked(u) && Completable(u, left)
        invariant S.ReceiveAcks(u, left) == S.ReceiveAcks(t, numAckedPkts)
        invariant SameOutside(old(socket.umem), socket.umem, old(chain)) && forall o :: o in chain ==> o in old(chain)
      {
        OldestIsFirst(Pointers(), u);
        ReleasedKeeps(Pointers(), u);
        AckStep(u, left);
        ReleasedOnly(Pointers());
        ReleaseOldest();
        u := S.AckOne(u);
        left := left - 1;
      }
      NoAcksLeft(u);
    }

    /** Hang a chain of new buffers behind the last one. A message's context comes with its first buffer. */
    method Append(head: Option<Off>, tail: Option<Off>, numFrames: nat, ctx: Option<S.Ctx>, ghost bufs: seq<Off>,
                  ghost t: S.Tx)
      requires Valid() && Shows(t) && numFrames == |bufs| && Linked(socket.umem, bufs) && Distinct(chain + bufs)
      requires head == (if bufs == [] then None else Some(bufs[0]))
      requires tail == (if bufs == [] then None else Some(bufs[|bufs| - 1]))
      modifies this, socket`umem
      ensures Pointers() == old(if bufs == [] then Pointers() else Appended(Pointers(), bufs))
      ensures Valid()
      ensures Shows(t.(unsent := t.unsent + bufs, ctxs := t.ctxs + if ctx.Some? then [ctx.value] else []))
    {
      hide TrackOk, TrackShows, Linked, Distinct, Cells;
      if bufs != [] {
        AppendedKeeps(Pointers(), bufs, t);
      }
      LastIsNull(Pointers());
      if ctx.Some? {
        pollCtxs := pollCtxs + [ctx.value];
      }
      if numFrames == 0 {
        assert t.unsent + bufs == t.unsent;
        return;
      }
      ghost var k := Appended(Pointers(), bufs);
      if last.None? {
        last := tail;
        oldestUnsent := head;
      } else {
        socket.SetNext(last.value, head);
        last := tail;
        if oldestUnsent.None? {
          oldestUnsent := head;
        }
      }
      numUnsent, numTracked := numUnsent + numFrames, numTracked + numFrames;
      chain := chain + bufs;
      assert Pointers() == k;
    }

    /** The oldest unsent buffer becomes the youngest in flight. */
    method GetAndUpdateOldestUnsent(ghost t: S.Tx) returns (r: Option<Off>)
      requires Valid() && Shows(t)
      modifies this
      ensures Valid() && chain == old(chain) && pollCtxs == old(pollCtxs) && done == old(done)
      ensures r == if t.unsent == [] then None else Some(t.unsent[0])
      ensures Shows(if t.unsent == [] then t
                    else t.(unacked := t.unacked + [t.unsent[0]], unsent := t.unsent[1..], hasHead := true))
    {
      if oldestUnsent.None? {
        return None;
      }
      TakenKeeps(Pointers(), t);
      hide TrackOk, TrackShows, Linked, Cells, Distinct;
      ghost var k := Taken(Pointers());
      var msgbuf := oldestUnsent.value;
      if oldestUnsent != last {
        oldestUnsent := socket.umem[msgbuf].next;
      } else {
        oldestUnsent := None;
      }
      if oldestUnacked.None? {
        oldestUnacked := Some(msgbuf);
      }
      numUnacked, numUnsent := numUnacked + 1, numUnsent - 1;
      assert Pointers() == k;
      return Some(msgbuf);
    }
  }

  /** The chain is the buffers in flight and then the unsent ones. */
  lemma ChainShown(k: Track, t: S.Tx)
    requires TrackOk(k) && TrackShows(k, t.unacked, t.unsent, t.hasHead, t.mem)
    ensures S.Chain(t) == k.chain && Distinct(k.chain)
    ensures k.numUnacked == |t.unacked| && k.numUnsent == |t.unsent|
  {
    assert k.chain[..k.numUnacked] + k.chain[k.numUnacked..] == k.chain;
  }

  lemma OldestIsFirst(k: Track, t: S.Tx)
    requires TrackOk(k) && TrackShows(k, t.unacked, t.unsent, t.hasHead, t.mem) && t.unacked != []
    ensures k.numUnacked > 0 && k.chain != [] && t.unacked[0] == k.chain[0] && k.numTracked > 0
    ensures k.chain[0] in k.umem && k.chain[0] in t.mem && t.mem[k.chain[0]].frame == k.umem[k.chain[0]].frame
  {
    assert LinkAt(k.umem, k.chain, 0);
  }

  lemma ReleasedOnly(k: Track)
    requires k.chain != [] && k.chain[0] in k.umem && k.numUnacked > 0 && k.numTracked > 0
    ensures Released(k).umem == k.umem - {k.chain[0]} && Released(k).chain == k.chain[1..]
  {
  }

  lemma AckStep(t: S.Tx, k: nat)
    requires 0 < k <= |t.unacked| && S.Tracked(t) && Completable(t, k)
    ensures var u := S.AckOne(t);
      && S.Tracked(u) && |u.unacked| == |t.unacked| - 1 && Completable(u, k - 1)
      && S.ReceiveAcks(t, k) == S.ReceiveAcks(u, k - 1)
      && t.unacked[0] in t.mem && u.pool == t.pool + {t.unacked[0]} && u.out == t.out
      && (if t.mem[t.unacked[0]].frame.last
          then t.ctxs != [] && u.ctxs == t.ctxs[1..] && u.done == t.done + [t.ctxs[0]]
          else u.ctxs == t.ctxs && u.done == t.done)
  {
    S.AckOneKeepsTracked(t);
  }

  lemma NoAcksLeft(t: S.Tx)
    requires S.Tracked(t)
    ensures S.ReceiveAcks(t, 0) == t
  {
  }

  lemma LastIsNull(k: Track)
    requires TrackOk(k)
    ensures k.last.None? <==> k.chain == []
    ensures k.last.None? ==> k.oldestUnsent.None?
    ensures k.last.Some? ==> k.last.value in k.umem
  {
    if k.last.Some? {
      assert LinkAt(k.umem, k.chain, |k.chain| - 1);
    }
  }

  /** There is a context for every message that acknowledging `k` packets completes. */
  ghost predicate Completable(t: S.Tx, k: nat)
    decreases k
  {
    k == 0
    || (t.unacked != [] && t.unacked[0] in t.mem && (t.mem[t.unacked[0]].frame.last ==> t.ctxs != [])
        && Completable(S.AckOne(t), k - 1))
  }

  lemma CellsMinus(umem: map<Off, FrameBuf>, o: Off)
    ensures Cells(umem - {o}) == Cells(umem) - {o}
  {
  }

  lemma CellsAfterLink(umem: map<Off, FrameBuf>, o: Off, next: Option<Off>)
    requires o in umem
    ensures Cells(umem[o := umem[o].(next := next)]) == Cells(umem)
  {
  }
}
