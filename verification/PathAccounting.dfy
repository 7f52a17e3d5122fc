/**
 * Per-path accounting of packets in flight: a counter for each path, and a ring that remembers the path of each packet
 * by the low bits of its sequence number. Beside them runs a log that no step reads: what the counters would be if they
 * were not 16 bits wide, whether the packet of each slot has been moved to another path since it was first sent, and how
 * many such moves there were.
 */
module PathAccounting {
  import opened SerialNumbers
  import opened Messages
  import opened Packets

  datatype RawPaths = RawPaths(
    hist: seq<PathId>,
    pp: seq<U16>,
    tally: seq<int>,              // log: the counters without their bounds
    moved: seq<bool>,             // log: was the packet of this slot moved to another path since it was first sent?
    moves: nat)                   // log: how often a packet was moved to another path

  type Paths = p: RawPaths | |p.hist| == |p.moved| == PATH_HISTORY && |p.pp| == |p.tally| == PLATFORM.maxPath
    witness RawPaths(seq(PATH_HISTORY, _ => 0), seq(PLATFORM.maxPath, _ => 0), seq(PLATFORM.maxPath, _ => 0),
             seq(PATH_HISTORY, _ => false), 0)

  function Empty(): Paths {
    RawPaths(seq(PATH_HISTORY, _ => 0), seq(PLATFORM.maxPath, _ => 0), seq(PLATFORM.maxPath, _ => 0),
             seq(PATH_HISTORY, _ => false), 0)
  }

  /** The ring is indexed by the low bits of the sequence number. */
  function Slot(seqno: int): nat {
    seqno % PATH_HISTORY
  }

  function PathOf(p: Paths, seqno: U32): PathId {
    p.hist[Slot(seqno)]
  }

  function Inc(p: Paths, path: PathId): Paths {
    var n: int := p.pp[path];
    p.(pp := p.pp[path := (n + 1) % 0x1_0000], tally := p.tally[path := p.tally[path] + 1])
  }

  function Dec(p: Paths, path: PathId): Paths {
    var n: int := p.pp[path];
    p.(pp := p.pp[path := (n - 1) % 0x1_0000], tally := p.tally[path := p.tally[path] - 1])
  }

  function SetPath(p: Paths, seqno: U32, path: PathId): Paths {
    p.(hist := p.hist[Slot(seqno) := path])
  }

  /** A new packet leaves on `path`. */
  function Sent(p: Paths, seqno: U32, path: PathId): Paths {
    Inc(SetPath(p, seqno, path).(moved := p.moved[Slot(seqno) := false]), path)
  }

  /** A packet in flight is sent again, on `path`. */
  function Moved(p: Paths, seqno: U32, path: PathId): Paths {
    var other := path != PathOf(p, seqno);
    SetPath(Inc(Dec(p, PathOf(p, seqno)), path), seqno, path)
      .(moved := p.moved[Slot(seqno) := p.moved[Slot(seqno)] || other], moves := p.moves + if other then 1 else 0)
  }

  /** A packet in flight is acknowledged. */
  function Acked(p: Paths, seqno: U32): Paths {
    Dec(p, PathOf(p, seqno))
  }

  /** How many of the packets `lo..hi` have a slot of the ring that holds `x`. */
  function CountOn<T(==)>(ring: seq<T>, x: T, lo: int, hi: int): nat
    requires |ring| == PATH_HISTORY
    decreases hi - lo
  {
    if lo >= hi then 0
    else (if ring[Slot(hi - 1)] == x then 1 else 0) + CountOn(ring, x, lo, hi - 1)
  }

  /** Every counter is the number of packets in flight on its path. `una` and `nxt` are unbounded packet numbers. */
  ghost predicate Exact(p: Paths, una: int, nxt: int) {
    forall path: PathId :: p.pp[path] == CountOn(p.hist, path, una, nxt)
  }

  lemma SlotOfWrapped(n: int)
    ensures Slot(Wrap(n)) == Slot(n)
  {
    SlotOfSum(Wrap(n), 0x10_0000 * (n / TWO32));
  }

  lemma SlotOfSum(b: int, k: int)
    ensures Slot(b + PATH_HISTORY * k) == Slot(b)
  {
  }

  lemma SlotsDiffer(n: int, m: int)
    requires m < n < m + PATH_HISTORY
    ensures Slot(n) != Slot(m)
  {
  }

  lemma {:induction false} CountIsBounded<T>(ring: seq<T>, x: T, lo: int, hi: int)
    requires |ring| == PATH_HISTORY && lo <= hi
    ensures CountOn(ring, x, lo, hi) <= hi - lo
    decreases hi - lo
  {
    if lo < hi {
      CountIsBounded(ring, x, lo, hi - 1);
    }
  }

  /** Dropping the oldest packet. */
  lemma {:induction false} CountFromLow<T>(ring: seq<T>, x: T, lo: int, hi: int)
    requires |ring| == PATH_HISTORY && lo < hi
    ensures CountOn(ring, x, lo, hi) == CountOn(ring, x, lo + 1, hi) + if ring[Slot(lo)] == x then 1 else 0
    decreases hi - lo
  {
    if lo + 1 < hi {
      CountFromLow(ring, x, lo, hi - 1);
    }
  }

  /** Writing the slot of a packet outside the range leaves the count alone if no packet in the range shares the slot. */
  lemma {:induction false} CountIgnoresOtherSlots<T>(ring: seq<T>, x: T, lo: int, hi: int, k: nat, y: T)
    requires |ring| == PATH_HISTORY && k < PATH_HISTORY
    requires forall n :: lo <= n < hi ==> Slot(n) != k
    ensures CountOn(ring[k := y], x, lo, hi) == CountOn(ring, x, lo, hi)
    decreases hi - lo
  {
    if lo < hi {
      assert Slot(hi - 1) != k;
      CountIgnoresOtherSlots(ring, x, lo, hi - 1, k, y);
    }
  }

  /** Writing the slot of one packet of the range moves one packet from its old path to the new one. */
  lemma {:induction false} CountAfterMove<T>(ring: seq<T>, x: T, lo: int, hi: int, n: int, y: T)
    requires |ring| == PATH_HISTORY && lo <= n < hi <= lo + PATH_HISTORY
    ensures CountOn(ring[Slot(n) := y], x, lo, hi) + (if ring[Slot(n)] == x then 1 else 0)
         == CountOn(ring, x, lo, hi) + (if y == x then 1 else 0)
    decreases hi - lo
  {
    if n == hi - 1 {
      forall m | lo <= m < hi - 1
        ensures Slot(m) != Slot(n)
      {
        SlotsDiffer(n, m);
      }
      CountIgnoresOtherSlots(ring, x, lo, hi - 1, Slot(n), y);
    } else {
      SlotsDiffer(hi - 1, n);
      CountAfterMove(ring, x, lo, hi - 1, n, y);
    }
  }

  lemma {:induction false} CountIsPositive<T>(ring: seq<T>, lo: int, hi: int, n: int)
    requires |ring| == PATH_HISTORY && lo <= n < hi
    ensures CountOn(ring, ring[Slot(n)], lo, hi) > 0
    decreases hi - lo
  {
    if n < hi - 1 {
      CountIsPositive(ring, lo, hi - 1, n);
    }
  }

  lemma AckKeepsExact(p: Paths, una: int, nxt: int)
    requires Exact(p, una, nxt) && una < nxt <= una + PATH_HISTORY
    ensures p.pp[PathOf(p, Wrap(una))] > 0
    ensures Exact(Acked(p, Wrap(una)), una + 1, nxt)
  {
    SlotOfWrapped(una);
    forall path: PathId
      ensures CountOn(p.hist, path, una, nxt)
           == CountOn(p.hist, path, una + 1, nxt) + if p.hist[Slot(una)] == path then 1 else 0
      ensures CountOn(p.hist, path, una, nxt) <= PATH_HISTORY
    {
      CountFromLow(p.hist, path, una, nxt);
      CountIsBounded(p.hist, path, una, nxt);
    }
  }

  lemma MoveKeepsExact(p: Paths, una: int, nxt: int, n: int, path: PathId)
    requires Exact(p, una, nxt) && una <= n < nxt <= una + PATH_HISTORY
    ensures p.pp[PathOf(p, Wrap(n))] > 0
    ensures Exact(Moved(p, Wrap(n), path), una, nxt)
  {
    SlotOfWrapped(n);
    CountIsPositive(p.hist, una, nxt, n);
    hide CountOn, Wrap, Moved;
    forall q: PathId
      ensures Moved(p, Wrap(n), path).pp[q] == CountOn(Moved(p, Wrap(n), path).hist, q, una, nxt)
    {
      MoveKeepsOne(p, una, nxt, n, path, q);
    }
  }

  /** A move takes one packet off the old path's counter and adds one to the new path's. */
  lemma MovedCounter(p: Paths, seqno: U32, path: PathId, q: PathId)
    requires p.pp[PathOf(p, seqno)] > 0 && p.pp[q] <= PATH_HISTORY
    ensures var was := PathOf(p, seqno);
      Moved(p, seqno, path).pp[q] + (if was == q then 1 else 0) == p.pp[q] + if path == q then 1 else 0
    ensures Moved(p, seqno, path).hist == p.hist[Slot(seqno) := path]
  {
  }

  lemma MoveKeepsOne(p: Paths, una: int, nxt: int, n: int, path: PathId, q: PathId)
    requires Exact(p, una, nxt) && una <= n < nxt <= una + PATH_HISTORY && Slot(Wrap(n)) == Slot(n)
    requires p.pp[PathOf(p, Wrap(n))] > 0
    ensures Moved(p, Wrap(n), path).pp[q] == CountOn(Moved(p, Wrap(n), path).hist, q, una, nxt)
  {
    assert PathOf(p, Wrap(n)) == p.hist[Slot(n)];
    hide CountOn, Wrap, Slot, Moved, PathOf;
    CountAfterMove(p.hist, q, una, nxt, n, path);
    CountIsBounded(p.hist, q, una, nxt);
    MovedCounter(p, Wrap(n), path, q);
  }

  lemma SendToFreeSlot(p: Paths, una: int, nxt: int, path: PathId)
    requires Exact(p, una, nxt) && una <= nxt < una + PATH_HISTORY
    ensures Exact(Sent(p, Wrap(nxt), path), una, nxt + 1)
  {
    SlotOfWrapped(nxt);
    var t := Sent(p, Wrap(nxt), path);
    forall n | una <= n < nxt
      ensures Slot(n) != Slot(nxt)
    {
      SlotsDiffer(nxt, n);
    }
    forall q: PathId
      ensures t.pp[q] == CountOn(t.hist, q, una, nxt + 1)
    {
      CountIgnoresOtherSlots(p.hist, q, una, nxt, Slot(nxt), path);
      CountIsBounded(p.hist, q, una, nxt);
    }
  }

  /** With a full ring the new packet takes over the slot of the oldest one, and both are counted on the new path. */
  lemma SendToTakenSlot(p: Paths, una: int, nxt: int, path: PathId, q: PathId)
    requires Exact(p, una, nxt) && nxt == una + PATH_HISTORY
    ensures var t := Sent(p, Wrap(nxt), path);
      t.pp[q] - CountOn(t.hist, q, una, nxt + 1)
      == (if PathOf(p, Wrap(nxt)) == q then 1 else 0) - (if path == q then 1 else 0)
  {
    SlotOfWrapped(nxt);
    SlotOfSum(una, 1);
    CountAfterMove(p.hist, q, una, nxt, una, path);
    CountIsBounded(p.hist, q, una, nxt);
  }

  /**
   * Sending a new packet keeps the counters exact as long as its history slot is not that of another packet in flight;
   * when it is, exactly if that packet took the same path.
   */
  lemma SendKeepsExactIff(p: Paths, una: int, nxt: int, path: PathId)
    requires Exact(p, una, nxt) && una <= nxt <= una + PATH_HISTORY
    ensures Exact(Sent(p, Wrap(nxt), path), una, nxt + 1)
       <==> nxt - una < PATH_HISTORY || PathOf(p, Wrap(nxt)) == path
  {
    if nxt - una < PATH_HISTORY {
      SendToFreeSlot(p, una, nxt, path);
    } else {
      var was, t := PathOf(p, Wrap(nxt)), Sent(p, Wrap(nxt), path);
      forall q: PathId
        ensures t.pp[q] - CountOn(t.hist, q, una, nxt + 1) == (if was == q then 1 else 0) - (if path == q then 1 else 0)
      {
        SendToTakenSlot(p, una, nxt, path, q);
      }
      assert was != path ==> t.pp[was] != CountOn(t.hist, was, una, nxt + 1);
    }
  }

  // ----- How many packets can be in flight -----

  /** What the ring and the log say about each slot together. */
  function Marks(p: Paths): (m: seq<(PathId, bool)>)
    ensures |m| == PATH_HISTORY
  {
    seq(PATH_HISTORY, i requires 0 <= i < PATH_HISTORY => (p.hist[i], p.moved[i]))
  }

  /** Packets in flight that came to `path` from another path. */
  function MovedTo(p: Paths, path: PathId, una: int, nxt: int): nat {
    CountOn(Marks(p), (path, true), una, nxt)
  }

  /** Packets in flight that a retransmission has moved to another path. */
  function MovedIn(p: Paths, una: int, nxt: int): nat {
    CountOn(p.moved, true, una, nxt)
  }

  /** No path has more packets in flight than its cap and those that came to it from other paths. */
  ghost predicate Paid(p: Paths, una: int, nxt: int) {
    && (forall path: PathId :: p.pp[path] <= PLATFORM.maxUnackedPp + MovedTo(p, path, una, nxt))
    && MovedIn(p, una, nxt) <= p.moves
  }

  lemma AckKeepsPaid(p: Paths, una: int, nxt: int)
    requires Paid(p, una, nxt) && una < nxt && p.pp[PathOf(p, Wrap(una))] > 0
    ensures Paid(Acked(p, Wrap(una)), una + 1, nxt)
  {
    SlotOfWrapped(una);
    var u := Acked(p, Wrap(una));
    assert Marks(u) == Marks(p);
    CountFromLow(p.moved, true, una, nxt);
    forall path: PathId
      ensures u.pp[path] <= PLATFORM.maxUnackedPp + MovedTo(u, path, una + 1, nxt)
    {
      assert p.pp[path] <= PLATFORM.maxUnackedPp + MovedTo(p, path, una, nxt);
      CountFromLow(Marks(p), (path, true), una, nxt);
    }
  }

  /** A new packet that stays within its path's cap needs no paying for. */
  lemma SendKeepsPaid(p: Paths, una: int, nxt: int, path: PathId)
    requires Paid(p, una, nxt) && una <= nxt < una + PATH_HISTORY && p.pp[path] + 1 <= PLATFORM.maxUnackedPp
    ensures Paid(Sent(p, Wrap(nxt), path), una, nxt + 1)
  {
    SlotOfWrapped(nxt);
    var u, k := Sent(p, Wrap(nxt), path), Slot(nxt);
    forall n | una <= n < nxt
      ensures Slot(n) != k
    {
      SlotsDiffer(nxt, n);
    }
    assert Marks(u) == Marks(p)[k := (path, false)];
    CountIgnoresOtherSlots(p.moved, true, una, nxt, k, false);
    forall q: PathId
      ensures u.pp[q] <= PLATFORM.maxUnackedPp + MovedTo(u, q, una, nxt + 1)
    {
      assert p.pp[q] <= PLATFORM.maxUnackedPp + MovedTo(p, q, una, nxt);
      CountIgnoresOtherSlots(Marks(p), (q, true), una, nxt, k, (path, false));
    }
  }

  /** A packet sent again is paid for by its own move, if there is one. */
  lemma MoveKeepsPaid(p: Paths, una: int, nxt: int, n: int, path: PathId)
    requires Exact(p, una, nxt) && Paid(p, una, nxt) && una <= n < nxt <= una + PATH_HISTORY
    ensures Paid(Moved(p, Wrap(n), path), una, nxt)
  {
    SlotOfWrapped(n);
    CountIsPositive(p.hist, una, nxt, n);
    var u, k, other := Moved(p, Wrap(n), path), Slot(n), path != PathOf(p, Wrap(n));
    assert Marks(u) == Marks(p)[k := (path, p.moved[k] || other)];
    CountAfterMove(p.moved, true, una, nxt, n, p.moved[k] || other);
    forall q: PathId
      ensures u.pp[q] <= PLATFORM.maxUnackedPp + MovedTo(u, q, una, nxt)
    {
      MoveKeepsPaidOn(p, una, nxt, n, path, q);
    }
  }

  lemma MoveKeepsPaidOn(p: Paths, una: int, nxt: int, n: int, path: PathId, q: PathId)
    requires Exact(p, una, nxt) && Paid(p, una, nxt) && una <= n < nxt <= una + PATH_HISTORY && Slot(Wrap(n)) == Slot(n)
    requires p.pp[PathOf(p, Wrap(n))] > 0
    requires Marks(Moved(p, Wrap(n), path))
          == Marks(p)[Slot(n) := (path, p.moved[Slot(n)] || path != PathOf(p, Wrap(n)))]
    ensures Moved(p, Wrap(n), path).pp[q] <= PLATFORM.maxUnackedPp + MovedTo(Moved(p, Wrap(n), path), q, una, nxt)
  {
    assert p.pp[q] <= PLATFORM.maxUnackedPp + MovedTo(p, q, una, nxt) && p.pp[q] == CountOn(p.hist, q, una, nxt);
    var k, was := Slot(n), PathOf(p, Wrap(n));
    assert Marks(p)[k] == (was, p.moved[k]);
    hide CountOn, Wrap, Slot, Moved, PathOf, Marks;
    CountIsBounded(p.hist, q, una, nxt);
    MovedCounter(p, Wrap(n), path, q);
    CountAfterMove(Marks(p), (q, true), una, nxt, n, (path, p.moved[k] || path != was));
  }

  // ----- Adding up over the paths -----

  function SumBelow(pp: seq<U16>, n: nat): nat
    requires n <= |pp|
  {
    if n == 0 then 0 else SumBelow(pp, n - 1) + pp[n - 1]
  }

  /** The packets `lo..hi` on the first `n` paths. */
  function CountOnBelow(hist: seq<PathId>, n: nat, lo: int, hi: int): nat
    requires |hist| == PATH_HISTORY && n <= PLATFORM.maxPath
  {
    if n == 0 then 0 else CountOnBelow(hist, n - 1, lo, hi) + CountOn<PathId>(hist, n - 1, lo, hi)
  }

  lemma {:induction false} CountOnBelowStep(hist: seq<PathId>, n: nat, lo: int, hi: int)
    requires |hist| == PATH_HISTORY && n <= PLATFORM.maxPath && lo < hi
    ensures CountOnBelow(hist, n, lo, hi) == CountOnBelow(hist, n, lo, hi - 1) + if hist[Slot(hi - 1)] < n then 1 else 0
  {
    if n > 0 {
      CountOnBelowStep(hist, n - 1, lo, hi);
    }
  }

  lemma {:induction false} EmptyRangeCountsNothing(hist: seq<PathId>, n: nat, lo: int)
    requires |hist| == PATH_HISTORY && n <= PLATFORM.maxPath
    ensures CountOnBelow(hist, n, lo, lo) == 0
  {
    if n > 0 {
      EmptyRangeCountsNothing(hist, n - 1, lo);
    }
  }

  /** Every packet is on exactly one path. */
  lemma {:induction false} PathsPartitionRange(hist: seq<PathId>, lo: int, hi: int)
    requires |hist| == PATH_HISTORY && lo <= hi
    ensures CountOnBelow(hist, PLATFORM.maxPath, lo, hi) == hi - lo
    decreases hi - lo
  {
    if lo == hi {
      EmptyRangeCountsNothing(hist, PLATFORM.maxPath, lo);
    } else {
      CountOnBelowStep(hist, PLATFORM.maxPath, lo, hi);
      PathsPartitionRange(hist, lo, hi - 1);
    }
  }

  lemma {:induction false} SumIsCount(p: Paths, n: nat, lo: int, hi: int)
    requires Exact(p, lo, hi) && n <= PLATFORM.maxPath
    ensures SumBelow(p.pp, n) == CountOnBelow(p.hist, n, lo, hi)
  {
    if n > 0 {
      SumIsCount(p, n - 1, lo, hi);
      var path: PathId := n - 1;
      assert p.pp[path] == CountOn(p.hist, path, lo, hi);
    }
  }

  /** The packets in flight that were moved, on the first `n` paths. */
  function MovedBelow(p: Paths, n: nat, lo: int, hi: int): nat
    requires n <= PLATFORM.maxPath
  {
    if n == 0 then 0 else MovedBelow(p, n - 1, lo, hi) + MovedTo(p, n - 1, lo, hi)
  }

  lemma {:induction false} MovedBelowStep(p: Paths, n: nat, lo: int, hi: int)
    requires n <= PLATFORM.maxPath && lo < hi
    ensures MovedBelow(p, n, lo, hi)
         == MovedBelow(p, n, lo, hi - 1) + if p.hist[Slot(hi - 1)] < n && p.moved[Slot(hi - 1)] then 1 else 0
  {
    if n > 0 {
      MovedBelowStep(p, n - 1, lo, hi);
    }
  }

  lemma {:induction false} NothingMovedOnEmptyRange(p: Paths, n: nat, lo: int)
    requires n <= PLATFORM.maxPath
    ensures MovedBelow(p, n, lo, lo) == 0
  {
    if n > 0 {
      NothingMovedOnEmptyRange(p, n - 1, lo);
    }
  }

  /** Every packet that was moved is on exactly one path. */
  lemma {:induction false} PathsPartitionMoved(p: Paths, lo: int, hi: int)
    requires lo <= hi
    ensures MovedBelow(p, PLATFORM.maxPath, lo, hi) == MovedIn(p, lo, hi)
    decreases hi - lo
  {
    if lo == hi {
      NothingMovedOnEmptyRange(p, PLATFORM.maxPath, lo);
    } else {
      MovedBelowStep(p, PLATFORM.maxPath, lo, hi);
      PathsPartitionMoved(p, lo, hi - 1);
    }
  }

  /** The counters of the first `n` paths, one of which may have room left, are covered by caps and moves. */
  lemma {:induction false} SumIsCovered(p: Paths, n: nat, lo: int, hi: int, room: Option<PathId>)
    requires Paid(p, lo, hi) && n <= PLATFORM.maxPath && (room.Some? ==> p.pp[room.value] < PLATFORM.maxUnackedPp)
    ensures SumBelow(p.pp, n) <= n * PLATFORM.maxUnackedPp + MovedBelow(p, n, lo, hi)
    ensures room.Some? && room.value < n ==> SumBelow(p.pp, n) < n * PLATFORM.maxUnackedPp + MovedBelow(p, n, lo, hi)
  {
    if n > 0 {
      SumIsCovered(p, n - 1, lo, hi, room);
      var path: PathId := n - 1;
      assert p.pp[path] <= PLATFORM.maxUnackedPp + MovedTo(p, path, lo, hi);
      assert n * PLATFORM.maxUnackedPp == (n - 1) * PLATFORM.maxUnackedPp + PLATFORM.maxUnackedPp;
    }
  }

  /**
   * Packets in flight are at most the cap on every path plus the packets in flight that were moved to another path; one
   * path with room left makes the bound strict.
   */
  lemma InFlightBound(p: Paths, una: int, nxt: int)
    requires Exact(p, una, nxt) && Paid(p, una, nxt) && una <= nxt
    ensures nxt - una <= PLATFORM.maxUnackedPp * PLATFORM.maxPath + MovedIn(p, una, nxt)
    ensures (exists path: PathId :: p.pp[path] < PLATFORM.maxUnackedPp) ==>
      nxt - una < PLATFORM.maxUnackedPp * PLATFORM.maxPath + MovedIn(p, una, nxt)
  {
    FlightBound(p, una, nxt, None);
    if path: PathId :| p.pp[path] < PLATFORM.maxUnackedPp {
      FlightBound(p, una, nxt, Some(path));
    }
  }

  lemma FlightBound(p: Paths, una: int, nxt: int, room: Option<PathId>)
    requires Exact(p, una, nxt) && Paid(p, una, nxt) && una <= nxt
    requires room.Some? ==> p.pp[room.value] < PLATFORM.maxUnackedPp
    ensures nxt - una + (if room.Some? then 1 else 0) <= PLATFORM.maxUnackedPp * PLATFORM.maxPath + MovedIn(p, una, nxt)
  {
    hide Exact, Paid, SumBelow, MovedBelow, CountOnBelow, CountOn;
    var n := PLATFORM.maxPath;
    SumIsCount(p, n, una, nxt);
    PathsPartitionRange(p.hist, una, nxt);
    PathsPartitionMoved(p, una, nxt);
    SumIsCovered(p, n, una, nxt, room);
  }

  // ----- However many packets are in flight -----

  function Total(tally: seq<int>, n: nat): int
    requires n <= |tally|
  {
    if n == 0 then 0 else Total(tally, n - 1) + tally[n - 1]
  }

  function Over(count: int): nat {
    if count > PLATFORM.maxUnackedPp then count - PLATFORM.maxUnackedPp else 0
  }

  /** By how much the tallies of the first `n` paths exceed the cap, added up. */
  function Excess(tally: seq<int>, n: nat): nat
    requires n <= |tally|
  {
    if n == 0 then 0 else Excess(tally, n - 1) + Over(tally[n - 1])
  }

  /** The counters are the tallies modulo 2^16. */
  ghost predicate Modulo(p: Paths) {
    forall path: PathId :: p.pp[path] == p.tally[path] % 0x1_0000
  }

  /**
   * The counters are the tallies modulo 2^16, the tallies add up to the packets in flight, and what exceeds the caps is
   * paid for by moves. This needs no exact ring: an acknowledgement or a move may name the wrong path.
   */
  ghost predicate Tallied(p: Paths, una: int, nxt: int) {
    && Modulo(p)
    && Total(p.tally, PLATFORM.maxPath) == nxt - una
    && Excess(p.tally, PLATFORM.maxPath) <= p.moves
  }

  /** No counter can have wrapped around yet. */
  predicate FewMoves(p: Paths) {
    PLATFORM.maxUnackedPp + p.moves < 0x1_0000
  }

  lemma {:induction false} TallyUpdate(tally: seq<int>, n: nat, k: nat, v: int)
    requires k < |tally| && n <= |tally|
    ensures Total(tally[k := v], n) == Total(tally, n) + if k < n then v - tally[k] else 0
    ensures Excess(tally[k := v], n) == Excess(tally, n) + if k < n then Over(v) - Over(tally[k]) else 0
  {
    if n > 0 {
      TallyUpdate(tally, n - 1, k, v);
    }
  }

  lemma {:induction false} OverIsWithin(tally: seq<int>, n: nat, k: nat)
    requires k < n <= |tally|
    ensures Over(tally[k]) <= Excess(tally, n)
  {
    if k < n - 1 {
      OverIsWithin(tally, n - 1, k);
    }
  }

  lemma {:induction false} TotalIsCovered(tally: seq<int>, n: nat)
    requires n <= |tally|
    ensures Total(tally, n) <= n * PLATFORM.maxUnackedPp + Excess(tally, n)
  {
    if n > 0 {
      TotalIsCovered(tally, n - 1);
      assert n * PLATFORM.maxUnackedPp == (n - 1) * PLATFORM.maxUnackedPp + PLATFORM.maxUnackedPp;
    }
  }

  /** Tallies bound what is in flight. */
  lemma FlightIsCapped(p: Paths, una: int, nxt: int)
    requires Tallied(p, una, nxt)
    ensures nxt - una <= PLATFORM.maxUnackedPp * PLATFORM.maxPath + p.moves
  {
    TotalIsCovered(p.tally, PLATFORM.maxPath);
  }

  lemma NextModulo(a: int, b: int)
    requires a == b % 0x1_0000
    ensures (a + 1) % 0x1_0000 == (b + 1) % 0x1_0000 && (a - 1) % 0x1_0000 == (b - 1) % 0x1_0000
  {
  }

  lemma StaysModulo(p: Paths, path: PathId)
    requires Modulo(p)
    ensures Modulo(Inc(p, path)) && Modulo(Dec(p, path))
  {
    var n: int := p.pp[path];
    NextModulo(n, p.tally[path]);
  }

  lemma IncTallies(p: Paths, path: PathId)
    requires Modulo(p)
    ensures var u, n := Inc(p, path), PLATFORM.maxPath;
      && Modulo(u)
      && Total(u.tally, n) == Total(p.tally, n) + 1
      && Excess(u.tally, n) == Excess(p.tally, n) + if p.tally[path] >= PLATFORM.maxUnackedPp then 1 else 0
  {
    StaysModulo(p, path);
    hide Modulo;
    TallyUpdate(p.tally, PLATFORM.maxPath, path, p.tally[path] + 1);
  }

  lemma DecTallies(p: Paths, path: PathId)
    requires Modulo(p)
    ensures var u, n := Dec(p, path), PLATFORM.maxPath;
      && Modulo(u)
      && Total(u.tally, n) == Total(p.tally, n) - 1
      && Excess(u.tally, n) == Excess(p.tally, n) - if p.tally[path] > PLATFORM.maxUnackedPp then 1 else 0
  {
    StaysModulo(p, path);
    hide Modulo;
    TallyUpdate(p.tally, PLATFORM.maxPath, path, p.tally[path] - 1);
  }

  /** Whatever path the ring names, an acknowledgement keeps the tallies. */
  lemma AckKeepsTallied(p: Paths, seqno: U32, una: int, nxt: int)
    requires Tallied(p, una, nxt)
    ensures Tallied(Acked(p, seqno), una + 1, nxt)
  {
    hide Total, Excess, Dec;
    DecTallies(p, PathOf(p, seqno));
    DecKeepsMoves(p, PathOf(p, seqno));
  }

  lemma DecKeepsMoves(p: Paths, path: PathId)
    ensures Dec(p, path).moves == p.moves && Inc(p, path).moves == p.moves
    ensures Dec(p, path).hist == p.hist && Inc(p, path).hist == p.hist
  {
  }

  /** So does a retransmission: one more packet over a cap is one more move. */
  lemma MoveKeepsTallied(p: Paths, seqno: U32, path: PathId, una: int, nxt: int)
    requires Tallied(p, una, nxt)
    ensures Tallied(Moved(p, seqno, path), una, nxt)
  {
    var was := PathOf(p, seqno);
    DecTallies(p, was);
    IncTallies(Dec(p, was), path);
    var u := Moved(p, seqno, path);
    assert u.pp == Inc(Dec(p, was), path).pp && u.tally == Inc(Dec(p, was), path).tally;
    assert path == was ==> u.tally == p.tally;
    hide Total, Excess, Inc, Dec;
  }

  /** So does a new packet on a path that its counter admits, as long as that counter cannot have wrapped around. */
  lemma SendKeepsTallied(p: Paths, seqno: U32, path: PathId, una: int, nxt: int)
    requires Tallied(p, una, nxt) && FewMoves(p) && p.pp[path] + 1 <= PLATFORM.maxUnackedPp
    ensures Tallied(Sent(p, seqno, path), una, nxt + 1)
  {
    OverIsWithin(p.tally, PLATFORM.maxPath, path);
    assert p.tally[path] < PLATFORM.maxUnackedPp;
    var q := SetPath(p, seqno, path).(moved := p.moved[Slot(seqno) := false]);
    IncTallies(q, path);
    hide Total, Excess;
  }
}
