/**
 * The timing wheel as a value: a window of slots, the first of which comes due next, and the queue of entries that are
 * ready. `WheelObjects` holds the ring of bucket chains itself.
 */
module TimingWheel {
  /** An entry: the buffer, its size, and the time asked for, which only the statements below look at. */
  datatype Ent = Ent(sslot: nat, pktSize: nat, desired: nat)

  /** `first` is the time at which the entries of `ring[0]` are ready; each further slot is one width later. */
  datatype Wheel = Wheel(width: nat, first: nat, ring: seq<seq<Ent>>, ready: seq<Ent>)

  predicate Shape(w: Wheel) {
    w.width > 0 && |w.ring| > 1
  }

  function Flat(ring: seq<seq<Ent>>): seq<Ent> {
    if ring == [] then [] else ring[0] + Flat(ring[1..])
  }

  function SlotTime(w: Wheel, i: nat): nat {
    w.first + i * w.width
  }

  // ----- The steps -----

  /** The first slot is emptied into the ready queue and becomes the last one. */
  function Roll(w: Wheel): Wheel
    requires Shape(w)
  {
    w.(first := w.first + w.width, ring := w.ring[1..] + [[]], ready := w.ready + w.ring[0])
  }

  function Reap(w: Wheel, now: nat): (u: Wheel)
    requires Shape(w)
    ensures Shape(u) && u.width == w.width && |u.ring| == |w.ring| && now < u.first && w.first <= u.first
    decreases now + 1 - w.first
  {
    if w.first <= now then Reap(Roll(w), now) else w
  }

  /** How many slots after the first an entry goes that is to be sent at `desired`. */
  function Place(w: Wheel, desired: nat): nat
    requires w.width > 0
  {
    if desired <= w.first then 0 else 1 + (desired - w.first) / w.width
  }

  function Put(w: Wheel, e: Ent, i: nat): Wheel
    requires i < |w.ring|
  {
    w.(ring := w.ring[i := w.ring[i] + [e]])
  }

  /** Neither of the two fatal tests of an insertion fails. */
  predicate Insertable(w: Wheel, e: Ent, ref: nat, horizon: nat)
    requires Shape(w)
  {
    && ref <= e.desired && e.desired - ref <= horizon
    && Place(Reap(w, ref), e.desired) < |w.ring|
  }

  function Insert(w: Wheel, e: Ent, ref: nat): Wheel
    requires Shape(w) && Place(Reap(w, ref), e.desired) < |w.ring|
  {
    Put(Reap(w, ref), e, Place(Reap(w, ref), e.desired))
  }

  // ----- Time bounds -----

  /** No entry is in a slot before its time, nor more than one width after it. */
  ghost predicate OnTime(w: Wheel) {
    forall i, k :: 0 <= i < |w.ring| && 0 <= k < |w.ring[i]| ==> InTime(w, i, w.ring[i][k])
  }

  ghost predicate InTime(w: Wheel, i: nat, e: Ent) {
    e.desired <= SlotTime(w, i) <= e.desired + w.width
  }

  /** The wheel is not ahead of the latest time it was told by more than one slot. */
  predicate Current(w: Wheel, latest: nat) {
    w.first <= latest + w.width
  }

  lemma RollKeepsTime(w: Wheel)
    requires Shape(w) && OnTime(w)
    ensures OnTime(Roll(w))
  {
    var u := Roll(w);
    forall i, k | 0 <= i < |u.ring| && 0 <= k < |u.ring[i]|
      ensures InTime(u, i, u.ring[i][k])
    {
      assert u.ring[i] == w.ring[i + 1];
      assert InTime(w, i + 1, w.ring[i + 1][k]);
      OneSlotOn(w, i);
    }
  }

  lemma OneSlotOn(w: Wheel, i: nat)
    requires Shape(w)
    ensures SlotTime(Roll(w), i) == SlotTime(w, i + 1)
  {
  }

  /** Reaping keeps the bounds, and what it makes ready is due. */
  lemma {:induction false} ReapIsOnTime(w: Wheel, now: nat, latest: nat)
    requires Shape(w) && OnTime(w) && Current(w, latest) && latest <= now
    ensures var u := Reap(w, now);
      && OnTime(u) && Current(u, now) && u.first > now
      && w.ready <= u.ready
      && forall k :: |w.ready| <= k < |u.ready| ==> u.ready[k].desired <= now
    decreases now + 1 - w.first
  {
    if w.first <= now {
      RollKeepsTime(w);
      forall k | 0 <= k < |w.ring[0]|
        ensures w.ring[0][k].desired <= now
      {
        assert InTime(w, 0, w.ring[0][k]);
      }
      ReapIsOnTime(Roll(w), now, now);
    }
  }

  /** What stays on the wheel was asked for less than one width ago, or is still to come. */
  lemma ReapLeavesNothingLate(w: Wheel, now: nat, i: nat, k: nat)
    requires Shape(w) && OnTime(w) && w.first > now && i < |w.ring| && k < |w.ring[i]|
    ensures w.ring[i][k].desired + w.width > now
  {
    assert InTime(w, i, w.ring[i][k]);
    SlotTimesGrow(w, 0, i);
  }

  lemma SlotTimesGrow(w: Wheel, i: nat, j: nat)
    requires i <= j
    ensures SlotTime(w, i) <= SlotTime(w, j)
  {
    assert j * w.width == i * w.width + (j - i) * w.width;
  }

  /** The slot chosen for a time past the first slot comes due after it, by a width at most, and the next one a width later. */
  lemma PlaceTime(w: Wheel, desired: nat) returns (r: nat)
    requires w.width > 0 && desired > w.first
    ensures r < w.width && Place(w, desired) > 0
    ensures SlotTime(w, Place(w, desired)) == desired - r + w.width
    ensures SlotTime(w, Place(w, desired) + 1) == desired - r + 2 * w.width
  {
    var a, width := desired - w.first, w.width;
    var q := a / width;
    r := a % width;
    assert a == q * width + r;
    assert (1 + q) * width == q * width + width && (2 + q) * width == q * width + 2 * width;
  }

  /** The slot chosen for an entry: its time is not before the one asked for, and at most one width after it. */
  lemma PlaceIsInTime(w: Wheel, e: Ent, ref: nat)
    requires Shape(w) && Current(w, ref) && ref <= e.desired
    ensures InTime(w, Place(w, e.desired), e)
    ensures Place(w, e.desired) > 0 ==> SlotTime(w, Place(w, e.desired)) > e.desired
  {
    if e.desired > w.first {
      var r := PlaceTime(w, e.desired);
      hide SlotTime, Place;
    }
  }

  lemma InsertIsOnTime(w: Wheel, e: Ent, ref: nat, latest: nat)
    requires Shape(w) && OnTime(w) && Current(w, latest) && latest <= ref <= e.desired
    requires Place(Reap(w, ref), e.desired) < |w.ring|
    ensures OnTime(Insert(w, e, ref)) && Current(Insert(w, e, ref), ref)
  {
    ReapIsOnTime(w, ref, latest);
    var v, u := Reap(w, ref), Insert(w, e, ref);
    var p := Place(v, e.desired);
    PlaceIsInTime(v, e, ref);
    forall i, k | 0 <= i < |u.ring| && 0 <= k < |u.ring[i]|
      ensures InTime(u, i, u.ring[i][k])
    {
      if i != p || k < |v.ring[i]| {
        assert InTime(v, i, v.ring[i][k]);
      }
    }
  }

  // ----- Order -----

  /** There are no entries behind slot `i`. */
  ghost predicate EmptyAfter(w: Wheel, i: nat) {
    forall j :: i < j < |w.ring| ==> w.ring[j] == []
  }

  lemma {:induction false} FlatOfEmpty(ring: seq<seq<Ent>>)
    requires forall j :: 0 <= j < |ring| ==> ring[j] == []
    ensures Flat(ring) == []
  {
    if ring != [] {
      FlatOfEmpty(ring[1..]);
    }
  }

  /** Appending to the last slot in use appends to the whole. */
  lemma {:induction false} FlatPut(ring: seq<seq<Ent>>, e: Ent, i: nat)
    requires i < |ring| && forall j :: i < j < |ring| ==> ring[j] == []
    ensures Flat(ring[i := ring[i] + [e]]) == Flat(ring) + [e]
    decreases i
  {
    var r := ring[i := ring[i] + [e]];
    if i == 0 {
      FlatOfEmpty(ring[1..]);
      assert r[1..] == ring[1..];
    } else {
      FlatPut(ring[1..], e, i - 1);
      assert r[1..] == ring[1..][i - 1 := ring[1..][i - 1] + [e]];
    }
  }

  lemma {:induction false} FlatConcat(a: seq<seq<Ent>>, b: seq<seq<Ent>>)
    ensures Flat(a + b) == Flat(a) + Flat(b)
  {
    if a == [] {
      assert a + b == b;
    } else {
      assert (a + b)[1..] == a[1..] + b;
      FlatConcat(a[1..], b);
    }
  }

  lemma RollKeepsOrder(w: Wheel)
    requires Shape(w)
    ensures Roll(w).ready + Flat(Roll(w).ring) == w.ready + Flat(w.ring)
  {
    FlatConcat(w.ring[1..], [[]]);
    assert Flat([[]]) == [];
  }

  /** Reaping moves entries from the wheel to the ready queue without changing their order. */
  lemma {:induction false} ReapKeepsOrder(w: Wheel, now: nat)
    requires Shape(w)
    ensures var u := Reap(w, now);
      u.ready + Flat(u.ring) == w.ready + Flat(w.ring)
    decreases now + 1 - w.first
  {
    if w.first <= now {
      RollKeepsOrder(w);
      ReapKeepsOrder(Roll(w), now);
    }
  }

  /** No slot in use, other than the first, comes due more than one width after `last`, the time asked for last. */
  ghost predicate LastInUse(w: Wheel, last: nat) {
    forall i :: 0 < i < |w.ring| && w.ring[i] != [] ==> SlotTime(w, i) <= last + w.width
  }

  lemma RollKeepsLast(w: Wheel, last: nat)
    requires Shape(w) && LastInUse(w, last)
    ensures LastInUse(Roll(w), last)
  {
    var u := Roll(w);
    forall i | 0 < i < |u.ring| && u.ring[i] != []
      ensures SlotTime(u, i) <= last + u.width
    {
      assert u.ring[i] == w.ring[i + 1];
      OneSlotOn(w, i);
    }
  }

  lemma {:induction false} ReapKeepsLast(w: Wheel, now: nat, last: nat)
    requires Shape(w) && LastInUse(w, last)
    ensures LastInUse(Reap(w, now), last)
    decreases now + 1 - w.first
  {
    if w.first <= now {
      RollKeepsLast(w, last);
      ReapKeepsLast(Roll(w), now, last);
    }
  }

  /**
   * An entry asked for no earlier than the last one goes into a slot behind which none is in use, unless it is asked for
   * exactly when the first slot comes due: then it goes into that one, and the one behind it may be in use.
   */
  lemma LaterGoesBehind(w: Wheel, desired: nat, last: nat)
    requires Shape(w) && LastInUse(w, last) && last <= desired
    ensures EmptyAfter(w, if desired == w.first then 1 else Place(w, desired))
  {
    var p := if desired == w.first then 1 else Place(w, desired);
    forall j | p < j < |w.ring|
      ensures w.ring[j] == []
    {
      SlotTimesGrow(w, p + 1, j);
      if desired == w.first {
        assert SlotTime(w, 2) == w.first + 2 * w.width;
      } else {
        PlaceIsNext(w, desired);
      }
    }
  }

  /** Otherwise the slot after the one chosen starts more than one width after the time asked for. */
  lemma PlaceIsNext(w: Wheel, desired: nat)
    requires Shape(w) && desired != w.first
    ensures SlotTime(w, Place(w, desired) + 1) > desired + w.width
  {
    if desired < w.first {
      assert SlotTime(w, 1) == w.first + w.width;
    } else {
      var r := PlaceTime(w, desired);
    }
  }

  /** Inserting `e` puts it in front of a different entry inserted before. */
  predicate Overtakes(w: Wheel, e: Ent, ref: nat)
    requires Shape(w)
  {
    var v := Reap(w, ref);
    e.desired == v.first && exists k :: 0 <= k < |v.ring[1]| && v.ring[1][k] != e
  }

  lemma FlatOfTwo(ring: seq<seq<Ent>>)
    requires |ring| > 1 && forall j :: 1 < j < |ring| ==> ring[j] == []
    ensures Flat(ring) == ring[0] + ring[1]
  {
    FlatOfEmpty(ring[1..][1..]);
  }

  /** An entry may change places with a row of others exactly if they are all the same as it. */
  lemma CommutesIff(e: Ent, r: seq<Ent>)
    ensures [e] + r == r + [e] <==> forall k :: 0 <= k < |r| ==> r[k] == e
  {
    if [e] + r == r + [e] {
      AllTheSame(e, r, |r|);
    }
  }

  lemma {:induction false} AllTheSame(e: Ent, r: seq<Ent>, n: nat)
    requires [e] + r == r + [e] && n <= |r|
    ensures forall k :: 0 <= k < n ==> r[k] == e
    decreases n
  {
    if n > 0 {
      AllTheSame(e, r, n - 1);
      assert (r + [e])[n - 1] == r[n - 1] && ([e] + r)[n - 1] == if n == 1 then e else r[n - 2];
    }
  }

  lemma FrontOfSecond(ready: seq<Ent>, a: seq<Ent>, b: seq<Ent>, e: Ent)
    ensures ready + (a + [e] + b) == ready + (a + b) + [e] <==> forall k :: 0 <= k < |b| ==> b[k] == e
  {
    var c := ready + a;
    assert ready + (a + [e] + b) == c + ([e] + b) && ready + (a + b) + [e] == c + (b + [e]);
    CommutesIff(e, b);
    if c + ([e] + b) == c + (b + [e]) {
      assert (c + ([e] + b))[|c|..] == [e] + b && (c + (b + [e]))[|c|..] == b + [e];
    }
  }

  /**
   * Entries asked for at times that never decrease leave in the order they came in exactly as long as none overtakes
   * another.
   */
  lemma InsertKeepsOrderIff(w: Wheel, e: Ent, ref: nat, last: nat)
    requires Shape(w) && LastInUse(w, last) && last <= e.desired
    requires Place(Reap(w, ref), e.desired) < |w.ring|
    ensures var u := Insert(w, e, ref);
      && (u.ready + Flat(u.ring) == w.ready + Flat(w.ring) + [e] <==> !Overtakes(w, e, ref))
      && LastInUse(u, e.desired)
  {
    ReapKeepsOrder(w, ref);
    ReapKeepsLast(w, ref, last);
    var v, u := Reap(w, ref), Insert(w, e, ref);
    LaterGoesBehind(v, e.desired, last);
    if e.desired == v.first {
      FlatOfTwo(v.ring);
      FlatOfTwo(u.ring);
      FrontOfSecond(v.ready, v.ring[0], v.ring[1], e);
    } else {
      FlatPut(v.ring, e, Place(v, e.desired));
      assert v.ready + (Flat(v.ring) + [e]) == v.ready + Flat(v.ring) + [e];
    }
    PutKeepsLast(v, e);
  }

  lemma PutKeepsLast(v: Wheel, e: Ent)
    requires Shape(v) && Place(v, e.desired) < |v.ring|
    requires EmptyAfter(v, if e.desired == v.first then 1 else Place(v, e.desired))
    ensures LastInUse(Put(v, e, Place(v, e.desired)), e.desired)
  {
    var u, p := Put(v, e, Place(v, e.desired)), Place(v, e.desired);
    forall i | 0 < i < |u.ring| && u.ring[i] != []
      ensures SlotTime(u, i) <= e.desired + u.width
    {
      if e.desired == v.first {
        assert i == 1 && SlotTime(v, 1) == v.first + v.width;
      } else if i <= p {
        SlotTimesGrow(v, i, p);
        PlaceIsWithin(v, e.desired);
      }
    }
  }

  /** An entry asked for strictly later than the last one overtakes none. */
  lemma LaterOvertakesNone(w: Wheel, e: Ent, ref: nat, last: nat)
    requires Shape(w) && LastInUse(w, last) && last < e.desired
    ensures !Overtakes(w, e, ref)
  {
    ReapKeepsLast(w, ref, last);
    var v := Reap(w, ref);
    assert SlotTime(v, 1) == v.first + v.width;
  }

  lemma PlaceIsWithin(w: Wheel, desired: nat)
    requires Shape(w) && Place(w, desired) > 0
    ensures SlotTime(w, Place(w, desired)) <= desired + w.width
  {
    var r := PlaceTime(w, desired);
  }

  /** It does happen: of two requests for the same time, on a slot boundary, the later one leaves first. */
  lemma EqualTimesCanSwap(a: Ent, b: Ent)
    requires a.desired == b.desired == 20
    ensures var w := Wheel(10, 10, [[], [], []], []);
      && Insertable(w, a, 5, 20) && Insertable(Insert(w, a, 5), b, 10, 20)
      && Flat(Insert(Insert(w, a, 5), b, 10).ring) == [b, a]
  {
    var w := Wheel(10, 10, [[], [], []], []);
    assert Reap(w, 5) == w && Place(w, 20) == 2;
    var u := Insert(w, a, 5);
    assert w.ring[2] + [a] == [a];
    assert u.ring == [[], [], [a]];
    assert Roll(u).ring == [[], [a], []] && Roll(u).ready == [];
    assert Reap(u, 10) == Roll(u) && Place(Roll(u), 20) == 0;
    var v := Insert(u, b, 10);
    assert Roll(u).ring[0] + [b] == [b];
    assert v.ring == [[b], [a], []];
    assert v.ring[1..] == [[a], []] && v.ring[1..][1..] == [[]];
    assert Flat([[]]) == [] && Flat([[a], []]) == [a];
  }

  // ----- The fatal tests -----

  /** A wheel just brought up to `ref`, and a request within the horizon. */
  predicate Request(width: nat, horizon: nat, first: nat, ref: nat, desired: nat) {
    ref < first <= ref + width && ref <= desired <= ref + horizon
  }

  predicate Fits(width: nat, first: nat, desired: nat, slots: nat)
    requires width > 0
  {
    Place(Wheel(width, first, [], []), desired) < slots
  }

  /** No request within the horizon overshoots the ring exactly when the horizon is at most one slot short of the ring. */
  lemma NoOvershootIff(width: nat, slots: nat, horizon: nat)
    requires width > 0 && slots > 1
    ensures (forall first: nat, ref: nat, desired: nat ::
               Request(width, horizon, first, ref, desired) ==> Fits(width, first, desired, slots))
        <==> horizon <= (slots - 1) * width
  {
    if horizon <= (slots - 1) * width {
      forall first: nat, ref: nat, desired: nat | Request(width, horizon, first, ref, desired)
        ensures Fits(width, first, desired, slots)
      {
        RequestFits(width, slots, horizon, first, ref, desired);
      }
    } else {
      QuotientAtLeast(horizon - 1, width, slots - 1);
      assert Request(width, horizon, 1, 0, horizon) && !Fits(width, 1, horizon, slots);
    }
  }

  lemma RequestFits(width: nat, slots: nat, horizon: nat, first: nat, ref: nat, desired: nat)
    requires width > 0 && slots > 1 && horizon <= (slots - 1) * width
    requires Request(width, horizon, first, ref, desired)
    ensures Fits(width, first, desired, slots)
  {
    if desired > first {
      QuotientBelow(desired - first, width, slots - 1);
    }
  }

  lemma MulGrows(a: nat, b: nat, width: nat)
    requires a <= b
    ensures a * width <= b * width
  {
    assert b * width == a * width + (b - a) * width;
  }

  lemma QuotientBelow(a: nat, width: nat, n: nat)
    requires width > 0 && a < n * width
    ensures a / width < n
  {
    var q := a / width;
    assert a >= q * width;
    if q >= n {
      MulGrows(n, q, width);
    }
  }

  lemma QuotientAtLeast(a: nat, width: nat, n: nat)
    requires width > 0 && a >= n * width
    ensures a / width >= n
  {
    var q, r := a / width, a % width;
    assert a == q * width + r && (q + 1) * width == q * width + width;
    if q < n {
      MulGrows(q + 1, n, width);
    }
  }
}
