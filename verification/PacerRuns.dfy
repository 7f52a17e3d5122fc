/**
 * Runs of the pacer in which no packet costs more than `step` cycles and at most `cap` packets are held. No fatal test ever
 * fails exactly if `cap * step` is within the horizon and within the ring less one slot. Packets become ready on time, and
 * in order as long as none overtakes another.
 */
module PacerRuns {
  import opened TimingWheel
  import opened Pacer

  /** The dearest packet's cost, the most packets held, the horizon, and the sizes of packets. */
  datatype Config = Config(step: nat, cap: nat, horizon: nat, minSize: nat, mtu: nat)

  /** As many of the dearest packets as may be held fit into the horizon and into the ring. */
  predicate Fit(c: Config, width: nat, slots: nat) {
    c.cap * c.step <= c.horizon && c.cap * c.step <= (slots - 1) * width
  }

  /** How many of the entries were asked for after time `x`. */
  function CountLater(s: seq<Ent>, x: nat): nat {
    if s == [] then 0 else (if s[0].desired > x then 1 else 0) + CountLater(s[1..], x)
  }

  lemma {:induction false} CountConcat(a: seq<Ent>, b: seq<Ent>, x: nat)
    ensures CountLater(a + b, x) == CountLater(a, x) + CountLater(b, x)
  {
    if a == [] {
      assert a + b == b;
    } else {
      assert (a + b)[1..] == a[1..] + b;
      CountConcat(a[1..], b, x);
    }
  }

  lemma {:induction false} CountIsAtMost(s: seq<Ent>, x: nat)
    ensures CountLater(s, x) <= |s|
  {
    if s != [] {
      CountIsAtMost(s[1..], x);
    }
  }

  lemma {:induction false} CountNone(s: seq<Ent>, x: nat)
    requires forall k :: 0 <= k < |s| ==> s[k].desired <= x
    ensures CountLater(s, x) == 0
  {
    if s != [] {
      CountNone(s[1..], x);
    }
  }

  /** Reaping up to `now` takes no entry asked for later than that. */
  lemma {:induction false} ReapKeepsCount(w: Wheel, now: nat, x: nat)
    requires Shape(w) && OnTime(w) && now <= x
    ensures CountLater(Flat(Reap(w, now).ring), x) == CountLater(Flat(w.ring), x)
    decreases now + 1 - w.first
  {
    if w.first <= now {
      forall k | 0 <= k < |w.ring[0]|
        ensures w.ring[0][k].desired <= x
      {
        assert InTime(w, 0, w.ring[0][k]);
      }
      CountNone(w.ring[0], x);
      CountConcat(w.ring[0], Flat(w.ring[1..]), x);
      FlatConcat(w.ring[1..], [[]]);
      assert Flat([[]]) == [];
      assert Flat(Roll(w).ring) == Flat(w.ring[1..]);
      RollKeepsTime(w);
      ReapKeepsCount(Roll(w), now, x);
    }
  }

  /** The time asked for last exceeds any time by at most one step for each packet asked for after that time. */
  ghost predicate Bounded(p: Pacer, c: Config) {
    forall x :: p.latest <= x ==> BoundedAt(p, c, x)
  }

  ghost predicate BoundedAt(p: Pacer, c: Config, x: nat) {
    p.prev <= x + c.step * CountLater(Flat(p.wheel.ring), x)
  }

  predicate SizeOk(size: nat, c: Config) {
    c.minSize <= size <= c.mtu
  }

  ghost predicate SizesOk(s: seq<Ent>, c: Config) {
    forall k :: 0 <= k < |s| ==> SizeOk(s[k].pktSize, c)
  }

  /** All these were asked for by now. */
  ghost predicate Due(s: seq<Ent>, now: nat) {
    forall k :: 0 <= k < |s| ==> s[k].desired <= now
  }

  ghost predicate Inv(p: Pacer, c: Config) {
    && Shape(p.wheel) && Fit(c, p.wheel.width, |p.wheel.ring|)
    && OnTime(p.wheel) && Current(p.wheel, p.latest) && Bounded(p, c)
    && Due(p.wheel.ready, p.latest) && Due(p.popped, p.latest)
    && !p.failed && |Held(p)| <= c.cap && SizesOk(Held(p), c)
  }

  /** Packets leave the ready queue in the order in which they were put on the wheel. */
  ghost predicate Ordered(p: Pacer) {
    p.popped + Held(p) == p.log
  }

  ghost predicate InOrder(p: Pacer) {
    LastInUse(p.wheel, p.prev) && (!p.overtaken ==> Ordered(p))
  }

  // ----- Pacing -----

  lemma MulAtMost(a: nat, b: nat, step: nat)
    requires a <= b
    ensures step * a <= step * b
  {
    assert step * b == step * a + step * (b - a);
  }

  /** A packet that may be added is not asked for beyond the time all packets together take. */
  lemma WithinHorizon(p: Pacer, c: Config, ref: nat, cost: nat)
    requires Inv(p, c) && p.latest <= ref && cost <= c.step && |Held(p)| < c.cap
    ensures Max(p.prev + cost, ref) <= ref + c.cap * c.step
  {
    assert BoundedAt(p, c, ref);
    var n := CountLater(Flat(p.wheel.ring), ref);
    CountIsAtMost(Flat(p.wheel.ring), ref);
    assert n + 1 <= c.cap && p.prev <= ref + c.step * n;
    hide *;
    OneMoreStep(c.step, n, p.prev, cost, ref);
    MulAtMost(n + 1, c.cap, c.step);
    Commutes(c.cap, c.step);
  }

  lemma Commutes(a: nat, b: nat)
    ensures a * b == b * a
  {
  }

  lemma PaceInserts(p: Pacer, c: Config, sslot: nat, size: nat, ref: nat, cost: nat)
    requires Inv(p, c) && p.latest <= ref && cost <= c.step && |Held(p)| < c.cap
    ensures var e := Ent(sslot, size, Max(p.prev + cost, ref));
      && Insertable(p.wheel, e, ref, c.horizon)
      && Pace(p, sslot, size, ref, cost, c.horizon)
         == p.(wheel := Insert(p.wheel, e, ref), prev := e.desired, latest := ref, log := p.log + [e],
                overtaken := p.overtaken || Overtakes(p.wheel, e, ref))
  {
    WithinHorizon(p, c, ref, cost);
    var e := Ent(sslot, size, Max(p.prev + cost, ref));
    ReapIsOnTime(p.wheel, ref, p.latest);
    var v := Reap(p.wheel, ref);
    RequestFits(v.width, |v.ring|, c.cap * c.step, v.first, ref, e.desired);
    assert Place(v, e.desired) == Place(Wheel(v.width, v.first, [], []), e.desired);
  }

  /** Inserting adds one to the count of later requests if it is one. */
  lemma InsertCounts(w: Wheel, e: Ent, ref: nat, x: nat)
    requires Shape(w) && OnTime(w) && ref <= x && Place(Reap(w, ref), e.desired) < |w.ring|
    ensures CountLater(Flat(Insert(w, e, ref).ring), x) == CountLater(Flat(w.ring), x) + if e.desired > x then 1 else 0
  {
    var v := Reap(w, ref);
    ReapKeepsCount(w, ref, x);
    var a, b := PutSplits(v.ring, e, Place(v, e.desired));
    assert Flat(Insert(w, e, ref).ring) == a + [e] + b && Flat(v.ring) == a + b;
    assert CountLater([e], x) == if e.desired > x then 1 else 0;
    hide *;
    CountConcat(a, b, x);
    CountConcat(a, [e], x);
    CountConcat(a + [e], b, x);
  }

  lemma InvBounds(p: Pacer, c: Config, e: Ent, ref: nat, x: nat)
    requires Inv(p, c) && p.latest <= x && Insertable(p.wheel, e, ref, c.horizon)
    ensures p.prev <= x + c.step * CountLater(Flat(p.wheel.ring), x)
    ensures Shape(p.wheel) && OnTime(p.wheel) && Place(Reap(p.wheel, ref), e.desired) < |p.wheel.ring|
  {
    assert BoundedAt(p, c, x);
  }

  lemma PaceBounds(p: Pacer, c: Config, e: Ent, ref: nat, cost: nat, x: nat)
    requires Inv(p, c) && p.latest <= ref <= x && cost <= c.step && e.desired == Max(p.prev + cost, ref)
    requires Insertable(p.wheel, e, ref, c.horizon)
    ensures e.desired <= x + c.step * CountLater(Flat(Insert(p.wheel, e, ref).ring), x)
  {
    hide Inv, Insertable, Insert, Flat, CountLater;
    InvBounds(p, c, e, ref, x);
    InsertCounts(p.wheel, e, ref, x);
    var n := CountLater(Flat(p.wheel.ring), x);
    if e.desired > x {
      OneMoreStep(c.step, n, p.prev, cost, x);
    }
  }

  /** One more packet asked for after `x` allows one more step. */
  lemma OneMoreStep(step: nat, n: nat, prev: nat, cost: nat, x: nat)
    requires prev <= x + step * n && cost <= step
    ensures prev + cost <= x + step * (n + 1)
  {
    assert step * (n + 1) == step * n + step;
  }

  /** Pacing one more packet trips no fatal test and keeps everything on time. */
  lemma PaceKeeps(p: Pacer, c: Config, sslot: nat, size: nat, ref: nat, cost: nat)
    requires Inv(p, c) && p.latest <= ref && cost <= c.step && |Held(p)| < c.cap && SizeOk(size, c)
    ensures Inv(Pace(p, sslot, size, ref, cost, c.horizon), c)
    ensures |Held(Pace(p, sslot, size, ref, cost, c.horizon))| == |Held(p)| + 1
  {
    PaceInserts(p, c, sslot, size, ref, cost);
    var e := Ent(sslot, size, Max(p.prev + cost, ref));
    var u := Pace(p, sslot, size, ref, cost, c.horizon);
    InsertIsOnTime(p.wheel, e, ref, p.latest);
    ReapIsOnTime(p.wheel, ref, p.latest);
    forall x | ref <= x
      ensures BoundedAt(u, c, x)
    {
      PaceBounds(p, c, e, ref, cost, x);
    }
    PaceAdds(p, sslot, size, ref, cost, c.horizon);
    PaceSizes(p, c, e, ref);
    hide OnTime, BoundedAt, Flat, Insert, Insertable, Place, Reap;
  }

  lemma PaceSizes(p: Pacer, c: Config, e: Ent, ref: nat)
    requires Shape(p.wheel) && SizesOk(Held(p), c) && SizeOk(e.pktSize, c) && Insertable(p.wheel, e, ref, c.horizon)
    ensures var w := Insert(p.wheel, e, ref); SizesOk(w.ready + Flat(w.ring), c)
  {
    var v := Reap(p.wheel, ref);
    ReapKeepsOrder(p.wheel, ref);
    var a, b := PutSplits(v.ring, e, Place(v, e.desired));
    var s, t := v.ready + Flat(v.ring), v.ready + (a + [e] + b);
    assert s == (v.ready + a) + b && t == (v.ready + a) + [e] + b;
    hide Flat, Reap, Place;
    var n := |v.ready + a|;
    forall k | 0 <= k < |t|
      ensures SizeOk(t[k].pktSize, c)
    {
      assert t[k] == if k < n then s[k] else if k == n then e else s[k - 1];
    }
  }

  /** Pacing keeps the order exactly as long as the packet overtakes none. */
  lemma PaceKeepsOrderIff(p: Pacer, c: Config, sslot: nat, size: nat, ref: nat, cost: nat)
    requires Inv(p, c) && InOrder(p) && p.latest <= ref && cost <= c.step && |Held(p)| < c.cap
    ensures var e := Ent(sslot, size, Max(p.prev + cost, ref));
      var u := Pace(p, sslot, size, ref, cost, c.horizon);
      && InOrder(u)
      && (Ordered(p) ==> (Ordered(u) <==> !Overtakes(p.wheel, e, ref)))
      && (cost > 0 ==> u.overtaken == p.overtaken)
  {
    PaceInserts(p, c, sslot, size, ref, cost);
    var e := Ent(sslot, size, Max(p.prev + cost, ref));
    InsertKeepsOrderIff(p.wheel, e, ref, p.prev);
    if cost > 0 {
      LaterOvertakesNone(p.wheel, e, ref, p.prev);
    }
    hide Flat, Insert, Reap, LastInUse, OnTime, Bounded, Overtakes;
    var u := Pace(p, sslot, size, ref, cost, c.horizon);
    SamePrefix(p.popped, Held(u), Held(p) + [e]);
    assert p.popped + (Held(p) + [e]) == p.popped + Held(p) + [e];
  }

  lemma SamePrefix(a: seq<Ent>, b: seq<Ent>, c: seq<Ent>)
    ensures a + b == a + c <==> b == c
  {
    assert (a + b)[|a|..] == b && (a + c)[|a|..] == c;
  }

  // ----- Handing out and requeueing -----

  lemma ReapKeeps(p: Pacer, c: Config, cur: nat)
    requires Inv(p, c) && p.latest <= cur
    ensures var u := p.(wheel := Reap(p.wheel, cur), latest := cur);
      Inv(u, c) && Held(u) == Held(p) && (InOrder(p) ==> InOrder(u))
  {
    var u := p.(wheel := Reap(p.wheel, cur), latest := cur);
    ReapIsOnTime(p.wheel, cur, p.latest);
    ReapKeepsOrder(p.wheel, cur);
    if InOrder(p) {
      ReapKeepsLast(p.wheel, cur, p.prev);
    }
    forall x | cur <= x
      ensures BoundedAt(u, c, x)
    {
      assert BoundedAt(p, c, x);
      ReapKeepsCount(p.wheel, cur, x);
    }
  }

  /** Taking entries off the ready queue leaves the wheel itself alone. */
  lemma PopKeepsWheel(p: Pacer, c: Config, n: nat)
    requires Inv(p, c) && n <= |p.wheel.ready|
    ensures OnTime(Pop(p, n).wheel) && Bounded(Pop(p, n), c)
  {
    var u := Pop(p, n);
    forall i, k | 0 <= i < |u.wheel.ring| && 0 <= k < |u.wheel.ring[i]|
      ensures InTime(u.wheel, i, u.wheel.ring[i][k])
    {
      assert InTime(p.wheel, i, p.wheel.ring[i][k]);
    }
    forall x | p.latest <= x
      ensures BoundedAt(u, c, x)
    {
      assert BoundedAt(p, c, x);
    }
  }

  lemma PopKeepsOrder(p: Pacer, n: nat)
    requires InOrder(p) && n <= |p.wheel.ready|
    ensures InOrder(Pop(p, n))
  {
    var u := Pop(p, n);
    ReadyIsApart(p.wheel, u.wheel.ready, p.prev);
    hide LastInUse, Ordered;
    if Ordered(p) {
      PopKeepsOrdered(p, n);
    }
  }

  lemma PopKeepsOrdered(p: Pacer, n: nat)
    requires Ordered(p) && n <= |p.wheel.ready|
    ensures Ordered(Pop(p, n))
  {
    PopTakes(p, n);
    var r := p.wheel.ready[..n];
    var h, b := Held(Pop(p, n)), p.popped;
    assert Pop(p, n).popped == b + r && p.log == b + (r + h);
    hide Held, Keys;
    InTwoParts(b, r, h);
  }

  lemma InTwoParts(a: seq<Ent>, b: seq<Ent>, c: seq<Ent>)
    ensures a + (b + c) == a + b + c
  {
  }

  /** Which slots are in use has nothing to do with the ready queue. */
  lemma ReadyIsApart(w: Wheel, ready: seq<Ent>, last: nat)
    requires LastInUse(w, last)
    ensures LastInUse(w.(ready := ready), last)
  {
    var u := w.(ready := ready);
    forall i | 0 < i < |u.ring| && u.ring[i] != []
      ensures SlotTime(u, i) <= last + u.width
    {
      assert SlotTime(u, i) == SlotTime(w, i);
    }
  }

  lemma SizesOfRest(a: seq<Ent>, b: seq<Ent>, c: Config)
    requires SizesOk(a + b, c)
    ensures SizesOk(b, c)
  {
    forall k | 0 <= k < |b|
      ensures SizeOk(b[k].pktSize, c)
    {
      assert b[k] == (a + b)[|a| + k];
    }
  }

  lemma PopKeeps(p: Pacer, c: Config, n: nat)
    requires Inv(p, c) && n <= |p.wheel.ready|
    ensures Inv(Pop(p, n), c) && |Held(Pop(p, n))| == |Held(p)| - n && (InOrder(p) ==> InOrder(Pop(p, n)))
  {
    var u := Pop(p, n);
    PopTakes(p, n);
    PopKeepsWheel(p, c, n);
    hide OnTime, Bounded, InOrder, Keys, SizesOk, Held;
    SizesOfRest(p.wheel.ready[..n], Held(u), c);
    if InOrder(p) {
      PopKeepsOrder(p, n);
    }
  }

  /** No packet of an admissible size costs more than one step. */
  ghost predicate Costs(cost: nat -> nat, c: Config) {
    forall size :: SizeOk(size, c) ==> cost(size) <= c.step
  }

  /** None is free. */
  ghost predicate NoneFree(cost: nat -> nat, c: Config) {
    forall size :: SizeOk(size, c) ==> cost(size) > 0
  }

  /** One round of requeueing. */
  lemma RequeueOnce(p: Pacer, c: Config, now: nat, cost: nat -> nat)
    requires Inv(p, c) && p.latest <= now && Costs(cost, c) && p.wheel.ready != []
    ensures var e := p.wheel.ready[0];
      var u := Pace(Pop(p, 1), e.sslot, e.pktSize, now, cost(e.pktSize), c.horizon);
      && SizeOk(e.pktSize, c) && Inv(Pop(p, 1), c) && |Held(Pop(p, 1))| < c.cap
      && Inv(u, c) && u.latest <= now
      && (InOrder(p) ==> InOrder(u) && (NoneFree(cost, c) ==> u.overtaken == p.overtaken))
      && |Reap(u.wheel, now).ready| < |Reap(p.wheel, now).ready|
      && Requeue(p, now, cost, c.horizon) == Requeue(u, now, cost, c.horizon)
  {
    var e := p.wheel.ready[0];
    assert Held(p)[0] == e;
    var u := Pace(Pop(p, 1), e.sslot, e.pktSize, now, cost(e.pktSize), c.horizon);
    RequeueShrinks(p, now, cost(e.pktSize), c.horizon);
    InvGives(p, c);
    assert SizeOk(e.pktSize, c);
    hide Inv, InOrder, Pace, Reap, Held;
    PopKeeps(p, c, 1);
    PaceKeeps(Pop(p, 1), c, e.sslot, e.pktSize, now, cost(e.pktSize));
    if InOrder(p) {
      PaceKeepsOrderIff(Pop(p, 1), c, e.sslot, e.pktSize, now, cost(e.pktSize));
    }
    InvGives(u, c);
    PaceSetsLatest(Pop(p, 1), e.sslot, e.pktSize, now, cost(e.pktSize), c.horizon);
  }

  lemma {:induction false} RequeueKeeps(p: Pacer, c: Config, now: nat, cost: nat -> nat)
    requires Inv(p, c) && p.latest <= now && Costs(cost, c)
    ensures var u := Requeue(p, now, cost, c.horizon);
      && Inv(u, c) && u.latest <= now && u.wheel.ready == []
      && (InOrder(p) ==> InOrder(u) && (NoneFree(cost, c) ==> u.overtaken == p.overtaken))
    decreases |Reap(p.wheel, now).ready|
  {
    hide Inv, InOrder, Pace, Reap, Held, Costs, NoneFree, SizeOk;
    InvGives(p, c);
    if p.wheel.ready == [] {
      RequeueEnds(p, now, cost, c.horizon);
    } else {
      RequeueOnce(p, c, now, cost);
      var e := p.wheel.ready[0];
      hide Requeue;
      RequeueKeeps(Pace(Pop(p, 1), e.sslot, e.pktSize, now, cost(e.pktSize), c.horizon), c, now, cost);
    }
  }

  lemma RequeueEnds(p: Pacer, now: nat, cost: nat -> nat, horizon: nat)
    requires Shape(p.wheel) && p.wheel.ready == []
    ensures Requeue(p, now, cost, horizon) == p
  {
  }

  lemma InvGives(p: Pacer, c: Config)
    requires Inv(p, c)
    ensures !p.failed && |Held(p)| <= c.cap && Shape(p.wheel)
  {
  }

  lemma PaceSetsLatest(p: Pacer, sslot: nat, size: nat, now: nat, cost: nat, horizon: nat)
    requires Shape(p.wheel) && p.latest <= now
    ensures Pace(p, sslot, size, now, cost, horizon).latest <= now
  {
  }

  lemma ReadyPacketsKeeps(p: Pacer, c: Config, cur: nat, now: nat, budget: nat, cost: nat -> nat)
    requires Inv(p, c) && p.latest <= cur <= now && Costs(cost, c)
    ensures var u := ReadyPackets(p, cur, now, budget, cost, c.horizon).0;
      && Inv(u, c) && u.latest <= now && u.wheel.ready == []
      && (InOrder(p) ==> InOrder(u) && (NoneFree(cost, c) ==> u.overtaken == p.overtaken))
  {
    var p1 := p.(wheel := Reap(p.wheel, cur), latest := cur);
    var n := if |p1.wheel.ready| <= budget then |p1.wheel.ready| else budget;
    ReapKeeps(p, c, cur);
    PopKeeps(p1, c, n);
    hide Inv, InOrder, Reap, Requeue, NoneFree, Costs;
    RequeueKeeps(Pop(p1, n), c, now, cost);
  }

  // ----- Runs -----

  datatype Step =
    | Send(sslot: nat, size: nat, ref: nat, cost: nat)
    | Ready(cur: nat, now: nat, budget: nat, costs: nat -> nat)

  /** Time does not run backwards, the packet is of an admissible size, and there is room for it. */
  ghost predicate Allowed(p: Pacer, step: Step, c: Config) {
    match step
    case Send(_, size, ref, _) => p.latest <= ref && SizeOk(size, c) && |Held(p)| < c.cap
    case Ready(cur, now, _, _) => p.latest <= cur <= now
  }

  ghost predicate CostOk(step: Step, c: Config) {
    match step
    case Send(_, _, _, cost) => cost <= c.step
    case Ready(_, _, _, costs) => Costs(costs, c)
  }

  ghost predicate CostPositive(step: Step, c: Config) {
    match step
    case Send(_, _, _, cost) => cost > 0
    case Ready(_, _, _, costs) => NoneFree(costs, c)
  }

  function Apply(p: Pacer, step: Step, c: Config): Pacer
    requires Shape(p.wheel)
  {
    match step
    case Send(sslot, size, ref, cost) => Pace(p, sslot, size, ref, cost, c.horizon)
    case Ready(cur, now, budget, costs) => ReadyPackets(p, cur, now, budget, costs, c.horizon).0
  }

  /** A wheel at its start: all slots empty, the first one due at most a width after the time it was told. */
  ghost predicate Start(p: Pacer) {
    && Shape(p.wheel) && (forall i :: 0 <= i < |p.wheel.ring| ==> p.wheel.ring[i] == [])
    && p.wheel.ready == [] && p.log == [] && p.popped == [] && !p.failed && !p.overtaken
    && p.prev <= p.latest && p.wheel.first <= p.latest + p.wheel.width
  }

  /** After a fatal test has failed there are no further steps. */
  ghost predicate Goes(p: Pacer, step: Step, q: Pacer, c: Config) {
    Shape(p.wheel) && !p.failed && Allowed(p, step, c) && CostOk(step, c) && q == Apply(p, step, c)
  }

  ghost predicate Run(states: seq<Pacer>, steps: seq<Step>, c: Config) {
    && |states| == |steps| + 1 && Start(states[0])
    && forall i :: 0 <= i < |steps| ==> Goes(states[i], steps[i], states[i + 1], c)
  }

  lemma StartIsSound(p: Pacer, c: Config)
    requires Start(p) && Fit(c, p.wheel.width, |p.wheel.ring|)
    ensures Inv(p, c) && InOrder(p)
  {
    FlatOfEmpty(p.wheel.ring);
  }

  lemma StepKeeps(p: Pacer, step: Step, c: Config)
    requires Inv(p, c) && Allowed(p, step, c) && CostOk(step, c)
    ensures Shape(p.wheel) && Inv(Apply(p, step, c), c)
    ensures InOrder(p) ==>
      InOrder(Apply(p, step, c)) && (CostPositive(step, c) ==> Apply(p, step, c).overtaken == p.overtaken)
  {
    InvGives(p, c);
    hide Inv, InOrder, Pace, ReadyPackets, Overtakes, Costs, NoneFree;
    match step
    case Send(sslot, size, ref, cost) =>
      PaceKeeps(p, c, sslot, size, ref, cost);
      if InOrder(p) {
        PaceKeepsOrderIff(p, c, sslot, size, ref, cost);
      }
    case Ready(cur, now, budget, costs) =>
      ReadyPacketsKeeps(p, c, cur, now, budget, costs);
  }

  /**
   * In every state of every run whose sizes fit: neither fatal test has failed; every packet on the wheel is in a slot at
   * most one width after the time asked for and not before it, and every packet that is ready or was handed out was asked
   * for by then; and packets leave in the order they were put on the wheel as long as none has overtaken another.
   */
  lemma {:induction false} EveryRunIsSound(states: seq<Pacer>, steps: seq<Step>, c: Config, i: nat)
    requires Run(states, steps, c) && i < |states| && Fit(c, states[0].wheel.width, |states[0].wheel.ring|)
    ensures Inv(states[i], c) && InOrder(states[i])
  {
    hide Inv, InOrder, Apply, Allowed, CostOk;
    if i == 0 {
      StartIsSound(states[0], c);
    } else {
      EveryRunIsSound(states, steps, c, i - 1);
      assert Goes(states[i - 1], steps[i - 1], states[i - 1 + 1], c);
      StepKeeps(states[i - 1], steps[i - 1], c);
    }
  }

  /** If no packet is free, none ever overtakes another, and so all leave in order. */
  lemma {:induction false} PositiveCostsKeepOrder(states: seq<Pacer>, steps: seq<Step>, c: Config, i: nat)
    requires Run(states, steps, c) && i < |states| && Fit(c, states[0].wheel.width, |states[0].wheel.ring|)
    requires forall j :: 0 <= j < |steps| ==> CostPositive(steps[j], c)
    ensures !states[i].overtaken && Ordered(states[i])
  {
    hide Inv, Apply, Allowed, CostOk, CostPositive, Ordered, LastInUse;
    EveryRunIsSound(states, steps, c, i);
    if i > 0 {
      PositiveCostsKeepOrder(states, steps, c, i - 1);
      EveryRunIsSound(states, steps, c, i - 1);
      assert Goes(states[i - 1], steps[i - 1], states[i - 1 + 1], c);
      StepKeeps(states[i - 1], steps[i - 1], c);
    }
  }

  /** Conservation over one step: packets held before are held after or were handed out, and the new one was added. */
  lemma StepConserves(p: Pacer, step: Step, c: Config)
    requires Inv(p, c) && Allowed(p, step, c) && CostOk(step, c)
    ensures var u := Apply(p, step, c);
      match step
      case Send(sslot, size, _, _) => Keys(Held(u)) == Keys(Held(p)) + multiset{(sslot, size)}
      case Ready(cur, now, budget, costs) =>
        var n := ReadyPackets(p, cur, now, budget, costs, c.horizon).1;
        n <= budget && n <= |Reap(p.wheel, cur).ready| && (n == budget || n == |Reap(p.wheel, cur).ready|)
        && Keys(Held(p)) == Keys(Reap(p.wheel, cur).ready[..n]) + Keys(Held(u)) && |Held(p)| == n + |Held(u)|
  {
    StepKeeps(p, step, c);
    match step
    case Send(sslot, size, ref, cost) =>
      PaceAdds(p, sslot, size, ref, cost, c.horizon);
    case Ready(cur, now, budget, costs) =>
      ReadyPacketsConserves(p, cur, now, budget, costs, c.horizon);
  }

  /** The packets a step takes in, and those it hands out. */
  function Taken(step: Step): multiset<(nat, nat)> {
    match step
    case Send(sslot, size, _, _) => multiset{(sslot, size)}
    case Ready(_, _, _, _) => multiset{}
  }

  function Given(p: Pacer, step: Step, c: Config): multiset<(nat, nat)>
    requires Shape(p.wheel)
  {
    match step
    case Send(_, _, _, _) => multiset{}
    case Ready(cur, now, budget, costs) =>
      var ready, n := Reap(p.wheel, cur).ready, ReadyPackets(p, cur, now, budget, costs, c.horizon).1;
      if n <= |ready| then Keys(ready[..n]) else multiset{}
  }

  function AllTaken(steps: seq<Step>, i: nat): multiset<(nat, nat)>
    requires i <= |steps|
  {
    if i == 0 then multiset{} else AllTaken(steps, i - 1) + Taken(steps[i - 1])
  }

  ghost function AllGiven(states: seq<Pacer>, steps: seq<Step>, c: Config, i: nat): multiset<(nat, nat)>
    requires Run(states, steps, c) && i <= |steps|
  {
    if i == 0 then multiset{}
    else
      assert Goes(states[i - 1], steps[i - 1], states[i - 1 + 1], c);
      AllGiven(states, steps, c, i - 1) + Given(states[i - 1], steps[i - 1], c)
  }

  lemma StepAccounts(p: Pacer, step: Step, c: Config)
    requires Inv(p, c) && Allowed(p, step, c) && CostOk(step, c)
    ensures Shape(p.wheel) && Keys(Held(p)) + Taken(step) == Given(p, step, c) + Keys(Held(Apply(p, step, c)))
  {
    InvGives(p, c);
    hide Inv, InOrder, Allowed, CostOk, Held, Keys, Apply, ReadyPackets, Reap;
    StepConserves(p, step, c);
  }

  lemma AddUp(taken: multiset<(nat, nat)>, given: multiset<(nat, nat)>, held: multiset<(nat, nat)>,
              t: multiset<(nat, nat)>, g: multiset<(nat, nat)>, h: multiset<(nat, nat)>)
    requires taken == given + held && held + t == g + h
    ensures taken + t == given + g + h
  {
    assert given + held + t == given + (held + t);
  }

  lemma NothingHeld(p: Pacer)
    requires Start(p)
    ensures Keys(Held(p)) == multiset{}
  {
    FlatOfEmpty(p.wheel.ring);
  }

  /** In every run the packets taken in are exactly those handed out and those still held. */
  lemma {:induction false} RunConserves(states: seq<Pacer>, steps: seq<Step>, c: Config, i: nat)
    requires Run(states, steps, c) && i <= |steps| && Fit(c, states[0].wheel.width, |states[0].wheel.ring|)
    ensures AllTaken(steps, i) == AllGiven(states, steps, c, i) + Keys(Held(states[i]))
  {
    hide Inv, InOrder, Allowed, CostOk, Held, Keys, Apply, Taken, Given, Start, Shape;
    NothingHeld(states[0]);
    if i > 0 {
      RunConserves(states, steps, c, i - 1);
      EveryRunIsSound(states, steps, c, i - 1);
      assert Goes(states[i - 1], steps[i - 1], states[i - 1 + 1], c);
      StepAccounts(states[i - 1], steps[i - 1], c);
      AddUp(AllTaken(steps, i - 1), AllGiven(states, steps, c, i - 1), Keys(Held(states[i - 1])),
            Taken(steps[i - 1]), Given(states[i - 1], steps[i - 1], c), Keys(Held(states[i])));
    }
  }

  // ----- The relation of sizes is exact -----

  /** `n` packets of one size paced at one time. */
  function SendMany(p: Pacer, n: nat, size: nat, ref: nat, cost: nat, horizon: nat): (u: Pacer)
    requires Shape(p.wheel)
    ensures Shape(u.wheel)
  {
    if n == 0 then p
    else
      var q := SendMany(p, n - 1, size, ref, cost, horizon);
      PaceAdds(q, n, size, ref, cost, horizon);
      Pace(q, n, size, ref, cost, horizon)
  }

  lemma SendOneMore(p: Pacer, n: nat, size: nat, ref: nat, cost: nat, horizon: nat)
    requires Shape(p.wheel) && n > 0
    ensures SendMany(p, n, size, ref, cost, horizon)
         == Pace(SendMany(p, n - 1, size, ref, cost, horizon), n, size, ref, cost, horizon)
    ensures SendMany(p, n - 1, size, ref, cost, horizon).failed ==> SendMany(p, n, size, ref, cost, horizon).failed
  {
  }

  /** Unless a fatal test fails, each packet is asked for one cost after the one before, and the wheel does not turn. */
  lemma {:induction false} SendManyReaches(p: Pacer, n: nat, size: nat, ref: nat, cost: nat, horizon: nat)
    requires Shape(p.wheel) && ref <= p.prev && ref < p.wheel.first && !SendMany(p, n, size, ref, cost, horizon).failed
    ensures var u := SendMany(p, n, size, ref, cost, horizon);
      && u.prev == p.prev + n * cost && u.wheel.first == p.wheel.first && u.wheel.width == p.wheel.width
      && |u.wheel.ring| == |p.wheel.ring| && |Held(u)| == |Held(p)| + n && (p.latest <= ref ==> u.latest <= ref)
  {
    if n > 0 {
      var q := SendMany(p, n - 1, size, ref, cost, horizon);
      SendManyReaches(p, n - 1, size, ref, cost, horizon);
      PaceAdds(q, n, size, ref, cost, horizon);
      assert Reap(q.wheel, ref) == q.wheel;
      hide Held;
      assert n * cost == (n - 1) * cost + cost;
    }
  }

  /** A wheel just about to turn, at time 0. */
  function AboutToTurn(width: nat, slots: nat): (p: Pacer)
    requires width > 0 && slots > 1
    ensures Start(p)
  {
    Pacer(Wheel(width, 1, seq(slots, _ => []), []), 0, false, 0, [], [], false)
  }

  /** A packet that is paced passes both fatal tests. */
  lemma PacedFits(q: Pacer, sslot: nat, size: nat, cost: nat, horizon: nat)
    requires Shape(q.wheel) && q.wheel.first == 1 && !Pace(q, sslot, size, 0, cost, horizon).failed
    ensures q.prev + cost <= horizon && q.prev + cost <= (|q.wheel.ring| - 1) * q.wheel.width
  {
    assert Reap(q.wheel, 0) == q.wheel;
    var d, n, w := q.prev + cost, |q.wheel.ring| - 1, q.wheel.width;
    assert d <= horizon && Place(q.wheel, d) <= n;
    hide Pace, Reap, Insert, Insertable;
    if d > n * w {
      assert d > 1 ==> (d - 1) / w < n;
      QuotientAtLeast(d - 1, w, n);
    }
  }

  /** If `cap` packets are all paced at the turn of the wheel, both bounds hold for them. */
  lemma AllPacedFit(p: Pacer, cap: nat, size: nat, step: nat, horizon: nat)
    requires Shape(p.wheel) && p.prev == 0 && p.wheel.first == 1 && cap > 0
    requires !SendMany(p, cap, size, 0, step, horizon).failed
    ensures cap * step <= horizon && cap * step <= (|p.wheel.ring| - 1) * p.wheel.width
  {
    hide SendMany, Pace, Shape;
    SendOneMore(p, cap, size, 0, step, horizon);
    SendManyReaches(p, cap - 1, size, 0, step, horizon);
    PacedFits(SendMany(p, cap - 1, size, 0, step, horizon), cap, size, step, horizon);
    hide Held;
    assert (cap - 1) * step + step == cap * step;
  }

  /** If the sizes do not fit, the dearest packets do not all find a place. */
  lemma TooMany(c: Config, width: nat, slots: nat)
    requires width > 0 && slots > 1 && !Fit(c, width, slots)
    ensures SendMany(AboutToTurn(width, slots), c.cap, c.mtu, 0, c.step, c.horizon).failed
  {
    var p := AboutToTurn(width, slots);
    hide SendMany;
    if c.cap > 0 && !SendMany(p, c.cap, c.mtu, 0, c.step, c.horizon).failed {
      AllPacedFit(p, c.cap, c.mtu, c.step, c.horizon);
    }
  }

  lemma DearestGoes(p: Pacer, c: Config, n: nat)
    requires Start(p) && p.latest == p.prev < p.wheel.first && n < c.cap && c.minSize <= c.mtu
    requires !SendMany(p, n, c.mtu, p.prev, c.step, c.horizon).failed
    ensures Goes(SendMany(p, n, c.mtu, p.prev, c.step, c.horizon), Send(n + 1, c.mtu, p.prev, c.step),
                 SendMany(p, n + 1, c.mtu, p.prev, c.step, c.horizon), c)
  {
    FlatOfEmpty(p.wheel.ring);
    hide Pace;
    var q := SendMany(p, n, c.mtu, p.prev, c.step, c.horizon);
    SendManyReaches(p, n, c.mtu, p.prev, c.step, c.horizon);
  }

  /** If all but the last of `n` packets are paced, so are the first `i`. */
  lemma {:induction false} EarlierPaced(p: Pacer, i: nat, n: nat, size: nat, ref: nat, cost: nat, horizon: nat)
    requires Shape(p.wheel) && i <= n && !SendMany(p, n, size, ref, cost, horizon).failed
    ensures !SendMany(p, i, size, ref, cost, horizon).failed
    decreases n
  {
    hide SendMany, Pace, Shape;
    if i < n {
      SendOneMore(p, n, size, ref, cost, horizon);
      EarlierPaced(p, i, n - 1, size, ref, cost, horizon);
    }
  }

  function DearestSteps(c: Config, ref: nat, n: nat): seq<Step> {
    seq(n, i requires 0 <= i < n => Send(i + 1, c.mtu, ref, c.step))
  }

  function DearestStates(p: Pacer, c: Config, n: nat): seq<Pacer>
    requires Shape(p.wheel)
  {
    seq(n + 1, i requires 0 <= i <= n => SendMany(p, i, c.mtu, p.prev, c.step, c.horizon))
  }

  lemma DearestAt(p: Pacer, c: Config, n: nat, i: nat)
    requires Shape(p.wheel) && i < n
    ensures |DearestStates(p, c, n)| == n + 1 && |DearestSteps(c, p.prev, n)| == n
    ensures DearestStates(p, c, n)[0] == p
    ensures DearestStates(p, c, n)[i] == SendMany(p, i, c.mtu, p.prev, c.step, c.horizon)
    ensures DearestStates(p, c, n)[i + 1] == SendMany(p, i + 1, c.mtu, p.prev, c.step, c.horizon)
    ensures DearestSteps(c, p.prev, n)[i] == Send(i + 1, c.mtu, p.prev, c.step)
  {
    hide Pace;
  }

  /** A run that sends the dearest packet again and again. */
  lemma DearestRun(p: Pacer, c: Config, n: nat)
    requires Start(p) && p.latest == p.prev < p.wheel.first && 0 < n <= c.cap && c.minSize <= c.mtu
    requires !SendMany(p, n - 1, c.mtu, p.prev, c.step, c.horizon).failed
    ensures Run(DearestStates(p, c, n), DearestSteps(c, p.prev, n), c)
  {
    var states, steps := DearestStates(p, c, n), DearestSteps(c, p.prev, n);
    DearestAt(p, c, n, 0);
    assert Shape(p.wheel);
    hide SendMany, Goes, Start, Shape, Pace, DearestStates, DearestSteps;
    forall i | 0 <= i < n
      ensures Goes(states[i], steps[i], states[i + 1], c)
    {
      EarlierPaced(p, i, n - 1, c.mtu, p.prev, c.step, c.horizon);
      DearestGoes(p, c, i);
      DearestAt(p, c, n, i);
    }
  }

  ghost predicate NeverFails(states: seq<Pacer>) {
    forall i :: 0 <= i < |states| ==> !states[i].failed
  }

  ghost predicate OnWheel(states: seq<Pacer>, width: nat, slots: nat) {
    states != [] && states[0].wheel.width == width && |states[0].wheel.ring| == slots
  }

  /** If the sizes do not fit there is a run in which a fatal test fails; all its packets are the dearest ones. */
  lemma FailingRun(c: Config, width: nat, slots: nat) returns (states: seq<Pacer>, steps: seq<Step>)
    requires width > 0 && slots > 1 && c.minSize <= c.mtu && !Fit(c, width, slots)
    ensures Run(states, steps, c) && OnWheel(states, width, slots) && !NeverFails(states)
    ensures forall i :: 0 <= i < |steps| ==> steps[i] == Send(i + 1, c.mtu, 0, c.step)
  {
    var p := AboutToTurn(width, slots);
    TooMany(c, width, slots);
    var n := FirstFailure(p, c.cap, c.mtu, 0, c.step, c.horizon);
    DearestRun(p, c, n);
    states, steps := DearestStates(p, c, n), DearestSteps(c, 0, n);
    hide Run, SendMany;
    assert states[n].failed;
    DearestAt(p, c, n, 0);
  }

  lemma {:induction false} FirstFailure(p: Pacer, m: nat, size: nat, ref: nat, cost: nat, horizon: nat) returns (n: nat)
    requires Shape(p.wheel) && !p.failed && SendMany(p, m, size, ref, cost, horizon).failed
    ensures 0 < n <= m && SendMany(p, n, size, ref, cost, horizon).failed
    ensures !SendMany(p, n - 1, size, ref, cost, horizon).failed
  {
    hide Pace;
    if SendMany(p, m - 1, size, ref, cost, horizon).failed {
      n := FirstFailure(p, m - 1, size, ref, cost, horizon);
    } else {
      n := m;
    }
  }

  /** No fatal test fails in any run exactly if the sizes fit. */
  lemma NeverFailsIff(c: Config, width: nat, slots: nat)
    requires width > 0 && slots > 1 && c.minSize <= c.mtu
    ensures (forall states, steps :: Run(states, steps, c) && OnWheel(states, width, slots) ==> NeverFails(states))
       <==> Fit(c, width, slots)
  {
    hide Run, Fit;
    if Fit(c, width, slots) {
      forall states: seq<Pacer>, steps: seq<Step> | Run(states, steps, c) && OnWheel(states, width, slots)
        ensures NeverFails(states)
      {
        forall i | 0 <= i < |states|
          ensures !states[i].failed
        {
          EveryRunIsSound(states, steps, c, i);
          InvGives(states[i], c);
        }
      }
    } else {
      var states, steps := FailingRun(c, width, slots);
    }
  }
}
