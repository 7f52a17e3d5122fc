/** The pacer as an object: it computes when a packet may go, keeps it on the ring, and hands out the ones that are ready. */
module PacerObjects {
  import opened TimingWheel
  import opened WheelBuckets
  import opened WheelObjects
  import opened Pacer
  import opened PacerRuns
  import T = Timely

  class TimelyCtl {
    const timely: T.Timely
    const wheel: WheelRing
    var prevDesiredTxTsc: nat

    ghost function Repr(): set<object>
      reads this
    {
      {this, wheel, wheel.txTsc, wheel.last}
    }

    ghost predicate Valid()
      reads this, Repr()
    {
      wheel.Valid()
    }

    /** The object holds the pacer `p`. */
    ghost predicate Shows(p: Pacer)
      requires Valid()
      reads this, Repr()
    {
      wheel.Shows(p.wheel) && prevDesiredTxTsc == p.prev
    }

    constructor (timely: T.Timely, wheel: WheelRing, now: nat)
      requires wheel.Valid()
      ensures Valid() && this.timely == timely && this.wheel == wheel && prevDesiredTxTsc == now
    {
      this.timely, this.wheel, prevDesiredTxTsc := timely, wheel, now;
    }

    /** Put a packet on the wheel, `cycleDelta` cycles after the last one but not before `refTsc`. */
    method PacePacket(refTsc: nat, pktSize: nat, msgbuf: nat, cycleDelta: nat, ghost p: Pacer, ghost c: Config)
      requires Valid() && Shows(p) && Inv(p, c) && c.horizon == wheel.horizon
      requires BKT_CAP * wheel.Buckets() > c.cap
      requires p.latest <= refTsc && cycleDelta <= c.step && |Held(p)| < c.cap && SizeOk(pktSize, c)
      modifies Repr()
      ensures Valid() && Shows(Pace(p, msgbuf, pktSize, refTsc, cycleDelta, c.horizon))
      ensures wheel.Buckets() == old(wheel.Buckets())
      ensures wheel.readyEntries == old(wheel.readyEntries) + |wheel.readyQueue| - old(|wheel.readyQueue|)
    {
      PaceInserts(p, c, msgbuf, pktSize, refTsc, cycleDelta);
      HeldOnWheel(p, c);
      hide Inv, WheelRing.Valid, WheelRing.Shows, Insertable, TimingWheel.Insert, Flat, Pace;
      var desired := prevDesiredTxTsc + cycleDelta;
      if desired < refTsc {
        desired := refTsc;
      }
      prevDesiredTxTsc := desired;
      wheel.Insert(Ent(msgbuf, pktSize, desired), refTsc, p.wheel);
    }

    /** Put a packet on the wheel at the rate of the moment. */
    method TimelyPacePacket(refTsc: nat, pktSize: nat, msgbuf: nat, ghost p: Pacer, ghost c: Config)
      requires Valid() && timely.Valid() && Shows(p) && Inv(p, c) && c.horizon == wheel.horizon
      requires BKT_CAP * wheel.Buckets() > c.cap
      requires p.latest <= refTsc && |Held(p)| < c.cap && SizeOk(pktSize, c)
      requires T.Cost(pktSize, timely.rate, timely.freqGhz) <= c.step
      modifies Repr()
      ensures Valid() && wheel.Buckets() == old(wheel.Buckets())
      ensures Shows(Pace(p, msgbuf, pktSize, refTsc, T.Cost(pktSize, timely.rate, timely.freqGhz), c.horizon))
      ensures wheel.readyEntries == old(wheel.readyEntries) + |wheel.readyQueue| - old(|wheel.readyQueue|)
    {
      PacePacket(refTsc, pktSize, msgbuf, T.Cost(pktSize, timely.rate, timely.freqGhz), p, c);
    }

    /**
     * Hand out up to `budget` of the packets that are ready at `cur`. The others are paced again at `now`, at the rate of
     * the moment; pacing them may make further packets ready, and those are paced again too.
     */
    method TimelyReadyPackets(budget: nat, cur: nat, now: nat, ghost p: Pacer, ghost c: Config) returns (numReady: nat)
      requires Valid() && timely.Valid() && Shows(p) && Inv(p, c) && c.horizon == wheel.horizon
      requires BKT_CAP * wheel.Buckets() > c.cap && wheel.readyEntries == |wheel.readyQueue|
      requires p.latest <= cur <= now && Costs(T.Costing(timely.rate, timely.freqGhz), c)
      modifies Repr()
      ensures Valid() && wheel.readyEntries == |wheel.readyQueue| == 0 && wheel.Buckets() == old(wheel.Buckets())
      ensures var (q, n) := ReadyPackets(p, cur, now, budget, T.Costing(timely.rate, timely.freqGhz), c.horizon);
        Shows(q) && numReady == n
      ensures Shape(p.wheel) && numReady <= budget && numReady <= |TimingWheel.Reap(p.wheel, cur).ready|
      ensures numReady == budget || numReady == |TimingWheel.Reap(p.wheel, cur).ready|
    {
      InvGives(p, c);
      ReadyPacketsConserves(p, cur, now, budget, T.Costing(timely.rate, timely.freqGhz), c.horizon);
      hide Inv, InOrder, Costs, ReadyPackets, WheelRing.Valid, WheelRing.Shows, TimingWheel.Reap, Held, Keys;
      numReady := HandOut(budget, cur, now, T.Costing(timely.rate, timely.freqGhz), p, c);
    }

    method HandOut(budget: nat, cur: nat, now: nat, cost: nat -> nat, ghost p: Pacer, ghost c: Config)
      returns (numReady: nat)
      requires Valid() && Shows(p) && Inv(p, c) && c.horizon == wheel.horizon
      requires BKT_CAP * wheel.Buckets() > c.cap && wheel.readyEntries == |wheel.readyQueue|
      requires p.latest <= cur <= now && Costs(cost, c)
      modifies Repr()
      ensures Valid() && Shows(ReadyPackets(p, cur, now, budget, cost, c.horizon).0)
      ensures numReady == ReadyPackets(p, cur, now, budget, cost, c.horizon).1
      ensures wheel.readyEntries == |wheel.readyQueue| == 0 && wheel.Buckets() == old(wheel.Buckets())
    {
      hide Inv, InOrder, Requeue, TimingWheel.Reap, Parted, AllIn, SlotsOf, Paced, Chained, Turned, Flat;
      InvGives(p, c);
      ReapKeeps(p, c, cur);
      wheel.Reap(cur, p.wheel);
      ghost var p1 := p.(wheel := TimingWheel.Reap(p.wheel, cur), latest := cur);
      numReady := if wheel.readyEntries <= budget then wheel.readyEntries else budget;
      wheel.readyEntries := wheel.readyEntries - numReady;
      ghost var p2 := Pop(p1, numReady);
      PopKeeps(p1, c, numReady);
      RequeueKeeps(p2, c, now, cost);
      if wheel.readyEntries > 0 {
        wheel.DropConsumed(p1.wheel);
        RequeueAll(now, cost, p2, c);
        wheel.readyEntries := 0;
      } else {
        wheel.readyQueue := [];
        assert p2.wheel.ready == [];
        RequeueEnds(p2, now, cost, c.horizon);
      }
    }

    /** Pace the packets of the ready queue again until it is empty. */
    method RequeueAll(now: nat, cost: nat -> nat, ghost p: Pacer, ghost c: Config)
      requires Valid() && Shows(p) && Inv(p, c) && c.horizon == wheel.horizon
      requires BKT_CAP * wheel.Buckets() > c.cap && p.latest <= now && Costs(cost, c)
      modifies Repr()
      ensures Valid() && Shows(Requeue(p, now, cost, c.horizon)) && wheel.Buckets() == old(wheel.Buckets())
    {
      hide Inv, InOrder, Requeue, TimingWheel.Reap, Parted, AllIn, SlotsOf, Paced, Chained, Turned, Flat, Pace;
      ghost var u := p;
      InvGives(u, c);
      while wheel.readyQueue != []
        invariant Valid() && Shows(u) && Inv(u, c) && u.latest <= now && Shape(u.wheel)
        invariant wheel.Buckets() == old(wheel.Buckets())
        invariant Requeue(u, now, cost, c.horizon) == Requeue(p, now, cost, c.horizon)
        decreases |TimingWheel.Reap(u.wheel, now).ready|
      {
        var ent := wheel.readyQueue[0];
        RequeueOnce(u, c, now, cost);
        wheel.readyQueue := wheel.readyQueue[1..];
        PacePacket(now, ent.pktSize, ent.sslot, cost(ent.pktSize), Pop(u, 1), c);
        u := Pace(Pop(u, 1), ent.sslot, ent.pktSize, now, cost(ent.pktSize), c.horizon);
      }
      InvGives(u, c);
      RequeueEnds(u, now, cost, c.horizon);
    }
  }

  lemma HeldOnWheel(p: Pacer, c: Config)
    requires Inv(p, c)
    ensures |Flat(p.wheel.ring)| <= c.cap
  {
  }
}
