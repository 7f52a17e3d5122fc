/**
 * The pacer's objects on a whole machine. Whatever is called, in whatever order, they hold a state that some run of the
 * pacer at the controller's rates reaches, and no precondition, so no fatal test, is ever in the way.
 */
module PacerObjectRuns {
  import opened TimingWheel
  import opened WheelBuckets
  import opened WheelObjects
  import opened Pacer
  import opened PacerRuns
  import opened Timely
  import opened PacerObjects

  // ----- States that runs reach -----

  ghost predicate EndsIn(states: seq<Pacer>, steps: seq<RatedStep>, m: Machine, p: Pacer) {
    RatedRun(states, steps, m) && states[|states| - 1] == p
  }

  ghost predicate Reached(p: Pacer, m: Machine) {
    exists states, steps :: EndsIn(states, steps, m, p)
  }

  lemma ReachedIsSound(p: Pacer, m: Machine)
    requires Reached(p, m) && RingSuffices(m)
    ensures Inv(p, WheelConfig(m)) && InOrder(p)
  {
    hide Inv, InOrder, RingSuffices, WheelConfig, Ordered;
    var states, steps :| EndsIn(states, steps, m, p);
    MachineIsSound(states, steps, m, |states| - 1);
  }

  lemma StepIsReached(p: Pacer, step: RatedStep, m: Machine)
    requires Reached(p, m) && RingSuffices(m) && Allowed(p, ToStep(step, m.freqGhz), WheelConfig(m))
    requires step.rate <= m.linkBandwidth
    ensures Inv(p, WheelConfig(m)) && InOrder(p) && CostOk(ToStep(step, m.freqGhz), WheelConfig(m)) && Shape(p.wheel)
    ensures Reached(Apply(p, ToStep(step, m.freqGhz), WheelConfig(m)), m)
  {
    var c := WheelConfig(m);
    hide Inv, InOrder, RingSuffices, WheelConfig, Allowed, CostOk, Apply, ToStep, Start;
    ReachedIsSound(p, m);
    InvGives(p, c);
    RatedCostOk(step, p, m);
    var states, steps :| EndsIn(states, steps, m, p);
    var q := Apply(p, ToStep(step, m.freqGhz), c);
    var states2, steps2 := states + [q], steps + [step];
    forall i | 0 <= i < |steps2|
      ensures RatedGoes(states2[i], steps2[i], states2[i + 1], m)
    {
      if i < |steps| {
        assert RatedGoes(states[i], steps[i], states[i + 1], m);
      }
    }
    assert EndsIn(states2, steps2, m, q);
  }

  // ----- The objects -----

  /** The objects hold `p`, a run on machine `m` reaches it, and the machine's ring suffices. */
  ghost predicate Holds(ctl: TimelyCtl, p: Pacer, m: Machine)
    reads ctl, ctl.Repr(), ctl.timely
  {
    && ctl.Valid() && ctl.Shows(p) && ctl.timely.Valid()
    && ctl.timely.freqGhz == m.freqGhz && ctl.timely.linkBandwidth == m.linkBandwidth
    && ctl.wheel.horizon == Horizon(m.cap, m.mtu, m.freqGhz) && BKT_CAP * ctl.wheel.Buckets() > m.cap
    && ctl.wheel.readyEntries == |ctl.wheel.readyQueue|
    && Reached(p, m) && RingSuffices(m)
  }

  /** The pool of buckets the program makes is larger than the number of packets the wheel is meant for. */
  lemma PoolIsLarge(m: Machine)
    requires m.mtu > 0
    ensures BKT_CAP * (NumSlots(m.cap, m.mtu) * BKT_CAP) > m.cap
  {
    var h, n := HorizonUs(m.cap, m.mtu), NumSlots(m.cap, m.mtu);
    assert n as real >= 1.0 + h / 0.5;
    MulReal(1.0, m.mtu as real, m.cap as real);
    assert (m.cap * m.mtu) as real == m.mtu as real * m.cap as real;
    assert h * 15.0 >= m.cap as real;
  }

  /** A new pacer, at the link's rate, made at `base`; its wheel is caught up with the clock at `now`. */
  method StartPacer(m: Machine, base: nat, now: nat) returns (ctl: TimelyCtl, ghost p: Pacer)
    requires MachineOk(m) && RingSuffices(m) && m.mtu > 0 && base <= now
    ensures Holds(ctl, p, m) && Start(p) && p.latest == now && Held(p) == []
    ensures fresh(ctl) && fresh(ctl.Repr()) && fresh(ctl.timely)
  {
    var width, slots := SlotWidth(m.freqGhz), NumSlots(m.cap, m.mtu);
    PoolIsLarge(m);
    var horizon := Horizon(m.cap, m.mtu, m.freqGhz);
    hide SlotWidth, NumSlots, Horizon, RingSuffices, WheelRing.Valid, WheelRing.Shows;
    var timely := new Timely(m.freqGhz, m.linkBandwidth, now);
    ctl, p := NewPacer(timely, width, slots, horizon, base, now);
    hide WheelRing.Buckets;
    assert EndsIn([p], [], m, p);
  }

  method NewPacer(timely: Timely, width: nat, slots: nat, horizon: nat, base: nat, now: nat)
    returns (ctl: TimelyCtl, ghost p: Pacer)
    requires width > 0 && slots > 1 && base <= now
    ensures ctl.Valid() && ctl.Shows(p) && ctl.timely == timely && ctl.wheel.horizon == horizon
    ensures ctl.wheel.Buckets() == slots * BKT_CAP && ctl.wheel.readyEntries == |ctl.wheel.readyQueue|
    ensures Start(p) && p.latest == now && Held(p) == [] && p.wheel.width == width && |p.wheel.ring| == slots
    ensures fresh(ctl) && fresh(ctl.Repr())
  {
    hide Parted, AllIn, SlotsOf, Paced, Chained, Turned, Reap;
    var wheel := new WheelRing(width, slots, horizon, slots * BKT_CAP, base);
    ghost var w := Wheel(width, base + width, seq(slots, _ => []), []);
    EmptyStays(w, now);
    if wheel.txTsc[wheel.cur] < now {
      wheel.Reap(now, w);
      w := Reap(w, now);
    }
    ctl := new TimelyCtl(timely, wheel, now);
    p := Pacer(w, now, false, now, [], [], false);
    FlatOfEmpty(w.ring);
  }

  ghost predicate Empty(w: Wheel) {
    w.ready == [] && forall i :: 0 <= i < |w.ring| ==> w.ring[i] == []
  }

  /** Turning an empty wheel leaves it empty. */
  lemma {:induction false} EmptyStays(w: Wheel, now: nat)
    requires Shape(w) && Empty(w) && w.first <= now + w.width
    ensures Empty(Reap(w, now)) && Reap(w, now).first <= now + w.width
    decreases now + 1 - w.first
  {
    if w.first <= now {
      EmptyStays(Roll(w), now);
    }
  }

  /** A packet is paced at the controller's rate. */
  method SendPacket(ctl: TimelyCtl, refTsc: nat, pktSize: nat, msgbuf: nat, ghost p: Pacer, ghost m: Machine)
    returns (ghost q: Pacer)
    requires Holds(ctl, p, m) && Allowed(p, Send(msgbuf, pktSize, refTsc, 0), WheelConfig(m))
    modifies ctl.Repr()
    ensures Holds(ctl, q, m)
    ensures q == Apply(p, ToStep(SendAt(msgbuf, pktSize, refTsc, ctl.timely.rate), m.freqGhz), WheelConfig(m))
    ensures |Held(q)| == |Held(p)| + 1 && q.latest == refTsc
  {
    ghost var step, c := SendAt(msgbuf, pktSize, refTsc, ctl.timely.rate), WheelConfig(m);
    StepIsReached(p, step, m);
    PaceKeeps(p, c, msgbuf, pktSize, refTsc, Cost(pktSize, ctl.timely.rate, m.freqGhz));
    PaceInserts(p, c, msgbuf, pktSize, refTsc, Cost(pktSize, ctl.timely.rate, m.freqGhz));
    hide Inv, Reached, RingSuffices, Pace, Cost, Held, WheelRing.Valid, WheelRing.Shows, Horizon, Insertable, Insert;
    hide Overtakes;
    ctl.TimelyPacePacket(refTsc, pktSize, msgbuf, p, c);
    q := Apply(p, ToStep(step, m.freqGhz), c);
  }

  lemma HandingOutIsReached(p: Pacer, m: Machine, cur: nat, now: nat, budget: nat, rate: Rate)
    requires Reached(p, m) && RingSuffices(m) && p.latest <= cur <= now && rate <= m.linkBandwidth
    ensures var c, costs := WheelConfig(m), Costing(rate, m.freqGhz);
      && Shape(p.wheel) && Inv(p, c) && InOrder(p) && Costs(costs, c)
      && var (q, n) := ReadyPackets(p, cur, now, budget, costs, c.horizon);
         && Reached(q, m) && |Held(p)| == n + |Held(q)| && q.latest <= now
         && n <= budget && n <= |Reap(p.wheel, cur).ready| && (n == budget || n == |Reap(p.wheel, cur).ready|)
         && Keys(Held(p)) == Keys(Reap(p.wheel, cur).ready[..n]) + Keys(Held(q))
  {
    hide Inv, InOrder, Reached, RingSuffices, ReadyPackets, Cost, Costs, Held, Keys, Horizon, Reap;
    var c, costs := WheelConfig(m), Costing(rate, m.freqGhz);
    StepIsReached(p, ReadyAt(cur, now, budget, rate), m);
    ReadyPacketsKeeps(p, c, cur, now, budget, costs);
    ReadyPacketsConserves(p, cur, now, budget, costs, c.horizon);
    InvGives(ReadyPackets(p, cur, now, budget, costs, c.horizon).0, c);
  }

  /**
   * The oldest packets that are ready are handed out, all of them or as many as the budget allows; the others are paced again.
   */
  method HandOutPackets(ctl: TimelyCtl, budget: nat, cur: nat, now: nat, ghost p: Pacer, ghost m: Machine)
    returns (numReady: nat, ghost q: Pacer)
    requires Holds(ctl, p, m) && p.latest <= cur <= now
    modifies ctl.Repr()
    ensures Holds(ctl, q, m)
    ensures q == Apply(p, ToStep(ReadyAt(cur, now, budget, ctl.timely.rate), m.freqGhz), WheelConfig(m))
    ensures |Held(p)| == numReady + |Held(q)| && q.latest <= now && Shape(p.wheel)
    ensures numReady <= budget && numReady <= |Reap(p.wheel, cur).ready|
    ensures numReady == budget || numReady == |Reap(p.wheel, cur).ready|
    ensures Keys(Held(p)) == Keys(Reap(p.wheel, cur).ready[..numReady]) + Keys(Held(q))
  {
    ghost var step, c := ReadyAt(cur, now, budget, ctl.timely.rate), WheelConfig(m);
    HandingOutIsReached(p, m, cur, now, budget, ctl.timely.rate);
    hide Inv, InOrder, Reached, RingSuffices, ReadyPackets, Cost, Costs, Held, Keys, WheelRing.Valid, WheelRing.Shows;
    hide Horizon;
    numReady := ctl.TimelyReadyPackets(budget, cur, now, p, c);
    q := Apply(p, ToStep(step, m.freqGhz), c);
  }

  /** A round-trip sample changes the rate and nothing on the wheel. */
  method Sample(ctl: TimelyCtl, now: nat, sampleRttTsc: nat, ghost p: Pacer, ghost m: Machine)
    requires Holds(ctl, p, m) && now >= ctl.timely.lastUpdateTsc
    modifies ctl.timely
    ensures Holds(ctl, p, m)
    ensures ctl.timely.View() == Updated(old(ctl.timely.View()), now, sampleRttTsc, m.freqGhz, m.linkBandwidth)
  {
    hide Reached, RingSuffices, WheelRing.Valid, WheelRing.Shows, Horizon, Updated;
    ctl.timely.UpdateRate(now, sampleRttTsc);
  }

  // ----- Any sequence of events -----

  datatype Event =
    | Packet(refTsc: nat, pktSize: nat, msgbuf: nat)
    | Poll(budget: nat, cur: nat, now: nat)
    | Rtt(now: nat, sampleRttTsc: nat)

  /**
   * Any sequence of events. Those in which time would run backwards, packets of other sizes, and packets for which the
   * wheel is not meant to have room are passed over. Of the packets taken in, those not handed out are still held.
   */
  method Drive(ctl: TimelyCtl, events: seq<Event>, m: Machine, start: nat, ghost p: Pacer)
    returns (taken: nat, handedOut: nat, ghost q: Pacer)
    requires Holds(ctl, p, m) && p.latest <= start && Held(p) == []
    modifies ctl.Repr(), ctl.timely
    ensures Holds(ctl, q, m) && taken == handedOut + |Held(q)|
  {
    hide Holds, Held, Apply;
    taken, handedOut, q := 0, 0, p;
    var latest := start;
    for i := 0 to |events|
      invariant Holds(ctl, q, m) && q.latest <= latest && taken == handedOut + |Held(q)|
    {
      match events[i]
      case Packet(refTsc, pktSize, msgbuf) =>
        if latest <= refTsc && m.minSize <= pktSize <= m.mtu && taken - handedOut < m.cap {
          q := SendPacket(ctl, refTsc, pktSize, msgbuf, q, m);
          taken, latest := taken + 1, refTsc;
        }
      case Poll(budget, cur, now) =>
        if latest <= cur <= now {
          var n;
          n, q := HandOutPackets(ctl, budget, cur, now, q, m);
          handedOut, latest := handedOut + n, now;
        }
      case Rtt(now, sampleRttTsc) =>
        if now >= ctl.timely.lastUpdateTsc {
          Sample(ctl, now, sampleRttTsc, q, m);
        }
    }
  }
}
