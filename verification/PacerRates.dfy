/**
 * How far apart packets leave. Each one is asked for its cost after the one before it, so that no run of the pacer is faster
 * than the link; and what is overdue is handed out as far as the budget goes.
 */
module PacerRates {
  import opened TimingWheel
  import opened Pacer
  import opened PacerRuns
  import opened Timely

  // ----- Costs apart -----

  /** Each entry is asked for its cost after the one before, or at `ref` if that is later; `prev` came before the first. */
  ghost predicate Spaced(prev: nat, s: seq<Ent>, ref: nat, cost: nat -> nat)
    decreases |s|
  {
    s == [] || (s[0].desired == Max(prev + cost(s[0].pktSize), ref) && Spaced(s[0].desired, s[1..], ref, cost))
  }

  /** Entries are at least their least cost after the one before. */
  ghost predicate Apart(s: seq<Ent>, least: nat -> nat) {
    forall k :: 0 < k < |s| ==> s[k - 1].desired + least(s[k].pktSize) <= s[k].desired
  }

  /** The time asked for last is that of the last entry. */
  ghost predicate PrevIsLast(p: Pacer) {
    p.log != [] ==> p.prev == p.log[|p.log| - 1].desired
  }

  /** A packet is asked for its cost after the last one, or at once if that is later. */
  lemma PaceSpaces(p: Pacer, sslot: nat, size: nat, ref: nat, cost: nat, horizon: nat)
    requires Shape(p.wheel)
    ensures var u := Pace(p, sslot, size, ref, cost, horizon);
      !u.failed ==>
        var e := Ent(sslot, size, u.prev);
        && u.log == p.log + [e] && u.prev >= p.prev + cost && u.prev >= ref && (u.prev == p.prev + cost || u.prev == ref)
  {
  }

  lemma SpacedCons(prev: nat, e: Ent, s: seq<Ent>, ref: nat, cost: nat -> nat)
    requires e.desired == Max(prev + cost(e.pktSize), ref) && Spaced(e.desired, s, ref, cost)
    ensures Spaced(prev, [e] + s, ref, cost)
  {
    assert ([e] + s)[1..] == s;
  }

  lemma LastOfMore(a: seq<Ent>, e: Ent, s: seq<Ent>)
    ensures a + [e] + s == a + ([e] + s)
    ensures s == [] ==> (a + [e] + s)[|a + [e] + s| - 1] == e
  {
  }

  /** Packets that are put back are paced again in the same way. */
  lemma {:induction false} RequeueSpaces(p: Pacer, now: nat, cost: nat -> nat, horizon: nat) returns (s: seq<Ent>)
    requires Shape(p.wheel)
    ensures var u := Requeue(p, now, cost, horizon);
      !u.failed ==>
        && u.log == p.log + s && Spaced(p.prev, s, now, cost)
        && u.prev == (if s == [] then p.prev else s[|s| - 1].desired)
    decreases |Reap(p.wheel, now).ready|
  {
    s := [];
    if !p.failed && p.wheel.ready != [] {
      var e := p.wheel.ready[0];
      RequeueShrinks(p, now, cost(e.pktSize), horizon);
      PaceSpaces(Pop(p, 1), e.sslot, e.pktSize, now, cost(e.pktSize), horizon);
      var u := Pace(Pop(p, 1), e.sslot, e.pktSize, now, cost(e.pktSize), horizon);
      hide Pace, Reap;
      if !u.failed {
        var rest := RequeueSpaces(u, now, cost, horizon);
        var f := Ent(e.sslot, e.pktSize, u.prev);
        LastOfMore(p.log, f, rest);
        if !Requeue(u, now, cost, horizon).failed {
          SpacedCons(p.prev, f, rest, now, cost);
        }
        s := [f] + rest;
      }
    }
  }

  /** What handing out adds to the log is spaced by the costs of the moment. */
  lemma ReadySpaces(p: Pacer, cur: nat, now: nat, budget: nat, cost: nat -> nat, horizon: nat) returns (s: seq<Ent>)
    requires Shape(p.wheel)
    ensures var u := ReadyPackets(p, cur, now, budget, cost, horizon).0;
      !u.failed ==>
        && u.log == p.log + s && Spaced(p.prev, s, now, cost)
        && u.prev == (if s == [] then p.prev else s[|s| - 1].desired)
  {
    var p1 := p.(wheel := Reap(p.wheel, cur), latest := Max(p.latest, cur));
    var n := ReadyPackets(p, cur, now, budget, cost, horizon).1;
    ReadyPacketsConserves(p, cur, now, budget, cost, horizon);
    hide Requeue, Reap;
    s := RequeueSpaces(Pop(p1, n), now, cost, horizon);
  }

  /** No step charges a packet less than its least cost. */
  ghost predicate AtLeast(step: Step, least: nat -> nat) {
    match step
    case Send(_, size, _, cost) => cost >= least(size)
    case Ready(_, _, _, costs) => forall size :: costs(size) >= least(size)
  }

  lemma {:induction false} SpacedIsApart(prev: nat, s: seq<Ent>, ref: nat, cost: nat -> nat, least: nat -> nat)
    requires Spaced(prev, s, ref, cost) && forall size :: cost(size) >= least(size)
    ensures Apart(s, least) && (s != [] ==> prev + least(s[0].pktSize) <= s[0].desired)
    decreases |s|
  {
    if s != [] {
      SpacedIsApart(s[0].desired, s[1..], ref, cost, least);
      forall k | 0 < k < |s|
        ensures s[k - 1].desired + least(s[k].pktSize) <= s[k].desired
      {
        assert s[k] == s[1..][k - 1] && (k > 1 ==> s[k - 1] == s[1..][k - 2]);
      }
    }
  }

  lemma ApartConcat(a: seq<Ent>, b: seq<Ent>, least: nat -> nat)
    requires Apart(a, least) && Apart(b, least)
    requires a != [] && b != [] ==> a[|a| - 1].desired + least(b[0].pktSize) <= b[0].desired
    ensures Apart(a + b, least)
  {
    var s := a + b;
    forall k | 0 < k < |s|
      ensures s[k - 1].desired + least(s[k].pktSize) <= s[k].desired
    {
      if k > |a| {
        assert s[k] == b[k - |a|] && s[k - 1] == b[k - |a| - 1];
      }
    }
  }

  lemma StepSpaces(p: Pacer, step: Step, c: Config, least: nat -> nat)
    requires Shape(p.wheel) && Apart(p.log, least) && PrevIsLast(p) && AtLeast(step, least) && !Apply(p, step, c).failed
    ensures Apart(Apply(p, step, c).log, least) && PrevIsLast(Apply(p, step, c))
  {
    hide Pace, ReadyPackets;
    match step
    case Send(sslot, size, ref, cost) =>
      PaceSpaces(p, sslot, size, ref, cost, c.horizon);
      var e := Ent(sslot, size, Apply(p, step, c).prev);
      ApartConcat(p.log, [e], least);
    case Ready(cur, now, budget, costs) =>
      var s := ReadySpaces(p, cur, now, budget, costs, c.horizon);
      SpacedIsApart(p.prev, s, now, costs, least);
      ApartConcat(p.log, s, least);
  }

  /** In every run, packets are asked for at least their least cost after the one put on the wheel before them. */
  lemma {:induction false} RunsAreSpaced(states: seq<Pacer>, steps: seq<Step>, c: Config, least: nat -> nat, i: nat)
    requires Run(states, steps, c) && i < |states| && Fit(c, states[0].wheel.width, |states[0].wheel.ring|)
    requires forall j :: 0 <= j < |steps| ==> AtLeast(steps[j], least)
    ensures Apart(states[i].log, least) && PrevIsLast(states[i])
  {
    hide Apply, Allowed, CostOk, Apart, PrevIsLast, AtLeast, Inv, InOrder, Fit;
    if i == 0 {
      NothingLogged(states[0], least);
    } else {
      RunsAreSpaced(states, steps, c, least, i - 1);
      assert Goes(states[i - 1], steps[i - 1], states[i - 1 + 1], c);
      EveryRunIsSound(states, steps, c, i);
      InvGives(states[i], c);
      StepSpaces(states[i - 1], steps[i - 1], c, least);
    }
  }

  lemma NothingLogged(p: Pacer, least: nat -> nat)
    requires Start(p)
    ensures Apart(p.log, least) && PrevIsLast(p)
  {
  }

  /** The least costs of the entries after `i`, up to and including `j`, together. */
  function CostOf(s: seq<Ent>, i: nat, j: nat, least: nat -> nat): nat
    requires i <= j < |s|
    decreases j
  {
    if i == j then 0 else CostOf(s, i, j - 1, least) + least(s[j].pktSize)
  }

  /** Any stretch of packets takes as long as its packets cost together, or longer. */
  lemma {:induction false} StretchTakesItsCost(s: seq<Ent>, i: nat, j: nat, least: nat -> nat)
    requires Apart(s, least) && i <= j < |s|
    ensures s[i].desired + CostOf(s, i, j, least) <= s[j].desired
    decreases j
  {
    if i < j {
      StretchTakesItsCost(s, i, j - 1, least);
    }
  }

  // ----- At the rates of a machine -----

  lemma QuotientRises(size: nat, rate: real, bandwidth: real)
    requires 0.0 < rate <= bandwidth
    ensures size as real / bandwidth <= size as real / rate
  {
    var x, y := size as real / rate, size as real / bandwidth;
    assert x * rate == size as real && y * bandwidth == size as real && y >= 0.0;
    MulReal(rate, bandwidth, y);
    assert (x - y) * rate >= 0.0;
  }

  /** A packet costs more at a lower rate. */
  lemma CostFalls(size: nat, rate: Rate, bandwidth: Rate, freqGhz: Freq)
    requires rate <= bandwidth
    ensures Cost(size, bandwidth, freqGhz) <= Cost(size, rate, freqGhz)
  {
    QuotientRises(size, rate, bandwidth);
    var a, b := 1000000000.0 * (size as real / bandwidth), 1000000000.0 * (size as real / rate);
    assert Cost(size, bandwidth, freqGhz) == (a * freqGhz).Floor && Cost(size, rate, freqGhz) == (b * freqGhz).Floor;
    hide Cost;
    MulReal(a, b, freqGhz);
    FloorGrows(a * freqGhz, b * freqGhz);
  }

  lemma RatedIsAtLeast(step: RatedStep, m: Machine)
    requires step.rate <= m.linkBandwidth
    ensures AtLeast(ToStep(step, m.freqGhz), Costing(m.linkBandwidth, m.freqGhz))
  {
    hide Cost;
    forall size: nat
      ensures Cost(size, step.rate, m.freqGhz) >= Cost(size, m.linkBandwidth, m.freqGhz)
    {
      CostFalls(size, step.rate, m.linkBandwidth, m.freqGhz);
    }
  }

  /**
   * No run on a machine whose ring suffices is faster than the link: any stretch of packets takes at least as long as the link
   * takes for them, whatever the rates were and however often packets were put back.
   */
  lemma NeverFasterThanLink(states: seq<Pacer>, steps: seq<RatedStep>, m: Machine, n: nat, i: nat, j: nat)
    requires RatedRun(states, steps, m) && RingSuffices(m) && n < |states| && i <= j < |states[n].log|
    ensures var s := states[n].log;
      s[i].desired + CostOf(s, i, j, Costing(m.linkBandwidth, m.freqGhz)) <= s[j].desired
  {
    hide RingSuffices, Run, WheelConfig, Fit, Cost, Costing, AtLeast, Apart, CostOf;
    RatedRunIsRun(states, steps, m);
    RingSufficesIff(m);
    forall k | 0 <= k < |steps|
      ensures AtLeast(ToSteps(steps, m.freqGhz)[k], Costing(m.linkBandwidth, m.freqGhz))
    {
      assert RatedGoes(states[k], steps[k], states[k + 1], m);
      RatedIsAtLeast(steps[k], m);
    }
    RunsAreSpaced(states, ToSteps(steps, m.freqGhz), WheelConfig(m), Costing(m.linkBandwidth, m.freqGhz), n);
    StretchTakesItsCost(states[n].log, i, j, Costing(m.linkBandwidth, m.freqGhz));
  }

  // ----- Overdue packets -----

  lemma {:induction false} InFlat(ring: seq<seq<Ent>>, e: Ent) returns (i: nat, k: nat)
    requires e in Flat(ring)
    ensures i < |ring| && k < |ring[i]| && ring[i][k] == e
  {
    if e in ring[0] {
      i := 0;
      k :| 0 <= k < |ring[0]| && ring[0][k] == e;
    } else {
      i, k := InFlat(ring[1..], e);
      i := i + 1;
    }
  }

  /** Reaping makes every packet ready that was asked for a slot width ago or earlier. */
  lemma OverdueIsReady(p: Pacer, c: Config, cur: nat, e: Ent)
    requires Inv(p, c) && p.latest <= cur && e in Held(p) && e.desired + p.wheel.width <= cur
    ensures Shape(p.wheel) && e in Reap(p.wheel, cur).ready
  {
    var u := Reap(p.wheel, cur);
    ReapIsOnTime(p.wheel, cur, p.latest);
    ReapKeepsOrder(p.wheel, cur);
    assert e in u.ready + Flat(u.ring);
    if e !in u.ready {
      var i, k := InFlat(u.ring, e);
      ReapLeavesNothingLate(u, cur, i, k);
    }
  }

  /** With a budget for all that is ready, exactly that is taken off, and nothing is put back. */
  lemma EnoughBudgetTakesAll(p: Pacer, cur: nat, now: nat, budget: nat, cost: nat -> nat, horizon: nat)
    requires Shape(p.wheel) && !p.failed && |Reap(p.wheel, cur).ready| <= budget
    ensures var (u, n) := ReadyPackets(p, cur, now, budget, cost, horizon);
      && n == |Reap(p.wheel, cur).ready| && u.popped == p.popped + Reap(p.wheel, cur).ready
      && u.wheel == Reap(p.wheel, cur).(ready := []) && u.log == p.log
  {
    var ready := Reap(p.wheel, cur).ready;
    assert ready[..|ready|] == ready && ready[|ready|..] == [];
  }

  /**
   * In every run, when packets are handed out, each one held that was asked for a slot width ago or earlier is among them, if
   * the budget covers all that are ready.
   */
  lemma OverdueIsHandedOut(states: seq<Pacer>, steps: seq<Step>, c: Config, i: nat, e: Ent)
    requires Run(states, steps, c) && i < |steps| && Fit(c, states[0].wheel.width, |states[0].wheel.ring|)
    requires steps[i].Ready? && e in Held(states[i]) && e.desired + states[i].wheel.width <= steps[i].cur
    requires Shape(states[i].wheel) && |Reap(states[i].wheel, steps[i].cur).ready| <= steps[i].budget
    ensures var p, q := states[i].popped, states[i + 1].popped;
      p <= q && e in q[|p|..]
  {
    hide Inv, InOrder, Held, ReadyPackets, Reap;
    EveryRunIsSound(states, steps, c, i);
    assert Goes(states[i], steps[i], states[i + 1], c);
    OverdueIsReady(states[i], c, steps[i].cur, e);
    EnoughBudgetTakesAll(states[i], steps[i].cur, steps[i].now, steps[i].budget, steps[i].costs, c.horizon);
  }
}
