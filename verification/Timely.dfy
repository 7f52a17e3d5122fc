/** The rate controller that feeds the pacer, and what its bounds mean for the size of the timing wheel. */
module Timely {
  import opened TimingWheel
  import opened Pacer
  import opened PacerRuns

  const MIN_RATE := 15000000.0
  const ADD_RATE := 5000000.0
  const MIN_RTT := 2.0
  const T_LOW := 100.0
  const T_HIGH := 1000.0
  const EWMA_ALPHA := 0.1
  const BETA := 0.25

  function MinReal(a: real, b: real): real {
    if a <= b then a else b
  }

  function MaxReal(a: real, b: real): real {
    if a >= b then a else b
  }

  /** The weight of the gradient: nothing while delays fall, everything while they rise. */
  function Weight(g: real): (w: real)
    ensures 0.0 <= w <= 1.0
  {
    if g <= -0.25 then 0.0 else if g >= 0.25 then 1.0 else 2.0 * g + 0.5
  }

  /** The last three lines of an update: at most halved, at most the link's bandwidth, at least the minimum. */
  function Clamp(newRate: real, rate: real, linkBandwidth: real): real {
    MaxReal(MinReal(MaxReal(newRate, rate * 0.5), linkBandwidth), MIN_RATE)
  }

  /** Between the two marks: decrease with the error, increase with what the gradient leaves. */
  function GradientRate(rate: real, mdFactor: real, weight: real, err: real, aiFactor: real): real {
    rate * (1.0 - mdFactor * weight * err) + aiFactor * (1.0 - weight)
  }

  /** Above the high mark: decrease with the round trip alone. */
  function BackedOff(rate: real, mdFactor: real, sampleRtt: real): real
    requires sampleRtt != 0.0
  {
    rate * (1.0 - mdFactor * (1.0 - T_HIGH / sampleRtt))
  }

  lemma ProductIsNonNegative(a: real, b: real)
    requires a >= 0.0 && b >= 0.0
    ensures a * b >= 0.0
  {
  }

  lemma QuotientIsBelow(a: real, b: real)
    requires 0.0 < a <= b
    ensures 0.0 < a / b <= 1.0
  {
  }

  /** What the controller remembers. */
  datatype Rates = Rates(rate: real, prevRtt: real, avgRttDiff: real, lastUpdateTsc: nat, negGradientCount: nat)

  /** The rate before clamping: additive increase, the gradient rule or multiplicative decrease. */
  function NewRate(rate: real, rtt: real, avgRttDiff: real, deltaFactor: real): real {
    if rtt < T_LOW then rate + ADD_RATE * deltaFactor
    else if rtt <= T_HIGH then
      GradientRate(rate, deltaFactor * BETA, Weight(avgRttDiff / MIN_RTT), (rtt - T_LOW) / T_LOW, ADD_RATE * deltaFactor)
    else BackedOff(rate, deltaFactor * BETA, rtt)
  }

  function Microseconds(tsc: nat, freqGhz: real): real
    requires freqGhz > 0.0
  {
    tsc as real / (freqGhz * 1000.0)
  }

  /** One update from one round-trip sample. */
  function Updated(r: Rates, now: nat, sampleRttTsc: nat, freqGhz: real, linkBandwidth: real): Rates
    requires freqGhz > 0.0 && now >= r.lastUpdateTsc
  {
    var minRttTsc := MIN_RTT * freqGhz * 1000.0;
    if r.rate == linkBandwidth && sampleRttTsc as real <= T_LOW * freqGhz * 1000.0 then r
    else if sampleRttTsc as real < minRttTsc then r
    else
      var rtt := Microseconds(sampleRttTsc, freqGhz);
      var diff := rtt - r.prevRtt;
      var avg := (1.0 - EWMA_ALPHA) * r.avgRttDiff + EWMA_ALPHA * diff;
      var deltaFactor := MinReal((now - r.lastUpdateTsc) as real / minRttTsc, 1.0);
      Rates(Clamp(NewRate(r.rate, rtt, avg, deltaFactor), r.rate, linkBandwidth), rtt, avg, now,
            if diff < 0.0 then r.negGradientCount + 1 else 0)
  }

  /**
   * The rate stays between the minimum and the link's bandwidth and is at most halved; a round trip below the low mark
   * never lowers it and one above the high mark never raises it.
   */
  lemma UpdateKeepsBounds(r: Rates, now: nat, sampleRttTsc: nat, freqGhz: real, linkBandwidth: real)
    requires freqGhz > 0.0 && now >= r.lastUpdateTsc && MIN_RATE <= r.rate <= linkBandwidth
    ensures var u, rtt := Updated(r, now, sampleRttTsc, freqGhz, linkBandwidth), Microseconds(sampleRttTsc, freqGhz);
      && MIN_RATE <= u.rate <= linkBandwidth && u.rate >= 0.5 * r.rate
      && (rtt < T_LOW ==> u.rate >= r.rate) && (rtt > T_HIGH ==> u.rate <= r.rate)
  {
    hide GradientRate, BackedOff, Weight;
    var rtt, minRttTsc := Microseconds(sampleRttTsc, freqGhz), MIN_RTT * freqGhz * 1000.0;
    if sampleRttTsc as real <= T_LOW * freqGhz * 1000.0 {
      SampleAtMark(sampleRttTsc as real, freqGhz);
    }
    DeltaFactorIsNonNegative((now - r.lastUpdateTsc) as real, minRttTsc);
    if rtt > T_HIGH {
      var deltaFactor := MinReal((now - r.lastUpdateTsc) as real / minRttTsc, 1.0);
      HighSampleDecreases(r.rate, deltaFactor * BETA, rtt);
    }
  }

  class Timely {
    var rate: real
    var prevRtt: real
    var avgRttDiff: real
    var lastUpdateTsc: nat
    var negGradientCount: nat
    const freqGhz: real
    const linkBandwidth: real

    ghost function View(): Rates
      reads this
    {
      Rates(rate, prevRtt, avgRttDiff, lastUpdateTsc, negGradientCount)
    }

    ghost predicate Valid()
      reads this
    {
      freqGhz > 0.0 && MIN_RATE <= rate <= linkBandwidth
    }

    constructor (freqGhz: real, linkBandwidth: real, now: nat)
      requires freqGhz > 0.0 && linkBandwidth >= MIN_RATE
      ensures Valid() && this.freqGhz == freqGhz && this.linkBandwidth == linkBandwidth
      ensures View() == Rates(linkBandwidth, MIN_RTT, 0.0, now, 0)
    {
      this.freqGhz, this.linkBandwidth := freqGhz, linkBandwidth;
      rate, prevRtt, avgRttDiff, negGradientCount := linkBandwidth, MIN_RTT, 0.0, 0;
      lastUpdateTsc := now;
    }

    /** One update; the bounds of `UpdateKeepsBounds` hold again. */
    method UpdateRate(now: nat, sampleRttTsc: nat)
      requires Valid() && now >= lastUpdateTsc
      modifies this
      ensures Valid() && View() == Updated(old(View()), now, sampleRttTsc, freqGhz, linkBandwidth)
    {
      hide GradientRate, BackedOff, Weight, Clamp;
      UpdateKeepsBounds(View(), now, sampleRttTsc, freqGhz, linkBandwidth);
      var minRttTsc, tLowTsc := MIN_RTT * freqGhz * 1000.0, T_LOW * freqGhz * 1000.0;
      if rate == linkBandwidth && sampleRttTsc as real <= tLowTsc {
        return;
      }
      if sampleRttTsc as real < minRttTsc {
        return;
      }
      var sampleRtt := Microseconds(sampleRttTsc, freqGhz);
      var rttDiff := sampleRtt - prevRtt;
      negGradientCount := if rttDiff < 0.0 then negGradientCount + 1 else 0;
      avgRttDiff := (1.0 - EWMA_ALPHA) * avgRttDiff + EWMA_ALPHA * rttDiff;
      var deltaFactor := MinReal((now - lastUpdateTsc) as real / minRttTsc, 1.0);
      var aiFactor := ADD_RATE * deltaFactor;
      var newRate;
      if sampleRtt < T_LOW {
        newRate := rate + aiFactor;
      } else {
        var mdFactor, normGrad := deltaFactor * BETA, avgRttDiff / MIN_RTT;
        if sampleRtt <= T_HIGH {
          var weight, err := Weight(normGrad), (sampleRtt - T_LOW) / T_LOW;
          newRate := GradientRate(rate, mdFactor, weight, err, aiFactor);
        } else {
          newRate := BackedOff(rate, mdFactor, sampleRtt);
        }
      }
      rate := Clamp(newRate, rate, linkBandwidth);
      prevRtt := sampleRtt;
      lastUpdateTsc := now;
    }
  }

  lemma SampleAtMark(tsc: real, freqGhz: real)
    requires freqGhz > 0.0 && 0.0 <= tsc <= T_LOW * freqGhz * 1000.0
    ensures tsc / (freqGhz * 1000.0) <= T_LOW
  {
    var f := freqGhz * 1000.0;
    assert tsc / f * f == tsc;
    if tsc / f > T_LOW {
      assert tsc / f * f > T_LOW * f;
    }
  }

  lemma DeltaFactorIsNonNegative(elapsed: real, minRtt: real)
    requires elapsed >= 0.0 && minRtt > 0.0
    ensures MinReal(elapsed / minRtt, 1.0) >= 0.0
  {
    assert elapsed / minRtt * minRtt == elapsed;
  }

  lemma HighSampleDecreases(rate: real, mdFactor: real, sampleRtt: real)
    requires rate > 0.0 && mdFactor >= 0.0 && sampleRtt > T_HIGH
    ensures BackedOff(rate, mdFactor, sampleRtt) <= rate
  {
    QuotientIsBelow(T_HIGH, sampleRtt);
    var cut := mdFactor * (1.0 - T_HIGH / sampleRtt);
    ProductIsNonNegative(mdFactor, 1.0 - T_HIGH / sampleRtt);
    ProductIsNonNegative(rate, cut);
    assert rate * (1.0 - cut) == rate - rate * cut;
  }

  // ----- From rates to cycles -----

  type Rate = r: real | r >= MIN_RATE witness MIN_RATE

  type Freq = f: real | f > 0.0 witness 1.0

  /** The cycles a packet of `size` bytes takes at `rate`. */
  function Cost(size: nat, rate: Rate, freqGhz: Freq): nat {
    ProductIsNonNegative(1000000000.0 * (size as real / rate), freqGhz);
    (1000000000.0 * (size as real / rate) * freqGhz).Floor
  }

  /** The wheel's horizon in cycles: the time `cap` full packets take at the minimum rate. */
  function Horizon(cap: nat, mtu: nat, freqGhz: Freq): nat {
    ProductIsNonNegative(HorizonUs(cap, mtu) * 1000.0, freqGhz);
    (HorizonUs(cap, mtu) * 1000.0 * freqGhz).Floor
  }

  function HorizonUs(cap: nat, mtu: nat): (us: real)
    ensures us >= 0.0
  {
    1000000.0 * (cap * mtu) as real / MIN_RATE
  }

  /** The width of a slot, half a microsecond, in whole cycles. */
  function SlotWidth(freqGhz: Freq): nat {
    (0.5 * 1000.0 * freqGhz).Floor
  }

  function Ceil(x: real): int {
    -((-x).Floor)
  }

  function NumSlots(cap: nat, mtu: nat): nat {
    1 + Ceil(HorizonUs(cap, mtu) / 0.5)
  }

  lemma FloorGrows(a: real, b: real)
    requires a <= b
    ensures a.Floor <= b.Floor
  {
  }

  lemma MulReal(a: real, b: real, c: real)
    requires a <= b && c >= 0.0
    ensures a * c <= b * c
  {
    assert (b - a) * c >= 0.0;
  }

  lemma QuotientFalls(size: nat, mtu: nat, rate: real)
    requires size <= mtu && rate >= MIN_RATE
    ensures size as real / rate <= mtu as real / MIN_RATE
  {
    var x := size as real / rate;
    assert x * rate == size as real;
    assert x >= 0.0;
    MulReal(MIN_RATE, rate, x);
    assert x * MIN_RATE <= mtu as real;
  }

  /** No packet costs more than a full one at the minimum rate. */
  lemma CostIsBounded(size: nat, mtu: nat, rate: Rate, freqGhz: Freq)
    requires size <= mtu
    ensures Cost(size, rate, freqGhz) <= Cost(mtu, MIN_RATE, freqGhz)
  {
    QuotientFalls(size, mtu, rate);
    var a, b := 1000000000.0 * (size as real / rate), 1000000000.0 * (mtu as real / MIN_RATE);
    assert Cost(size, rate, freqGhz) == (a * freqGhz).Floor && Cost(mtu, MIN_RATE, freqGhz) == (b * freqGhz).Floor;
    hide Cost;
    MulReal(a, b, freqGhz);
    FloorGrows(a * freqGhz, b * freqGhz);
  }

  /** A packet is not free exactly if it takes a cycle or more at the rate. */
  lemma CostIsPositiveIff(size: nat, rate: Rate, freqGhz: Freq)
    ensures Cost(size, rate, freqGhz) > 0 <==> rate <= 1000000000.0 * size as real * freqGhz
  {
    var x := 1000000000.0 * (size as real / rate) * freqGhz;
    assert x * rate == 1000000000.0 * (size as real / rate * rate) * freqGhz;
    if x >= 1.0 {
      MulReal(1.0, x, rate);
    } else {
      assert (1.0 - x) * rate > 0.0;
    }
  }

  /** `cap` of the dearest packets fit into the horizon. */
  lemma CapFitsHorizon(cap: nat, mtu: nat, freqGhz: Freq)
    ensures cap * Cost(mtu, MIN_RATE, freqGhz) <= Horizon(cap, mtu, freqGhz)
  {
    var x := 1000000000.0 * (mtu as real / MIN_RATE) * freqGhz;
    assert HorizonUs(cap, mtu) * 1000.0 * freqGhz == cap as real * x by {
      assert (cap * mtu) as real == cap as real * mtu as real;
    }
    assert x.Floor as real <= x;
    MulReal(x.Floor as real, x, cap as real);
    assert (cap * x.Floor) as real == cap as real * x.Floor as real;
    FloorGrows((cap * x.Floor) as real, cap as real * x);
  }

  /** When half a microsecond is a whole number of cycles, the ring covers the horizon. */
  lemma RingCoversHorizon(cap: nat, mtu: nat, freqGhz: Freq)
    requires SlotWidth(freqGhz) as real == 0.5 * 1000.0 * freqGhz
    ensures Horizon(cap, mtu, freqGhz) <= (NumSlots(cap, mtu) - 1) * SlotWidth(freqGhz)
  {
    var h, w := HorizonUs(cap, mtu), SlotWidth(freqGhz);
    var n := Ceil(h / 0.5);
    assert n as real >= h / 0.5;
    MulReal(h / 0.5, n as real, w as real);
    assert (n * w) as real == n as real * w as real;
    assert h / 0.5 * w as real == h * 1000.0 * freqGhz;
  }

  // ----- The pacer fed by the controller -----

  /** A machine: the packets the wheel is meant for, their sizes, the clock's frequency and the link's bandwidth. */
  datatype Machine = Machine(cap: nat, minSize: nat, mtu: nat, freqGhz: Freq, linkBandwidth: Rate)

  function WheelConfig(m: Machine): Config {
    Config(Cost(m.mtu, MIN_RATE, m.freqGhz), m.cap, Horizon(m.cap, m.mtu, m.freqGhz), m.minSize, m.mtu)
  }

  ghost predicate MachineOk(m: Machine) {
    m.minSize <= m.mtu && SlotWidth(m.freqGhz) > 0 && NumSlots(m.cap, m.mtu) > 1
  }

  /** The steps of the pacer, each at the rate the controller had at that moment. */
  datatype RatedStep =
    | SendAt(sslot: nat, size: nat, ref: nat, rate: Rate)
    | ReadyAt(cur: nat, now: nat, budget: nat, rate: Rate)

  function Costing(rate: Rate, freqGhz: Freq): nat -> nat {
    (size: nat) => Cost(size, rate, freqGhz)
  }

  function ToStep(step: RatedStep, freqGhz: Freq): Step {
    match step
    case SendAt(sslot, size, ref, rate) => Send(sslot, size, ref, Cost(size, rate, freqGhz))
    case ReadyAt(cur, now, budget, rate) => Ready(cur, now, budget, Costing(rate, freqGhz))
  }

  function ToSteps(steps: seq<RatedStep>, freqGhz: Freq): seq<Step> {
    seq(|steps|, i requires 0 <= i < |steps| => ToStep(steps[i], freqGhz))
  }

  ghost predicate RatedGoes(p: Pacer, step: RatedStep, q: Pacer, m: Machine) {
    && Shape(p.wheel) && !p.failed && Allowed(p, ToStep(step, m.freqGhz), WheelConfig(m)) && step.rate <= m.linkBandwidth
    && q == Apply(p, ToStep(step, m.freqGhz), WheelConfig(m))
  }

  /** A run of the pacer on the wheel the machine makes, with costs from rates between the minimum and the link's. */
  ghost predicate RatedRun(states: seq<Pacer>, steps: seq<RatedStep>, m: Machine) {
    && |states| == |steps| + 1 && Start(states[0])
    && OnWheel(states, SlotWidth(m.freqGhz), NumSlots(m.cap, m.mtu))
    && forall i :: 0 <= i < |steps| ==> RatedGoes(states[i], steps[i], states[i + 1], m)
  }

  /** The costs stay within those the wheel was made for. */
  lemma RatedCostOk(step: RatedStep, p: Pacer, m: Machine)
    requires Allowed(p, ToStep(step, m.freqGhz), WheelConfig(m))
    ensures CostOk(ToStep(step, m.freqGhz), WheelConfig(m))
  {
    hide Cost, Horizon;
    forall size: nat | size <= m.mtu
      ensures Cost(size, step.rate, m.freqGhz) <= Cost(m.mtu, MIN_RATE, m.freqGhz)
    {
      CostIsBounded(size, m.mtu, step.rate, m.freqGhz);
    }
  }

  lemma RatedRunIsRun(states: seq<Pacer>, steps: seq<RatedStep>, m: Machine)
    requires RatedRun(states, steps, m)
    ensures Run(states, ToSteps(steps, m.freqGhz), WheelConfig(m))
  {
    hide Allowed, CostOk, Apply, ToStep, WheelConfig, Shape, Start;
    forall i | 0 <= i < |steps|
      ensures Goes(states[i], ToSteps(steps, m.freqGhz)[i], states[i + 1], WheelConfig(m))
    {
      assert RatedGoes(states[i], steps[i], states[i + 1], m);
      RatedCostOk(steps[i], states[i], m);
    }
  }

  /** Do as many full packets as the wheel is meant for, at the minimum rate, fit on the ring? */
  ghost predicate RingSuffices(m: Machine) {
    m.cap * Cost(m.mtu, MIN_RATE, m.freqGhz) <= (NumSlots(m.cap, m.mtu) - 1) * SlotWidth(m.freqGhz)
  }

  lemma RingSufficesIff(m: Machine)
    ensures RingSuffices(m) <==> Fit(WheelConfig(m), SlotWidth(m.freqGhz), NumSlots(m.cap, m.mtu))
  {
    hide Cost, Horizon, NumSlots, SlotWidth;
    CapFitsHorizon(m.cap, m.mtu, m.freqGhz);
  }

  /** With a whole slot width it suffices. */
  lemma WholeWidthSuffices(m: Machine)
    requires SlotWidth(m.freqGhz) as real == 0.5 * 1000.0 * m.freqGhz
    ensures RingSuffices(m)
  {
    RingCoversHorizon(m.cap, m.mtu, m.freqGhz);
    hide Cost, Horizon, NumSlots, SlotWidth;
    CapFitsHorizon(m.cap, m.mtu, m.freqGhz);
  }

  /** In no run of the machine does a fatal test fail, exactly if the ring suffices. */
  lemma MachineNeverFailsIff(m: Machine)
    requires MachineOk(m)
    ensures (forall states, steps :: RatedRun(states, steps, m) ==> NeverFails(states)) <==> RingSuffices(m)
  {
    var c, width, slots := WheelConfig(m), SlotWidth(m.freqGhz), NumSlots(m.cap, m.mtu);
    RingSufficesIff(m);
    hide RingSuffices, Fit, Run, RatedRun, NeverFails;
    if RingSuffices(m) {
      forall states: seq<Pacer>, steps: seq<RatedStep> | RatedRun(states, steps, m)
        ensures NeverFails(states)
      {
        RatedRunIsRun(states, steps, m);
        OnMachine(states, steps, m);
        NeverFailsIff(c, width, slots);
      }
    } else {
      var states, steps := FailingRun(c, width, slots);
      var rated := seq(|steps|, i requires 0 <= i < |steps| => SendAt(i + 1, m.mtu, 0, MIN_RATE));
      FailingRunIsRated(states, steps, rated, m);
    }
  }

  lemma OnMachine(states: seq<Pacer>, steps: seq<RatedStep>, m: Machine)
    requires RatedRun(states, steps, m)
    ensures OnWheel(states, SlotWidth(m.freqGhz), NumSlots(m.cap, m.mtu))
  {
  }

  lemma FailingRunIsRated(states: seq<Pacer>, steps: seq<Step>, rated: seq<RatedStep>, m: Machine)
    requires Run(states, steps, WheelConfig(m)) && OnWheel(states, SlotWidth(m.freqGhz), NumSlots(m.cap, m.mtu))
    requires |rated| == |steps|
    requires forall i :: 0 <= i < |steps| ==>
      rated[i] == SendAt(i + 1, m.mtu, 0, MIN_RATE) && steps[i] == ToStep(rated[i], m.freqGhz)
    ensures RatedRun(states, rated, m)
  {
    hide Allowed, CostOk, Apply, ToStep, Shape, Start, WheelConfig;
    forall i | 0 <= i < |rated|
      ensures RatedGoes(states[i], rated[i], states[i + 1], m)
    {
      assert Goes(states[i], steps[i], states[i + 1], WheelConfig(m));
    }
  }

  /**
   * In every run on a ring that suffices, packets are on time; and they leave in the order they were put on the wheel if
   * the smallest packet takes a cycle or more at the link's bandwidth.
   */
  lemma MachineIsSound(states: seq<Pacer>, steps: seq<RatedStep>, m: Machine, i: nat)
    requires RatedRun(states, steps, m) && RingSuffices(m) && i < |states|
    ensures Inv(states[i], WheelConfig(m)) && InOrder(states[i])
    ensures m.linkBandwidth <= 1000000000.0 * m.minSize as real * m.freqGhz ==> Ordered(states[i])
  {
    hide Inv, InOrder, Ordered, RingSuffices, Run, WheelConfig, CostPositive, Fit;
    RatedRunIsRun(states, steps, m);
    RingSufficesIff(m);
    EveryRunIsSound(states, ToSteps(steps, m.freqGhz), WheelConfig(m), i);
    if m.linkBandwidth <= 1000000000.0 * m.minSize as real * m.freqGhz {
      forall j | 0 <= j < |steps|
        ensures CostPositive(ToSteps(steps, m.freqGhz)[j], WheelConfig(m))
      {
        assert RatedGoes(states[j], steps[j], states[j + 1], m);
        RatedIsPositive(states[j], steps[j], states[j + 1], m);
      }
      PositiveCostsKeepOrder(states, ToSteps(steps, m.freqGhz), WheelConfig(m), i);
    }
  }

  /** A larger packet at a lower rate is not free if the smallest one at the link's bandwidth is not. */
  lemma NoneIsFree(size: nat, minSize: nat, rate: Rate, linkBandwidth: Rate, freqGhz: Freq)
    requires minSize <= size && rate <= linkBandwidth <= 1000000000.0 * minSize as real * freqGhz
    ensures Cost(size, rate, freqGhz) > 0
  {
    var f := 1000000000.0 * freqGhz;
    assert 1000000000.0 * minSize as real * freqGhz == minSize as real * f;
    assert 1000000000.0 * size as real * freqGhz == size as real * f;
    hide Cost;
    MulReal(minSize as real, size as real, f);
    CostIsPositiveIff(size, rate, freqGhz);
  }

  lemma RatedIsPositive(p: Pacer, step: RatedStep, q: Pacer, m: Machine)
    requires RatedGoes(p, step, q, m) && m.linkBandwidth <= 1000000000.0 * m.minSize as real * m.freqGhz
    ensures CostPositive(ToStep(step, m.freqGhz), WheelConfig(m))
  {
    hide Cost, Horizon, Apply;
    forall size: nat | m.minSize <= size
      ensures Cost(size, step.rate, m.freqGhz) > 0
    {
      NoneIsFree(size, m.minSize, step.rate, m.linkBandwidth, m.freqGhz);
    }
  }

  // ----- A machine whose ring does not suffice -----

  /** At 2.999 GHz the slot width is cut to 1499 cycles and the ring falls short of the horizon. */
  lemma RingCanFallShort(minSize: nat, linkBandwidth: Rate)
    ensures SlotWidth(2.999) == 1499 && NumSlots(1024, 3498) == 477595
    ensures Horizon(1024, 3498, 2.999) == 716151603 && Cost(3498, MIN_RATE, 2.999) == 699366
    ensures Horizon(1024, 3498, 2.999) > (NumSlots(1024, 3498) - 1) * SlotWidth(2.999)
    ensures !RingSuffices(Machine(1024, minSize, 3498, 2.999, linkBandwidth))
  {
    assert HorizonUs(1024, 3498) == 238796.8;
    assert 1000000000.0 * (3498 as real / MIN_RATE) * 2.999 == 699366.8;
  }

  /**
   * On such a machine it is the fatal test on the slot number that fails, and not the one on the horizon, at the very last
   * of the full packets the wheel is meant to hold, paced at once at the minimum rate on any empty wheel.
   */
  lemma FullWheelFails(p: Pacer)
    requires Start(p) && p.wheel.width == 1499 && |p.wheel.ring| == 477595 && p.prev == p.latest == 0 < p.wheel.first
    ensures var q := SendMany(p, 1023, 3498, 0, 699366, 716151603);
      && !q.failed && q.prev + 699366 <= 716151603 && Place(Reap(q.wheel, 0), q.prev + 699366) >= |p.wheel.ring|
      && SendMany(p, 1024, 3498, 0, 699366, 716151603).failed
  {
    hide SendMany, Start;
    StartFacts(p);
    SendManyFits(p, Config(699366, 1023, 716151603, 0, 3498), 1023);
    SendManyReaches(p, 1023, 3498, 0, 699366, 716151603);
    SendOneMore(p, 1024, 3498, 0, 699366, 716151603);
    Overshoots(SendMany(p, 1023, 3498, 0, 699366, 716151603), 1024);
  }

  lemma StartFacts(p: Pacer)
    requires Start(p)
    ensures Shape(p.wheel) && p.wheel.first <= p.latest + p.wheel.width
  {
  }

  /** As many packets as fit are all paced. */
  lemma {:induction false} SendManyFits(p: Pacer, c: Config, n: nat)
    requires Start(p) && Fit(c, p.wheel.width, |p.wheel.ring|) && n <= c.cap && SizeOk(c.mtu, c)
    ensures var u := SendMany(p, n, c.mtu, p.latest, c.step, c.horizon);
      Inv(u, c) && |Held(u)| == n && u.latest <= p.latest
    decreases n
  {
    StartIsSound(p, c);
    if n == 0 {
      FlatOfEmpty(p.wheel.ring);
    } else {
      var q := SendMany(p, n - 1, c.mtu, p.latest, c.step, c.horizon);
      hide Inv, Pace, InOrder, Start, Held;
      SendManyFits(p, c, n - 1);
      InvGives(q, c);
      PaceKeeps(q, c, n, c.mtu, p.latest, c.step);
      PaceSetsLatest(q, n, c.mtu, p.latest, c.step, c.horizon);
    }
  }

  lemma Overshoots(q: Pacer, sslot: nat)
    requires Shape(q.wheel) && q.wheel.width == 1499 && |q.wheel.ring| == 477595 && 0 < q.wheel.first <= 1499
    requires q.prev == 1023 * 699366
    ensures Place(Reap(q.wheel, 0), q.prev + 699366) >= |q.wheel.ring|
    ensures Pace(q, sslot, 3498, 0, 699366, 716151603).failed
  {
    assert Reap(q.wheel, 0) == q.wheel;
    QuotientAtLeast(716150784 - q.wheel.first, 1499, 477594);
  }
}
