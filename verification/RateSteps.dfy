/** What one round-trip sample does to the rate, mark by mark, and what a row of short round trips does. */
module RateSteps {
  import opened Timely

  /** The share of an additive or multiplicative step an update may take: all of it after one minimum round trip. */
  function Share(r: Rates, now: nat, freqGhz: real): real
    requires freqGhz > 0.0 && now >= r.lastUpdateTsc
  {
    MinReal((now - r.lastUpdateTsc) as real / (2.0 * freqGhz * 1000.0), 1.0)
  }

  /** A sample is passed over if it is shorter than the minimum round trip, or short while the rate is the link's. */
  predicate Ignored(r: Rates, sampleRttTsc: nat, freqGhz: real, linkBandwidth: real) {
    || (r.rate == linkBandwidth && sampleRttTsc as real <= 100.0 * freqGhz * 1000.0)
    || (sampleRttTsc as real) < 2.0 * freqGhz * 1000.0
  }

  /** The new rate kept between half the old one, the minimum and the link's. */
  function Kept(newRate: real, rate: real, linkBandwidth: real): real {
    MaxReal(15000000.0, MinReal(linkBandwidth, MaxReal(newRate, 0.5 * rate)))
  }

  /** What a pure increase and a pure decrease with the round trip's excess over the low mark would give. */
  function Raised(rate: real, share: real): real {
    rate + 5000000.0 * share
  }

  function Lowered(rate: real, share: real, excess: real): real {
    rate - rate * (0.25 * share * excess)
  }

  lemma MeanOfBoth(rate: real, share: real, weight: real, err: real)
    ensures GradientRate(rate, share * BETA, weight, err, ADD_RATE * share)
         == (1.0 - weight) * Raised(rate, share) + weight * Lowered(rate, share, err)
  {
    var md := share * BETA;
    assert rate * (1.0 - md * weight * err) == rate - weight * (rate * (md * err));
  }

  /**
   * What the round trip `rtt` and the smoothed gradient `g` aim for. Below 100 microseconds: increase. From there to 1000:
   * increase if the gradient is -1/4 or less, decrease by the excess over 100 microseconds if it is 1/4 or more, and in between
   * the mean of the two with weight 2g + 1/2 on the decrease. Above 1000: decrease by the part that exceeds 1000.
   */
  function Aim(rate: real, rtt: real, g: real, share: real): real {
    var up, down := Raised(rate, share), Lowered(rate, share, (rtt - 100.0) / 100.0);
    if rtt > 1000.0 then Lowered(rate, share, 1.0 - 1000.0 / rtt)
    else if rtt < 100.0 || g <= -0.25 then up
    else if g >= 0.25 then down
    else (0.5 - 2.0 * g) * up + (0.5 + 2.0 * g) * down
  }

  /** Every sample that is not passed over moves the smoothed gradient and sets the rate to its aim, within the bounds. */
  lemma UpdateByMarks(r: Rates, now: nat, sampleRttTsc: nat, freqGhz: real, linkBandwidth: real)
    requires freqGhz > 0.0 && now >= r.lastUpdateTsc
    ensures var u, rtt := Updated(r, now, sampleRttTsc, freqGhz, linkBandwidth), Microseconds(sampleRttTsc, freqGhz);
      if Ignored(r, sampleRttTsc, freqGhz, linkBandwidth) then u == r
      else
        && u.prevRtt == rtt && u.lastUpdateTsc == now && u.avgRttDiff == 0.9 * r.avgRttDiff + 0.1 * (rtt - r.prevRtt)
        && u.negGradientCount == (if rtt < r.prevRtt then r.negGradientCount + 1 else 0)
        && u.rate == Kept(Aim(r.rate, rtt, u.avgRttDiff / 2.0, Share(r, now, freqGhz)), r.rate, linkBandwidth)
  {
    hide Updated, NewRate, Clamp, Kept, Share, Microseconds, Aim, Ignored;
    UpdatedParts(r, now, sampleRttTsc, freqGhz, linkBandwidth);
    var u := Updated(r, now, sampleRttTsc, freqGhz, linkBandwidth);
    var rtt, d := Microseconds(sampleRttTsc, freqGhz), Share(r, now, freqGhz);
    KeptIsClamp(NewRate(r.rate, rtt, u.avgRttDiff, d), r.rate, linkBandwidth);
    NewRateIsAim(r.rate, rtt, u.avgRttDiff, d);
  }

  lemma UpdatedParts(r: Rates, now: nat, sampleRttTsc: nat, freqGhz: real, linkBandwidth: real)
    requires freqGhz > 0.0 && now >= r.lastUpdateTsc
    ensures var u, rtt := Updated(r, now, sampleRttTsc, freqGhz, linkBandwidth), Microseconds(sampleRttTsc, freqGhz);
      if Ignored(r, sampleRttTsc, freqGhz, linkBandwidth) then u == r
      else
        && u.prevRtt == rtt && u.lastUpdateTsc == now && u.avgRttDiff == 0.9 * r.avgRttDiff + 0.1 * (rtt - r.prevRtt)
        && u.negGradientCount == (if rtt < r.prevRtt then r.negGradientCount + 1 else 0)
        && u.rate == Clamp(NewRate(r.rate, rtt, u.avgRttDiff, Share(r, now, freqGhz)), r.rate, linkBandwidth)
  {
    hide NewRate, Clamp, Microseconds;
  }

  lemma KeptIsClamp(newRate: real, rate: real, linkBandwidth: real)
    ensures Kept(newRate, rate, linkBandwidth) == Clamp(newRate, rate, linkBandwidth)
  {
  }

  lemma NewRateIsAim(rate: real, rtt: real, avg: real, d: real)
    ensures NewRate(rate, rtt, avg, d) == Aim(rate, rtt, avg / 2.0, d)
  {
    if rtt > 1000.0 {
      BackingOff(rate, d, 1.0 - 1000.0 / rtt);
    } else if rtt >= 100.0 {
      MeanOfBoth(rate, d, Weight(avg / 2.0), (rtt - 100.0) / 100.0);
      hide GradientRate, Raised, Lowered;
    }
  }

  lemma BackingOff(rate: real, d: real, x: real)
    ensures rate * (1.0 - d * BETA * x) == Lowered(rate, d, x)
  {
    assert d * BETA * x == 0.25 * d * x;
    var y := 0.25 * d * x;
    assert rate * (1.0 - y) == rate - rate * y;
  }

  lemma MulReal(x: real, a: real, b: real)
    requires x >= 0.0 && a <= b
    ensures x * a <= x * b
  {
  }

  /** Between the marks, the steeper the gradient the lower the rate, from the pure increase down to the pure decrease. */
  lemma GradientFalls(rate: real, share: real, w1: real, w2: real, err: real)
    requires rate >= 0.0 && share >= 0.0 && err >= 0.0 && 0.0 <= w1 <= w2 <= 1.0
    ensures Lowered(rate, share, err) <= rate <= Raised(rate, share)
    ensures GradientRate(rate, share * BETA, w2, err, ADD_RATE * share)
         <= GradientRate(rate, share * BETA, w1, err, ADD_RATE * share)
  {
    ProductIsNonNegative(0.25 * share, err);
    ProductIsNonNegative(rate, 0.25 * share * err);
    MeanOfBoth(rate, share, w1, err);
    MeanOfBoth(rate, share, w2, err);
    var up, down := Raised(rate, share), Lowered(rate, share, err);
    hide GradientRate, Raised, Lowered;
    MulReal(w2 - w1, down, up);
    assert (1.0 - w1) * up + w1 * down - ((1.0 - w2) * up + w2 * down) == (w2 - w1) * up - (w2 - w1) * down;
  }

  // ----- Short round trips -----

  datatype Sample = Sample(now: nat, rttTsc: nat)

  function AfterSamples(r: Rates, samples: seq<Sample>, freqGhz: real, linkBandwidth: real): Rates
    requires freqGhz > 0.0 && Forward(r, samples)
    decreases |samples|
  {
    if samples == [] then r
    else
      var u := Updated(r, samples[0].now, samples[0].rttTsc, freqGhz, linkBandwidth);
      StillForward(r, samples, freqGhz, linkBandwidth);
      AfterSamples(u, samples[1..], freqGhz, linkBandwidth)
  }

  /** Time does not run backwards. */
  ghost predicate Forward(r: Rates, samples: seq<Sample>) {
    && (forall i :: 0 <= i < |samples| ==> r.lastUpdateTsc <= samples[i].now)
    && (forall i, j :: 0 <= i < j < |samples| ==> samples[i].now <= samples[j].now)
  }

  lemma StillForward(r: Rates, samples: seq<Sample>, freqGhz: real, linkBandwidth: real)
    requires freqGhz > 0.0 && Forward(r, samples) && samples != []
    ensures Forward(Updated(r, samples[0].now, samples[0].rttTsc, freqGhz, linkBandwidth), samples[1..])
  {
  }

  /** Round trips between 2 and 100 microseconds, each taken 2 microseconds or more after the one before. */
  ghost predicate ShortTrips(r: Rates, samples: seq<Sample>, freqGhz: real) {
    && (forall i :: 0 <= i < |samples| ==> 2.0 * freqGhz * 1000.0 <= samples[i].rttTsc as real < 100.0 * freqGhz * 1000.0)
    && (forall i :: 0 <= i < |samples| ==> (samples[i].now - r.lastUpdateTsc) as real >= 2.0 * freqGhz * 1000.0)
    && (forall i, j :: 0 <= i < j < |samples| ==> (samples[j].now - samples[i].now) as real >= 2.0 * freqGhz * 1000.0)
  }

  lemma ShortIsBelow(sampleRttTsc: nat, freqGhz: real)
    requires freqGhz > 0.0 && sampleRttTsc as real < 100.0 * freqGhz * 1000.0
    ensures Microseconds(sampleRttTsc, freqGhz) < 100.0
  {
    var f, x := freqGhz * 1000.0, Microseconds(sampleRttTsc, freqGhz);
    assert x * f == sampleRttTsc as real;
    assert 100.0 * freqGhz * 1000.0 == 100.0 * f;
    Scaled(100.0, x, f);
  }

  lemma WholeShare(r: Rates, now: nat, freqGhz: real)
    requires freqGhz > 0.0 && now >= r.lastUpdateTsc && (now - r.lastUpdateTsc) as real >= 2.0 * freqGhz * 1000.0
    ensures Share(r, now, freqGhz) == 1.0
  {
    var a, b := (now - r.lastUpdateTsc) as real, 2.0 * freqGhz * 1000.0;
    var x := a / b;
    assert x * b == a;
    Scaled(x, 1.0, b);
  }

  lemma Scaled(x: real, y: real, b: real)
    requires b > 0.0
    ensures x < y ==> x * b < y * b
  {
  }

  lemma OneShortTrip(r: Rates, now: nat, sampleRttTsc: nat, freqGhz: real, linkBandwidth: real)
    requires freqGhz > 0.0 && now >= r.lastUpdateTsc && 15000000.0 <= r.rate <= linkBandwidth
    requires (now - r.lastUpdateTsc) as real >= 2.0 * freqGhz * 1000.0
    requires 2.0 * freqGhz * 1000.0 <= sampleRttTsc as real < 100.0 * freqGhz * 1000.0
    ensures var u := Updated(r, now, sampleRttTsc, freqGhz, linkBandwidth);
      u.rate == MinReal(linkBandwidth, r.rate + 5000000.0) && (u == r || u.lastUpdateTsc == now)
  {
    UpdateByMarks(r, now, sampleRttTsc, freqGhz, linkBandwidth);
    hide Updated;
    ShortIsBelow(sampleRttTsc, freqGhz);
    WholeShare(r, now, freqGhz);
  }

  /** A row of short round trips brings the rate up by five megabytes a second each, until it is the link's. */
  lemma {:induction false} ShortTripsRaise(r: Rates, samples: seq<Sample>, freqGhz: real, linkBandwidth: real)
    requires freqGhz > 0.0 && Forward(r, samples) && ShortTrips(r, samples, freqGhz) && 15000000.0 <= r.rate <= linkBandwidth
    ensures AfterSamples(r, samples, freqGhz, linkBandwidth).rate
         == MinReal(linkBandwidth, r.rate + 5000000.0 * |samples| as real)
    decreases |samples|
  {
    if samples != [] {
      var u := Updated(r, samples[0].now, samples[0].rttTsc, freqGhz, linkBandwidth);
      OneShortTrip(r, samples[0].now, samples[0].rttTsc, freqGhz, linkBandwidth);
      StillForward(r, samples, freqGhz, linkBandwidth);
      hide Updated;
      assert ShortTrips(u, samples[1..], freqGhz);
      ShortTripsRaise(u, samples[1..], freqGhz, linkBandwidth);
    }
  }
}
