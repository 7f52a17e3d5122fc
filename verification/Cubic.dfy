/**
 * The CUBIC window of one path. The cube root that gives the inflection point and the time since the last update are
 * inputs: the bounds below hold whatever they are.
 */
module Cubic {
  datatype Window = Window(maxCwnd: real, cwnd: real, ssthresh: real, lastMaxCwnd: real, epochStart: real, k: real)

  /** What the clock and the math library return during one update: seconds since the last one, and a cube root. */
  datatype Sample = Sample(duration: real, root: real)

  const C := 0.4
  const BETA := 0.7

  function Initial(maxCwnd: nat): Window {
    Window(maxCwnd as real, 1.0, 64.0, 1.0, 0.0, 0.0)
  }

  function MinReal(a: real, b: real): real {
    if a <= b then a else b
  }

  function MaxReal(a: real, b: real): real {
    if a >= b then a else b
  }

  function Cube(x: real): real {
    x * x * x
  }

  /** The window after `distance` packets were acknowledged. */
  function OnAck(w: Window, distance: nat, s: Sample): Window
    requires w.cwnd != 0.0
  {
    var sinceEpoch := w.epochStart + s.duration;
    if w.cwnd < w.ssthresh then
      w.(cwnd := MinReal(w.cwnd + distance as real, w.maxCwnd))
    else
      var v := if w.epochStart == 0.0 then w.(epochStart := sinceEpoch, k := s.root) else w;
      var target := C * Cube(sinceEpoch - v.epochStart - v.k) + v.lastMaxCwnd;
      var grown := if target > v.cwnd then target else v.cwnd + distance as real * (1.0 / v.cwnd);
      v.(cwnd := MinReal(grown, v.maxCwnd))
  }

  function OnLoss(w: Window): Window {
    w.(lastMaxCwnd := w.cwnd,
       ssthresh := w.cwnd * BETA,
       cwnd := MaxReal(1.0, w.cwnd * (1.0 - BETA)),
       epochStart := 0.0)
  }

  /** The window never closes and never exceeds its cap. */
  predicate Bounded(w: Window) {
    1.0 <= w.cwnd <= w.maxCwnd
  }

  lemma QuotientIsNonNegative(distance: nat, cwnd: real)
    requires cwnd >= 1.0
    ensures distance as real * (1.0 / cwnd) >= 0.0
  {
    assert 1.0 / cwnd > 0.0;
  }

  lemma AckKeepsBounds(w: Window, distance: nat, s: Sample)
    requires Bounded(w)
    ensures Bounded(OnAck(w, distance, s))
    ensures OnAck(w, distance, s).maxCwnd == w.maxCwnd
    ensures OnAck(w, distance, s).cwnd >= w.cwnd
  {
    QuotientIsNonNegative(distance, w.cwnd);
  }

  lemma LossKeepsBounds(w: Window)
    requires Bounded(w)
    ensures Bounded(OnLoss(w))
    ensures OnLoss(w).maxCwnd == w.maxCwnd
    ensures OnLoss(w).cwnd <= w.cwnd
  {
  }

  /** Below its cap a window rises with every acknowledgement of one packet or more. */
  lemma AckRises(w: Window, distance: nat, s: Sample)
    requires Bounded(w)
    ensures distance > 0 && w.cwnd < w.maxCwnd ==> OnAck(w, distance, s).cwnd > w.cwnd
  {
    if distance > 0 {
      var x := 1.0 / w.cwnd;
      assert x > 0.0;
      QuotientIsPositive(distance, x);
    }
  }

  lemma QuotientIsPositive(distance: nat, x: real)
    requires distance > 0 && x > 0.0
    ensures distance as real * x > 0.0
  {
  }

  /** Where the curve puts the window `elapsed` seconds on. */
  function Curve(w: Window, elapsed: real, k: real): real {
    0.4 * ((elapsed - k) * (elapsed - k) * (elapsed - k)) + w.lastMaxCwnd
  }

  /**
   * At or above the threshold the window goes to the curve if that is higher, and otherwise up by the packets acknowledged over
   * the window. The first acknowledgement of an epoch is at the start of the curve. The later ones are at the time since the
   * update before, and not since the start of the epoch.
   */
  lemma AvoidanceFollowsCurve(w: Window, distance: nat, s: Sample)
    requires Bounded(w) && w.cwnd >= w.ssthresh
    ensures var first := w.epochStart == 0.0;
      var target := if first then Curve(w, 0.0, s.root) else Curve(w, s.duration, w.k);
      var u := OnAck(w, distance, s);
      && u.cwnd == MinReal(if target > w.cwnd then target else w.cwnd + distance as real / w.cwnd, w.maxCwnd)
      && u == w.(cwnd := u.cwnd, epochStart := if first then s.duration else w.epochStart, k := if first then s.root else w.k)
  {
    assert distance as real * (1.0 / w.cwnd) == distance as real / w.cwnd;
  }

  /** With an exact cube root the curve starts at the threshold the loss has set. */
  lemma CurveStartsAtThreshold(w: Window, root: real)
    requires 0.4 * (root * root * root) == w.lastMaxCwnd * (1.0 - BETA)
    ensures Curve(w, 0.0, root) == 0.7 * w.lastMaxCwnd
  {
    var x := 0.0 - root;
    assert x * x * x == 0.0 - root * root * root;
  }

  /** The control block as the flow holds it, one per path. */
  class CubicCC {
    var maxCwnd: real
    var cwnd: real
    var ssthresh: real
    var lastMaxCwnd: real
    var epochStart: real
    var k: real

    function View(): Window
      reads this
    {
      Window(maxCwnd, cwnd, ssthresh, lastMaxCwnd, epochStart, k)
    }

    ghost predicate Valid()
      reads this
    {
      Bounded(View())
    }

    constructor (cap: nat)
      requires cap >= 1
      ensures View() == Initial(cap) && Valid()
    {
      maxCwnd := cap as real;
      cwnd := 1.0;
      ssthresh := 64.0;
      lastMaxCwnd := 1.0;
      epochStart := 0.0;
      k := 0.0;
    }

    method OnAckReceived(distance: nat, s: Sample)
      requires Valid()
      modifies this
      ensures View() == OnAck(old(View()), distance, s)
      ensures Valid() && cwnd >= old(cwnd) && maxCwnd == old(maxCwnd)
    {
      AckKeepsBounds(View(), distance, s);
      var sinceEpoch := epochStart + s.duration;
      if cwnd < ssthresh {
        cwnd := cwnd + distance as real;
      } else {
        if epochStart == 0.0 {
          epochStart := sinceEpoch;
          k := s.root;
        }
        var timeDiff := sinceEpoch - epochStart;
        var target := C * Cube(timeDiff - k) + lastMaxCwnd;
        if target > cwnd {
          cwnd := cwnd + (target - cwnd);
        } else {
          cwnd := cwnd + distance as real * (1.0 / cwnd);
        }
      }
      cwnd := MinReal(cwnd, maxCwnd);
    }

    method OnPacketLoss()
      requires Valid()
      modifies this
      ensures View() == OnLoss(old(View()))
      ensures Valid() && cwnd <= old(cwnd) && maxCwnd == old(maxCwnd)
    {
      LossKeepsBounds(View());
      lastMaxCwnd := cwnd;
      ssthresh := cwnd * BETA;
      cwnd := MaxReal(1.0, lastMaxCwnd * (1.0 - BETA));
      epochStart := 0.0;
    }
  }
}
