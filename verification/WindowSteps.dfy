/**
 * What acknowledgements and timeouts do to the congestion windows. An acknowledgement grows the window of a path once for
 * each stretch of consecutive packets on it; a timeout shrinks the window of the path the packet is sent again on.
 */
module WindowSteps {
  import opened SerialNumbers
  import opened Messages
  import opened Packets
  import opened Sender
  import PathAccounting
  import Cubic

  // ----- Stretches -----

  /** The paths of the first `k` packets from number `una` on, as the ring has them. */
  function AckedPaths(p: PathAccounting.Paths, una: U32, k: nat): seq<PathId> {
    seq<PathId>(k, i requires 0 <= i < k => PathAccounting.PathOf(p, Wrap(una + i)))
  }

  /** The end of the stretch of equal paths that place `i` belongs to. */
  function StretchEnd(ps: seq<PathId>, i: nat): (j: nat)
    requires i < |ps|
    ensures i < j <= |ps| && (forall m :: i <= m < j ==> ps[m] == ps[i]) && (j < |ps| ==> ps[j] != ps[i])
    decreases |ps| - i
  {
    if i + 1 == |ps| || ps[i + 1] != ps[i] then i + 1 else StretchEnd(ps, i + 1)
  }

  /** How many packets from place `i` on are on path `q`. */
  function PacketsOn(ps: seq<PathId>, i: nat, q: PathId): nat
    requires i <= |ps|
    decreases |ps| - i
  {
    if i == |ps| then 0 else (if ps[i] == q then 1 else 0) + PacketsOn(ps, i + 1, q)
  }

  /** The lengths of the stretches on path `q` from place `i` on, where one begins. */
  function Lengths(ps: seq<PathId>, i: nat, q: PathId): seq<nat>
    requires i <= |ps|
    decreases |ps| - i
  {
    if i == |ps| then []
    else
      var j := StretchEnd(ps, i);
      (if ps[i] == q then [j - i] else []) + Lengths(ps, j, q)
  }

  function Sum(s: seq<nat>): nat {
    if s == [] then 0 else s[0] + Sum(s[1..])
  }

  lemma {:induction false} StretchCounts(ps: seq<PathId>, i: nat, j: nat, q: PathId)
    requires i <= j <= |ps| && forall m, n :: i <= m < n < j ==> ps[m] == ps[n]
    ensures PacketsOn(ps, i, q) == (if i < j && ps[i] == q then j - i else 0) + PacketsOn(ps, j, q)
    decreases j - i
  {
    if i < j {
      StretchCounts(ps, i + 1, j, q);
    }
  }

  lemma SumOfOneMore(n: nat, s: seq<nat>)
    ensures Sum([n] + s) == n + Sum(s) && Sum([] + s) == Sum(s)
  {
    assert ([n] + s)[1..] == s && [] + s == s;
  }

  /** The stretches on a path hold exactly the packets on it. */
  lemma {:induction false} LengthsSumUp(ps: seq<PathId>, i: nat, q: PathId)
    requires i <= |ps|
    ensures Sum(Lengths(ps, i, q)) == PacketsOn(ps, i, q)
    ensures forall m :: 0 <= m < |Lengths(ps, i, q)| ==> Lengths(ps, i, q)[m] > 0
    decreases |ps| - i
  {
    if i < |ps| {
      var j := StretchEnd(ps, i);
      StretchCounts(ps, i, j, q);
      LengthsSumUp(ps, j, q);
      SumOfOneMore(j - i, Lengths(ps, j, q));
    }
  }

  // ----- Growth -----

  /** A window of path `q` after each stretch on it from place `i` on has been acknowledged as one. */
  function Grown(w: Cubic.Window, ps: seq<PathId>, i: nat, q: PathId, samples: nat -> Cubic.Sample): Cubic.Window
    requires i <= |ps| && Cubic.Bounded(w)
    decreases |ps| - i
  {
    if i == |ps| then w
    else
      var j := StretchEnd(ps, i);
      Cubic.AckKeepsBounds(w, j - i, samples(j));
      Grown(if ps[i] == q then Cubic.OnAck(w, j - i, samples(j)) else w, ps, j, q, samples)
  }

  /** The place at which the stretch began that `accumulated` packets before place `i` belong to. */
  ghost predicate InStretch(ps: seq<PathId>, i: nat, last: Option<PathId>, accumulated: nat) {
    && accumulated <= i <= |ps| && (last.None? <==> i == 0) && (last.Some? <==> accumulated > 0)
    && forall m :: i - accumulated <= m < i ==> last == Some(ps[m])
  }

  lemma StretchStops(ps: seq<PathId>, a: nat, i: nat)
    requires a < i <= |ps| && (forall m :: a <= m < i ==> ps[m] == ps[a]) && (i < |ps| ==> ps[i] != ps[a])
    ensures StretchEnd(ps, a) == i
  {
  }

  lemma GrowSets(w: Windows, path: PathId, distance: nat, s: Cubic.Sample, q: PathId)
    ensures GrowWindow(w, path, distance, s)[q] == if q == path then Cubic.OnAck(w[path], distance, s) else w[q]
  {
    assert WindowOk(w[path]);
  }

  lemma BoundedAt(w: Windows, q: PathId)
    ensures Cubic.Bounded(w[q]) && w[q].maxCwnd == PLATFORM.maxUnackedPp as real
  {
    assert WindowOk(w[q]);
  }

  /** One round of the loop that settles acknowledged packets. */
  lemma SettleUnfolds(p: PathAccounting.Paths, w: Windows, una: U32, i: nat, k: nat, last: Option<PathId>,
                      accumulated: nat, env: Env)
    requires i < k
    ensures var seqno: U32 := (una + i) % TWO32;
      var path := PathAccounting.PathOf(p, seqno);
      PathAccounting.Acked(p, seqno) == PathAccounting.Dec(p, path)
      && SettlePaths(p, w, una, i, k, last, accumulated, env)
         == if last.Some? && last.value != path
            then SettlePaths(PathAccounting.Acked(p, seqno), GrowWindow(w, last.value, accumulated, env.samples(i)), una,
                               i + 1, k, Some(path), 1, env)
            else SettlePaths(PathAccounting.Acked(p, seqno), w, una, i + 1, k, Some(path), accumulated + 1, env)
  {
  }

  lemma SettleEnds(p: PathAccounting.Paths, w: Windows, una: U32, k: nat, last: Option<PathId>, accumulated: nat,
                   env: Env)
    ensures SettlePaths(p, w, una, k, k, last, accumulated, env)
         == (p, if last.Some? && accumulated > 0 then GrowWindow(w, last.value, accumulated, env.samples(k)) else w)
  {
  }

  /** Taking packets off the counters does not change which path any of them is on. */
  lemma AckedKeepsRing(p: PathAccounting.Paths, seqno: U32)
    ensures PathAccounting.Acked(p, seqno).hist == p.hist
  {
  }

  lemma PathAt(p: PathAccounting.Paths, una: U32, k: nat, i: nat)
    requires i < k
    ensures AckedPaths(p, una, k)[i] == PathAccounting.PathOf(p, Wrap(una + i))
  {
  }

  lemma SamePaths(p: PathAccounting.Paths, q: PathAccounting.Paths, una: U32, k: nat)
    requires q.hist == p.hist
    ensures AckedPaths(q, una, k) == AckedPaths(p, una, k)
  {
    forall i | 0 <= i < k
      ensures AckedPaths(q, una, k)[i] == AckedPaths(p, una, k)[i]
    {
      PathAt(p, una, k, i);
      PathAt(q, una, k, i);
    }
  }

  /** One round of the loop leaves every window where its stretches will take it. */
  lemma RoundKeepsGrowth(w: Windows, ps: seq<PathId>, i: nat, last: Option<PathId>, accumulated: nat, env: Env, q: PathId)
    requires i < |ps| && InStretch(ps, i, last, accumulated)
    ensures var switch := last.Some? && last.value != ps[i];
      var w1 := if switch then GrowWindow(w, last.value, accumulated, env.samples(i)) else w;
      var n := if switch then 1 else accumulated + 1;
      && InStretch(ps, i + 1, Some(ps[i]), n) && Cubic.Bounded(w[q]) && Cubic.Bounded(w1[q])
      && Grown(w1[q], ps, i + 1 - n, q, env.samples) == Grown(w[q], ps, i - accumulated, q, env.samples)
  {
    hide GrowWindow, Cubic.OnAck, Cubic.Bounded, Grown, InStretch;
    StretchFacts(ps, i, last, accumulated);
    OneMoreInStretch(ps, i, last, accumulated, ps[i]);
    BoundedAt(w, q);
    if last.Some? && last.value != ps[i] {
      NextStretch(w, ps, i - accumulated, i, q, env, last.value);
    }
  }

  lemma RoundKeepsPaths(p: PathAccounting.Paths, una: U32, i: nat, k: nat)
    requires i < k
    ensures var seqno: U32 := (una + i) % TWO32;
      var p1, ps := PathAccounting.Acked(p, seqno), AckedPaths(p, una, k);
      p1.hist == p.hist && AckedPaths(p1, una, k) == ps && |ps| == k && ps[i] == PathAccounting.PathOf(p, seqno)
  {
    var seqno: U32 := (una + i) % TWO32;
    assert |AckedPaths(p, una, k)| == k;
    AckedKeepsRing(p, seqno);
    hide PathAccounting.Acked, AckedPaths, PathAccounting.PathOf;
    SamePaths(p, PathAccounting.Acked(p, seqno), una, k);
    PathAt(p, una, k, i);
  }

  /** The loop that accumulates acknowledged packets grows every window stretch by stretch. */
  lemma {:induction false} SettleGrows(p: PathAccounting.Paths, w: Windows, una: U32, i: nat, k: nat, last: Option<PathId>,
                                       accumulated: nat, env: Env, q: PathId)
    requires i <= k && InStretch(AckedPaths(p, una, k), i, last, accumulated)
    ensures Cubic.Bounded(w[q])
    ensures SettlePaths(p, w, una, i, k, last, accumulated, env).1[q]
         == Grown(w[q], AckedPaths(p, una, k), i - accumulated, q, env.samples)
    ensures SettlePaths(p, w, una, i, k, last, accumulated, env).0.hist == p.hist
    decreases k - i
  {
    hide GrowWindow, Cubic.OnAck, Cubic.Bounded, PathAccounting.Acked, PathAccounting.Dec, AckedPaths;
    hide PathAccounting.PathOf, SettlePaths, Grown, InStretch;
    if i == k {
      SettledLast(p, w, una, k, last, accumulated, env, q);
    } else {
      var seqno: U32 := (una + i) % TWO32;
      var path, p1 := PathAccounting.PathOf(p, seqno), PathAccounting.Acked(p, seqno);
      SettleUnfolds(p, w, una, i, k, last, accumulated, env);
      RoundKeepsPaths(p, una, i, k);
      RoundKeepsGrowth(w, AckedPaths(p, una, k), i, last, accumulated, env, q);
      if last.Some? && last.value != path {
        SettleGrows(p1, GrowWindow(w, last.value, accumulated, env.samples(i)), una, i + 1, k, Some(path), 1, env, q);
      } else {
        SettleGrows(p1, w, una, i + 1, k, Some(path), accumulated + 1, env, q);
      }
    }
  }

  lemma SettledLast(p: PathAccounting.Paths, w: Windows, una: U32, k: nat, last: Option<PathId>, accumulated: nat,
                    env: Env, q: PathId)
    requires InStretch(AckedPaths(p, una, k), k, last, accumulated)
    ensures Cubic.Bounded(w[q])
    ensures SettlePaths(p, w, una, k, k, last, accumulated, env).1[q]
         == Grown(w[q], AckedPaths(p, una, k), k - accumulated, q, env.samples)
    ensures SettlePaths(p, w, una, k, k, last, accumulated, env).0.hist == p.hist
  {
    hide GrowWindow, Cubic.OnAck, Cubic.Bounded, SettlePaths, Grown;
    var ps := AckedPaths(p, una, k);
    BoundedAt(w, q);
    SettleEnds(p, w, una, k, last, accumulated, env);
    if accumulated > 0 {
      LastStretch(w, ps, k - accumulated, q, env, last.value);
    } else {
      NothingLeft(w[q], ps, q, env.samples);
    }
  }

  lemma StretchFacts(ps: seq<PathId>, i: nat, last: Option<PathId>, accumulated: nat)
    requires InStretch(ps, i, last, accumulated)
    ensures accumulated <= i <= |ps| && (last.Some? <==> accumulated > 0) && (accumulated == 0 ==> i == 0)
    ensures last.Some? ==> forall m :: i - accumulated <= m < i ==> ps[m] == last.value
  {
  }

  lemma OneMoreInStretch(ps: seq<PathId>, i: nat, last: Option<PathId>, accumulated: nat, path: PathId)
    requires InStretch(ps, i, last, accumulated) && i < |ps| && ps[i] == path
    ensures InStretch(ps, i + 1, Some(path), if last.Some? && last.value != path then 1 else accumulated + 1)
  {
  }

  lemma NothingLeft(w: Cubic.Window, ps: seq<PathId>, q: PathId, samples: nat -> Cubic.Sample)
    requires Cubic.Bounded(w)
    ensures Grown(w, ps, |ps|, q, samples) == w
  {
  }

  lemma LastStretch(w: Windows, ps: seq<PathId>, a: nat, q: PathId, env: Env, path: PathId)
    requires a < |ps| && forall m :: a <= m < |ps| ==> ps[m] == path
    ensures Cubic.Bounded(w[q])
    ensures GrowWindow(w, path, |ps| - a, env.samples(|ps|))[q] == Grown(w[q], ps, a, q, env.samples)
  {
    BoundedAt(w, q);
    hide GrowWindow, Cubic.OnAck, Cubic.Bounded;
    StretchStops(ps, a, |ps|);
    GrowSets(w, path, |ps| - a, env.samples(|ps|), q);
  }

  lemma NextStretch(w: Windows, ps: seq<PathId>, a: nat, i: nat, q: PathId, env: Env, path: PathId)
    requires a < i < |ps| && (forall m :: a <= m < i ==> ps[m] == path) && ps[i] != path
    ensures Cubic.Bounded(w[q]) && Cubic.Bounded(GrowWindow(w, path, i - a, env.samples(i))[q])
    ensures Grown(GrowWindow(w, path, i - a, env.samples(i))[q], ps, i, q, env.samples) == Grown(w[q], ps, a, q, env.samples)
  {
    BoundedAt(w, q);
    BoundedAt(GrowWindow(w, path, i - a, env.samples(i)), q);
    hide GrowWindow, Cubic.OnAck, Cubic.Bounded;
    StretchStops(ps, a, i);
    GrowSets(w, path, i - a, env.samples(i), q);
  }

  /** An acknowledgement of new data grows each window by the stretches of acknowledged packets on its path, and no more. */
  lemma AcceptAckGrows(t: Tx, ackno: U32, k: nat, env: Env, q: PathId)
    requires k <= |t.unacked| && Tracked(t)
    ensures Cubic.Bounded(t.windows[q])
    ensures AcceptAck(t, ackno, k, env).windows[q] == Grown(t.windows[q], AckedPaths(t.paths, t.una, k), 0, q, env.samples)
    ensures AcceptAck(t, ackno, k, env).paths.hist == t.paths.hist
  {
    hide ReceiveAcks, SettlePaths, Grown, Tracked;
    SettleGrows(t.paths, t.windows, t.una, 0, k, None, 0, env, q);
  }

  /** The window of a path without any of the packets stays as it is. */
  lemma {:induction false} UntouchedStays(w: Cubic.Window, ps: seq<PathId>, i: nat, q: PathId, samples: nat -> Cubic.Sample)
    requires i <= |ps| && Cubic.Bounded(w) && forall m :: i <= m < |ps| ==> ps[m] != q
    ensures Grown(w, ps, i, q, samples) == w
    decreases |ps| - i
  {
    hide Cubic.OnAck, Cubic.Bounded;
    if i < |ps| {
      UntouchedStays(w, ps, StretchEnd(ps, i), q, samples);
    }
  }

  /**
   * What an acknowledgement of the first `k` packets in flight does to the window of a path: nothing if none of them is on it;
   * in slow start, as many packets as are on it, up to the cap.
   */
  lemma AckedWindows(t: Tx, ackno: U32, k: nat, env: Env, q: PathId)
    requires k <= |t.unacked| && Tracked(t)
    ensures var w, u, ps := t.windows[q], AcceptAck(t, ackno, k, env).windows[q], AckedPaths(t.paths, t.una, k);
      && w.cwnd <= u.cwnd <= u.maxCwnd == w.maxCwnd
      && (q !in ps ==> u == w)
      && (q in ps && w.cwnd < w.maxCwnd ==> u.cwnd > w.cwnd)
      && (StaysSlow(w, ps, 0, q) ==> u == w.(cwnd := Cubic.MinReal(w.cwnd + PacketsOn(ps, 0, q) as real, w.maxCwnd)))
  {
    hide AcceptAck, Tracked, Grown, AckedPaths, StaysSlow;
    var w, ps := t.windows[q], AckedPaths(t.paths, t.una, k);
    AcceptAckGrows(t, ackno, k, env, q);
    AckedPathRises(w, ps, 0, q, env.samples);
    if q !in ps {
      UntouchedStays(w, ps, 0, q, env.samples);
    } else if PacketsOn(ps, 0, q) == 0 {
      NothingOn(ps, 0, q);
    }
    if StaysSlow(w, ps, 0, q) {
      SlowStartCounts(w, ps, 0, q, env.samples);
    }
  }

  /** A window never falls and never passes its cap; it rises if a packet on its path is acknowledged below the cap. */
  lemma {:induction false} AckedPathRises(w: Cubic.Window, ps: seq<PathId>, i: nat, q: PathId, samples: nat -> Cubic.Sample)
    requires i <= |ps| && Cubic.Bounded(w)
    ensures var u := Grown(w, ps, i, q, samples);
      && w.cwnd <= u.cwnd <= u.maxCwnd == w.maxCwnd
      && (PacketsOn(ps, i, q) > 0 && w.cwnd < w.maxCwnd ==> u.cwnd > w.cwnd)
    decreases |ps| - i
  {
    hide Cubic.OnAck;
    if i < |ps| {
      var j := StretchEnd(ps, i);
      StretchCounts(ps, i, j, q);
      Cubic.AckKeepsBounds(w, j - i, samples(j));
      Cubic.AckRises(w, j - i, samples(j));
      AckedPathRises(if ps[i] == q then Cubic.OnAck(w, j - i, samples(j)) else w, ps, j, q, samples);
    }
  }

  /** Every stretch from place `i` on begins below the threshold. */
  ghost predicate StaysSlow(w: Cubic.Window, ps: seq<PathId>, i: nat, q: PathId)
    requires i <= |ps|
  {
    w.cwnd < w.ssthresh
    && (w.maxCwnd < w.ssthresh || w.cwnd + PacketsOn(ps, i, q) as real <= w.ssthresh || |Lengths(ps, i, q)| <= 1)
  }

  lemma SlowAdds(w: Cubic.Window, d: nat, n: nat, s: Cubic.Sample)
    requires Cubic.Bounded(w) && w.cwnd < w.ssthresh
    ensures var v := Cubic.OnAck(w, d, s);
      && v == w.(cwnd := Cubic.MinReal(w.cwnd + d as real, w.maxCwnd)) && Cubic.Bounded(v)
      && Cubic.MinReal(v.cwnd + n as real, v.maxCwnd) == Cubic.MinReal(w.cwnd + (d + n) as real, w.maxCwnd)
  {
  }

  /**
   * Slow start: if a path is below its threshold whenever one of its stretches is acknowledged, its window grows by the
   * number of its packets acknowledged, up to the cap. One stretch is enough for that, and so is a cap below the threshold.
   */
  lemma {:induction false} SlowStartCounts(w: Cubic.Window, ps: seq<PathId>, i: nat, q: PathId, samples: nat -> Cubic.Sample)
    requires i <= |ps| && Cubic.Bounded(w) && StaysSlow(w, ps, i, q)
    ensures Grown(w, ps, i, q, samples) == w.(cwnd := Cubic.MinReal(w.cwnd + PacketsOn(ps, i, q) as real, w.maxCwnd))
    decreases |ps| - i
  {
    hide Cubic.OnAck;
    if i < |ps| {
      var j := StretchEnd(ps, i);
      StretchCounts(ps, i, j, q);
      if ps[i] == q {
        SlowAdds(w, j - i, PacketsOn(ps, j, q), samples(j));
        var v := Cubic.OnAck(w, j - i, samples(j));
        if PacketsOn(ps, j, q) == 0 {
          NothingOn(ps, j, q);
          UntouchedStays(v, ps, j, q, samples);
        } else {
          LengthsSumUp(ps, j, q);
          SlowStartCounts(v, ps, j, q, samples);
        }
      } else {
        SlowStartCounts(w, ps, j, q, samples);
      }
    }
  }

  lemma {:induction false} NothingOn(ps: seq<PathId>, i: nat, q: PathId)
    requires i <= |ps| && PacketsOn(ps, i, q) == 0
    ensures forall m :: i <= m < |ps| ==> ps[m] != q
    decreases |ps| - i
  {
    if i < |ps| {
      NothingOn(ps, i + 1, q);
    }
  }

  // ----- Losses -----

  /** A window after `n` losses. */
  function Shrunk(w: Cubic.Window, n: nat): Cubic.Window {
    if n == 0 then w else Cubic.OnLoss(Shrunk(w, n - 1))
  }

  lemma {:induction false} FirstLoss(w: Cubic.Window, n: nat)
    ensures Shrunk(Cubic.OnLoss(w), n) == Shrunk(w, n + 1)
  {
    if n > 0 {
      FirstLoss(w, n - 1);
    }
  }

  /** What three tenths of three tenths, and so on, `n` times, leave of `c`. */
  function Left(n: nat, c: real): real {
    if n == 0 then c else 0.3 * Left(n - 1, c)
  }

  /** Each loss leaves three tenths of the window, but one packet at least; the threshold is seven tenths of the last one. */
  lemma {:induction false} LossesCut(w: Cubic.Window, n: nat)
    requires Cubic.Bounded(w)
    ensures var u := Shrunk(w, n);
      && u.maxCwnd == w.maxCwnd && u.cwnd == Cubic.MaxReal(1.0, Left(n, w.cwnd))
      && (n > 0 ==> u.lastMaxCwnd == Shrunk(w, n - 1).cwnd && u.ssthresh == 0.7 * u.lastMaxCwnd && u.epochStart == 0.0)
  {
    if n > 0 {
      LossesCut(w, n - 1);
    }
  }

  /** A timeout cuts the window of the path the packet is sent again on, and no other. */
  lemma TimeoutCuts(t: Tx, buf: Off, seqno: U32, path: PathId)
    requires buf in t.mem
    ensures var u, w := RtoRetransmit(t, buf, seqno, path), t.windows[path];
      && PathAccounting.PathOf(u.paths, seqno) == path
      && u.windows[path].cwnd == Cubic.MaxReal(1.0, 0.3 * w.cwnd) && u.windows[path].ssthresh == 0.7 * w.cwnd
      && u.windows[path] == Shrunk(w, 1)
      && forall q: PathId :: q != path ==> u.windows[q] == t.windows[q]
  {
    var u := RtoRetransmit(t, buf, seqno, path);
    assert WindowOk(t.windows[path]);
    assert PathAccounting.PathOf(u.paths, seqno) == path;
  }

  /** How many of the entries are for packets still in flight and were given path `q`; the paths are drawn from `i` on. */
  function Drawn(una: U32, ents: seq<Ent>, i: nat, pick: nat -> PathId, q: PathId): nat {
    if ents == [] then 0
    else (if SeqGe(ents[0].seqno, una) && pick(i) == q then 1 else 0) + Drawn(una, ents[1..], i + 1, pick, q)
  }

  /** How many of the entries are for packets still in flight. */
  function Timeouts(una: U32, ents: seq<Ent>): nat {
    if ents == [] then 0 else (if SeqGe(ents[0].seqno, una) then 1 else 0) + Timeouts(una, ents[1..])
  }

  /** Every entry that passes the timer's test names a buffer in use. */
  ghost predicate DueInUse(t: Tx, ents: seq<Ent>) {
    forall k :: 0 <= k < |ents| && SeqGe(ents[k].seqno, t.una) ==> ents[k].buf in t.mem
  }

  lemma FireCuts(t: Tx, path: PathId, q: PathId)
    requires t.wheels[t.tick] != [] && DueInUse(t, t.wheels[t.tick])
    ensures var e, u := t.wheels[t.tick][0], FireOne(t, path);
      var n: int := t.rtoConsecutive;
      && u.una == t.una && u.tick == t.tick && u.mem.Keys == t.mem.Keys && u.wheels[u.tick] == t.wheels[t.tick][1..]
      && u.windows[q] == (if SeqGe(e.seqno, t.una) && path == q then Cubic.OnLoss(t.windows[q]) else t.windows[q])
      && u.rtoConsecutive == (if SeqGe(e.seqno, t.una) then (n + 1) % 0x1_0000 else n)
  {
    hide SeqGe, Cubic.OnLoss;
    FireOneShortensSlot(t, path);
    var e := t.wheels[t.tick][0];
    if SeqGe(e.seqno, t.una) {
      var t1 := t.(wheels := t.wheels[t.tick := t.wheels[t.tick][1..]]);
      var u := RtoRetransmit(t1, e.buf, e.seqno, path);
      assert PathAccounting.PathOf(u.paths, e.seqno) == path;
      assert WindowOk(t.windows[path]);
    }
  }

  lemma RestIsInUse(t: Tx, u: Tx, ents: seq<Ent>)
    requires ents != [] && DueInUse(t, ents) && u.una == t.una && u.mem.Keys == t.mem.Keys
    ensures DueInUse(u, ents[1..])
  {
    hide SeqGe;
    forall k | 0 <= k < |ents[1..]| && SeqGe(ents[1..][k].seqno, u.una)
      ensures ents[1..][k].buf in u.mem
    {
      assert ents[1..][k] == ents[k + 1];
    }
  }

  /** Draining a slot cuts the window of each path as often as the path was drawn for a packet still in flight. */
  lemma {:induction false} DrainCuts(t: Tx, i: nat, env: Env, q: PathId)
    requires DueInUse(t, t.wheels[t.tick])
    ensures Drain(t, i, env).windows[q] == Shrunk(t.windows[q], Drawn(t.una, t.wheels[t.tick], i, env.pick, q))
    decreases |t.wheels[t.tick]|
  {
    hide FireOne, SeqGe, Cubic.OnLoss, DueInUse;
    if t.wheels[t.tick] != [] {
      FireCuts(t, env.pick(i), q);
      var u := FireOne(t, env.pick(i));
      RestIsInUse(t, u, t.wheels[t.tick]);
      DrainCuts(u, i + 1, env, q);
      FirstLoss(t.windows[q], Drawn(u.una, u.wheels[u.tick], i + 1, env.pick, q));
      hide Shrunk;
    }
  }

  lemma AddModulo(n: int, k: int)
    ensures ((n + 1) % 0x1_0000 + k) % 0x1_0000 == (n + (1 + k)) % 0x1_0000
  {
  }

  /** The count of consecutive timeouts goes up by the packets still in flight. */
  lemma {:induction false} DrainCounts(t: Tx, i: nat, env: Env)
    requires DueInUse(t, t.wheels[t.tick])
    ensures Drain(t, i, env).rtoConsecutive == (t.rtoConsecutive + Timeouts(t.una, t.wheels[t.tick])) % 0x1_0000
    decreases |t.wheels[t.tick]|
  {
    hide FireOne, SeqGe, Cubic.OnLoss, DueInUse;
    if t.wheels[t.tick] != [] {
      FireCuts(t, env.pick(i), 0);
      var u := FireOne(t, env.pick(i));
      RestIsInUse(t, u, t.wheels[t.tick]);
      DrainCounts(u, i + 1, env);
      AddModulo(t.rtoConsecutive, Timeouts(u.una, u.wheels[u.tick]));
    }
  }

  /** The same for a tick. */
  lemma TickCuts(t: Tx, env: Env, q: PathId)
    requires DueInUse(t, t.wheels[(t.tick + 1) % RTO_SLOTS])
    ensures var u, ents := PeriodicCheck(t, env), t.wheels[(t.tick + 1) % RTO_SLOTS];
      && u.windows[q] == Shrunk(t.windows[q], Drawn(t.una, ents, 0, env.pick, q))
      && u.rtoConsecutive == (t.rtoConsecutive + Timeouts(t.una, ents)) % 0x1_0000
  {
    hide Drain, SeqGe, Shrunk, Drawn, Timeouts;
    var v := t.(tick := (t.tick + 1) % RTO_SLOTS);
    assert DueInUse(v, v.wheels[v.tick]);
    DrainCuts(v, 0, env, q);
    DrainCounts(v, 0, env);
  }

  // ----- New packets -----

  /** A path takes a new packet exactly if, with it, its counter is no more than its window. */
  lemma AdmitsIff(t: Tx, path: PathId)
    ensures Admits(t, path) <==> t.paths.pp[path] as real + 1.0 <= t.windows[path].cwnd
  {
  }

  /** After a packet was sent, its path's counter is no more than the path's window, which sending leaves as it is. */
  lemma SendStaysInWindow(t: Tx, path: PathId)
    requires t.unsent != [] && t.unsent[0] in t.mem && Admits(t, path)
    ensures var u := TransmitOne(t, path);
      && u.windows == t.windows && PathAccounting.PathOf(u.paths, t.nxt) == path
      && u.paths.pp[path] == t.paths.pp[path] + 1 && u.paths.pp[path] as real <= u.windows[path].cwnd
      && forall q: PathId :: q != path ==> u.paths.pp[q] == t.paths.pp[q]
  {
    RoomIsSmall(t, path);
    SentCounts(t.paths, t.nxt, path);
    assert TransmitOne(t, path).paths == PathAccounting.Sent(t.paths, t.nxt, path);
    hide PathAccounting.Sent, PathAccounting.PathOf, TransmitOne;
    assert t.windows == TransmitOne(t, path).windows by {
      SendKeepsWindows(t, path);
    }
  }

  lemma SendKeepsWindows(t: Tx, path: PathId)
    requires t.unsent != [] && t.unsent[0] in t.mem
    ensures TransmitOne(t, path).windows == t.windows
  {
  }

  /** No window is so large that a path it admits has a counter near its width. */
  lemma RoomIsSmall(t: Tx, path: PathId)
    requires Admits(t, path)
    ensures t.paths.pp[path] as real + 1.0 <= t.windows[path].cwnd && t.paths.pp[path] as int + 1 < 0x1_0000
  {
    BoundedAt(t.windows, path);
    assert PLATFORM.maxUnackedPp * PLATFORM.maxPath >= PLATFORM.maxUnackedPp;
  }

  lemma SentCounts(p: PathAccounting.Paths, seqno: U32, path: PathId)
    requires p.pp[path] as int + 1 < 0x1_0000
    ensures var u := PathAccounting.Sent(p, seqno, path);
      && PathAccounting.PathOf(u, seqno) == path && u.pp[path] == p.pp[path] + 1
      && forall q: PathId :: q != path ==> u.pp[q] == p.pp[q]
  {
  }
}
