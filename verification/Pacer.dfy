/** The rate pacer on top of the timing wheel, and what holds in every run of pacing, reaping and requeueing. */
module Pacer {
  import opened TimingWheel

  datatype Pacer = Pacer(
    wheel: Wheel,
    prev: nat,                 // the time asked for last
    failed: bool,              // a fatal test has failed
    latest: nat,               // log: the latest time the wheel was told
    log: seq<Ent>,             // log: every entry put on the wheel
    popped: seq<Ent>,          // log: every entry taken off the ready queue
    overtaken: bool)           // log: an entry was put in front of one put on the wheel before it

  /** Packets the pacer still holds, on the wheel or ready. */
  function Held(p: Pacer): seq<Ent> {
    p.wheel.ready + Flat(p.wheel.ring)
  }

  function Max(a: nat, b: nat): nat {
    if a >= b then a else b
  }

  /** Put a packet on the wheel, `cost` cycles after the last one but not before `ref`. */
  function Pace(p: Pacer, sslot: nat, size: nat, ref: nat, cost: nat, horizon: nat): Pacer
    requires Shape(p.wheel)
  {
    var e := Ent(sslot, size, Max(p.prev + cost, ref));
    if p.failed || !Insertable(p.wheel, e, ref, horizon) then p.(failed := true)
    else p.(wheel := Insert(p.wheel, e, ref), prev := e.desired, latest := Max(p.latest, ref), log := p.log + [e],
            overtaken := p.overtaken || Overtakes(p.wheel, e, ref))
  }

  function Pop(p: Pacer, n: nat): Pacer
    requires n <= |p.wheel.ready|
  {
    p.(wheel := p.wheel.(ready := p.wheel.ready[n..]), popped := p.popped + p.wheel.ready[..n])
  }

  /** The ready queue without its first entries fills up by the same slots. */
  lemma {:induction false} ReapIgnoresReady(w: Wheel, n: nat, now: nat)
    requires Shape(w) && n <= |w.ready|
    ensures var u := Reap(w, now);
      |w.ready| <= |u.ready| && u.ready[..n] == w.ready[..n]
      && Reap(w.(ready := w.ready[n..]), now) == u.(ready := u.ready[n..])
    decreases now + 1 - w.first
  {
    if w.first <= now {
      var v := w.(ready := w.ready[n..]);
      assert Roll(w).ready[n..] == w.ready[n..] + w.ring[0];
      assert Roll(v) == Roll(w).(ready := Roll(w).ready[n..]);
      ReapIgnoresReady(Roll(w), n, now);
      assert Roll(w).ready[..n] == w.ready[..n];
    }
  }

  /** Taking one entry off the ready queue and pacing it again leaves one entry fewer that is ready or about to be. */
  lemma RequeueShrinks(p: Pacer, now: nat, cost: nat, horizon: nat)
    requires Shape(p.wheel) && p.wheel.ready != []
    ensures var e := p.wheel.ready[0];
      var u := Pace(Pop(p, 1), e.sslot, e.pktSize, now, cost, horizon);
      && Shape(u.wheel)
      && (!u.failed ==> |Reap(u.wheel, now).ready| == |Reap(p.wheel, now).ready| - 1)
  {
    ReapIgnoresReady(p.wheel, 1, now);
  }

  /** Pace what is left in the ready queue again, until the queue is empty. */
  function Requeue(p: Pacer, now: nat, cost: nat -> nat, horizon: nat): Pacer
    requires Shape(p.wheel)
    decreases |Reap(p.wheel, now).ready|
  {
    if p.failed || p.wheel.ready == [] then p
    else
      var e := p.wheel.ready[0];
      var u := Pace(Pop(p, 1), e.sslot, e.pktSize, now, cost(e.pktSize), horizon);
      RequeueShrinks(p, now, cost(e.pktSize), horizon);
      if u.failed then u else Requeue(u, now, cost, horizon)
  }

  /** Hand out up to `budget` ready packets; the others are paced again. */
  function ReadyPackets(p: Pacer, cur: nat, now: nat, budget: nat, cost: nat -> nat, horizon: nat): (Pacer, nat)
    requires Shape(p.wheel)
  {
    var p1 := p.(wheel := Reap(p.wheel, cur), latest := Max(p.latest, cur));
    var n := if |p1.wheel.ready| <= budget then |p1.wheel.ready| else budget;
    (Requeue(Pop(p1, n), now, cost, horizon), n)
  }

  // ----- Nothing is lost -----

  function Key(e: Ent): (nat, nat) {
    (e.sslot, e.pktSize)
  }

  /** The packets among entries, whatever times they were asked for. */
  function Keys(s: seq<Ent>): multiset<(nat, nat)> {
    if s == [] then multiset{} else multiset{Key(s[0])} + Keys(s[1..])
  }

  lemma {:induction false} KeysConcat(a: seq<Ent>, b: seq<Ent>)
    ensures Keys(a + b) == Keys(a) + Keys(b)
  {
    if a == [] {
      assert a + b == b;
    } else {
      assert (a + b)[1..] == a[1..] + b;
      KeysConcat(a[1..], b);
    }
  }

  /** Putting an entry into a slot puts it somewhere into the whole. */
  lemma {:induction false} PutSplits(ring: seq<seq<Ent>>, e: Ent, i: nat) returns (a: seq<Ent>, b: seq<Ent>)
    requires i < |ring|
    ensures Flat(ring) == a + b && Flat(ring[i := ring[i] + [e]]) == a + [e] + b
    decreases i
  {
    var r := ring[i := ring[i] + [e]];
    if i == 0 {
      a, b := ring[0], Flat(ring[1..]);
      assert r[1..] == ring[1..];
    } else {
      a, b := PutSplits(ring[1..], e, i - 1);
      assert r[1..] == ring[1..][i - 1 := ring[1..][i - 1] + [e]];
      assert ring[0] + (a + b) == (ring[0] + a) + b && ring[0] + (a + [e] + b) == (ring[0] + a) + [e] + b;
      a := ring[0] + a;
    }
  }

  lemma KeysInsert(a: seq<Ent>, e: Ent, b: seq<Ent>)
    ensures Keys(a + [e] + b) == Keys(a + b) + multiset{Key(e)}
  {
    KeysConcat(a, b);
    KeysConcat(a, [e]);
    KeysConcat(a + [e], b);
    assert Keys([e]) == multiset{Key(e)};
  }

  /** Pacing adds the packet and nothing else. */
  lemma PaceAdds(p: Pacer, sslot: nat, size: nat, ref: nat, cost: nat, horizon: nat)
    requires Shape(p.wheel)
    ensures var u := Pace(p, sslot, size, ref, cost, horizon);
      && Shape(u.wheel)
      && (!u.failed ==> Keys(Held(u)) == Keys(Held(p)) + multiset{(sslot, size)} && |Held(u)| == |Held(p)| + 1)
  {
    var u := Pace(p, sslot, size, ref, cost, horizon);
    if !u.failed {
      var e := Ent(sslot, size, Max(p.prev + cost, ref));
      var v := Reap(p.wheel, ref);
      ReapKeepsOrder(p.wheel, ref);
      var a, b := PutSplits(v.ring, e, Place(v, e.desired));
      assert u.wheel.ready == v.ready && Flat(u.wheel.ring) == a + [e] + b && Key(e) == (sslot, size);
      hide Reap, Insertable, Insert, Flat, Keys, Place, Put, Pace, Key;
      assert Held(p) == (v.ready + a) + b;
      assert Held(u) == (v.ready + a) + [e] + b;
      KeysInsert(v.ready + a, e, b);
    }
  }

  lemma PopTakes(p: Pacer, n: nat)
    requires n <= |p.wheel.ready|
    ensures Keys(Held(p)) == Keys(p.wheel.ready[..n]) + Keys(Held(Pop(p, n)))
    ensures Held(p) == p.wheel.ready[..n] + Held(Pop(p, n))
  {
    assert Held(p) == p.wheel.ready[..n] + Held(Pop(p, n));
    KeysConcat(p.wheel.ready[..n], Held(Pop(p, n)));
  }

  /** Requeueing loses nothing, duplicates nothing and empties the ready queue. */
  lemma {:induction false} RequeueConserves(p: Pacer, now: nat, cost: nat -> nat, horizon: nat)
    requires Shape(p.wheel)
    ensures var u := Requeue(p, now, cost, horizon);
      && Shape(u.wheel)
      && (!u.failed ==> u.wheel.ready == [] && Keys(Held(u)) == Keys(Held(p)) && |Held(u)| == |Held(p)|)
    decreases |Reap(p.wheel, now).ready|
  {
    if !p.failed && p.wheel.ready != [] {
      var e := p.wheel.ready[0];
      var u := Pace(Pop(p, 1), e.sslot, e.pktSize, now, cost(e.pktSize), horizon);
      RequeueShrinks(p, now, cost(e.pktSize), horizon);
      PopTakes(p, 1);
      assert p.wheel.ready[..1] == [e] && Keys([e]) == multiset{Key(e)};
      PaceAdds(Pop(p, 1), e.sslot, e.pktSize, now, cost(e.pktSize), horizon);
      if !u.failed {
        RequeueConserves(u, now, cost, horizon);
      }
    }
  }

  /**
   * Handing out packets removes the oldest ready ones, as many as are ready or as the budget allows if that is fewer, and
   * keeps all others.
   */
  lemma ReadyPacketsConserves(p: Pacer, cur: nat, now: nat, budget: nat, cost: nat -> nat, horizon: nat)
    requires Shape(p.wheel)
    ensures var (u, n) := ReadyPackets(p, cur, now, budget, cost, horizon);
      && Shape(u.wheel) && n <= budget && n <= |Reap(p.wheel, cur).ready| && (n == budget || n == |Reap(p.wheel, cur).ready|)
      && (!u.failed ==>
            && u.wheel.ready == []
            && Keys(Held(p)) == Keys(Reap(p.wheel, cur).ready[..n]) + Keys(Held(u))
            && |Held(p)| == n + |Held(u)|)
  {
    var p1 := p.(wheel := Reap(p.wheel, cur), latest := Max(p.latest, cur));
    var n := if |p1.wheel.ready| <= budget then |p1.wheel.ready| else budget;
    ReapKeepsOrder(p.wheel, cur);
    PopTakes(p1, n);
    RequeueConserves(Pop(p1, n), now, cost, horizon);
  }
}
