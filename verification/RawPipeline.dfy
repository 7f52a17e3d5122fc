/**
 * The batched form of the one-sided pipeline: a whole window is posted at once and the transport returns waits, each
 * covering some of its elements. Unlike the other form it does not drain what is in flight when a post fails.
 *
 * The transport may answer anything. It is honest if its waits cover at least one element each and exactly the batch
 * together; the program does not check that.
 */
module RawPipeline {
  const TWO64 := 0x1_0000_0000_0000_0000

  type U64 = n: nat | n < TWO64

  /** The answer to a batch: refused, or the number of elements each wait covers. */
  datatype Answer = Refused | Accepted(waits: seq<nat>)

  /** One pass: the answer to a batch of each size, and which waits are done when polled. */
  datatype Pass = Pass(post: nat -> Answer, poll: nat -> bool)

  datatype Pending = Pending(count: nat, active: bool)

  datatype Raw = Raw(numIovs: U64, maxInflight: U64, pending: seq<Pending>, nextIov: nat, numCompleted: U64, numInflight: U64)

  datatype Outcome = Done | Failed | Unfinished

  function New(numIovs: U64, maxInflight: U64, slots: nat): Raw {
    Raw(numIovs, maxInflight, seq(slots, _ => Pending(0, false)), 0, 0, 0)
  }

  // ----- The steps -----

  /** The first place that is not in use. */
  function FirstFree(ps: seq<Pending>): (i: nat)
    ensures i <= |ps| && (forall k :: 0 <= k < i ==> ps[k].active) && (i < |ps| ==> !ps[i].active)
  {
    if ps == [] || !ps[0].active then 0 else 1 + FirstFree(ps[1..])
  }

  /** Each wait goes into the first free place, in turn, until there is none. */
  function Placed(ps: seq<Pending>, waits: seq<nat>): (seq<Pending>, bool)
    decreases |waits|
  {
    if waits == [] then (ps, true)
    else
      var i := FirstFree(ps);
      if i == |ps| then (ps, false) else Placed(ps[i := Pending(waits[0], true)], waits[1..])
  }

  predicate HasRoom(r: Raw) {
    r.nextIov < r.numIovs && r.numInflight < r.maxInflight
  }

  function Batch(r: Raw): (batch: nat)
    requires HasRoom(r)
    ensures 0 < batch && r.nextIov + batch <= r.numIovs && r.numInflight + batch <= r.maxInflight
    ensures r.nextIov + batch == r.numIovs || r.numInflight + batch == r.maxInflight
  {
    if r.maxInflight - r.numInflight <= r.numIovs - r.nextIov then r.maxInflight - r.numInflight
    else r.numIovs - r.nextIov
  }

  /** Post as many elements as the window has room for. */
  function Post(r: Raw, answer: Answer): (Raw, bool)
    requires HasRoom(r)
  {
    if answer.Refused? || answer.waits == [] then (r, false)
    else
      var (ps, ok) := Placed(r.pending, answer.waits);
      if !ok then (r.(pending := ps), false)
      else (r.(pending := ps, nextIov := r.nextIov + Batch(r), numInflight := r.numInflight + Batch(r)), true)
  }

  /** Retire the wait in one place if it is done. */
  function PollOne(r: Raw, poll: nat -> bool, i: nat): Raw
    requires i < |r.pending|
  {
    var p, completed, inflight: int := r.pending[i], r.numCompleted, r.numInflight;
    if !p.active || !poll(i) then r
    else r.(pending := r.pending[i := Pending(0, false)], numCompleted := (completed + p.count) % TWO64,
            numInflight := (inflight - p.count) % TWO64)
  }

  function PollFrom(r: Raw, poll: nat -> bool, i: nat): Raw
    requires i <= |r.pending|
    decreases |r.pending| - i
  {
    if i == |r.pending| then r else PollFrom(PollOne(r, poll, i), poll, i + 1)
  }

  /** Post until the window is full or everything is posted. */
  function FillWindow(r: Raw, post: nat -> Answer): (Raw, bool)
    decreases r.numIovs - r.nextIov
  {
    if !HasRoom(r) then (r, true)
    else
      var (u, ok) := Post(r, post(Batch(r)));
      if ok then FillWindow(u, post) else (u, false)
  }

  /** The whole operation over any number of passes. */
  function RunFrom(r: Raw, passes: seq<Pass>): (Raw, Outcome)
    decreases |passes|
  {
    if r.numCompleted >= r.numIovs then (r, Done)
    else if passes == [] then (r, Unfinished)
    else
      var (u, ok) := FillWindow(r, passes[0].post);
      if !ok then (u, Failed) else RunFrom(PollFrom(u, passes[0].poll, 0), passes[1..])
  }

  // ----- Honest transports -----

  function Sum(waits: seq<nat>): nat {
    if waits == [] then 0 else waits[0] + Sum(waits[1..])
  }

  /** Each wait covers at least one element, and together they cover the batch. */
  ghost predicate Covers(waits: seq<nat>, batch: nat) {
    (forall k :: 0 <= k < |waits| ==> waits[k] >= 1) && Sum(waits) == batch
  }

  ghost predicate Honest(post: nat -> Answer) {
    forall batch :: batch > 0 && post(batch).Accepted? ==> Covers(post(batch).waits, batch)
  }

  ghost predicate AllHonest(passes: seq<Pass>) {
    forall i :: 0 <= i < |passes| ==> Honest(passes[i].post)
  }

  /** The elements the active waits cover. */
  function Covered(ps: seq<Pending>): nat {
    if ps == [] then 0 else (if ps[0].active then ps[0].count else 0) + Covered(ps[1..])
  }

  /** Each active wait covers at least one element. */
  ghost predicate NoneEmpty(ps: seq<Pending>) {
    forall i :: 0 <= i < |ps| && ps[i].active ==> ps[i].count >= 1
  }

  /** What holds between any two steps of a run with an honest transport. */
  ghost predicate Sound(r: Raw) {
    && 1 <= r.maxInflight <= |r.pending| && r.numInflight <= r.maxInflight && r.nextIov <= r.numIovs
    && r.nextIov == r.numCompleted + r.numInflight
    && NoneEmpty(r.pending) && Covered(r.pending) == r.numInflight
  }

  lemma {:induction false} CoveredUpdate(ps: seq<Pending>, i: nat, p: Pending)
    requires i < |ps|
    ensures Covered(ps[i := p]) == Covered(ps) - (if ps[i].active then ps[i].count else 0) + (if p.active then p.count else 0)
    decreases i
  {
    if i == 0 {
      assert ps[i := p][1..] == ps[1..];
    } else {
      assert ps[i := p][1..] == ps[1..][i - 1 := p];
      CoveredUpdate(ps[1..], i - 1, p);
    }
  }

  lemma {:induction false} CoveredAtLeast(ps: seq<Pending>, i: nat)
    requires i < |ps| && ps[i].active
    ensures ps[i].count <= Covered(ps)
    decreases i
  {
    if i > 0 {
      CoveredAtLeast(ps[1..], i - 1);
    }
  }

  /** If every place is in use, as many elements are covered as there are places, or more. */
  lemma {:induction false} FullCovers(ps: seq<Pending>)
    requires NoneEmpty(ps) && forall i :: 0 <= i < |ps| ==> ps[i].active
    ensures Covered(ps) >= |ps|
  {
    if ps != [] {
      FullCovers(ps[1..]);
    }
  }

  lemma {:induction false} NothingCovered(ps: seq<Pending>)
    requires forall i :: 0 <= i < |ps| ==> !ps[i].active
    ensures Covered(ps) == 0
  {
    if ps != [] {
      NothingCovered(ps[1..]);
    }
  }

  /** Waits that together cover no more than there are places for all find one, and disturb none in use. */
  lemma {:induction false} PlacedCovers(ps: seq<Pending>, waits: seq<nat>)
    requires NoneEmpty(ps) && (forall k :: 0 <= k < |waits| ==> waits[k] >= 1) && Covered(ps) + Sum(waits) <= |ps|
    ensures var (qs, ok) := Placed(ps, waits);
      && ok && |qs| == |ps| && NoneEmpty(qs) && Covered(qs) == Covered(ps) + Sum(waits)
      && forall k :: 0 <= k < |ps| && ps[k].active ==> qs[k] == ps[k]
    decreases |waits|
  {
    if waits != [] {
      var i := FirstFree(ps);
      if i == |ps| {
        FullCovers(ps);
        assert false;
      }
      CoveredUpdate(ps, i, Pending(waits[0], true));
      PlacedCovers(ps[i := Pending(waits[0], true)], waits[1..]);
    }
  }

  function Free(ps: seq<Pending>): nat {
    if ps == [] then 0 else (if ps[0].active then 0 else 1) + Free(ps[1..])
  }

  lemma {:induction false} FreeUpdate(ps: seq<Pending>, i: nat, count: nat)
    requires i < |ps| && !ps[i].active
    ensures Free(ps[i := Pending(count, true)]) == Free(ps) - 1
    decreases i
  {
    if i == 0 {
      assert ps[i := Pending(count, true)][1..] == ps[1..];
    } else {
      assert ps[i := Pending(count, true)][1..] == ps[1..][i - 1 := Pending(count, true)];
      FreeUpdate(ps[1..], i - 1, count);
    }
  }

  lemma {:induction false} NoneFree(ps: seq<Pending>)
    requires forall i :: 0 <= i < |ps| ==> ps[i].active
    ensures Free(ps) == 0
  {
    if ps != [] {
      NoneFree(ps[1..]);
    }
  }

  /** All waits find a place exactly if there are enough; if not, all places are in use afterwards. */
  lemma {:induction false} PlacedIff(ps: seq<Pending>, waits: seq<nat>)
    ensures var (qs, ok) := Placed(ps, waits);
      |qs| == |ps| && (ok <==> |waits| <= Free(ps)) && Free(qs) == if ok then Free(ps) - |waits| else 0
    decreases |waits|
  {
    if waits != [] {
      var i := FirstFree(ps);
      if i == |ps| {
        NoneFree(ps);
      } else {
        FreeUpdate(ps, i, waits[0]);
        PlacedIff(ps[i := Pending(waits[0], true)], waits[1..]);
      }
    }
  }

  /**
   * For any answer, honest or not: a post succeeds exactly if the answer brings waits and each finds a place. If some do not,
   * the others stay in their places although nothing is counted as posted.
   */
  lemma PostSucceedsIff(r: Raw, answer: Answer)
    requires HasRoom(r)
    ensures var (u, ok) := Post(r, answer);
      && (ok <==> answer.Accepted? && 0 < |answer.waits| <= Free(r.pending))
      && (ok ==> u.nextIov == r.nextIov + Batch(r) && u.numInflight == r.numInflight + Batch(r))
      && (!ok ==>
            && u == r.(pending := u.pending)
            && Free(u.pending) == if answer.Accepted? && answer.waits != [] then 0 else Free(r.pending))
  {
    if answer.Accepted? {
      PlacedIff(r.pending, answer.waits);
    }
  }

  /** An honest answer fills the window or the vector, and every wait finds a place; a refusal changes nothing. */
  lemma PostKeeps(r: Raw, answer: Answer)
    requires Sound(r) && HasRoom(r) && (answer.Accepted? ==> Covers(answer.waits, Batch(r)))
    ensures var (u, ok) := Post(r, answer);
      && Sound(u) && ok == answer.Accepted? && u.numCompleted == r.numCompleted
      && (ok ==> !HasRoom(u) && u.nextIov > r.nextIov) && (!ok ==> u == r)
      && |u.pending| == |r.pending| && u.numIovs == r.numIovs && u.maxInflight == r.maxInflight
      && forall k :: 0 <= k < |r.pending| && r.pending[k].active ==> u.pending[k] == r.pending[k]
  {
    if answer.Accepted? {
      PlacedCovers(r.pending, answer.waits);
    }
  }

  /** Retired waits move their elements from in flight to completed; nothing wraps around. */
  lemma PollOneKeeps(r: Raw, poll: nat -> bool, i: nat)
    requires Sound(r) && i < |r.pending|
    ensures var u := PollOne(r, poll, i);
      && Sound(u) && u.nextIov == r.nextIov && u.numCompleted >= r.numCompleted
      && |u.pending| == |r.pending| && u.numIovs == r.numIovs && u.maxInflight == r.maxInflight
  {
    if r.pending[i].active {
      CoveredAtLeast(r.pending, i);
      CoveredUpdate(r.pending, i, Pending(0, false));
    }
  }

  lemma {:induction false} PollKeeps(r: Raw, poll: nat -> bool, i: nat)
    requires Sound(r) && i <= |r.pending|
    ensures var u := PollFrom(r, poll, i);
      && Sound(u) && u.nextIov == r.nextIov && u.numCompleted >= r.numCompleted
      && |u.pending| == |r.pending| && u.numIovs == r.numIovs && u.maxInflight == r.maxInflight
    decreases |r.pending| - i
  {
    hide Sound, PollOne;
    if i < |r.pending| {
      PollOneKeeps(r, poll, i);
      PollKeeps(PollOne(r, poll, i), poll, i + 1);
    }
  }

  /** Filling the window takes at most one post. It fails exactly if there was room and the transport refused. */
  lemma FillKeeps(r: Raw, post: nat -> Answer)
    requires Sound(r) && Honest(post)
    ensures var (u, ok) := FillWindow(r, post);
      && Sound(u) && u.numCompleted == r.numCompleted && |u.pending| == |r.pending|
      && u.numIovs == r.numIovs && u.maxInflight == r.maxInflight
      && ok == (HasRoom(r) ==> post(Batch(r)).Accepted?) && (ok ==> !HasRoom(u)) && (!ok ==> u == r)
      && (ok && HasRoom(r) ==> u == Post(r, post(Batch(r))).0)
  {
    if HasRoom(r) {
      PostKeeps(r, post(Batch(r)));
    }
  }

  /** When all elements are completed the last one has been posted and nothing is in flight. */
  lemma CompletedMeansDrained(r: Raw)
    requires Sound(r) && r.numCompleted >= r.numIovs
    ensures r.numCompleted == r.nextIov == r.numIovs && r.numInflight == 0
    ensures forall i :: 0 <= i < |r.pending| ==> !r.pending[i].active
  {
    forall i | 0 <= i < |r.pending| && r.pending[i].active
      ensures false
    {
      CoveredAtLeast(r.pending, i);
    }
  }

  /**
   * Success means that every element was posted and completed and nothing is in flight; failure comes at a refusal, with
   * elements left to post and room in the window.
   */
  lemma {:induction false} RunKeeps(r: Raw, passes: seq<Pass>)
    requires Sound(r) && AllHonest(passes)
    ensures var (u, outcome) := RunFrom(r, passes);
      && Sound(u)
      && (outcome == Done ==> u.numCompleted == u.nextIov == u.numIovs && u.numInflight == 0
                              && forall i :: 0 <= i < |u.pending| ==> !u.pending[i].active)
      && (outcome == Failed ==> HasRoom(u))
    decreases |passes|
  {
    if r.numCompleted >= r.numIovs {
      CompletedMeansDrained(r);
    } else if passes != [] {
      hide Sound, Honest, FillWindow, PollFrom, Post;
      FillKeeps(r, passes[0].post);
      var (u, ok) := FillWindow(r, passes[0].post);
      if ok {
        PollKeeps(u, passes[0].poll, 0);
        RunKeeps(PollFrom(u, passes[0].poll, 0), passes[1..]);
      }
    }
  }

  // ----- When a failure leaves operations in flight -----

  /** Everything is posted in one batch, or nothing yet is. */
  predicate OneBatch(r: Raw) {
    r.numIovs <= r.maxInflight && (r.nextIov == 0 || r.nextIov == r.numIovs)
  }

  /** A vector that fits into the window, and a window of one element, are drained when a run ends. */
  lemma {:induction false} SmallRunsDrain(r: Raw, passes: seq<Pass>)
    requires Sound(r) && AllHonest(passes) && (OneBatch(r) || r.maxInflight == 1)
    ensures var (u, outcome) := RunFrom(r, passes);
      outcome != Unfinished ==> u.numInflight == 0
    decreases |passes|
  {
    if r.numCompleted >= r.numIovs {
      CompletedMeansDrained(r);
    } else if passes != [] {
      FillKeeps(r, passes[0].post);
      var (u, ok) := FillWindow(r, passes[0].post);
      if ok {
        if OneBatch(r) {
          FillIsOneBatch(r, passes[0].post);
        }
        hide Sound, Honest, FillWindow, PollFrom, Post;
        PollKeeps(u, passes[0].poll, 0);
        SmallRunsDrain(PollFrom(u, passes[0].poll, 0), passes[1..]);
      }
    }
  }

  lemma FillIsOneBatch(r: Raw, post: nat -> Answer)
    requires Sound(r) && Honest(post) && OneBatch(r) && FillWindow(r, post).1
    ensures OneBatch(FillWindow(r, post).0)
  {
    FillKeeps(r, post);
    if HasRoom(r) {
      assert r.nextIov == 0 && r.numInflight == 0 && Batch(r) == r.numIovs;
    }
  }

  function Ones(n: nat): seq<nat> {
    seq(n, _ => 1)
  }

  lemma {:induction false} OnesCover(n: nat)
    ensures Covers(Ones(n), n)
  {
    if n > 0 {
      assert Ones(n)[1..] == Ones(n - 1);
      OnesCover(n - 1);
    }
  }

  /** A transport that takes a full window as single waits, finishes the first of them, and refuses everything else. */
  function Stingy(window: nat): Pass {
    Pass(batch => if batch == window then Accepted(Ones(batch)) else Refused, i => i == 0)
  }

  lemma StingyIsHonest(window: nat)
    ensures Honest(Stingy(window).post)
  {
    OnesCover(window);
  }

  lemma {:induction false} NothingPolled(r: Raw, poll: nat -> bool, i: nat)
    requires i <= |r.pending| && forall k :: i <= k ==> !poll(k)
    ensures PollFrom(r, poll, i) == r
    decreases |r.pending| - i
  {
    if i < |r.pending| {
      NothingPolled(r, poll, i + 1);
    }
  }

  /** Polling a stingy transport retires the wait in the first place, and no other. */
  lemma StingyPoll(r: Raw, window: nat)
    requires Sound(r) && r.pending[0] == Pending(1, true)
    ensures var u := PollFrom(r, Stingy(window).poll, 0);
      u.numInflight == r.numInflight - 1 && u.numCompleted == r.numCompleted + 1
  {
    CoveredAtLeast(r.pending, 0);
    NothingPolled(PollOne(r, Stingy(window).poll, 0), Stingy(window).poll, 1);
  }

  lemma StingyFirst(r: Raw)
    requires Sound(r) && r.nextIov == 0 && 2 <= r.maxInflight < r.numIovs
    requires forall i :: 0 <= i < |r.pending| ==> !r.pending[i].active
    ensures var (u, ok) := FillWindow(r, Stingy(r.maxInflight).post);
      && ok && Sound(u) && u.nextIov == u.numInflight == r.maxInflight && u.numCompleted == 0
      && u.numIovs == r.numIovs && u.maxInflight == r.maxInflight && u.pending[0] == Pending(1, true)
  {
    var n := r.maxInflight;
    StingyIsHonest(n);
    FillKeeps(r, Stingy(n).post);
    assert Batch(r) == n;
    var u := Post(r, Accepted(Ones(n))).0;
    assert FirstFree(r.pending) == 0;
    var ps := r.pending[0 := Pending(1, true)];
    assert Ones(n)[1..] == Ones(n - 1);
    OnesCover(n - 1);
    CoveredUpdate(r.pending, 0, Pending(1, true));
    PlacedCovers(ps, Ones(n - 1));
    assert Placed(r.pending, Ones(n)) == Placed(ps, Ones(n - 1));
  }

  /** With two or more elements to a window and a vector that does not fit, all but one of a window can stay in flight. */
  lemma StingyLeaves(numIovs: U64, maxInflight: U64, slots: nat)
    requires 2 <= maxInflight <= slots && maxInflight < numIovs
    ensures var (u, outcome) := RunFrom(New(numIovs, maxInflight, slots), [Stingy(maxInflight), Stingy(maxInflight)]);
      outcome == Failed && u.numInflight == maxInflight - 1
  {
    var r, pass := New(numIovs, maxInflight, slots), Stingy(maxInflight);
    NewIsSound(numIovs, maxInflight, slots);
    StingyFirst(r);
    var u := FillWindow(r, pass.post).0;
    hide FillWindow;
    StingyPoll(u, maxInflight);
    PollKeeps(u, pass.poll, 0);
    var v := PollFrom(u, pass.poll, 0);
    hide PollFrom;
    assert HasRoom(v) && Batch(v) != maxInflight;
    StingyIsHonest(maxInflight);
    FillKeeps(v, pass.post);
    assert [pass, pass][1..] == [pass];
    assert RunFrom(r, [pass, pass]) == RunFrom(v, [pass]);
    assert RunFrom(v, [pass]) == (v, Failed);
  }

  lemma NewIsSound(numIovs: U64, maxInflight: U64, slots: nat)
    requires 1 <= maxInflight <= slots
    ensures Sound(New(numIovs, maxInflight, slots))
  {
    NothingCovered(New(numIovs, maxInflight, slots).pending);
  }

  ghost predicate Drains(r: Raw, passes: seq<Pass>) {
    RunFrom(r, passes).1 != Unfinished ==> RunFrom(r, passes).0.numInflight == 0
  }

  /** Every run that ends leaves nothing in flight, exactly if the vector fits into the window or a window is one element. */
  lemma DrainsIff(numIovs: U64, maxInflight: U64, slots: nat)
    requires 1 <= maxInflight <= slots
    ensures (forall passes :: AllHonest(passes) ==> Drains(New(numIovs, maxInflight, slots), passes))
       <==> numIovs <= maxInflight || maxInflight == 1
  {
    var r := New(numIovs, maxInflight, slots);
    NewIsSound(numIovs, maxInflight, slots);
    if numIovs <= maxInflight || maxInflight == 1 {
      forall passes | AllHonest(passes)
        ensures Drains(r, passes)
      {
        SmallRunsDrain(r, passes);
      }
    } else {
      var pass := Stingy(maxInflight);
      StingyIsHonest(maxInflight);
      StingyLeaves(numIovs, maxInflight, slots);
      assert AllHonest([pass, pass]) && !Drains(r, [pass, pass]);
    }
  }

  // ----- What a poll retires -----

  /** The elements covered by the waits from place `i` on that are in use and done. */
  function Finished(ps: seq<Pending>, poll: nat -> bool, i: nat): nat
    requires i <= |ps|
    decreases |ps| - i
  {
    if i == |ps| then 0 else (if ps[i].active && poll(i) then ps[i].count else 0) + Finished(ps, poll, i + 1)
  }

  lemma {:induction false} FinishedElsewhere(ps: seq<Pending>, poll: nat -> bool, i: nat, k: nat, p: Pending)
    requires k < i <= |ps|
    ensures Finished(ps[k := p], poll, i) == Finished(ps, poll, i)
    decreases |ps| - i
  {
    if i < |ps| {
      FinishedElsewhere(ps, poll, i + 1, k, p);
    }
  }

  /** A place after a poll that looks at the places from `i` on. */
  function Polled(p: Pending, poll: nat -> bool, i: nat, k: nat): Pending {
    if i <= k && p.active && poll(k) then Pending(0, false) else p
  }

  lemma Wraps(a: int, b: int, c: int)
    ensures ((a + b) % TWO64 + c) % TWO64 == (a + (b + c)) % TWO64
    ensures ((a - b) % TWO64 - c) % TWO64 == (a - (b + c)) % TWO64
  {
  }

  /**
   * For any transport: exactly the waits that are in use and done give up their places, all others stay as they are, and what
   * they cover moves from in flight to completed, in 64-bit arithmetic.
   */
  lemma {:induction false} PollRetires(r: Raw, poll: nat -> bool, i: nat)
    requires i <= |r.pending|
    ensures var u, n := PollFrom(r, poll, i), Finished(r.pending, poll, i);
      && |u.pending| == |r.pending|
      && (forall k :: 0 <= k < |r.pending| ==> u.pending[k] == Polled(r.pending[k], poll, i, k))
      && u.numCompleted == (r.numCompleted as int + n) % TWO64 && u.numInflight == (r.numInflight as int - n) % TWO64
      && u.nextIov == r.nextIov && u.numIovs == r.numIovs && u.maxInflight == r.maxInflight
    decreases |r.pending| - i
  {
    if i < |r.pending| {
      var v, n := PollOne(r, poll, i), if r.pending[i].active && poll(i) then r.pending[i].count else 0;
      PollOneRetires(r, poll, i);
      hide PollOne;
      PollRetires(v, poll, i + 1);
      Wraps(r.numCompleted, n, Finished(r.pending, poll, i + 1));
      Wraps(r.numInflight, n, Finished(r.pending, poll, i + 1));
    }
  }

  lemma PollOneRetires(r: Raw, poll: nat -> bool, i: nat)
    requires i < |r.pending|
    ensures var u, n := PollOne(r, poll, i), if r.pending[i].active && poll(i) then r.pending[i].count else 0;
      && u.pending == r.pending[i := Polled(r.pending[i], poll, i, i)]
      && u.numCompleted == (r.numCompleted as int + n) % TWO64 && u.numInflight == (r.numInflight as int - n) % TWO64
      && u.nextIov == r.nextIov && u.numIovs == r.numIovs && u.maxInflight == r.maxInflight
      && Finished(u.pending, poll, i + 1) == Finished(r.pending, poll, i + 1)
  {
    FinishedElsewhere(r.pending, poll, i + 1, i, Polled(r.pending[i], poll, i, i));
    hide Finished;
  }

  // ----- The loops -----

  class RawPipeline {
    const numIovs: U64
    const maxInflight: U64
    const pending: array<Pending>
    var nextIov: nat
    var numCompleted: U64
    var numInflight: U64

    ghost function View(): Raw
      reads this, pending
    {
      Raw(numIovs, maxInflight, pending[..], nextIov, numCompleted, numInflight)
    }

    constructor (numIovs: U64, maxInflight: U64, slots: nat)
      ensures View() == New(numIovs, maxInflight, slots) && fresh(pending)
    {
      this.numIovs, this.maxInflight := numIovs, maxInflight;
      pending := new Pending[slots](_ => Pending(0, false));
      nextIov, numCompleted, numInflight := 0, 0, 0;
      new;
      assert pending[..] == New(numIovs, maxInflight, slots).pending;
    }

    /** Put a wait into the first free place, if there is one. */
    method AddWait(count: nat) returns (inserted: bool)
      modifies pending
      ensures inserted == (FirstFree(old(pending[..])) < pending.Length)
      ensures inserted ==> pending[..] == old(pending[..])[FirstFree(old(pending[..])) := Pending(count, true)]
      ensures !inserted ==> pending[..] == old(pending[..])
    {
      var slot := 0;
      while slot < pending.Length && pending[slot].active
        invariant 0 <= slot <= pending.Length && forall i :: 0 <= i < slot ==> pending[i].active
      {
        slot := slot + 1;
      }
      ghost var was := pending[..];
      assert FirstFree(was) == slot;
      inserted := slot < pending.Length;
      if inserted {
        pending[slot] := Pending(count, true);
        assert pending[..] == was[slot := Pending(count, true)];
      }
    }

    /** Post as many elements as the window has room for. */
    method PostRawWindow(answer: Answer) returns (ok: bool)
      requires HasRoom(View())
      modifies `nextIov, `numInflight, pending
      ensures (View(), ok) == Post(old(View()), answer)
    {
      var batch := if maxInflight - numInflight <= numIovs - nextIov then maxInflight - numInflight else numIovs - nextIov;
      if answer.Refused? || answer.waits == [] {
        return false;
      }
      for i := 0 to |answer.waits|
        invariant numInflight == old(numInflight) && nextIov == old(nextIov)
        invariant Placed(pending[..], answer.waits[i..]) == Placed(old(pending[..]), answer.waits)
      {
        assert answer.waits[i..][1..] == answer.waits[i + 1..];
        var inserted := AddWait(answer.waits[i]);
        if !inserted {
          return false;
        }
      }
      nextIov := nextIov + batch;
      numInflight := numInflight + batch;
      return true;
    }

    /** Retire exactly the waits that are in use and done. */
    method PollWaits(poll: nat -> bool)
      modifies `numCompleted, `numInflight, pending
      ensures View() == PollFrom(old(View()), poll, 0)
      ensures forall k :: 0 <= k < pending.Length ==>
        pending[k] == if old(pending[k]).active && poll(k) then Pending(0, false) else old(pending[k])
      ensures numCompleted == (old(numCompleted) as int + Finished(old(pending[..]), poll, 0)) % TWO64
    {
      PollRetires(View(), poll, 0);
      for slot := 0 to pending.Length
        invariant nextIov == old(nextIov) && PollFrom(View(), poll, slot) == PollFrom(old(View()), poll, 0)
      {
        ghost var r := View();
        var p := pending[slot];
        if p.active && poll(slot) {
          var completed, inflight: int := numCompleted, numInflight;
          pending[slot] := Pending(0, false);
          numCompleted := (completed + p.count) % TWO64;
          numInflight := (inflight - p.count) % TWO64;
        }
        assert View() == PollOne(r, poll, slot);
      }
    }

    /** The whole operation over any number of passes. A refused batch ends it at once. */
    method Run(passes: seq<Pass>) returns (outcome: Outcome)
      modifies this, pending
      ensures (View(), outcome) == RunFrom(old(View()), passes)
    {
      var i := 0;
      assert passes[0..] == passes;
      while numCompleted < numIovs
        invariant 0 <= i <= |passes| && RunFrom(View(), passes[i..]) == RunFrom(old(View()), passes)
        decreases |passes| - i
      {
        if i == |passes| {
          return Unfinished;
        }
        ghost var r := View();
        assert passes[i..][0] == passes[i] && passes[i..][1..] == passes[i + 1..];
        while nextIov < numIovs && numInflight < maxInflight
          invariant FillWindow(View(), passes[i].post) == FillWindow(r, passes[i].post)
          decreases numIovs - nextIov
        {
          var batch := if maxInflight - numInflight <= numIovs - nextIov then maxInflight - numInflight else numIovs - nextIov;
          var posted := PostRawWindow(passes[i].post(batch));
          if !posted {
            return Failed;
          }
        }
        PollWaits(passes[i].poll);
        i := i + 1;
      }
      return Done;
    }
  }

  /**
   * A refused batch ends the call at once. For every vector that does not fit into a window of two or more, there are
   * passes of an honest transport after which all but one operation of a window are still in flight.
   */
  method FailureLeavesOperations(numIovs: U64, maxInflight: U64, slots: nat) returns (p: RawPipeline, outcome: Outcome)
    requires 2 <= maxInflight <= slots && maxInflight < numIovs
    ensures outcome == Failed && p.numInflight == maxInflight - 1
  {
    p := new RawPipeline(numIovs, maxInflight, slots);
    StingyLeaves(numIovs, maxInflight, slots);
    outcome := p.Run([Stingy(maxInflight), Stingy(maxInflight)]);
  }
}
