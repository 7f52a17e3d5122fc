/**
 * Posting a vector of one-sided reads or writes through a window of slots. What the transport answers, to a post and to a
 * poll, is an input; everything below holds whatever it answers.
 */
module OneSidedPipeline {
  /** The answer to a post: accepted, refused for now, or refused for good. */
  datatype Rc = Posted | Transient | Fatal

  /** The answer to a poll of a slot. */
  datatype Check = Check(done: bool, failed: bool)

  /** One pass of the outer loop: the answers to its posts, by the number of the vector element, and to its polls, by slot. */
  datatype Pass = Pass(post: nat -> Rc, poll: nat -> Check)

  function Count(active: seq<bool>): nat {
    if active == [] then 0 else (if active[0] then 1 else 0) + Count(active[1..])
  }

  lemma {:induction false} CountUpdate(active: seq<bool>, i: nat, b: bool)
    requires i < |active|
    ensures Count(active[i := b]) == Count(active) - (if active[i] then 1 else 0) + (if b then 1 else 0)
    decreases i
  {
    if i == 0 {
      assert active[i := b][1..] == active[1..];
    } else {
      assert active[i := b][1..] == active[1..][i - 1 := b];
      CountUpdate(active[1..], i - 1, b);
    }
  }

  lemma {:induction false} NothingActive(active: seq<bool>)
    requires forall i :: 0 <= i < |active| ==> !active[i]
    ensures Count(active) == 0
  {
    if active != [] {
      NothingActive(active[1..]);
    }
  }

  lemma {:induction false} HasFree(active: seq<bool>) returns (i: nat)
    requires Count(active) < |active|
    ensures i < |active| && !active[i]
  {
    if active[0] {
      i := HasFree(active[1..]);
      i := i + 1;
    } else {
      i := 0;
    }
  }

  lemma {:induction false} SomeActive(active: seq<bool>, i: nat)
    requires i < |active| && active[i]
    ensures Count(active) > 0
    decreases i
  {
    if i > 0 {
      SomeActive(active[1..], i - 1);
    }
  }

  /** Elements `0..next` were posted; each is in one active slot or done, and nowhere twice. */
  ghost predicate Sound(next: nat, active: seq<bool>, iovs: seq<nat>, done: seq<nat>) {
    && |iovs| == |active|
    && next == |done| + Count(active)
    && (forall i :: 0 <= i < |active| && active[i] ==> iovs[i] < next && iovs[i] !in done)
    && (forall i, j :: 0 <= i < j < |active| && active[i] && active[j] ==> iovs[i] != iovs[j])
    && (forall k :: 0 <= k < |done| ==> done[k] < next)
    && (forall k, l :: 0 <= k < l < |done| ==> done[k] != done[l])
    && (forall n :: 0 <= n < next ==> n in done || InSlot(active, iovs, n))
  }

  ghost predicate InSlot(active: seq<bool>, iovs: seq<nat>, n: nat)
    requires |iovs| == |active|
  {
    exists i :: 0 <= i < |active| && active[i] && iovs[i] == n
  }

  /** Exactly the elements before `next`, in order. */
  ghost predicate InSequence(posted: seq<nat>, next: nat) {
    |posted| == next && forall i :: 0 <= i < next ==> posted[i] == i
  }

  lemma PostKeeps(next: nat, active: seq<bool>, iovs: seq<nat>, done: seq<nat>, slot: nat)
    requires Sound(next, active, iovs, done) && slot < |active| && !active[slot]
    ensures slot < |iovs| && Sound(next + 1, active[slot := true], iovs[slot := next], done)
  {
    CountUpdate(active, slot, true);
    var a, v := active[slot := true], iovs[slot := next];
    forall n | 0 <= n < next + 1
      ensures n in done || InSlot(a, v, n)
    {
      if n == next {
        assert a[slot] && v[slot] == n;
      } else if n !in done {
        var i :| 0 <= i < |active| && active[i] && iovs[i] == n;
        assert a[i] && v[i] == n;
      }
    }
  }

  lemma CompleteKeeps(next: nat, active: seq<bool>, iovs: seq<nat>, done: seq<nat>, slot: nat)
    requires Sound(next, active, iovs, done) && slot < |active| && active[slot]
    ensures slot < |iovs| && Sound(next, active[slot := false], iovs, done + [iovs[slot]])
  {
    CountUpdate(active, slot, false);
    var a, d := active[slot := false], done + [iovs[slot]];
    forall n | 0 <= n < next
      ensures n in d || InSlot(a, iovs, n)
    {
      if n in done {
        assert n in d;
      } else {
        var i :| 0 <= i < |active| && active[i] && iovs[i] == n;
        if i != slot {
          assert a[i];
        } else {
          assert d[|done|] == n;
        }
      }
    }
  }

  class Pipeline {
    const numIovs: nat
    const maxInflight: nat
    const cxi: bool
    const active: array<bool>
    var nextIov: nat
    var numCompleted: nat
    var numInflight: nat
    var anyFailed: bool
    ghost var iovs: seq<nat>      // the element each slot holds or held last
    ghost var done: seq<nat>      // the elements that completed, in that order
    ghost var posted: seq<nat>    // the elements posted, in that order

    ghost function Bounds(): Limits {
      Limits(numIovs, maxInflight, cxi)
    }

    ghost predicate Valid()
      reads this, active
    {
      && 1 <= maxInflight <= active.Length && numInflight <= maxInflight && nextIov <= numIovs
      && numCompleted == |done| && numInflight == Count(active[..]) && nextIov == numCompleted + numInflight
      && Sound(nextIov, active[..], iovs, done)
      && InSequence(posted, nextIov)
    }

    constructor (numIovs: nat, maxInflight: nat, slots: nat, cxi: bool)
      requires 1 <= maxInflight <= slots
      ensures Valid() && this.numIovs == numIovs && this.maxInflight == maxInflight && this.cxi == cxi
      ensures active.Length == slots && fresh(active) && nextIov == numCompleted == numInflight == 0 && !anyFailed
    {
      this.numIovs, this.maxInflight, this.cxi := numIovs, maxInflight, cxi;
      active := new bool[slots](_ => false);
      nextIov, numCompleted, numInflight, anyFailed := 0, 0, 0, false;
      iovs, done, posted := seq(slots, _ => 0), [], [];
      new;
      NothingActive(active[..]);
    }

    /** With fewer operations in flight than slots there is a free slot. */
    method FindFreeSlot() returns (slot: nat)
      requires Count(active[..]) < active.Length
      ensures slot < active.Length && !active[slot]
    {
      ghost var free := HasFree(active[..]);
      slot := 0;
      while slot < active.Length && active[slot]
        invariant slot <= free < active.Length && !active[free]
      {
        slot := slot + 1;
      }
    }

    /** Put the next element into a free slot. */
    method PostInto(slot: nat)
      requires Valid() && slot < active.Length && !active[slot] && nextIov < numIovs && numInflight < maxInflight && !anyFailed
      modifies `iovs, `posted, `nextIov, `numInflight, active
      ensures Valid() && nextIov == old(nextIov) + 1
    {
      hide Sound;
      ghost var was := active[..];
      PostKeeps(nextIov, was, iovs, done, slot);
      CountUpdate(was, slot, true);
      active[slot] := true;
      assert active[..] == was[slot := true];
      iovs := iovs[slot := nextIov];
      posted := posted + [nextIov];
      nextIov := nextIov + 1;
      numInflight := numInflight + 1;
    }

    /** Post elements in order until the window is full, nothing is left, or the transport refuses. */
    method PostWindow(post: nat -> Rc)
      requires Valid()
      modifies `iovs, `posted, `nextIov, `numInflight, `anyFailed, active
      ensures Valid() && nextIov >= old(nextIov)
      ensures old(anyFailed) ==> nextIov == old(nextIov) && anyFailed
      ensures !old(anyFailed) ==> (anyFailed <==> FatalAsked(Bounds(), post, numInflight, nextIov))
      ensures !anyFailed ==> nextIov == numIovs || numInflight == maxInflight || post(nextIov) == Transient
    {
      hide Sound, Count, InSequence;
      while !anyFailed && nextIov < numIovs && numInflight < maxInflight
        invariant Valid() && nextIov >= old(nextIov)
        invariant old(anyFailed) ==> nextIov == old(nextIov) && anyFailed
        invariant anyFailed && !old(anyFailed) ==> FatalAsked(Bounds(), post, numInflight, nextIov)
        decreases numIovs - nextIov, !anyFailed
      {
        var slot := FindFreeSlot();
        var rc := post(nextIov);
        if rc == Transient {
          break;
        }
        if cxi && rc == Fatal {
          anyFailed := true;
        } else {
          PostInto(slot);
        }
      }
    }

    /** A slot's operation is done. */
    method Complete(slot: nat, failed: bool)
      requires Valid() && slot < active.Length && active[slot]
      modifies `numCompleted, `numInflight, `anyFailed, `done, active
      ensures Valid() && old(done) < done && |done| == |old(done)| + 1
      ensures active[..] == old(active[..])[slot := false] && anyFailed == (old(anyFailed) || failed)
    {
      hide Sound;
      ghost var was := active[..];
      CompleteKeeps(nextIov, was, iovs, done, slot);
      CountUpdate(was, slot, false);
      SomeActive(was, slot);
      active[slot] := false;
      assert active[..] == was[slot := false];
      done := done + [iovs[slot]];
      numCompleted := numCompleted + 1;
      numInflight := numInflight - 1;
      if failed {
        anyFailed := true;
      }
    }

    /** Poll every active slot once. A completion that reports a failure is remembered. */
    method PollSlots(poll: nat -> Check)
      requires Valid()
      modifies `numCompleted, `numInflight, `anyFailed, `done, active
      ensures Valid() && old(done) <= done
      ensures active[..] == Polled(old(active[..]), poll, active.Length)
      ensures anyFailed == (old(anyFailed) || FailureSeen(old(active[..]), poll, active.Length))
    {
      hide Sound, Count, InSequence;
      ghost var was := active[..];
      assert Polled(was, poll, 0) == was;
      for slot := 0 to active.Length
        invariant Valid() && old(done) <= done
        invariant active[..] == Polled(was, poll, slot)
        invariant anyFailed == (old(anyFailed) || FailureSeen(was, poll, slot))
      {
        PolledStep(was, poll, slot);
        assert active[slot] == active[..][slot];
        if active[slot] && poll(slot).done {
          Complete(slot, poll(slot).failed);
        }
      }
    }

    /** Post, then poll; `polled` is what was active in between. */
    method OnePass(pass: Pass) returns (ghost polled: seq<bool>)
      requires Valid()
      modifies this, active
      ensures Valid() && old(nextIov) <= nextIov && (old(anyFailed) ==> nextIov == old(nextIov))
      ensures nextIov == old(numCompleted) + Count(polled) <= numIovs && Count(polled) <= maxInflight
      ensures old(anyFailed) || Filled(Bounds(), pass.post, Count(polled), nextIov)
      ensures numCompleted == old(numCompleted) + Count(polled) - Count(Polled(polled, pass.poll, |polled|))
      ensures anyFailed <==> old(anyFailed) || FatalAsked(Bounds(), pass.post, Count(polled), nextIov)
                             || FailureSeen(polled, pass.poll, |polled|)
    {
      hide Sound, Count, FatalAsked, FailureSeen, Polled;
      PostWindow(pass.post);
      polled := active[..];
      PollSlots(pass.poll);
    }

    /**
     * The whole operation over any number of passes. If it returns, nothing is in flight, and it reports success exactly
     * if no pass saw a failure; then every element was posted once, in order, and completed. `polls` is what was active
     * when each pass polled, `counts` how many elements had been posted by then: until a failure the window is filled at each
     * pass as far as the transport takes elements, and after one nothing more is posted.
     */
    method Run(passes: seq<Pass>) returns (finished: bool, ok: bool, ghost polls: seq<seq<bool>>, ghost counts: seq<nat>)
      requires Valid() && nextIov == 0 && !anyFailed
      modifies this, active
      ensures Valid() && Traced(Bounds(), passes, polls, counts)
      ensures nextIov == (if counts == [] then 0 else counts[|counts| - 1]) && numCompleted == Retired(passes, polls, |polls|)
      ensures finished ==> numInflight == 0 && (forall i :: 0 <= i < active.Length ==> !active[i])
      ensures finished ==> (ok <==> !SawFailure(Bounds(), passes, polls, counts))
      ensures finished && ok ==> nextIov == numCompleted == numIovs && InSequence(posted, numIovs)
      ensures !finished ==> !ok && |polls| == |passes|
      ensures !finished ==> numInflight > 0 || (nextIov < numIovs && !SawFailure(Bounds(), passes, polls, counts))
    {
      polls, counts := [], [];
      NothingTraced(Bounds(), passes);
      hide Sound, Count, FatalAsked, FailureSeen, Polled, Retired, SawFailure, FailedIn, Accounted, Stops, Fills, Filled;
      var i := 0;
      while numInflight > 0 || (nextIov < numIovs && !anyFailed)
        invariant i == |polls| && Valid() && Traced(Bounds(), passes, polls, counts)
        invariant nextIov == (if counts == [] then 0 else counts[i - 1]) && numCompleted == Retired(passes, polls, i)
        invariant anyFailed <==> SawFailure(Bounds(), passes, polls, counts)
        decreases |passes| - i
      {
        if i == |passes| {
          return false, false, polls, counts;
        }
        ghost var a, c := polls, counts;
        ghost var polled := OnePass(passes[i]);
        TraceGrows(Bounds(), passes, a, c, polled, nextIov);
        polls, counts := a + [polled], c + [nextIov];
        i := i + 1;
      }
      NoneActive(active[..]);
      return true, !anyFailed, polls, counts;
    }
  }

  /** The size of the vector, the window, and whether the transport is CXI. */
  datatype Limits = Limits(numIovs: nat, maxInflight: nat, cxi: bool)

  /** With `count` elements posted and `inflight` in flight, does the CXI transport refuse the next one for good? */
  predicate FatalAsked(l: Limits, post: nat -> Rc, inflight: nat, count: nat) {
    l.cxi && count < l.numIovs && inflight < l.maxInflight && post(count) == Fatal
  }

  /** Everything is posted, or the window is full, or the transport refuses the next element, for now or for good. */
  predicate Filled(l: Limits, post: nat -> Rc, inflight: nat, count: nat) {
    count >= l.numIovs || inflight >= l.maxInflight || post(count) == Transient || FatalAsked(l, post, inflight, count)
  }

  /**
   * Was a failure seen in pass `i`, at the last post asked for or at a completion? `polls` is what was active when each
   * pass polled, `counts` how many elements had been posted by then.
   */
  ghost predicate FailedIn(l: Limits, passes: seq<Pass>, polls: seq<seq<bool>>, counts: seq<nat>, i: nat)
    requires i < |polls| == |counts| <= |passes|
  {
    FatalAsked(l, passes[i].post, Count(polls[i]), counts[i]) || FailureSeen(polls[i], passes[i].poll, |polls[i]|)
  }

  ghost predicate SawFailure(l: Limits, passes: seq<Pass>, polls: seq<seq<bool>>, counts: seq<nat>)
    requires |polls| == |counts| <= |passes|
  {
    exists i :: 0 <= i < |polls| && FailedIn(l, passes, polls, counts, i)
  }

  /** At every poll the elements posted are those in flight and those retired before; their number never falls. */
  ghost predicate Accounted(passes: seq<Pass>, polls: seq<seq<bool>>, counts: seq<nat>)
    requires |polls| == |counts| <= |passes|
  {
    && (forall i :: 0 <= i < |counts| ==> counts[i] == Count(polls[i]) + Retired(passes, polls, i))
    && (forall i, j :: 0 <= i < j < |counts| ==> counts[i] <= counts[j])
  }

  /** From the first pass that saw a failure on, nothing more is posted. */
  ghost predicate Stops(l: Limits, passes: seq<Pass>, polls: seq<seq<bool>>, counts: seq<nat>)
    requires |polls| == |counts| <= |passes|
  {
    forall i, j :: 0 <= i < j < |counts| && FailedIn(l, passes, polls, counts, i) ==> counts[j] == counts[i]
  }

  /** Never more than a window or than the vector, and until a failure no less than the transport takes. */
  ghost predicate Fills(l: Limits, passes: seq<Pass>, polls: seq<seq<bool>>, counts: seq<nat>)
    requires |polls| == |counts| <= |passes|
  {
    && (forall i :: 0 <= i < |counts| ==> Count(polls[i]) <= l.maxInflight && counts[i] <= l.numIovs)
    && forall i :: 0 <= i < |counts| && !Filled(l, passes[i].post, Count(polls[i]), counts[i]) ==>
         exists j :: 0 <= j < i && FailedIn(l, passes, polls, counts, j)
  }

  ghost predicate Traced(l: Limits, passes: seq<Pass>, polls: seq<seq<bool>>, counts: seq<nat>) {
    && |polls| == |counts| <= |passes|
    && Accounted(passes, polls, counts) && Stops(l, passes, polls, counts) && Fills(l, passes, polls, counts)
  }

  lemma NothingTraced(l: Limits, passes: seq<Pass>)
    ensures Traced(l, passes, [], []) && !SawFailure(l, passes, [], []) && Retired(passes, [], 0) == 0
  {
  }

  /** One more pass. */
  lemma TraceGrows(l: Limits, passes: seq<Pass>, polls: seq<seq<bool>>, counts: seq<nat>, active: seq<bool>, count: nat)
    requires Traced(l, passes, polls, counts) && |polls| < |passes|
    requires count == Count(active) + Retired(passes, polls, |polls|)
    requires counts != [] ==> counts[|counts| - 1] <= count
    requires counts != [] && SawFailure(l, passes, polls, counts) ==> counts[|counts| - 1] == count
    requires Count(active) <= l.maxInflight && count <= l.numIovs
    requires SawFailure(l, passes, polls, counts) || Filled(l, passes[|polls|].post, Count(active), count)
    ensures Traced(l, passes, polls + [active], counts + [count])
    ensures SawFailure(l, passes, polls + [active], counts + [count])
       <==> SawFailure(l, passes, polls, counts) || FatalAsked(l, passes[|polls|].post, Count(active), count)
            || FailureSeen(active, passes[|polls|].poll, |active|)
    ensures Retired(passes, polls + [active], |polls| + 1)
         == Retired(passes, polls, |polls|) + Count(active) - Count(Polled(active, passes[|polls|].poll, |active|))
  {
    RetiredSame(passes, polls, polls + [active], |polls|);
    hide Count, FatalAsked, FailureSeen, Stops, Accounted, SawFailure, Retired, Polled, Fills, Filled;
    StillFilled(l, passes, polls, counts, active, count);
    StillAccounted(passes, polls, counts, active, count);
    FailuresGrow(l, passes, polls, counts, active, count);
    StillStopped(l, passes, polls, counts, active, count);
  }

  lemma StillAccounted(passes: seq<Pass>, polls: seq<seq<bool>>, counts: seq<nat>, active: seq<bool>, count: nat)
    requires |polls| == |counts| < |passes| && Accounted(passes, polls, counts)
    requires count == Count(active) + Retired(passes, polls, |polls|)
    requires counts != [] ==> counts[|counts| - 1] <= count
    ensures Accounted(passes, polls + [active], counts + [count])
  {
    hide Count, Retired;
    var b := polls + [active];
    forall i | 0 <= i <= |polls|
      ensures Retired(passes, b, i) == Retired(passes, polls, i)
    {
      RetiredSame(passes, polls, b, i);
    }
  }

  lemma SameFailure(l: Limits, passes: seq<Pass>, a: seq<seq<bool>>, c: seq<nat>, b: seq<seq<bool>>, d: seq<nat>, i: nat)
    requires i < |a| == |c| && |b| == |d| <= |passes| && a <= b && c <= d
    ensures FailedIn(l, passes, a, c, i) == FailedIn(l, passes, b, d, i)
  {
  }

  lemma FailuresGrow(l: Limits, passes: seq<Pass>, polls: seq<seq<bool>>, counts: seq<nat>, active: seq<bool>, count: nat)
    requires |polls| == |counts| < |passes|
    ensures SawFailure(l, passes, polls + [active], counts + [count])
       <==> SawFailure(l, passes, polls, counts) || FatalAsked(l, passes[|polls|].post, Count(active), count)
            || FailureSeen(active, passes[|polls|].poll, |active|)
  {
    hide Count, FatalAsked, FailureSeen;
    var b, d, n := polls + [active], counts + [count], |polls|;
    assert FailedIn(l, passes, b, d, n)
      <==> FatalAsked(l, passes[n].post, Count(active), count) || FailureSeen(active, passes[n].poll, |active|);
    hide FailedIn;
    forall i | 0 <= i < n
      ensures FailedIn(l, passes, polls, counts, i) == FailedIn(l, passes, b, d, i)
    {
      SameFailure(l, passes, polls, counts, b, d, i);
    }
  }

  lemma StillFilled(l: Limits, passes: seq<Pass>, polls: seq<seq<bool>>, counts: seq<nat>, active: seq<bool>, count: nat)
    requires |polls| == |counts| < |passes| && Fills(l, passes, polls, counts)
    requires Count(active) <= l.maxInflight && count <= l.numIovs
    requires SawFailure(l, passes, polls, counts) || Filled(l, passes[|polls|].post, Count(active), count)
    ensures Fills(l, passes, polls + [active], counts + [count])
  {
    hide FailedIn, Filled, Count;
    var b, d, n := polls + [active], counts + [count], |polls|;
    forall i | 0 <= i < |d| && !Filled(l, passes[i].post, Count(b[i]), d[i])
      ensures exists j :: 0 <= j < i && FailedIn(l, passes, b, d, j)
    {
      var j :| 0 <= j < i && FailedIn(l, passes, polls, counts, j);
      SameFailure(l, passes, polls, counts, b, d, j);
    }
  }

  lemma StillStopped(l: Limits, passes: seq<Pass>, polls: seq<seq<bool>>, counts: seq<nat>, active: seq<bool>, count: nat)
    requires |polls| == |counts| < |passes| && Stops(l, passes, polls, counts)
    requires counts != [] && SawFailure(l, passes, polls, counts) ==> counts[|counts| - 1] == count
    ensures Stops(l, passes, polls + [active], counts + [count])
  {
    hide FailedIn;
    var b, d, n := polls + [active], counts + [count], |polls|;
    forall i, j | 0 <= i < j < |d| && FailedIn(l, passes, b, d, i)
      ensures d[j] == d[i]
    {
      SameFailure(l, passes, polls, counts, b, d, i);
      if j < n {
        assert counts[j] == counts[i];
      } else {
        assert i < n - 1 ==> counts[n - 1] == counts[i];
      }
    }
  }

  /** How many operations were retired in the first `n` passes. */
  ghost function Retired(passes: seq<Pass>, polls: seq<seq<bool>>, n: nat): int
    requires n <= |polls| <= |passes|
  {
    if n == 0 then 0
    else
      var was := polls[n - 1];
      Retired(passes, polls, n - 1) + Count(was) - Count(Polled(was, passes[n - 1].poll, |was|))
  }

  lemma {:induction false} RetiredSame(passes: seq<Pass>, a: seq<seq<bool>>, b: seq<seq<bool>>, n: nat)
    requires a <= b && |b| <= |passes| && n <= |a|
    ensures Retired(passes, a, n) == Retired(passes, b, n)
    decreases n
  {
    if n > 0 {
      RetiredSame(passes, a, b, n - 1);
    }
  }

  /** The slots after the first `n` were polled. */
  ghost function Polled(active: seq<bool>, poll: nat -> Check, n: nat): seq<bool>
    requires n <= |active|
  {
    seq(|active|, i requires 0 <= i < |active| => active[i] && !(i < n && poll(i).done))
  }

  /** Did one of the first `n` slots complete with a failure? */
  ghost predicate FailureSeen(active: seq<bool>, poll: nat -> Check, n: nat)
    requires n <= |active|
  {
    exists i :: 0 <= i < n && active[i] && poll(i).done && poll(i).failed
  }

  lemma PolledStep(active: seq<bool>, poll: nat -> Check, n: nat)
    requires n < |active|
    ensures Polled(active, poll, n)[n] == active[n]
    ensures Polled(active, poll, n + 1)
         == if active[n] && poll(n).done then Polled(active, poll, n)[n := false] else Polled(active, poll, n)
    ensures FailureSeen(active, poll, n + 1)
        <==> FailureSeen(active, poll, n) || (active[n] && poll(n).done && poll(n).failed)
  {
    if FailureSeen(active, poll, n) {
      var i :| 0 <= i < n && active[i] && poll(i).done && poll(i).failed;
      assert i < n + 1;
    }
  }

  lemma NoneActive(active: seq<bool>)
    requires Count(active) == 0
    ensures forall i :: 0 <= i < |active| ==> !active[i]
  {
    forall i | 0 <= i < |active| && active[i]
      ensures false
    {
      SomeActive(active, i);
    }
  }
}
