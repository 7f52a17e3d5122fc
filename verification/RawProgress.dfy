/** A transport that takes every batch and keeps finishing waits brings every run of the batched pipeline to its end. */
module RawProgress {
  import opened RawPipeline

  // ----- Polling with an honest transport -----

  /** The elements covered from place `i` on. */
  lemma {:induction false} FinishedWithinCovered(ps: seq<Pending>, poll: nat -> bool, i: nat)
    requires i <= |ps|
    ensures Finished(ps, poll, i) <= Covered(ps[i..])
    ensures (forall k :: i <= k < |ps| && ps[k].active ==> poll(k)) ==> Finished(ps, poll, i) == Covered(ps[i..])
    ensures forall k :: i <= k < |ps| && ps[k].active && poll(k) ==> Finished(ps, poll, i) >= ps[k].count
    decreases |ps| - i
  {
    if i < |ps| {
      assert ps[i..][0] == ps[i] && ps[i..][1..] == ps[i + 1..];
      FinishedWithinCovered(ps, poll, i + 1);
    }
  }

  /** With an honest transport nothing wraps around, and if every wait in use is done, nothing stays in flight. */
  lemma PollCompletes(r: Raw, poll: nat -> bool)
    requires Sound(r)
    ensures var u, n := PollFrom(r, poll, 0), Finished(r.pending, poll, 0);
      && Sound(u) && u.numCompleted == r.numCompleted + n && u.numInflight == r.numInflight - n
      && u.numIovs == r.numIovs && u.maxInflight == r.maxInflight && u.nextIov == r.nextIov
      && ((forall k :: 0 <= k < |r.pending| && r.pending[k].active ==> poll(k)) ==> u.numInflight == 0)
      && forall k :: 0 <= k < |r.pending| && r.pending[k].active && poll(k) ==> n >= 1
  {
    hide PollFrom, Finished, Covered, NoneEmpty, Polled;
    FinishedOfAll(r.pending, poll);
    PollRetires(r, poll, 0);
    PollKeeps(r, poll, 0);
    Unwrapped(r.numCompleted, r.numInflight, Finished(r.pending, poll, 0));
    EachCovers(r);
  }

  lemma FinishedOfAll(ps: seq<Pending>, poll: nat -> bool)
    ensures Finished(ps, poll, 0) <= Covered(ps)
    ensures (forall k :: 0 <= k < |ps| && ps[k].active ==> poll(k)) ==> Finished(ps, poll, 0) == Covered(ps)
    ensures forall k :: 0 <= k < |ps| && ps[k].active && poll(k) ==> Finished(ps, poll, 0) >= ps[k].count
  {
    hide Finished, Covered;
    assert ps[0..] == ps;
    FinishedWithinCovered(ps, poll, 0);
  }

  lemma Unwrapped(completed: U64, inflight: U64, n: nat)
    requires n <= inflight && completed + inflight < TWO64
    ensures (completed as int + n) % TWO64 == completed + n && (inflight as int - n) % TWO64 == inflight - n
  {
  }

  lemma EachCovers(r: Raw)
    requires Sound(r)
    ensures forall k :: 0 <= k < |r.pending| && r.pending[k].active ==> r.pending[k].count >= 1
  {
  }

  // ----- Progress -----

  /** The transport takes every batch. */
  ghost predicate Accepts(post: nat -> Answer) {
    Honest(post) && forall batch: nat :: batch > 0 ==> post(batch).Accepted?
  }

  /** It also reports every wait done at once. */
  ghost predicate Prompt(pass: Pass) {
    Accepts(pass.post) && forall k: nat :: pass.poll(k)
  }

  function Min(a: nat, b: nat): nat {
    if a <= b then a else b
  }

  /** The state after the window is filled. */
  lemma FillFills(r: Raw, post: nat -> Answer)
    requires Sound(r) && Accepts(post) && r.numCompleted < r.numIovs
    ensures var (u, ok) := FillWindow(r, post);
      && ok && Sound(u) && u.numCompleted == r.numCompleted && u.numIovs == r.numIovs && u.maxInflight == r.maxInflight
      && 1 <= u.numInflight == Min(r.maxInflight, r.numIovs - r.numCompleted)
  {
    hide FillWindow, Honest, Post;
    FillKeeps(r, post);
  }

  /** One pass of a prompt transport completes a window, or what is left. */
  lemma PromptPass(r: Raw, pass: Pass)
    requires Sound(r) && Prompt(pass) && r.numCompleted < r.numIovs
    ensures var (u, ok) := FillWindow(r, pass.post);
      var v := PollFrom(u, pass.poll, 0);
      && ok && Sound(v) && v.numIovs == r.numIovs && v.maxInflight == r.maxInflight
      && v.numCompleted == Min(r.numIovs, r.numCompleted + r.maxInflight)
  {
    hide FillWindow, PollFrom, Sound, Accepts, Finished;
    FillFills(r, pass.post);
    PollCompletes(FillWindow(r, pass.post).0, pass.poll);
  }

  /**
   * With a transport that takes every batch and reports every wait done at the next poll, each pass completes a window: the run
   * is done after exactly as many passes as windows are needed for the vector.
   */
  lemma {:induction false} PromptRunEnds(r: Raw, passes: seq<Pass>)
    requires Sound(r) && forall i :: 0 <= i < |passes| ==> Prompt(passes[i])
    ensures var (u, outcome) := RunFrom(r, passes);
      && u.numCompleted == Min(r.numIovs, r.numCompleted + |passes| * r.maxInflight)
      && outcome == if r.numCompleted + |passes| * r.maxInflight >= r.numIovs then Done else Unfinished
    decreases |passes|
  {
    var w := r.maxInflight;
    CompletedAtMost(r);
    if r.numCompleted < r.numIovs && passes != [] {
      var pass := passes[0];
      PromptPass(r, pass);
      var v := PollFrom(FillWindow(r, pass.post).0, pass.poll, 0);
      hide Sound, FillWindow, PollFrom, Prompt;
      PromptRunEnds(v, passes[1..]);
      assert |passes| * w == w + (|passes| - 1) * w;
    } else {
      assert |passes| * w >= 0;
    }
  }

  lemma CompletedAtMost(r: Raw)
    requires Sound(r)
    ensures r.numCompleted <= r.numIovs && r.maxInflight >= 1
  {
  }

  /** Every pass takes all batches, and reports at least one wait done that is in use then. */
  ghost predicate Steady(r: Raw, passes: seq<Pass>)
    decreases |passes|
  {
    r.numCompleted >= r.numIovs || passes == []
    || (Accepts(passes[0].post)
        && var u := FillWindow(r, passes[0].post).0;
           (exists k :: 0 <= k < |u.pending| && u.pending[k].active && passes[0].poll(k))
           && Steady(PollFrom(u, passes[0].poll, 0), passes[1..]))
  }

  /** With a transport that takes every batch and has finished some wait at every poll, one pass for each element is enough. */
  lemma {:induction false} SteadyRunEnds(r: Raw, passes: seq<Pass>)
    requires Sound(r) && Steady(r, passes) && r.numCompleted + |passes| >= r.numIovs
    ensures RunFrom(r, passes).1 == Done
    decreases |passes|
  {
    CompletedAtMost(r);
    if r.numCompleted < r.numIovs {
      var u := FillWindow(r, passes[0].post).0;
      hide Sound, FillWindow, PollFrom, Accepts, Finished;
      FillFills(r, passes[0].post);
      PollCompletes(u, passes[0].poll);
      SteadyRunEnds(PollFrom(u, passes[0].poll, 0), passes[1..]);
    }
  }

  /** The objects: a new pipeline run by a prompt transport. */
  method PromptRun(numIovs: U64, maxInflight: U64, slots: nat, passes: seq<Pass>) returns (p: RawPipeline, outcome: Outcome)
    requires 1 <= maxInflight <= slots && forall i :: 0 <= i < |passes| ==> Prompt(passes[i])
    ensures outcome == if |passes| * maxInflight >= numIovs then Done else Unfinished
    ensures p.numCompleted == Min(numIovs, |passes| * maxInflight)
  {
    hide Prompt, Sound, RunFrom;
    p := new RawPipeline(numIovs, maxInflight, slots);
    NewIsSound(numIovs, maxInflight, slots);
    PromptRunEnds(p.View(), passes);
    outcome := p.Run(passes);
  }
}
