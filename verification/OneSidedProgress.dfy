/** A transport that takes every element and finishes every operation brings each run of the one-sided pipeline to its end. */
module OneSidedProgress {
  import opened OneSidedPipeline

  /** Every post is taken, and every operation is done, without failure, at the next poll. */
  ghost predicate Prompt(pass: Pass) {
    (forall n: nat :: pass.post(n) == Posted) && forall k: nat :: pass.poll(k) == Check(true, false)
  }

  ghost predicate AllPrompt(passes: seq<Pass>) {
    forall i :: 0 <= i < |passes| ==> Prompt(passes[i])
  }

  function Min(a: nat, b: nat): nat {
    if a <= b then a else b
  }

  lemma {:induction false} NoneCounted(active: seq<bool>)
    requires forall i :: 0 <= i < |active| ==> !active[i]
    ensures Count(active) == 0
  {
    if active != [] {
      NoneCounted(active[1..]);
    }
  }

  lemma PromptPoll(pass: Pass, active: seq<bool>)
    requires Prompt(pass)
    ensures Count(Polled(active, pass.poll, |active|)) == 0 && !FailureSeen(active, pass.poll, |active|)
  {
    NoneCounted(Polled(active, pass.poll, |active|));
  }

  lemma NoneFails(l: Limits, passes: seq<Pass>, polls: seq<seq<bool>>, counts: seq<nat>, i: nat)
    requires AllPrompt(passes) && i < |polls| == |counts| <= |passes|
    ensures !FailedIn(l, passes, polls, counts, i)
  {
    assert Prompt(passes[i]);
    PromptPoll(passes[i], polls[i]);
  }

  lemma NextWindow(i: nat, w: nat)
    ensures (i + 1) * w == i * w + w && i * w >= 0
  {
  }

  /** Each pass posts and completes a window, or what is left. */
  lemma {:induction false} PromptTrace(l: Limits, passes: seq<Pass>, polls: seq<seq<bool>>, counts: seq<nat>, i: nat)
    requires AllPrompt(passes) && Traced(l, passes, polls, counts) && i <= |polls|
    ensures Retired(passes, polls, i) == Min(l.numIovs, i * l.maxInflight)
    ensures i > 0 ==> counts[i - 1] == Min(l.numIovs, i * l.maxInflight)
  {
    hide *;
    TraceShape(l, passes, polls, counts);
    if i == 0 {
      NothingRetired(passes, polls);
      NoWindow(l.numIovs, l.maxInflight);
    } else {
      PromptTrace(l, passes, polls, counts, i - 1);
      FilledAt(l, passes, polls, counts, i - 1);
      AllRetired(passes, polls, i);
      NextWindow(i - 1, l.maxInflight);
      OneMore(l.numIovs, l.maxInflight, (i - 1) * l.maxInflight, i * l.maxInflight, Count(polls[i - 1]));
    }
  }

  lemma NoWindow(n: nat, w: nat)
    ensures Min(n, 0 * w) == 0
  {
  }

  lemma OneMore(n: nat, w: nat, a: nat, b: nat, c: nat)
    requires b == a + w && c <= w && Min(n, a) + c <= n && (Min(n, a) + c == n || c == w)
    ensures Min(n, a) + c == Min(n, b)
  {
  }

  lemma TraceShape(l: Limits, passes: seq<Pass>, polls: seq<seq<bool>>, counts: seq<nat>)
    requires Traced(l, passes, polls, counts)
    ensures |polls| == |counts| <= |passes|
  {
  }

  lemma NothingRetired(passes: seq<Pass>, polls: seq<seq<bool>>)
    requires |polls| <= |passes|
    ensures Retired(passes, polls, 0) == 0
  {
  }

  lemma AllRetired(passes: seq<Pass>, polls: seq<seq<bool>>, i: nat)
    requires AllPrompt(passes) && 0 < i <= |polls| <= |passes|
    ensures Retired(passes, polls, i) == Retired(passes, polls, i - 1) + Count(polls[i - 1])
  {
    assert Prompt(passes[i - 1]);
    PromptPoll(passes[i - 1], polls[i - 1]);
    hide Count, Polled, Prompt;
  }

  lemma FilledAt(l: Limits, passes: seq<Pass>, polls: seq<seq<bool>>, counts: seq<nat>, i: nat)
    requires AllPrompt(passes) && Traced(l, passes, polls, counts) && i < |polls|
    ensures counts[i] == Count(polls[i]) + Retired(passes, polls, i) <= l.numIovs && Count(polls[i]) <= l.maxInflight
    ensures counts[i] == l.numIovs || Count(polls[i]) == l.maxInflight
  {
    hide Count, Retired, FailedIn, Stops;
    forall j | 0 <= j < i
      ensures !FailedIn(l, passes, polls, counts, j)
    {
      NoneFails(l, passes, polls, counts, j);
    }
    assert Filled(l, passes[i].post, Count(polls[i]), counts[i]);
    assert Prompt(passes[i]);
  }

  /** A new pipeline run by such a transport succeeds after exactly as many passes as windows are needed for the vector. */
  method PromptTransfer(numIovs: nat, maxInflight: nat, slots: nat, cxi: bool, passes: seq<Pass>)
    returns (p: Pipeline, finished: bool, ok: bool)
    requires 1 <= maxInflight <= slots && AllPrompt(passes)
    ensures (finished <==> |passes| * maxInflight >= numIovs) && (finished <==> ok)
    ensures p.numCompleted == Min(numIovs, |passes| * maxInflight)
  {
    hide Traced, AllPrompt, Retired, SawFailure, Count, Sound, InSequence;
    p := new Pipeline(numIovs, maxInflight, slots, cxi);
    ghost var polls, counts;
    finished, ok, polls, counts := p.Run(passes);
    Ends(p.Bounds(), passes, polls, counts);
    MoreWindows(|polls|, |passes|, maxInflight);
  }

  lemma MoreWindows(a: nat, b: nat, w: nat)
    ensures a <= b ==> a * w <= b * w
  {
    if a <= b {
      assert b * w == a * w + (b - a) * w;
    }
  }

  /** Nothing has failed, and all that was posted is completed. */
  lemma Ends(l: Limits, passes: seq<Pass>, polls: seq<seq<bool>>, counts: seq<nat>)
    requires AllPrompt(passes) && Traced(l, passes, polls, counts)
    ensures |polls| == |counts| <= |passes| && !SawFailure(l, passes, polls, counts)
    ensures var n := Min(l.numIovs, |polls| * l.maxInflight);
      Retired(passes, polls, |polls|) == n && (if counts == [] then 0 else counts[|counts| - 1]) == n
  {
    TraceShape(l, passes, polls, counts);
    hide FailedIn, Retired, AllPrompt, Traced;
    PromptTrace(l, passes, polls, counts, |polls|);
    forall i | 0 <= i < |polls|
      ensures !FailedIn(l, passes, polls, counts, i)
    {
      NoneFails(l, passes, polls, counts, i);
    }
  }
}
