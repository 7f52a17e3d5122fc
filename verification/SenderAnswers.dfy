/** Exactly what an acknowledgement makes the sender do, by its kind and by the number of duplicates before it. */
module SenderAnswers {
  import opened SerialNumbers
  import opened Messages
  import opened SackBitmap
  import opened Packets
  import opened Sender
  import opened SenderInvariants
  import opened SenderProgress
  import opened SenderSteps
  import Cubic
  import W = WindowSteps

  // ----- Which places fast recovery visits -----

  /** A place that fast recovery sends again: clear, within the budget, and with fewer than `count` set ones before it. */
  ghost predicate Resent(words: Words, count: nat, budget: nat, p: nat) {
    p < budget && p < BITS && !TestBit(words, p) && CountBelow(words, p) < count
  }

  lemma {:induction false} CountGrows(words: Words, i: nat, j: nat)
    requires i <= j <= BITS
    ensures CountBelow(words, i) <= CountBelow(words, j)
  {
    if i < j {
      CountGrows(words, i, j - 1);
    }
  }

  /** The walk meets exactly the clear places with fewer than `left` set ones between. */
  lemma {:induction false} MissingIff(words: Words, i: nat, left: nat, budget: nat, p: nat)
    requires i <= BITS && budget <= BITS
    ensures p in Missing(words, i, left, budget) <==> i <= p && Resent(words, CountBelow(words, i) + left, budget, p)
    decreases budget - i
  {
    hide TestBit;
    if left == 0 || i >= budget {
      if i <= p < BITS {
        CountGrows(words, i, p);
      }
    } else if TestBit(words, i) {
      MissingIff(words, i + 1, left - 1, budget, p);
    } else {
      MissingIff(words, i + 1, left, budget, p);
    }
  }

  lemma {:induction false} NoneSet(words: Words, n: nat)
    requires n <= BITS && forall i :: 0 <= i < n ==> !TestBit(words, i)
    ensures CountBelow(words, n) == 0
  {
    if n > 0 {
      NoneSet(words, n - 1);
    }
  }

  // ----- Duplicates -----

  /** How many places of the bitmap fast recovery may look at. */
  function RecoveryBudget(t: Tx, env: Env): nat {
    var cap := PLATFORM.maxUnackedPp * PLATFORM.maxPath;
    if env.unpulled > cap || |t.unacked| >= cap then 0 else Min(Min(env.txqFree, cap - |t.unacked|), BITS)
  }

  lemma BudgetFits(t: Tx, env: Env)
    ensures RecoveryBudget(t, env) <= BITS
  {
  }

  /** What a retransmission leaves alone. */
  ghost predicate SameCounts(t: Tx, u: Tx) {
    u.dupAcks == t.dupAcks && u.oooAcks == t.oooAcks && u.rtoConsecutive == t.rtoConsecutive && u.windows == t.windows
  }

  lemma {:induction false} RecoverKeepsCounts(t: Tx, words: Words, i: nat, left: nat, budget: nat, env: Env)
    requires budget <= BITS
    ensures SameCounts(t, Recover(t, words, i, left, budget, env))
    decreases budget - i
  {
    hide TestBit, Retransmit;
    if left > 0 && i < budget && i < |Chain(t)| {
      if TestBit(words, i) {
        RecoverKeepsCounts(t, words, i + 1, left - 1, budget, env);
      } else {
        RecoverOneKeepsCounts(t, i, env.pick(i));
        hide RecoverOne;
        RecoverKeepsCounts(RecoverOne(t, i, env.pick(i)), words, i + 1, left, budget, env);
      }
    }
  }

  lemma RecoverOneKeepsCounts(t: Tx, i: nat, path: PathId)
    requires i < |Chain(t)|
    ensures SameCounts(t, RecoverOne(t, i, path))
  {
  }

  /** Fast recovery sends again every place it should, in order, and nothing else. */
  lemma RecoveryAnswer(t: Tx, log: TxLog, words: Words, count: U16, env: Env)
    requires Inv(t, log) && AckFits(t, words, count)
    ensures var u, ms := FastRecovery(t, words, count, env), Missing(words, 0, count, RecoveryBudget(t, env));
      && SameCounts(t, u) && RecoveryBudget(t, env) <= BITS
      && (forall k :: 0 <= k < |ms| ==> ms[k] < |t.unacked| <= |log.stream| - log.una)
      && u.out == t.out + PacketsAt(log, ms)
  {
    var budget := RecoveryBudget(t, env);
    if !t.hasHead {
      NothingToRecover(t, log, words, count);
    }
    hide Inv, SameFlight, PathsFollow, TestBit, Recover, PacketsAt;
    RecoverSendsMissing(t, log, words, 0, count, budget, env);
    RecoverKeepsCounts(t, words, 0, count, budget, env);
    NothingRecovered(t, words, count, env);
    assert t.out + [] == t.out && PacketsAt(log, []) == [];
  }

  /** Without a budget, or without anything reported, nothing is sent. */
  lemma NothingRecovered(t: Tx, words: Words, count: nat, env: Env)
    ensures Missing(words, 0, 0, RecoveryBudget(t, env)) == [] && Missing(words, 0, count, 0) == []
    ensures Recover(t, words, 0, count, 0, env) == t
  {
  }

  lemma NothingToRecover(t: Tx, log: TxLog, words: Words, count: U16)
    requires Inv(t, log) && AckFits(t, words, count) && !t.hasHead
    ensures t.unacked == [] && count == 0
  {
    hide TestBit;
    NoneSet(words, BITS);
  }

  /**
   * A duplicate acknowledgement, by the count it brings: below ten nothing is sent; at ten the oldest packet in flight; above
   * ten what the bitmap shows missing. The count goes up by one modulo 2^16.
   */
  lemma DuplicateAnswer(t: Tx, log: TxLog, words: Words, count: U16, env: Env)
    requires Inv(t, log) && AckFits(t, words, count)
    ensures var u, n, ms := DuplicateAck(t, words, count, env), (t.dupAcks as int + 1) % 0x1_0000,
                            Missing(words, 0, count, RecoveryBudget(t, env));
      && u.dupAcks == n && u.oooAcks == count && u.rtoConsecutive == t.rtoConsecutive && u.windows == t.windows
      && (t.unacked != [] ==> log.una < |log.stream|)
      && (n < 10 ==> u.out == t.out)
      && (n == 10 ==> u.out == t.out + if t.unacked == [] then [] else [Data(Wrap(log.una), log.stream[log.una])])
      && (forall k :: 0 <= k < |ms| ==> ms[k] < |t.unacked| <= |log.stream| - log.una)
      && (n > 10 ==> u.out == t.out + PacketsAt(log, ms))
  {
    hide Inv, TestBit, FastRecovery, FastRetransmit, PacketsAt, AckFits, Missing, RecoveryBudget;
    FlightWithinStream(t, log);
    var v := OneMoreDuplicate(t, count);
    RetransmitAnswer(t, log, count, env);
    OneMoreRecovers(t, log, words, count, env);
  }

  /** One more duplicate is counted. */
  function OneMoreDuplicate(t: Tx, count: U16): Tx {
    t.(dupAcks := (t.dupAcks as int + 1) % 0x1_0000, oooAcks := count)
  }

  lemma RetransmitAnswer(t: Tx, log: TxLog, count: U16, env: Env)
    requires Inv(t, log)
    ensures var v := OneMoreDuplicate(t, count);
      var u := FastRetransmit(v, env.pick(0));
      && SameCounts(v, u) && (t.unacked != [] ==> log.una < |log.stream|)
      && u.out == t.out + if t.unacked == [] then [] else [Data(Wrap(log.una), log.stream[log.una])]
  {
    var v := OneMoreDuplicate(t, count);
    FlightWithinStream(t, log);
    FastRetransmitCounts(v, env.pick(0));
    CountersDoNotMatter(t, v, log);
    hide Inv, FastRetransmit, SameFlight, PathsFollow;
    FastRetransmitKeeps(v, log, env.pick(0));
  }

  lemma OneMoreRecovers(t: Tx, log: TxLog, words: Words, count: U16, env: Env)
    requires Inv(t, log) && AckFits(t, words, count)
    ensures var v, ms := OneMoreDuplicate(t, count), Missing(words, 0, count, RecoveryBudget(t, env));
      var u := FastRecovery(v, words, count, env);
      && SameCounts(v, u)
      && (forall k :: 0 <= k < |ms| ==> ms[k] < |t.unacked| <= |log.stream| - log.una)
      && u.out == t.out + PacketsAt(log, ms)
  {
    var v := OneMoreDuplicate(t, count);
    CountersDoNotMatter(t, v, log);
    AckFitsAlike(t, v, words, count);
    assert RecoveryBudget(v, env) == RecoveryBudget(t, env);
    hide Inv, FastRecovery, SameFlight, PathsFollow, AckFits, RecoveryBudget, Missing, PacketsAt;
    RecoveryAnswer(v, log, words, count, env);
  }

  lemma FastRetransmitCounts(t: Tx, path: PathId)
    ensures SameCounts(t, FastRetransmit(t, path))
  {
  }

  lemma AckFitsAlike(t: Tx, u: Tx, words: Words, count: nat)
    requires AckFits(t, words, count) && u.unacked == t.unacked
    ensures AckFits(u, words, count)
  {
    hide TestBit;
  }

  lemma FlightWithinStream(t: Tx, log: TxLog)
    requires Inv(t, log)
    ensures log.una + |t.unacked| <= |log.stream| && t.una == Wrap(log.una)
  {
    assert |Chain(t)| == |t.unacked| + |t.unsent|;
  }

  // ----- All kinds -----

  /** An old acknowledgement changes nothing. */
  lemma OldIsIgnored(t: Tx, log: TxLog, a: int, words: Words, count: U16, env: Env)
    requires Inv(t, log) && Nxt(t, log) - TWO32 < a < log.una
    ensures Tracked(t) && Counted(t) && ProcessAck(t, Wrap(a), words, count, env) == t
  {
    hide Inv, Tracked, Counted, SeqLt, SeqEq, SeqGt, AcceptAck, DuplicateAck;
    ProcessAckCases(t, log, a);
  }

  lemma EqualIsDuplicate(t: Tx, log: TxLog, words: Words, count: U16, env: Env)
    requires Inv(t, log)
    ensures Tracked(t) && Counted(t)
    ensures ProcessAck(t, Wrap(log.una), words, count, env) == DuplicateAck(t, words, count, env)
  {
    hide Inv, Tracked, Counted, SeqLt, SeqEq, SeqGt, AcceptAck, DuplicateAck;
    InvGivesNumbers(t, log);
    ProcessAckCases(t, log, log.una);
  }

  lemma NewIsAccepted(t: Tx, log: TxLog, a: int, words: Words, count: U16, env: Env)
    requires Inv(t, log) && log.una < a <= Nxt(t, log)
    ensures Tracked(t) && Counted(t)
    ensures ProcessAck(t, Wrap(a), words, count, env) == AcceptAck(t, Wrap(a), a - log.una, env)
  {
    hide Inv, Tracked, Counted, SeqLt, SeqEq, SeqGt, AcceptAck, DuplicateAck;
    InvGivesNumbers(t, log);
    ProcessAckCases(t, log, a);
  }

  /**
   * An acknowledgement of new data sends nothing and sets the counts of duplicates and of timeouts back to zero. Each window
   * grows by the stretches of acknowledged packets on its path.
   */
  lemma NewAnswer(t: Tx, log: TxLog, a: int, words: Words, count: U16, env: Env, q: PathId)
    requires Inv(t, log) && log.una < a <= Nxt(t, log)
    ensures Tracked(t) && Counted(t) && Cubic.Bounded(t.windows[q])
    ensures var u := ProcessAck(t, Wrap(a), words, count, env);
      && u.out == t.out && u.dupAcks == 0 && u.oooAcks == 0 && u.rtoConsecutive == 0 && u.una == Wrap(a)
      && u.unacked == t.unacked[a - log.una..]
      && u.windows[q] == W.Grown(t.windows[q], W.AckedPaths(t.paths, Wrap(log.una), a - log.una), 0, q, env.samples)
  {
    hide Inv, Tracked, Counted, AcceptAck, ProcessAck, W.Grown, W.AckedPaths, Cubic.Bounded, Wrap;
    FlightWithinStream(t, log);
    NewIsAccepted(t, log, a, words, count, env);
    AcceptResets(t, Wrap(a), a - log.una, env);
    W.AcceptAckGrows(t, Wrap(a), a - log.una, env, q);
  }

  lemma AcceptResets(t: Tx, ackno: U32, k: nat, env: Env)
    requires k <= |t.unacked| && Tracked(t)
    ensures var u := AcceptAck(t, ackno, k, env);
      && u.out == t.out && u.dupAcks == 0 && u.oooAcks == 0 && u.rtoConsecutive == 0 && u.una == ackno
      && u.unacked == t.unacked[k..]
  {
    hide Tracked, ReceiveAcks, SettlePaths, Prefix;
    ReceiveAcksReleases(t, k);
  }
}
