/** A slot of the timing wheel as a chain of small buckets: every bucket but the last is full, and the last never is. */
module WheelBuckets {
  import opened Messages
  import opened TimingWheel

  const BKT_CAP := 5

  /** The address of a bucket. */
  type Id = nat

  datatype Bkt = Bkt(entries: seq<Ent>, next: Option<Id>)

  ghost predicate DistinctIds(ids: seq<Id>) {
    forall i, j :: 0 <= i < j < |ids| ==> ids[i] != ids[j]
  }

  ghost predicate BktOk(bkts: map<Id, Bkt>, chain: seq<Id>, i: nat)
    requires i < |chain|
  {
    && chain[i] in bkts
    && if i + 1 < |chain| then |bkts[chain[i]].entries| == BKT_CAP && bkts[chain[i]].next == Some(chain[i + 1])
       else |bkts[chain[i]].entries| < BKT_CAP && bkts[chain[i]].next == None
  }

  ghost predicate ChainOk(bkts: map<Id, Bkt>, chain: seq<Id>) {
    chain != [] && DistinctIds(chain) && forall i :: 0 <= i < |chain| ==> BktOk(bkts, chain, i)
  }

  /** The entries along a chain, in order. */
  ghost function EntriesOf(bkts: map<Id, Bkt>, chain: seq<Id>): seq<Ent>
    requires forall i :: 0 <= i < |chain| ==> chain[i] in bkts
  {
    if chain == [] then [] else bkts[chain[0]].entries + EntriesOf(bkts, chain[1..])
  }

  lemma {:induction false} EntriesConcat(bkts: map<Id, Bkt>, a: seq<Id>, b: seq<Id>)
    requires forall i :: 0 <= i < |a| ==> a[i] in bkts
    requires forall i :: 0 <= i < |b| ==> b[i] in bkts
    ensures forall i :: 0 <= i < |a + b| ==> (a + b)[i] in bkts
    ensures EntriesOf(bkts, a + b) == EntriesOf(bkts, a) + EntriesOf(bkts, b)
  {
    if a == [] {
      assert a + b == b;
    } else {
      assert (a + b)[1..] == a[1..] + b;
      EntriesConcat(bkts, a[1..], b);
    }
  }

  lemma {:induction false} EntriesSame(m1: map<Id, Bkt>, m2: map<Id, Bkt>, chain: seq<Id>)
    requires forall i :: 0 <= i < |chain| ==> chain[i] in m1 && chain[i] in m2 && m2[chain[i]].entries == m1[chain[i]].entries
    ensures EntriesOf(m1, chain) == EntriesOf(m2, chain)
  {
    if chain != [] {
      EntriesSame(m1, m2, chain[1..]);
    }
  }

  /** A chain untouched by a write is as it was. */
  lemma ChainSame(m1: map<Id, Bkt>, m2: map<Id, Bkt>, chain: seq<Id>)
    requires ChainOk(m1, chain)
    requires forall i :: 0 <= i < |chain| ==> chain[i] in m1 && chain[i] in m2 && m2[chain[i]] == m1[chain[i]]
    ensures ChainOk(m2, chain) && ChainIn(m1, chain) && EntriesOf(m2, chain) == EntriesOf(m1, chain)
  {
    forall i | 0 <= i < |chain|
      ensures BktOk(m2, chain, i)
    {
      assert BktOk(m1, chain, i);
    }
    ChainInUse(m1, chain);
    EntriesSame(m1, m2, chain);
  }

  ghost predicate ChainIn(bkts: map<Id, Bkt>, chain: seq<Id>) {
    forall i :: 0 <= i < |chain| ==> chain[i] in bkts
  }

  lemma ChainInUse(bkts: map<Id, Bkt>, chain: seq<Id>)
    requires ChainOk(bkts, chain)
    ensures ChainIn(bkts, chain)
  {
    forall i | 0 <= i < |chain|
      ensures chain[i] in bkts
    {
      assert BktOk(bkts, chain, i);
    }
  }

  /** A slot with `m` entries has `m / 5` buckets from the pool chained behind its own. */
  lemma {:induction false} ChainLength(bkts: map<Id, Bkt>, chain: seq<Id>)
    requires ChainOk(bkts, chain)
    ensures ChainIn(bkts, chain) && |chain| - 1 == |EntriesOf(bkts, chain)| / BKT_CAP
    decreases |chain|
  {
    ChainInUse(bkts, chain);
    assert BktOk(bkts, chain, 0);
    if |chain| > 1 {
      ChainTail(bkts, chain);
      ChainLength(bkts, chain[1..]);
    } else {
      assert EntriesOf(bkts, chain[1..]) == [];
    }
  }

  lemma ChainTail(bkts: map<Id, Bkt>, chain: seq<Id>)
    requires ChainOk(bkts, chain) && |chain| > 1
    ensures ChainOk(bkts, chain[1..])
  {
    var c := chain[1..];
    forall i | 0 <= i < |c|
      ensures BktOk(bkts, c, i)
    {
      assert BktOk(bkts, chain, i + 1);
    }
    forall i, j | 0 <= i < j < |c|
      ensures c[i] != c[j]
    {
      assert chain[i + 1] != chain[j + 1];
    }
  }

  /** Append an entry to the last bucket. */
  function Appended(bkts: map<Id, Bkt>, last: Id, e: Ent): map<Id, Bkt>
    requires last in bkts
  {
    bkts[last := bkts[last].(entries := bkts[last].entries + [e])]
  }

  /** Hang a fresh bucket behind a full one. */
  function Extended(bkts: map<Id, Bkt>, last: Id, spare: Id): map<Id, Bkt>
    requires last in bkts
  {
    bkts[spare := Bkt([], None)][last := bkts[last].(next := Some(spare))]
  }

  /** The last bucket of a chain, and what is before it. */
  lemma LastOf(bkts: map<Id, Bkt>, chain: seq<Id>)
    requires ChainOk(bkts, chain)
    ensures var last := chain[|chain| - 1];
      last in bkts && |bkts[last].entries| < BKT_CAP && bkts[last].next == None
  {
    assert BktOk(bkts, chain, |chain| - 1);
  }

  lemma AppendEntries(bkts: map<Id, Bkt>, chain: seq<Id>, e: Ent)
    requires ChainOk(bkts, chain)
    ensures ChainIn(bkts, chain) && ChainIn(Appended(bkts, chain[|chain| - 1], e), chain)
    ensures EntriesOf(Appended(bkts, chain[|chain| - 1], e), chain) == EntriesOf(bkts, chain) + [e]
  {
    ChainInUse(bkts, chain);
    var n := |chain| - 1;
    var last, front := chain[n], chain[..n];
    var m := Appended(bkts, last, e);
    assert chain == front + [last];
    EntriesConcat(bkts, front, [last]);
    EntriesConcat(m, front, [last]);
    forall i | 0 <= i < n
      ensures front[i] in m && m[front[i]] == bkts[front[i]]
    {
    }
    EntriesSame(bkts, m, front);
    assert EntriesOf(m, [last]) == m[last].entries + EntriesOf(m, []);
    assert EntriesOf(bkts, [last]) == bkts[last].entries + EntriesOf(bkts, []);
    assert EntriesOf(bkts, front) + (bkts[last].entries + [e]) == EntriesOf(bkts, front) + bkts[last].entries + [e];
  }

  /** Appending to a chain whose last bucket does not fill up. */
  lemma AppendKeeps(bkts: map<Id, Bkt>, chain: seq<Id>, e: Ent)
    requires ChainOk(bkts, chain) && chain[|chain| - 1] in bkts
    requires |bkts[chain[|chain| - 1]].entries| + 1 < BKT_CAP
    ensures ChainOk(Appended(bkts, chain[|chain| - 1], e), chain)
  {
    var m := Appended(bkts, chain[|chain| - 1], e);
    forall i | 0 <= i < |chain|
      ensures BktOk(m, chain, i)
    {
      assert BktOk(bkts, chain, i);
    }
  }

  /** Appending to a chain whose last bucket fills up: a fresh one is hung behind it. */
  lemma ExtendKeeps(bkts: map<Id, Bkt>, chain: seq<Id>, e: Ent, spare: Id)
    requires ChainOk(bkts, chain) && chain[|chain| - 1] in bkts && spare !in chain
    requires |bkts[chain[|chain| - 1]].entries| + 1 == BKT_CAP
    ensures var m := Extended(Appended(bkts, chain[|chain| - 1], e), chain[|chain| - 1], spare);
      && ChainOk(m, chain + [spare]) && ChainIn(m, chain + [spare]) && ChainIn(bkts, chain)
      && EntriesOf(m, chain + [spare]) == EntriesOf(bkts, chain) + [e]
  {
    var last, c := chain[|chain| - 1], chain + [spare];
    var m1 := Appended(bkts, last, e);
    var m := Extended(m1, last, spare);
    forall i | 0 <= i < |c|
      ensures BktOk(m, c, i)
    {
      if i < |chain| {
        assert BktOk(bkts, chain, i);
      }
    }
    ChainInUse(m, c);
    AppendEntries(bkts, chain, e);
    forall i | 0 <= i < |chain|
      ensures chain[i] in m && chain[i] in m1 && m[chain[i]].entries == m1[chain[i]].entries
    {
    }
    EntriesSame(m1, m, chain);
    EntriesConcat(m, chain, [spare]);
    assert EntriesOf(m, [spare]) == m[spare].entries + EntriesOf(m, []);
  }
}
