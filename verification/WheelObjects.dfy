/**
 * The timing wheel as the engine keeps it: a ring of slots, each a chain of buckets, and a pool of spare buckets. Every
 * method is proved against the step of `TimingWheel` it carries out.
 */
module WheelObjects {
  import opened Messages
  import opened TimingWheel
  import opened WheelBuckets

  ghost predicate OwnedBy(owner: map<Id, nat>, id: Id, j: nat) {
    id in owner && owner[id] == j
  }

  /** Every bucket belongs to one slot's chain or to the pool, in one place; a slot's own bucket heads its chain. */
  ghost predicate Parted(bkts: map<Id, Bkt>, chains: seq<seq<Id>>, pool: seq<Id>, owner: map<Id, nat>) {
    && (forall j :: 0 <= j < |chains| ==> ChainOk(bkts, chains[j]) && chains[j][0] == j)
    && (forall j, k :: 0 <= j < |chains| && 0 <= k < |chains[j]| ==> OwnedBy(owner, chains[j][k], j))
    && (forall k :: 0 <= k < |pool| ==> pool[k] in bkts && OwnedBy(owner, pool[k], |chains|))
    && DistinctIds(pool)
  }

  /** How many buckets of the pool are chained. */
  function Chained(chains: seq<seq<Id>>): int {
    if chains == [] then 0 else |chains[0]| - 1 + Chained(chains[1..])
  }

  lemma {:induction false} ChainedUpdate(chains: seq<seq<Id>>, j: nat, c: seq<Id>)
    requires j < |chains|
    ensures Chained(chains[j := c]) == Chained(chains) - |chains[j]| + |c|
    decreases j
  {
    if j > 0 {
      assert chains[j := c][1..] == chains[1..][j - 1 := c];
      ChainedUpdate(chains[1..], j - 1, c);
    } else {
      assert chains[j := c][1..] == chains[1..];
    }
  }

  ghost predicate AllIn(bkts: map<Id, Bkt>, chains: seq<seq<Id>>) {
    forall j :: 0 <= j < |chains| ==> ChainIn(bkts, chains[j])
  }

  lemma PartedIn(bkts: map<Id, Bkt>, chains: seq<seq<Id>>, pool: seq<Id>, owner: map<Id, nat>)
    requires Parted(bkts, chains, pool, owner)
    ensures AllIn(bkts, chains)
  {
    forall j | 0 <= j < |chains|
      ensures ChainIn(bkts, chains[j])
    {
      ChainInUse(bkts, chains[j]);
    }
  }

  ghost function SlotsOf(bkts: map<Id, Bkt>, chains: seq<seq<Id>>): seq<seq<Ent>>
    requires AllIn(bkts, chains)
  {
    seq(|chains|, j requires 0 <= j < |chains| => SlotOf(bkts, chains, j))
  }

  ghost function SlotOf(bkts: map<Id, Bkt>, chains: seq<seq<Id>>, j: nat): seq<Ent>
    requires AllIn(bkts, chains) && j < |chains|
  {
    assert ChainIn(bkts, chains[j]);
    EntriesOf(bkts, chains[j])
  }

  /** Writing into one slot's buckets leaves the other slots alone. */
  lemma OthersSame(m1: map<Id, Bkt>, m2: map<Id, Bkt>, chains: seq<seq<Id>>, pool: seq<Id>, owner: map<Id, nat>, ws: nat, j: nat)
    requires Parted(m1, chains, pool, owner) && ws < |chains| && j < |chains| && j != ws && m1.Keys <= m2.Keys
    requires forall o :: o in m1 && !OwnedBy(owner, o, ws) && !OwnedBy(owner, o, |chains|) ==> m2[o] == m1[o]
    ensures ChainOk(m2, chains[j]) && ChainIn(m1, chains[j]) && ChainIn(m2, chains[j])
    ensures EntriesOf(m2, chains[j]) == EntriesOf(m1, chains[j])
  {
    ChainInUse(m1, chains[j]);
    forall i | 0 <= i < |chains[j]|
      ensures chains[j][i] in m1 && chains[j][i] in m2 && m2[chains[j][i]] == m1[chains[j][i]]
    {
      assert OwnedBy(owner, chains[j][i], j);
    }
    ChainSame(m1, m2, chains[j]);
    ChainInUse(m2, chains[j]);
  }

  // ----- Inserting -----

  lemma AppendParted(bkts: map<Id, Bkt>, chains: seq<seq<Id>>, pool: seq<Id>, owner: map<Id, nat>, ws: nat, e: Ent)
    requires Parted(bkts, chains, pool, owner) && ws < |chains|
    requires chains[ws] != [] && chains[ws][|chains[ws]| - 1] in bkts
    requires |bkts[chains[ws][|chains[ws]| - 1]].entries| + 1 < BKT_CAP
    ensures var m := Appended(bkts, chains[ws][|chains[ws]| - 1], e);
      && Parted(m, chains, pool, owner) && AllIn(bkts, chains) && AllIn(m, chains)
      && SlotsOf(m, chains) == SlotsOf(bkts, chains)[ws := SlotsOf(bkts, chains)[ws] + [e]]
  {
    var m := Appended(bkts, chains[ws][|chains[ws]| - 1], e);
    assert OwnedBy(owner, chains[ws][|chains[ws]| - 1], ws);
    AppendKeeps(bkts, chains[ws], e);
    AppendEntries(bkts, chains[ws], e);
    forall j | 0 <= j < |chains| && j != ws
      ensures ChainOk(m, chains[j]) && ChainIn(bkts, chains[j]) && ChainIn(m, chains[j])
      ensures EntriesOf(m, chains[j]) == EntriesOf(bkts, chains[j])
    {
      OthersSame(bkts, m, chains, pool, owner, ws, j);
    }
    PartedIn(bkts, chains, pool, owner);
  }

  lemma ExtendParted(bkts: map<Id, Bkt>, chains: seq<seq<Id>>, pool: seq<Id>, owner: map<Id, nat>, ws: nat, e: Ent)
    requires Parted(bkts, chains, pool, owner) && ws < |chains| && pool != []
    requires chains[ws] != [] && chains[ws][|chains[ws]| - 1] in bkts
    requires |bkts[chains[ws][|chains[ws]| - 1]].entries| + 1 == BKT_CAP
    ensures var last, spare := chains[ws][|chains[ws]| - 1], pool[0];
      var m, cs := Extended(Appended(bkts, last, e), last, spare), chains[ws := chains[ws] + [spare]];
      && Parted(m, cs, pool[1..], owner[spare := ws]) && AllIn(bkts, chains) && AllIn(m, cs)
      && SlotsOf(m, cs) == SlotsOf(bkts, chains)[ws := SlotsOf(bkts, chains)[ws] + [e]]
      && Chained(cs) == Chained(chains) + 1
  {
    var last, spare := chains[ws][|chains[ws]| - 1], pool[0];
    var m, cs, own := Extended(Appended(bkts, last, e), last, spare), chains[ws := chains[ws] + [spare]], owner[spare := ws];
    assert OwnedBy(owner, last, ws) && OwnedBy(owner, spare, |chains|);
    SpareIsApart(bkts, chains, pool, owner);
    ExtendKeeps(bkts, chains[ws], e, spare);
    ChainedUpdate(chains, ws, chains[ws] + [spare]);
    forall j | 0 <= j < |chains| && j != ws
      ensures ChainOk(m, cs[j]) && ChainIn(bkts, chains[j]) && ChainIn(m, cs[j])
      ensures EntriesOf(m, cs[j]) == EntriesOf(bkts, chains[j])
    {
      OthersSame(bkts, m, chains, pool, owner, ws, j);
    }
    forall j, k | 0 <= j < |cs| && 0 <= k < |cs[j]|
      ensures OwnedBy(own, cs[j][k], j)
    {
      if j != ws || k < |chains[ws]| {
        assert OwnedBy(owner, chains[j][k], j);
      }
    }
    PartedIn(bkts, chains, pool, owner);
    assert AllIn(m, cs);
    assert SlotsOf(m, cs) == SlotsOf(bkts, chains)[ws := SlotsOf(bkts, chains)[ws] + [e]];
  }

  /** The first spare bucket is in no chain. */
  lemma SpareIsApart(bkts: map<Id, Bkt>, chains: seq<seq<Id>>, pool: seq<Id>, owner: map<Id, nat>)
    requires Parted(bkts, chains, pool, owner) && pool != []
    ensures forall j, k :: 0 <= j < |chains| && 0 <= k < |chains[j]| ==> chains[j][k] != pool[0]
  {
    forall j, k | 0 <= j < |chains| && 0 <= k < |chains[j]|
      ensures chains[j][k] != pool[0]
    {
      assert OwnedBy(owner, chains[j][k], j);
    }
  }

  // ----- Emptying a slot -----

  /** The first `i` buckets of the chain `c` are reset, and all of them but the slot's own are back in the pool. */
  ghost predicate Emptied(b0: map<Id, Bkt>, p0: seq<Id>, bkts: map<Id, Bkt>, pool: seq<Id>, c: seq<Id>, i: nat) {
    && i <= |c| && bkts.Keys == b0.Keys
    && (forall k :: 0 <= k < i ==> c[k] in bkts && bkts[c[k]] == Bkt([], None))
    && (forall o :: o in b0 && o !in c[..i] ==> bkts[o] == b0[o])
    && |pool| == |p0| + (if i == 0 then 0 else i - 1)
    && (forall k :: 1 <= k < i ==> pool[i - 1 - k] == c[k])
    && (forall k :: 0 <= k < |p0| ==> pool[|pool| - |p0| + k] == p0[k])
  }

  /** The bucket the walk has come to is as it was, and its entries come next. */
  lemma EmptiedNext(b0: map<Id, Bkt>, p0: seq<Id>, bkts: map<Id, Bkt>, pool: seq<Id>, c: seq<Id>, i: nat)
    requires ChainOk(b0, c) && i < |c| && Emptied(b0, p0, bkts, pool, c, i)
    ensures c[i] in b0 && c[i] in bkts && bkts[c[i]] == b0[c[i]]
    ensures b0[c[i]].next == if i + 1 < |c| then Some(c[i + 1]) else None
    ensures ChainIn(b0, c[..i]) && ChainIn(b0, c[..i + 1])
    ensures EntriesOf(b0, c[..i + 1]) == EntriesOf(b0, c[..i]) + b0[c[i]].entries
  {
    assert BktOk(b0, c, i);
    assert c[i] !in c[..i];
    assert c[..i + 1] == c[..i] + [c[i]];
    ChainInUse(b0, c);
    hide Emptied, ChainOk;
    EntriesConcat(b0, c[..i], [c[i]]);
    assert EntriesOf(b0, [c[i]]) == b0[c[i]].entries + EntriesOf(b0, []);
  }

  /** The pool after one more bucket came back. */
  lemma EmptiedPool(p0: seq<Id>, pool: seq<Id>, c: seq<Id>, i: nat)
    requires i < |c| && |pool| == |p0| + (if i == 0 then 0 else i - 1)
    requires forall k :: 1 <= k < i ==> pool[i - 1 - k] == c[k]
    requires forall k :: 0 <= k < |p0| ==> pool[|pool| - |p0| + k] == p0[k]
    ensures var pool2 := if i == 0 then pool else [c[i]] + pool;
      && |pool2| == |p0| + i
      && (forall k :: 1 <= k < i + 1 ==> pool2[i - k] == c[k])
      && (forall k :: 0 <= k < |p0| ==> pool2[|pool2| - |p0| + k] == p0[k])
  {
    var pool2 := if i == 0 then pool else [c[i]] + pool;
    forall k | 1 <= k < i + 1
      ensures pool2[i - k] == c[k]
    {
      assert k < i ==> pool[i - 1 - k] == c[k];
    }
  }

  lemma EmptiedStep(b0: map<Id, Bkt>, p0: seq<Id>, bkts: map<Id, Bkt>, pool: seq<Id>, c: seq<Id>, i: nat)
    requires ChainOk(b0, c) && i < |c| && Emptied(b0, p0, bkts, pool, c, i)
    ensures Emptied(b0, p0, bkts[c[i] := Bkt([], None)], if i == 0 then pool else [c[i]] + pool, c, i + 1)
  {
    EmptiedNext(b0, p0, bkts, pool, c, i);
    EmptiedPool(p0, pool, c, i);
    assert c[..i + 1] == c[..i] + [c[i]];
    hide ChainOk, EntriesOf;
  }

  ghost function Returned(owner: map<Id, nat>, c: seq<Id>, n: nat): map<Id, nat>
    requires c != []
  {
    map o | o in owner :: if o in c[1..] then n else owner[o]
  }

  lemma EmptiedOwners(b0: map<Id, Bkt>, p0: seq<Id>, bkts: map<Id, Bkt>, pool: seq<Id>, chains: seq<seq<Id>>,
                      owner: map<Id, nat>, ws: nat)
    requires Parted(b0, chains, p0, owner) && ws < |chains| && chains[ws] != []
    requires Emptied(b0, p0, bkts, pool, chains[ws], |chains[ws]|)
    ensures var own := Returned(owner, chains[ws], |chains|);
      && (forall k :: 0 <= k < |pool| ==> pool[k] in bkts && OwnedBy(own, pool[k], |chains|)) && DistinctIds(pool)
      && OwnedBy(own, ws, ws)
      && (forall j, k :: 0 <= j < |chains| && j != ws && 0 <= k < |chains[j]| ==> OwnedBy(own, chains[j][k], j))
  {
    var c, own := chains[ws], Returned(owner, chains[ws], |chains|);
    var m := |c| - 1;
    assert DistinctIds(c) && c[0] == ws;
    forall k | 0 <= k < |c|
      ensures OwnedBy(owner, c[k], ws)
    {
    }
    forall k | 0 <= k < |pool|
      ensures pool[k] in bkts && OwnedBy(own, pool[k], |chains|)
      ensures k < m ==> pool[k] == c[m - k]
      ensures k >= m ==> pool[k] == p0[k - m] && OwnedBy(owner, pool[k], |chains|)
    {
      if k < m {
        assert pool[|c| - 1 - (m - k)] == c[m - k];
        assert c[m - k] in c[1..] by {
          assert c[1..][m - k - 1] == c[m - k];
        }
        ChainInUse(b0, c);
      } else {
        assert pool[|pool| - |p0| + (k - m)] == p0[k - m];
        assert OwnedBy(owner, p0[k - m], |chains|);
      }
    }
    assert ws !in c[1..];
    forall j, k | 0 <= j < |chains| && j != ws && 0 <= k < |chains[j]|
      ensures OwnedBy(own, chains[j][k], j)
    {
      assert OwnedBy(owner, chains[j][k], j);
      assert chains[j][k] !in c[1..];
    }
  }

  lemma EmptiedParted(b0: map<Id, Bkt>, p0: seq<Id>, bkts: map<Id, Bkt>, pool: seq<Id>, chains: seq<seq<Id>>,
                      owner: map<Id, nat>, ws: nat)
    requires Parted(b0, chains, p0, owner) && ws < |chains| && chains[ws] != []
    requires Emptied(b0, p0, bkts, pool, chains[ws], |chains[ws]|)
    ensures var cs := chains[ws := [ws]];
      && Parted(bkts, cs, pool, Returned(owner, chains[ws], |chains|)) && AllIn(b0, chains) && AllIn(bkts, cs)
      && SlotsOf(bkts, cs) == SlotsOf(b0, chains)[ws := []]
      && Chained(cs) + |pool| == Chained(chains) + |p0|
  {
    var c, cs, own := chains[ws], chains[ws := [ws]], Returned(owner, chains[ws], |chains|);
    EmptiedOwners(b0, p0, bkts, pool, chains, owner, ws);
    ChainedUpdate(chains, ws, [ws]);
    assert c[0] == ws && bkts[c[0]] == Bkt([], None);
    assert ChainOk(bkts, [ws]) by {
      assert BktOk(bkts, [ws], 0);
    }
    assert EntriesOf(bkts, [ws]) == bkts[ws].entries + EntriesOf(bkts, []);
    forall j | 0 <= j < |chains| && j != ws
      ensures ChainOk(bkts, cs[j]) && ChainIn(b0, chains[j]) && ChainIn(bkts, cs[j])
      ensures EntriesOf(bkts, cs[j]) == EntriesOf(b0, chains[j])
    {
      forall o | o in b0 && !OwnedBy(owner, o, ws)
        ensures bkts[o] == b0[o]
      {
        assert forall k :: 0 <= k < |c| ==> OwnedBy(owner, chains[ws][k], ws);
        assert o !in c[..|c|];
      }
      OthersSame(b0, bkts, chains, p0, owner, ws, j);
    }
    forall j, k | 0 <= j < |cs| && 0 <= k < |cs[j]|
      ensures OwnedBy(own, cs[j][k], j)
    {
      if j != ws {
        assert OwnedBy(own, chains[j][k], j);
      }
    }
    PartedIn(b0, chains, p0, owner);
    assert AllIn(bkts, cs);
    assert SlotsOf(bkts, cs) == SlotsOf(b0, chains)[ws := []];
  }

  // ----- The pool suffices -----

  /** Chained buckets are all full but the last of each slot, so few entries need few buckets. */
  lemma {:induction false} ChainedAtMost(bkts: map<Id, Bkt>, chains: seq<seq<Id>>)
    requires forall j :: 0 <= j < |chains| ==> ChainOk(bkts, chains[j])
    requires AllIn(bkts, chains)
    ensures BKT_CAP * Chained(chains) <= |Flat(SlotsOf(bkts, chains))|
  {
    if chains != [] {
      assert AllIn(bkts, chains[1..]);
      ChainedAtMost(bkts, chains[1..]);
      ChainLength(bkts, chains[0]);
      assert SlotsOf(bkts, chains)[0] == EntriesOf(bkts, chains[0]);
      assert SlotsOf(bkts, chains)[1..] == SlotsOf(bkts, chains[1..]);
    }
  }

  // ----- Turning the ring -----

  /** The `i`-th slot after slot `cur` of a ring of `n`. */
  function Idx(cur: nat, i: nat, n: nat): nat
    requires cur < n && i < n
  {
    if cur + i < n then cur + i else cur + i - n
  }

  /** The ring seen from slot `cur`. */
  ghost function Turned(slots: seq<seq<Ent>>, cur: nat): seq<seq<Ent>>
    requires cur < |slots|
  {
    slots[cur..] + slots[..cur]
  }

  lemma TurnedAt(slots: seq<seq<Ent>>, cur: nat, i: nat)
    requires cur < |slots| && i < |slots|
    ensures Turned(slots, cur)[i] == slots[Idx(cur, i, |slots|)]
  {
  }

  /** Emptying the current slot and moving on is what `Roll` does to the window. */
  lemma TurnOne(slots: seq<seq<Ent>>, cur: nat)
    requires cur < |slots| && |slots| > 1
    ensures var next := if cur + 1 == |slots| then 0 else cur + 1;
      && Turned(slots[cur := []], next) == Turned(slots, cur)[1..] + [[]]
      && Turned(slots, cur)[0] == slots[cur]
  {
    var next := if cur + 1 == |slots| then 0 else cur + 1;
    var a, b := Turned(slots[cur := []], next), Turned(slots, cur)[1..] + [[]];
    assert |a| == |b|;
    forall i | 0 <= i < |a|
      ensures a[i] == b[i]
    {
    }
  }

  lemma PutTurned(slots: seq<seq<Ent>>, cur: nat, i: nat, s: seq<Ent>)
    requires cur < |slots| && i < |slots|
    ensures Turned(slots[Idx(cur, i, |slots|) := s], cur) == Turned(slots, cur)[i := s]
  {
  }

  lemma {:induction false} FlatLength(a: seq<seq<Ent>>, b: seq<seq<Ent>>)
    ensures |Flat(a + b)| == |Flat(b + a)|
  {
    FlatConcat(a, b);
    FlatConcat(b, a);
  }

  /** The slot times are one width apart, going round. */
  ghost predicate Paced(tx: seq<nat>, cur: nat, width: nat) {
    cur < |tx| && forall i :: 0 <= i < |tx| ==> TimeAt(tx, cur, width, i)
  }

  ghost predicate TimeAt(tx: seq<nat>, cur: nat, width: nat, i: nat)
    requires cur < |tx| && i < |tx|
  {
    tx[Idx(cur, i, |tx|)] == tx[cur] + i * width
  }

  lemma PacedOn(tx: seq<nat>, cur: nat, width: nat)
    requires Paced(tx, cur, width) && |tx| > 1
    ensures var next := if cur + 1 == |tx| then 0 else cur + 1;
      Paced(tx[cur := tx[cur] + width * |tx|], next, width) && tx[next] == tx[cur] + width
  {
    var n, next := |tx|, if cur + 1 == |tx| then 0 else cur + 1;
    var t := tx[cur := tx[cur] + width * n];
    assert TimeAt(tx, cur, width, 1) && next == Idx(cur, 1, n);
    forall i | 0 <= i < n
      ensures TimeAt(t, next, width, i)
    {
      if i + 1 < n {
        assert TimeAt(tx, cur, width, i + 1);
        assert Idx(next, i, n) == Idx(cur, i + 1, n);
        assert (i + 1) * width == i * width + width;
      } else {
        assert Idx(next, i, n) == cur;
        assert i == n - 1 && width * n == i * width + width;
      }
    }
  }

  function FreshBkts(k: nat): (m: map<Id, Bkt>)
    ensures forall i :: 0 <= i < k ==> i in m && m[i] == Bkt([], None)
  {
    if k == 0 then map[] else FreshBkts(k - 1)[k - 1 := Bkt([], None)]
  }

  ghost function FreshOwners(k: nat, n: nat): (m: map<Id, nat>)
    ensures forall i :: 0 <= i < k ==> i in m && m[i] == if i < n then i else n
  {
    if k == 0 then map[] else FreshOwners(k - 1, n)[k - 1 := if k - 1 < n then k - 1 else n]
  }

  class WheelRing {
    const width: nat
    const numWslots: nat
    const horizon: nat
    const txTsc: array<nat>
    const last: array<Id>
    var bkts: map<Id, Bkt>
    var cur: nat
    var bktPool: seq<Id>
    var readyEntries: nat
    var readyQueue: seq<Ent>
    ghost var chains: seq<seq<Id>>
    ghost var owner: map<Id, nat>

    ghost predicate Valid()
      reads this, txTsc, last
    {
      && width > 0 && numWslots > 1 && txTsc as object != last as object
      && txTsc.Length == last.Length == |chains| == numWslots && cur < numWslots
      && Parted(bkts, chains, bktPool, owner) && AllIn(bkts, chains)
      && (forall j :: 0 <= j < numWslots ==> chains[j] != [] && last[j] == chains[j][|chains[j]| - 1])
      && Paced(txTsc[..], cur, width)
    }

    /** The buckets of the pool, spare and chained. */
    ghost function Buckets(): int
      reads this
    {
      Chained(chains) + |bktPool|
    }

    ghost function Slots(): seq<seq<Ent>>
      requires AllIn(bkts, chains)
      reads this
    {
      SlotsOf(bkts, chains)
    }

    /** The object holds the wheel `w`. */
    ghost predicate Shows(w: Wheel)
      requires Valid()
      reads this, txTsc, last
    {
      && w.width == width && w.first == txTsc[cur] && w.ring == Turned(Slots(), cur) && w.ready == readyQueue
    }

    constructor (width: nat, numWslots: nat, horizon: nat, poolSize: nat, base: nat)
      requires width > 0 && numWslots > 1
      ensures Valid() && Buckets() == poolSize && this.width == width && this.numWslots == numWslots
      ensures this.horizon == horizon && fresh(txTsc) && fresh(last) && readyEntries == 0
      ensures Shows(Wheel(width, base + width, seq(numWslots, _ => []), []))
    {
      this.width, this.numWslots, this.horizon := width, numWslots, horizon;
      txTsc := new nat[numWslots](i requires 0 <= i => base + (i + 1) * width);
      last := new Id[numWslots](i => i);
      bkts := FreshBkts(numWslots + poolSize);
      cur, readyEntries, readyQueue := 0, 0, [];
      bktPool := seq(poolSize, i requires 0 <= i => numWslots + i);
      chains := seq(numWslots, i requires 0 <= i => [i]);
      owner := FreshOwners(numWslots + poolSize, numWslots);
      new;
      FreshParted(bkts, chains, bktPool, owner, numWslots, poolSize);
      assert Turned(Slots(), 0) == seq(numWslots, _ => []);
      forall i | 0 <= i < numWslots
        ensures TimeAt(txTsc[..], 0, width, i)
      {
        assert (i + 1) * width == i * width + width;
      }
    }

    /** Append an entry to a slot; when its last bucket fills up, chain a spare one. */
    method InsertIntoWslot(ws: nat, ent: Ent)
      requires Valid() && ws < numWslots
      requires last[ws] in bkts && (|bkts[last[ws]].entries| + 1 == BKT_CAP ==> bktPool != [])
      modifies `bkts, `bktPool, `chains, `owner, last
      ensures Valid() && Buckets() == old(Buckets())
      ensures Slots() == old(Slots())[ws := old(Slots())[ws] + [ent]]
    {
      hide Parted, AllIn, SlotsOf, Paced, Chained;
      var bkt := last[ws];
      WsLast(bkts, chains, bktPool, owner, ws);
      if |bkts[bkt].entries| + 1 < BKT_CAP {
        AppendParted(bkts, chains, bktPool, owner, ws, ent);
        bkts := bkts[bkt := bkts[bkt].(entries := bkts[bkt].entries + [ent])];
      } else {
        ExtendParted(bkts, chains, bktPool, owner, ws, ent);
        SpareIsApart(bkts, chains, bktPool, owner);
        ghost var m := Extended(Appended(bkts, bkt, ent), bkt, bktPool[0]);
        bkts := bkts[bkt := bkts[bkt].(entries := bkts[bkt].entries + [ent])];
        var spare := bktPool[0];
        bktPool := bktPool[1..];
        bkts := bkts[spare := Bkt([], None)];
        bkts := bkts[bkt := bkts[bkt].(next := Some(spare))];
        assert bkts == m;
        last[ws] := spare;
        owner := owner[spare := ws];
        chains := chains[ws := chains[ws] + [spare]];
      }
    }

    /** Move the entries of a bucket to the ready queue. */
    method DrainBkt(entries: seq<Ent>)
      modifies `readyQueue, `readyEntries
      ensures readyQueue == old(readyQueue) + entries && readyEntries == old(readyEntries) + |entries|
    {
      for i := 0 to |entries|
        invariant readyQueue == old(readyQueue) + entries[..i] && readyEntries == old(readyEntries) + i
      {
        readyEntries := readyEntries + 1;
        readyQueue := readyQueue + [entries[i]];
        assert entries[..i + 1] == entries[..i] + [entries[i]];
      }
      assert entries[..|entries|] == entries;
    }

    /** Move all entries of a slot to the ready queue and give its chained buckets back. */
    method ReapWslot(ws: nat)
      requires Valid() && ws < numWslots
      modifies `bkts, `bktPool, `chains, `owner, `readyQueue, `readyEntries, last
      ensures Valid() && Buckets() == old(Buckets())
      ensures Slots() == old(Slots())[ws := []]
      ensures readyQueue == old(readyQueue) + old(Slots())[ws] && readyEntries == old(readyEntries) + |old(Slots())[ws]|
    {
      hide Parted, AllIn, SlotsOf, Paced, Chained, Emptied, ChainOk;
      ghost var b0, p0, c := bkts, bktPool, chains[ws];
      WsLast(bkts, chains, bktPool, owner, ws);
      ghost var i := 0;
      var bkt: Option<Id> := Some(ws);
      NothingEmptied(b0, p0, c);
      while bkt.Some?
        invariant 0 <= i <= |c| && bkt == (if i < |c| then Some(c[i]) else None)
        invariant Emptied(b0, p0, bkts, bktPool, c, i) && ChainIn(b0, c[..i])
        invariant chains == old(chains) && owner == old(owner) && last[..] == old(last[..])
        invariant readyQueue == old(readyQueue) + EntriesOf(b0, c[..i])
        invariant readyEntries == old(readyEntries) + |EntriesOf(b0, c[..i])|
        decreases |c| - i
      {
        var b := bkt.value;
        EmptiedNext(b0, p0, bkts, bktPool, c, i);
        EmptiedStep(b0, p0, bkts, bktPool, c, i);
        OnlyHeadIsSlot(c, i);
        DrainBkt(bkts[b].entries);
        assert readyQueue == old(readyQueue) + (EntriesOf(b0, c[..i]) + b0[c[i]].entries);
        var next := bkts[b].next;
        bkts := bkts[b := Bkt([], None)];
        if b != ws {
          bktPool := [b] + bktPool;
        }
        bkt := next;
        i := i + 1;
      }
      assert c[..|c|] == c;
      EmptiedParted(b0, p0, bkts, bktPool, chains, owner, ws);
      SlotIs(b0, chains, ws);
      last[ws] := ws;
      owner := Returned(owner, c, numWslots);
      chains := chains[ws := [ws]];
    }

    /** Turn the ring until its current slot lies in the future. */
    method Reap(reapTsc: nat, ghost w: Wheel)
      requires Valid() && Shows(w)
      modifies this, txTsc, last
      ensures Valid() && Buckets() == old(Buckets())
      ensures Shape(w) && Shows(TimingWheel.Reap(w, reapTsc))
      ensures readyEntries == old(readyEntries) + |readyQueue| - old(|readyQueue|)
    {
      hide Parted, AllIn, SlotsOf, Paced, Chained, Turned, TimingWheel.Reap, Roll;
      ghost var v := w;
      SlotCount(bkts, chains);
      ShapeShown(Slots(), cur, w);
      while txTsc[cur] <= reapTsc
        invariant Valid() && Shows(v) && Shape(v) && Buckets() == old(Buckets())
        invariant TimingWheel.Reap(v, reapTsc) == TimingWheel.Reap(w, reapTsc)
        invariant readyEntries == old(readyEntries) + |readyQueue| - old(|readyQueue|)
        decreases reapTsc + 1 - txTsc[cur]
      {
        ReapUnfolds(v, reapTsc);
        SlotCount(bkts, chains);
        RollShown(Slots(), cur, v);
        RollOne(v);
        v := Roll(v);
      }
      ReapEnds(v, reapTsc);
    }

    /** Empty the current slot and make it the last one. */
    method RollOne(ghost v: Wheel)
      requires Valid() && Shows(v) && Shape(v)
      modifies this, txTsc, last
      ensures Valid() && Buckets() == old(Buckets()) && Shows(Roll(v)) && txTsc[cur] == old(txTsc[cur]) + width
      ensures readyEntries == old(readyEntries) + |readyQueue| - old(|readyQueue|)
    {
      hide Parted, AllIn, SlotsOf, Paced, Chained, Turned;
      SlotCount(bkts, chains);
      TurnOne(Slots(), cur);
      PacedOn(txTsc[..], cur, width);
      ReapWslot(cur);
      ghost var tx := txTsc[..];
      txTsc[cur] := txTsc[cur] + width * numWslots;
      assert txTsc[..] == tx[cur := tx[cur] + width * numWslots];
      cur := cur + 1;
      if cur == numWslots {
        cur := 0;
      }
    }

    /** Take entries off the front of the ready queue until as many are left as are still counted. */
    method DropConsumed(ghost w: Wheel)
      requires Valid() && Shows(w) && readyEntries <= |readyQueue|
      modifies `readyQueue
      ensures Valid() && Shows(w.(ready := w.ready[|w.ready| - readyEntries..]))
    {
      hide Parted, AllIn, SlotsOf, Paced, Chained, Turned;
      while |readyQueue| > readyEntries
        invariant readyEntries <= |readyQueue| <= |w.ready| && readyQueue == w.ready[|w.ready| - |readyQueue|..]
        decreases |readyQueue|
      {
        DropOne(w.ready, |w.ready| - |readyQueue|);
        readyQueue := readyQueue[1..];
      }
    }

    /** Put an entry on the wheel. The two fatal tests are the preconditions. */
    method Insert(ent: Ent, refTsc: nat, ghost w: Wheel)
      requires Valid() && Shows(w) && Shape(w) && Insertable(w, ent, refTsc, horizon)
      requires BKT_CAP * Buckets() > |Flat(w.ring)|
      modifies this, txTsc, last
      ensures Valid() && Buckets() == old(Buckets()) && Shows(TimingWheel.Insert(w, ent, refTsc))
      ensures readyEntries == old(readyEntries) + |readyQueue| - old(|readyQueue|)
    {
      hide Parted, AllIn, SlotsOf, Paced, Chained, Turned, TimingWheel.Reap;
      Reap(refTsc, w);
      ghost var v := TimingWheel.Reap(w, refTsc);
      ReapShrinks(w, refTsc);
      PoolSuffices(this, v);
      SlotCount(bkts, chains);
      ShapeShown(Slots(), cur, v);
      var desired := ent.desired;
      var dst, delta := cur, 0;
      if desired > txTsc[cur] {
        delta := 1 + (desired - txTsc[cur]) / width;
        dst := cur + delta;
        if dst >= numWslots {
          dst := dst - numWslots;
        }
      }
      TurnedAt(Slots(), cur, delta);
      PutTurned(Slots(), cur, delta, Slots()[dst] + [ent]);
      WsLast(bkts, chains, bktPool, owner, dst);
      InsertIntoWslot(dst, ent);
    }
  }

  lemma FreshParted(bkts: map<Id, Bkt>, chains: seq<seq<Id>>, pool: seq<Id>, owner: map<Id, nat>, n: nat, m: nat)
    requires n > 1 && |chains| == n && |pool| == m
    requires forall i :: 0 <= i < n ==> chains[i] == [i]
    requires forall i :: 0 <= i < m ==> pool[i] == n + i
    requires forall i :: 0 <= i < n + m ==> i in bkts && bkts[i] == Bkt([], None)
    requires forall i :: 0 <= i < n + m ==> i in owner && owner[i] == if i < n then i else n
    ensures Parted(bkts, chains, pool, owner) && AllIn(bkts, chains) && Chained(chains) == 0
    ensures SlotsOf(bkts, chains) == seq(n, _ => [])
  {
    forall j | 0 <= j < n
      ensures ChainOk(bkts, chains[j]) && ChainIn(bkts, chains[j]) && EntriesOf(bkts, chains[j]) == []
    {
      assert BktOk(bkts, chains[j], 0);
      assert EntriesOf(bkts, [j]) == bkts[j].entries + EntriesOf(bkts, []);
    }
    NoneChained(chains);
  }

  lemma {:induction false} NoneChained(chains: seq<seq<Id>>)
    requires forall i :: 0 <= i < |chains| ==> |chains[i]| == 1
    ensures Chained(chains) == 0
  {
    if chains != [] {
      NoneChained(chains[1..]);
    }
  }

  lemma WsLast(bkts: map<Id, Bkt>, chains: seq<seq<Id>>, pool: seq<Id>, owner: map<Id, nat>, ws: nat)
    requires Parted(bkts, chains, pool, owner) && ws < |chains|
    ensures ChainOk(bkts, chains[ws]) && chains[ws] != [] && chains[ws][0] == ws && DistinctIds(chains[ws])
    ensures var last := chains[ws][|chains[ws]| - 1]; last in bkts && |bkts[last].entries| < BKT_CAP
  {
    LastOf(bkts, chains[ws]);
  }

  lemma NothingEmptied(b0: map<Id, Bkt>, p0: seq<Id>, c: seq<Id>)
    ensures Emptied(b0, p0, b0, p0, c, 0)
  {
  }

  lemma OnlyHeadIsSlot(c: seq<Id>, i: nat)
    requires DistinctIds(c) && i < |c|
    ensures c[i] == c[0] <==> i == 0
  {
  }

  lemma SlotIs(bkts: map<Id, Bkt>, chains: seq<seq<Id>>, ws: nat)
    requires AllIn(bkts, chains) && ws < |chains|
    ensures ChainIn(bkts, chains[ws]) && SlotsOf(bkts, chains)[ws] == EntriesOf(bkts, chains[ws])
    ensures |SlotsOf(bkts, chains)| == |chains|
  {
  }

  lemma SlotCount(bkts: map<Id, Bkt>, chains: seq<seq<Id>>)
    requires AllIn(bkts, chains)
    ensures |SlotsOf(bkts, chains)| == |chains|
  {
  }

  lemma ShapeShown(slots: seq<seq<Ent>>, cur: nat, w: Wheel)
    requires cur < |slots| && w.ring == Turned(slots, cur)
    ensures |w.ring| == |slots|
  {
  }

  lemma RollShown(slots: seq<seq<Ent>>, cur: nat, v: Wheel)
    requires cur < |slots| && v.ring == Turned(slots, cur) && Shape(v)
    ensures Shape(Roll(v))
  {
  }

  lemma ReapUnfolds(w: Wheel, now: nat)
    requires Shape(w) && w.first <= now
    ensures TimingWheel.Reap(w, now) == TimingWheel.Reap(Roll(w), now)
  {
  }

  lemma ReapEnds(w: Wheel, now: nat)
    requires Shape(w) && w.first > now
    ensures TimingWheel.Reap(w, now) == w
  {
  }

  lemma ReapShrinks(w: Wheel, now: nat)
    requires Shape(w)
    ensures |Flat(TimingWheel.Reap(w, now).ring)| <= |Flat(w.ring)|
    decreases now + 1 - w.first
  {
    if w.first <= now {
      FlatConcat(w.ring[1..], [[]]);
      assert Flat([[]]) == [];
      ReapShrinks(Roll(w), now);
    }
  }

  /** While the wheel holds fewer entries than the pool's buckets could, there is a spare bucket. */
  lemma PoolSuffices(ring: WheelRing, w: Wheel)
    requires ring.Valid() && ring.Shows(w) && BKT_CAP * ring.Buckets() > |Flat(w.ring)|
    ensures ring.bktPool != []
  {
    ChainedAtMost(ring.bkts, ring.chains);
    var slots := ring.Slots();
    FlatLength(slots[ring.cur..], slots[..ring.cur]);
    assert slots[..ring.cur] + slots[ring.cur..] == slots;
  }

  lemma DropOne(s: seq<Ent>, n: nat)
    requires n < |s|
    ensures s[n..][1..] == s[n + 1..]
  {
  }
}
