/**
 * The reordering queue: entries in the order of the wrapped comparator, searched from the front. Within one window of
 * sequence numbers that order is a total order, so the queue is a map and its front is the number nearest to the expected.
 */
module ReassemblyQueue {
  import opened SerialNumbers
  import opened SackBitmap
  import opened Packets

  datatype Entry = Entry(seqno: U32, off: Off)

  ghost predicate Sorted(q: seq<Entry>) {
    forall i, j :: 0 <= i < j < |q| ==> SeqLt(q[i].seqno, q[j].seqno)
  }

  /** Every entry lies in the window that starts at `base`. */
  ghost predicate InWindow(q: seq<Entry>, base: U32) {
    forall i :: 0 <= i < |q| ==> Sub(q[i].seqno, base) < BITS
  }

  ghost predicate Listed(q: seq<Entry>, s: U32) {
    exists i :: 0 <= i < |q| && q[i].seqno == s
  }

  /** The queue holds exactly the entries of the map. */
  ghost predicate Holds(q: seq<Entry>, m: map<U32, Off>, base: U32) {
    && Sorted(q) && InWindow(q, base)
    && (forall s :: s in m <==> Listed(q, s))
    && (forall i :: 0 <= i < |q| && q[i].seqno in m ==> m[q[i].seqno] == q[i].off)
  }

  /** The first entry that does not come before `seqno`. */
  method LowerBound(q: seq<Entry>, seqno: U32) returns (i: nat)
    ensures i <= |q| && (forall j :: 0 <= j < i ==> SeqLt(q[j].seqno, seqno))
    ensures i < |q| ==> !SeqLt(q[i].seqno, seqno)
  {
    hide SeqLt;
    i := 0;
    while i < |q| && SeqLt(q[i].seqno, seqno)
      invariant i <= |q| && forall j :: 0 <= j < i ==> SeqLt(q[j].seqno, seqno)
    {
      i := i + 1;
    }
  }

  /** Looking at the lower bound alone decides whether a number of the window is listed. */
  lemma FoundAtLowerBound(q: seq<Entry>, m: map<U32, Off>, base: U32, seqno: U32, i: nat)
    requires Holds(q, m, base) && Sub(seqno, base) < BITS
    requires i <= |q| && (forall j :: 0 <= j < i ==> SeqLt(q[j].seqno, seqno)) && (i < |q| ==> !SeqLt(q[i].seqno, seqno))
    ensures seqno in m <==> i < |q| && q[i].seqno == seqno
    ensures seqno !in m ==> forall j :: i <= j < |q| ==> SeqLt(seqno, q[j].seqno)
  {
    hide SeqLt, Sub;
    forall j | 0 <= j < |q|
      ensures q[j].seqno == seqno ==> j == i
      ensures j >= i && q[j].seqno != seqno && !(i < |q| && q[i].seqno == seqno) ==> SeqLt(seqno, q[j].seqno)
    {
      LtByDistance(q[j].seqno, seqno, base);
      LtByDistance(seqno, q[j].seqno, base);
      if i < |q| {
        LtByDistance(q[i].seqno, seqno, base);
        if i < j {
          assert SeqLt(q[i].seqno, q[j].seqno);
          LtByDistance(q[i].seqno, q[j].seqno, base);
        }
      }
    }
  }

  function Inserted(q: seq<Entry>, e: Entry, i: nat): (p: seq<Entry>)
    requires i <= |q|
    ensures |p| == |q| + 1
    ensures forall j :: 0 <= j < |p| ==> p[j] == if j < i then q[j] else if j == i then e else q[j - 1]
  {
    q[..i] + [e] + q[i..]
  }

  lemma InsertedLists(q: seq<Entry>, e: Entry, i: nat, s: U32)
    requires i <= |q|
    ensures Listed(Inserted(q, e, i), s) <==> s == e.seqno || Listed(q, s)
  {
    var p := Inserted(q, e, i);
    hide Inserted;
    if s == e.seqno {
      assert p[i].seqno == s;
    }
    if Listed(q, s) {
      var j :| 0 <= j < |q| && q[j].seqno == s;
      assert p[if j < i then j else j + 1].seqno == s;
    }
    if s != e.seqno && Listed(p, s) {
      var j :| 0 <= j < |p| && p[j].seqno == s;
      assert q[if j < i then j else j - 1].seqno == s;
    }
  }

  /** Inserting a new number before its lower bound. */
  lemma InsertKeeps(q: seq<Entry>, m: map<U32, Off>, base: U32, e: Entry, i: nat)
    requires Holds(q, m, base) && Sub(e.seqno, base) < BITS && e.seqno !in m && i <= |q|
    requires forall j :: 0 <= j < i ==> SeqLt(q[j].seqno, e.seqno)
    requires forall j :: i <= j < |q| ==> SeqLt(e.seqno, q[j].seqno)
    ensures Holds(Inserted(q, e, i), m[e.seqno := e.off], base)
  {
    var p := Inserted(q, e, i);
    hide SeqLt, Sub, Inserted;
    forall s
      ensures s in m[e.seqno := e.off] <==> Listed(p, s)
    {
      InsertedLists(q, e, i, s);
    }
    forall j | 0 <= j < |q|
      ensures q[j].seqno in m && q[j].seqno != e.seqno
    {
      assert Listed(q, q[j].seqno);
    }
    hide Listed;
  }

  /** The expected number is listed exactly when it is at the front. */
  lemma ExpectedIsInFront(q: seq<Entry>, m: map<U32, Off>, base: U32)
    requires Holds(q, m, base)
    ensures base in m <==> q != [] && q[0].seqno == base
    ensures base in m ==> m[base] == q[0].off
  {
    hide SeqLt, Sub;
    BaseIsFirst(base);
    if base in m {
      var i :| 0 <= i < |q| && q[i].seqno == base;
      if i > 0 {
        assert SeqLt(q[0].seqno, q[i].seqno);
        LtByDistance(q[0].seqno, base, base);
        assert false;
      }
    } else if q != [] {
      assert Listed(q, q[0].seqno);
    }
  }

  lemma BaseIsFirst(base: U32)
    ensures Sub(base, base) == 0
  {
  }

  /** Taking the expected number off the front and moving the window on. */
  lemma PopKeeps(q: seq<Entry>, m: map<U32, Off>, base: U32)
    requires Holds(q, m, base) && q != [] && q[0].seqno == base
    ensures Holds(q[1..], m - {base}, (base + 1) % TWO32)
  {
    hide SeqLt, Sub;
    var rest := q[1..];
    forall j | 0 <= j < |rest|
      ensures rest[j].seqno != base && Sub(rest[j].seqno, (base + 1) % TWO32) < BITS && rest[j].seqno in m
    {
      assert SeqLt(q[0].seqno, q[j + 1].seqno);
      LtByDistance(base, q[j + 1].seqno, base);
      DistanceShrinks(rest[j].seqno, base);
      assert Listed(q, q[j + 1].seqno);
    }
    forall s
      ensures s in m - {base} <==> Listed(rest, s)
    {
      if s in m && s != base {
        var j :| 0 <= j < |q| && q[j].seqno == s;
        assert rest[j - 1].seqno == s;
      }
    }
  }

  lemma DistanceShrinks(s: U32, base: U32)
    requires s != base
    ensures Sub(s, (base + 1) % TWO32) == Sub(s, base) - 1
  {
    SubIsCyclic(s, base);
    SubIsCyclic(s, (base + 1) % TWO32);
  }

  /** Nothing listed comes before the expected number. */
  lemma NothingBeforeExpected(q: seq<Entry>, m: map<U32, Off>, base: U32)
    requires Holds(q, m, base) && q != []
    ensures !SeqLt(q[0].seqno, base)
  {
    hide SeqLt, Sub;
    BaseIsFirst(base);
    LtByDistance(q[0].seqno, base, base);
  }
}
