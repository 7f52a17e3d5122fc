/**
 * Retransmission timers kept in a binary heap with an index from each queue pair to its place. The objects below are
 * proved against the plain view of them: a map from queue pairs to their armed timers.
 */
module TimerManager {
  const TWO64 := 0x1_0000_0000_0000_0000

  type Cycles = n: nat | n < TWO64

  /** The identity of a queue pair. */
  type Qpw = nat

  datatype TimerData = TimerData(rdmaCtx: nat, qpw: Qpw)

  datatype Node = Node(expire: Cycles, data: TimerData)

  function Parent(i: nat): nat
    requires i > 0
  {
    (i - 1) / 2
  }

  /** Every node's queue pair is indexed to its place, and the index holds nothing else. */
  ghost predicate Indexed(h: seq<Node>, m: map<Qpw, nat>) {
    && (forall i :: 0 <= i < |h| ==> h[i].data.qpw in m && m[h[i].data.qpw] == i)
    && (forall k :: k in m ==> m[k] < |h| && h[m[k]].data.qpw == k)
  }

  /** The armed timers. */
  ghost function Armed(h: seq<Node>, m: map<Qpw, nat>): map<Qpw, Node>
    requires Indexed(h, m)
  {
    map k | k in m :: h[m[k]]
  }

  predicate Before(h: seq<Node>, i: nat, j: nat)
    requires i < |h| && j < |h|
  {
    h[i].expire <= h[j].expire
  }

  /** No node expires before its parent. */
  ghost predicate Ordered(h: seq<Node>) {
    forall j :: 0 < j < |h| ==> Before(h, Parent(j), j)
  }

  /** Ordered except that node `i` may be too early for its place; its children are in order with its parent. */
  ghost predicate OrderedButUp(h: seq<Node>, i: nat) {
    && i < |h|
    && (forall j :: 0 < j < |h| && j != i ==> Before(h, Parent(j), j))
    && (i > 0 ==> forall j :: 0 < j < |h| && Parent(j) == i ==> Before(h, Parent(i), j))
  }

  /** Ordered except that node `i` may be too late for its place; its children are in order with its parent. */
  ghost predicate OrderedButDown(h: seq<Node>, i: nat) {
    && i < |h|
    && (forall j :: 0 < j < |h| && Parent(j) != i ==> Before(h, Parent(j), j))
    && (i > 0 ==> forall j :: 0 < j < |h| && Parent(j) == i ==> Before(h, Parent(i), j))
  }

  function Swap(h: seq<Node>, a: nat, b: nat): seq<Node>
    requires a < |h| && b < |h|
  {
    h[a := h[b]][b := h[a]]
  }

  function SwapIndex(h: seq<Node>, m: map<Qpw, nat>, a: nat, b: nat): map<Qpw, nat>
    requires a < |h| && b < |h|
  {
    m[h[b].data.qpw := a][h[a].data.qpw := b]
  }

  lemma SwapKeepsTimers(h: seq<Node>, m: map<Qpw, nat>, a: nat, b: nat)
    requires a < |h| && b < |h| && a != b && Indexed(h, m)
    ensures Indexed(Swap(h, a, b), SwapIndex(h, m, a, b))
    ensures Armed(Swap(h, a, b), SwapIndex(h, m, a, b)) == Armed(h, m)
  {
  }

  /** The root of an ordered heap expires first. */
  lemma {:induction false} RootIsFirst(h: seq<Node>, i: nat)
    requires Ordered(h) && i < |h|
    ensures h[0].expire <= h[i].expire
    decreases i
  {
    if i > 0 {
      assert Before(h, Parent(i), i);
      RootIsFirst(h, Parent(i));
    }
  }

  /** Swapping a node that is too early with its parent moves the flaw up. */
  lemma SwapUp(h: seq<Node>, i: nat)
    requires OrderedButUp(h, i) && i > 0 && !Before(h, Parent(i), i)
    ensures OrderedButUp(Swap(h, i, Parent(i)), Parent(i))
  {
    var p, g := Parent(i), Swap(h, i, Parent(i));
    forall j | 0 < j < |g| && j != p
      ensures Before(g, Parent(j), j)
    {
      assert j != i ==> Before(h, Parent(j), j);
    }
    if p > 0 {
      assert Before(h, Parent(p), p);
      forall j | 0 < j < |g| && Parent(j) == p
        ensures Before(g, Parent(p), j)
      {
        assert j != i ==> Before(h, Parent(j), j);
      }
    }
  }

  lemma OrderedIfNotUp(h: seq<Node>, i: nat)
    requires OrderedButUp(h, i) && (i == 0 || Before(h, Parent(i), i))
    ensures Ordered(h)
  {
  }

  /** The child that expires first, or the node itself if no child expires before it. */
  ghost predicate Smallest(h: seq<Node>, i: nat, s: nat) {
    && i < |h| && s < |h| && (s == i || (s > 0 && Parent(s) == i && !Before(h, i, s)))
    && forall j :: 0 < j < |h| && Parent(j) == i ==> Before(h, s, j)
  }

  /** Swapping a node that is too late with its first child moves the flaw down. */
  lemma SwapDown(h: seq<Node>, i: nat, s: nat)
    requires OrderedButDown(h, i) && Smallest(h, i, s) && s != i
    ensures OrderedButDown(Swap(h, i, s), s)
  {
    var g := Swap(h, i, s);
    forall j | 0 < j < |g| && Parent(j) != s
      ensures Before(g, Parent(j), j)
    {
      assert Parent(j) != i ==> Before(h, Parent(j), j);
      if Parent(j) == i {
        assert Before(h, s, j);
      } else if j == i {
        assert Before(h, Parent(i), s);
      }
    }
    forall j | 0 < j < |g| && Parent(j) == s
      ensures Before(g, Parent(s), j)
    {
      assert Before(h, Parent(j), j);
    }
  }

  lemma OrderedIfNotDown(h: seq<Node>, i: nat)
    requires OrderedButDown(h, i) && Smallest(h, i, i)
    ensures Ordered(h)
  {
  }

  class TimerManager {
    var heap: seq<Node>
    var qpwMap: map<Qpw, nat>
    const timeout: Cycles

    ghost predicate Valid()
      reads this
    {
      Indexed(heap, qpwMap) && Ordered(heap)
    }

    ghost function View(): map<Qpw, Node>
      requires Indexed(heap, qpwMap)
      reads this
    {
      Armed(heap, qpwMap)
    }

    constructor (timeout: Cycles)
      ensures Valid() && View() == map[] && this.timeout == timeout
    {
      this.timeout := timeout;
      heap, qpwMap := [], map[];
    }

    method SwapNodes(a: nat, b: nat)
      requires Indexed(heap, qpwMap) && a < |heap| && b < |heap| && a != b
      modifies `heap, `qpwMap
      ensures heap == Swap(old(heap), a, b) && Indexed(heap, qpwMap) && View() == old(View())
    {
      SwapKeepsTimers(heap, qpwMap, a, b);
      heap := heap[a := heap[b]][b := heap[a]];
      qpwMap := qpwMap[heap[a].data.qpw := a][heap[b].data.qpw := b];
    }

    method HeapifyUp(start: nat)
      requires Indexed(heap, qpwMap) && OrderedButUp(heap, start)
      modifies `heap, `qpwMap
      ensures Valid() && View() == old(View()) && |heap| == old(|heap|)
    {
      var index: nat := start;
      while index > 0
        invariant Indexed(heap, qpwMap) && OrderedButUp(heap, index) && View() == old(View()) && |heap| == old(|heap|)
      {
        var parent := (index - 1) / 2;
        if heap[index].expire < heap[parent].expire {
          SwapUp(heap, index);
          SwapNodes(index, parent);
          index := parent;
        } else {
          break;
        }
      }
      OrderedIfNotUp(heap, index);
    }

    method HeapifyDown(start: nat)
      requires Indexed(heap, qpwMap) && OrderedButDown(heap, start)
      modifies `heap, `qpwMap
      ensures Valid() && View() == old(View()) && |heap| == old(|heap|)
    {
      var index: nat := start;
      while true
        invariant Indexed(heap, qpwMap) && OrderedButDown(heap, index) && View() == old(View()) && |heap| == old(|heap|)
        decreases |heap| - index
      {
        var smallest, left, right := index, 2 * index + 1, 2 * index + 2;
        if left < |heap| && heap[left].expire < heap[smallest].expire {
          smallest := left;
        }
        if right < |heap| && heap[right].expire < heap[smallest].expire {
          smallest := right;
        }
        ChildrenAre(heap, index, smallest);
        if smallest != index {
          SwapDown(heap, index, smallest);
          SwapNodes(index, smallest);
          index := smallest;
        } else {
          OrderedIfNotDown(heap, index);
          break;
        }
      }
    }

    /** Node `index` may be out of place either way. */
    method AdjustHeapNode(index: nat)
      requires Indexed(heap, qpwMap) && Loose(heap, index)
      modifies `heap, `qpwMap
      ensures Valid() && View() == old(View()) && |heap| == old(|heap|)
    {
      if index > 0 && heap[index].expire < heap[(index - 1) / 2].expire {
        LooseUp(heap, index);
        HeapifyUp(index);
      } else {
        LooseDown(heap, index);
        HeapifyDown(index);
      }
    }

    method AddTimer(data: TimerData, expire: Cycles)
      requires Valid() && data.qpw !in qpwMap
      modifies `heap, `qpwMap
      ensures Valid() && View() == old(View())[data.qpw := Node(expire, data)]
    {
      AppendKeeps(heap, qpwMap, Node(expire, data));
      heap := heap + [Node(expire, data)];
      qpwMap := qpwMap[data.qpw := |heap| - 1];
      HeapifyUp(|heap| - 1);
    }

    /** Arm a timer unless one is armed for the queue pair already. */
    method ArmTimer(data: TimerData, now: Cycles)
      requires Valid()
      modifies `heap, `qpwMap
      ensures Valid()
      ensures View() == if data.qpw in old(View()) then old(View())
                        else old(View())[data.qpw := Node((now + timeout) % TWO64, data)]
    {
      if data.qpw !in qpwMap {
        AddTimer(data, (now + timeout) % TWO64);
      }
    }

    /** Arm a timer, or move the one that is armed; the one that is armed keeps its data. */
    method RearmTimer(data: TimerData, now: Cycles)
      requires Valid()
      modifies `heap, `qpwMap
      ensures Valid()
      ensures var expire: Cycles := (now + timeout) % TWO64;
        View() == old(View())[data.qpw := if data.qpw in old(View()) then old(View())[data.qpw].(expire := expire)
                                          else Node(expire, data)]
    {
      var expire: Cycles := (now + timeout) % TWO64;
      if data.qpw in qpwMap {
        var index := qpwMap[data.qpw];
        UpdateKeeps(heap, qpwMap, index, expire);
        heap := heap[index := heap[index].(expire := expire)];
        AdjustHeapNode(index);
      } else {
        AddTimer(data, expire);
      }
    }

    method DisarmTimer(data: TimerData)
      requires Valid()
      modifies `heap, `qpwMap
      ensures Valid() && View() == old(View()) - {data.qpw}
    {
      hide Ordered, Loose, Armed;
      if data.qpw !in qpwMap {
        NotArmed(heap, qpwMap, data.qpw);
        return;
      }
      var index := qpwMap[data.qpw];
      RemoveKeeps(heap, qpwMap, index);
      qpwMap := qpwMap - {data.qpw};
      if index == |heap| - 1 {
        heap := heap[..|heap| - 1];
      } else {
        heap := heap[index := heap[|heap| - 1]];
        qpwMap := qpwMap[heap[index].data.qpw := index];
        heap := heap[..|heap| - 1];
        AdjustHeapNode(index);
      }
    }

    /** Take the root out of the heap. */
    method PopRoot()
      requires Valid() && heap != []
      modifies `heap, `qpwMap
      ensures Valid() && View() == old(View()) - {old(heap[0]).data.qpw} && |heap| == old(|heap|) - 1
    {
      hide Armed, Ordered, Loose, Indexed;
      RemoveKeeps(heap, qpwMap, 0);
      RefilledParts(heap, qpwMap);
      qpwMap := qpwMap - {heap[0].data.qpw};
      if |heap| > 1 {
        heap := heap[0 := heap[|heap| - 1]];
        qpwMap := qpwMap[heap[0].data.qpw := 0];
      }
      heap := heap[..|heap| - 1];
      if heap != [] {
        LooseDown(heap, 0);
        HeapifyDown(0);
      }
    }

    /**
     * Take out the timers that have expired. They come in the order of their expiry, each once; exactly those due come, and
     * exactly the others stay armed.
     */
    method CheckExpired(now: Cycles) returns (expired: seq<TimerData>, ghost nodes: seq<Node>)
      requires Valid()
      modifies `heap, `qpwMap
      ensures Valid() && View() == Later(old(View()), now)
      ensures |expired| == |nodes| && forall i :: 0 <= i < |nodes| ==> expired[i] == nodes[i].data
      ensures forall i, j :: 0 <= i < j < |nodes| ==> nodes[i].expire <= nodes[j].expire && nodes[i].data.qpw != nodes[j].data.qpw
      ensures forall i :: 0 <= i < |nodes| ==> nodes[i].expire <= now && Holds(old(View()), nodes[i])
      ensures forall k :: k in old(View()) && old(View())[k].expire <= now ==> old(View())[k] in nodes
    {
      hide Armed, Ordered, Indexed;
      ghost var timers := View();
      expired, nodes := [], [];
      NothingTaken(heap, qpwMap);
      while heap != [] && heap[0].expire <= now
        invariant Valid() && |expired| == |nodes| && forall i :: 0 <= i < |nodes| ==> expired[i] == nodes[i].data
        invariant Split(timers, View(), nodes, now)
        decreases |heap|
      {
        RootIsDue(heap, qpwMap, timers, nodes, now);
        expired, nodes := expired + [heap[0].data], nodes + [heap[0]];
        PopRoot();
      }
      RestIsLater(heap, qpwMap, timers, nodes, now);
    }
  }

  // ----- Expiry -----

  /** The timers that have not expired yet. */
  ghost function Later(timers: map<Qpw, Node>, now: Cycles): map<Qpw, Node> {
    map k | k in timers && timers[k].expire > now :: timers[k]
  }

  ghost predicate Holds(timers: map<Qpw, Node>, n: Node) {
    n.data.qpw in timers && timers[n.data.qpw] == n
  }

  /** `nodes` are timers taken out in order of expiry, all due, and none of those left expires before any of them. */
  ghost predicate Split(timers: map<Qpw, Node>, left: map<Qpw, Node>, nodes: seq<Node>, now: Cycles) {
    && (forall k :: k in left ==> k in timers && left[k] == timers[k])
    && (forall k :: k in timers ==> k in left || timers[k] in nodes)
    && (forall i :: 0 <= i < |nodes| ==> nodes[i].expire <= now && Holds(timers, nodes[i]) && nodes[i].data.qpw !in left)
    && (forall i, j :: 0 <= i < j < |nodes| ==> nodes[i].expire <= nodes[j].expire && nodes[i].data.qpw != nodes[j].data.qpw)
    && (forall i, k :: 0 <= i < |nodes| && k in left ==> nodes[i].expire <= left[k].expire)
  }

  lemma NothingTaken(h: seq<Node>, m: map<Qpw, nat>)
    requires Indexed(h, m)
    ensures forall now :: Split(Armed(h, m), Armed(h, m), [], now)
  {
  }

  lemma RefilledParts(h: seq<Node>, m: map<Qpw, nat>)
    requires h != []
    ensures |h| > 1 ==> Refilled(h, 0) == h[0 := h[|h| - 1]][..|h| - 1]
    ensures |h| == 1 ==> Refilled(h, 0) == []
  {
  }

  /** The root is in the view under its own queue pair, and expires before everything else in it. */
  lemma RootInView(h: seq<Node>, m: map<Qpw, nat>)
    requires Indexed(h, m) && Ordered(h) && h != []
    ensures h[0].data.qpw in Armed(h, m) && Armed(h, m)[h[0].data.qpw] == h[0]
    ensures forall k :: k in Armed(h, m) ==> h[0].expire <= Armed(h, m)[k].expire && Armed(h, m)[k].data.qpw == k
  {
    forall k | k in m
      ensures h[0].expire <= h[m[k]].expire
    {
      RootIsFirst(h, m[k]);
    }
  }

  lemma RootIsDue(h: seq<Node>, m: map<Qpw, nat>, timers: map<Qpw, Node>, nodes: seq<Node>, now: Cycles)
    requires Indexed(h, m) && Ordered(h) && h != [] && h[0].expire <= now
    requires Split(timers, Armed(h, m), nodes, now)
    ensures Split(timers, Armed(h, m) - {h[0].data.qpw}, nodes + [h[0]], now)
  {
    RootInView(h, m);
    var v := Armed(h, m);
    hide Armed, Indexed, Ordered;
    var ns := nodes + [h[0]];
    forall k | k in timers
      ensures k in v - {h[0].data.qpw} || timers[k] in ns
    {
      if timers[k] in nodes {
        assert timers[k] in ns;
      } else if k == h[0].data.qpw {
        assert ns[|nodes|] == timers[k];
      }
    }
  }

  lemma RestIsLater(h: seq<Node>, m: map<Qpw, nat>, timers: map<Qpw, Node>, nodes: seq<Node>, now: Cycles)
    requires Indexed(h, m) && Ordered(h) && (h == [] || h[0].expire > now)
    requires Split(timers, Armed(h, m), nodes, now) 
    ensures Armed(h, m) == Later(timers, now)
    ensures forall k :: k in timers && timers[k].expire <= now ==> timers[k] in nodes
  {
    var v := Armed(h, m);
    if h != [] {
      RootInView(h, m);
    } else {
      assert v == map[];
    }
    hide Armed, Indexed, Ordered;
    forall k | k in timers
      ensures k in v <==> timers[k].expire > now
    {
      if timers[k] in nodes {
        var i :| 0 <= i < |nodes| && nodes[i] == timers[k];
        assert nodes[i].expire <= now;
      }
    }
  }

  lemma ChildrenAre(h: seq<Node>, i: nat, s: nat)
    requires i < |h|
    requires var left, right := 2 * i + 1, 2 * i + 2;
      var a := if left < |h| && h[left].expire < h[i].expire then left else i;
      s == if right < |h| && h[right].expire < h[a].expire then right else a
    ensures Smallest(h, i, s) && (s != i ==> s > i)
  {
    forall j | 0 < j < |h| && Parent(j) == i
      ensures j == 2 * i + 1 || j == 2 * i + 2
    {
    }
  }

  /** Ordered apart from node `i`, around which its parent and its children are in order. */
  ghost predicate Loose(h: seq<Node>, i: nat) {
    && i < |h|
    && (forall j :: 0 < j < |h| && j != i && Parent(j) != i ==> Before(h, Parent(j), j))
    && (i > 0 ==> forall j :: 0 < j < |h| && Parent(j) == i ==> Before(h, Parent(i), j))
  }

  lemma LooseUp(h: seq<Node>, i: nat)
    requires Loose(h, i) && i > 0 && !Before(h, Parent(i), i)
    ensures OrderedButUp(h, i)
  {
    forall j | 0 < j < |h| && j != i
      ensures Before(h, Parent(j), j)
    {
      assert Parent(j) == i ==> Before(h, Parent(i), j);
    }
  }

  lemma LooseDown(h: seq<Node>, i: nat)
    requires Loose(h, i) && (i == 0 || Before(h, Parent(i), i))
    ensures OrderedButDown(h, i)
  {
  }

  lemma AppendKeeps(h: seq<Node>, m: map<Qpw, nat>, n: Node)
    requires Indexed(h, m) && Ordered(h) && n.data.qpw !in m
    ensures var h2, m2 := h + [n], m[n.data.qpw := |h|];
      Indexed(h2, m2) && Armed(h2, m2) == Armed(h, m)[n.data.qpw := n] && OrderedButUp(h2, |h|)
  {
    var h2 := h + [n];
    forall j | 0 < j < |h2| && j != |h|
      ensures Before(h2, Parent(j), j)
    {
      assert Before(h, Parent(j), j);
    }
  }

  lemma UpdateKeeps(h: seq<Node>, m: map<Qpw, nat>, i: nat, expire: Cycles)
    requires Indexed(h, m) && Ordered(h) && i < |h|
    ensures var h2 := h[i := h[i].(expire := expire)];
      Indexed(h2, m) && Armed(h2, m) == Armed(h, m)[h[i].data.qpw := h2[i]] && Loose(h2, i)
  {
    LooseAfter(h, h[i := h[i].(expire := expire)], i);
  }

  /** Changing one node of an ordered heap leaves it ordered apart from that node. */
  lemma LooseAfter(h: seq<Node>, g: seq<Node>, i: nat)
    requires Ordered(h) && i < |g| <= |h| && forall j :: 0 <= j < |g| && j != i ==> g[j] == h[j]
    ensures Loose(g, i)
  {
    forall j | 0 < j < |g| && j != i && Parent(j) != i
      ensures Before(g, Parent(j), j)
    {
      assert Before(h, Parent(j), j);
    }
    if i > 0 {
      assert Before(h, Parent(i), i);
      forall j | 0 < j < |g| && Parent(j) == i
        ensures Before(g, Parent(i), j)
      {
        assert Before(h, Parent(j), j);
      }
    }
  }

  /** The heap with the last node in the place of node `i`, and one node fewer. */
  function Refilled(h: seq<Node>, i: nat): seq<Node>
    requires i < |h|
  {
    h[i := h[|h| - 1]][..|h| - 1]
  }

  function RefilledIndex(h: seq<Node>, m: map<Qpw, nat>, i: nat): map<Qpw, nat>
    requires i < |h|
  {
    var rest := m - {h[i].data.qpw};
    if i == |h| - 1 then rest else rest[h[|h| - 1].data.qpw := i]
  }

  lemma NotArmed(h: seq<Node>, m: map<Qpw, nat>, k: Qpw)
    requires Indexed(h, m) && k !in m
    ensures Armed(h, m) - {k} == Armed(h, m)
  {
  }

  lemma RefilledAt(h: seq<Node>, i: nat)
    requires i < |h|
    ensures |Refilled(h, i)| == |h| - 1
    ensures forall j :: 0 <= j < |h| - 1 ==> Refilled(h, i)[j] == if j == i then h[|h| - 1] else h[j]
  {
  }

  lemma RefilledOrder(h: seq<Node>, i: nat)
    requires Ordered(h) && i < |h|
    ensures if i == |h| - 1 then Ordered(Refilled(h, i)) else Loose(Refilled(h, i), i)
  {
    RefilledAt(h, i);
    var g := Refilled(h, i);
    hide Refilled;
    if i < |h| - 1 {
      LooseAfter(h, g, i);
    } else {
      forall j | 0 < j < |g|
        ensures Before(g, Parent(j), j)
      {
        assert Before(h, Parent(j), j);
      }
    }
  }

  lemma RefilledIsIndexed(h: seq<Node>, m: map<Qpw, nat>, i: nat)
    requires Indexed(h, m) && i < |h|
    ensures Indexed(Refilled(h, i), RefilledIndex(h, m, i))
  {
    RefilledAt(h, i);
    var g, n := Refilled(h, i), RefilledIndex(h, m, i);
    hide Refilled;
    forall j | 0 <= j < |g|
      ensures g[j].data.qpw in n && n[g[j].data.qpw] == j
    {
      assert h[j].data.qpw in m && h[|h| - 1].data.qpw in m && h[i].data.qpw in m;
    }
    forall k | k in n
      ensures n[k] < |g| && g[n[k]].data.qpw == k
    {
      assert h[|h| - 1].data.qpw in m && h[i].data.qpw in m;
    }
  }

  lemma RemoveKeeps(h: seq<Node>, m: map<Qpw, nat>, i: nat)
    requires Indexed(h, m) && Ordered(h) && i < |h|
    ensures Indexed(Refilled(h, i), RefilledIndex(h, m, i))
    ensures Armed(Refilled(h, i), RefilledIndex(h, m, i)) == Armed(h, m) - {h[i].data.qpw}
    ensures if i == |h| - 1 then Ordered(Refilled(h, i)) else Loose(Refilled(h, i), i)
  {
    RefilledOrder(h, i);
    RefilledIsIndexed(h, m, i);
    RefilledAt(h, i);
    hide Ordered, Loose, Refilled;
    var g, n := Refilled(h, i), RefilledIndex(h, m, i);
    assert Armed(g, n) == Armed(h, m) - {h[i].data.qpw};
  }
}
