/** Exactly when core_bench_list gives the list back: the data always, the order only if no two
    nodes share an index.
 */
module CoreListExact {
  import opened CoreUtil
  import opened CoreMatrix
  import opened ListSort
  import opened ListSortProof
  import opened CoreList
  import opened CoreListProof
  import opened Arithmetic

  // ------------------------------------------------------------------
  // The last sort, from any order
  // ------------------------------------------------------------------

  ghost predicate WeaklyIncreasing(info: seq<nat>, idx: seq<s16>, nodes: seq<nat>)
    requires InBlock(info, |idx|, nodes)
  {
    forall i, j | 0 <= i < j < |nodes| :: idx[info[nodes[i]]] <= idx[info[nodes[j]]]
  }

  /** Nodes with the same index stand in the shuffled list in the order they have in the list. */
  ghost predicate TiesInOrder(info: seq<nat>, idx: seq<s16>, nodes: seq<nat>, shuffled: seq<nat>)
    requires InBlock(info, |idx|, nodes)
  {
    forall i, j | 0 <= i < j < |nodes| ::
      idx[info[nodes[i]]] == idx[info[nodes[j]]] ==> Position(shuffled, nodes[i]) < Position(shuffled, nodes[j])
  }

  lemma {:induction false} PositionBound(nodes: seq<nat>, x: nat)
    ensures Position(nodes, x) <= |nodes|
  {
    if nodes != [] && nodes[0] != x {
      PositionBound(nodes[1..], x);
    }
  }

  /** Index first, then place in the list before the sort. */
  function StableKey(info: seq<nat>, idx: seq<s16>, before: seq<nat>): nat -> int {
    (x: nat) => (if HasSlot(info, |idx|, x) then (idx[info[x]] as int) * (|before| + 1) else 0) + Position(before, x)
  }

  lemma StableKeyLess(info: seq<nat>, idx: seq<s16>, before: seq<nat>, x: nat, y: nat)
    requires HasSlot(info, |idx|, x) && HasSlot(info, |idx|, y)
    requires idx[info[x]] < idx[info[y]] || (idx[info[x]] == idx[info[y]] && Position(before, x) < Position(before, y))
    ensures StableKey(info, idx, before)(x) < StableKey(info, idx, before)(y)
  {
    var n, u, v := |before| + 1, idx[info[x]] as int, idx[info[y]] as int;
    PositionBound(before, x);
    if u < v {
      MultipleGap(n, u, v);
      assert n * u == u * n && n * v == v * n;
    }
  }

  /** Sorted by index and stable from shuffled: there is only one such order. */
  lemma StableOrder(info: seq<nat>, idx: seq<s16>, nodes: seq<nat>, shuffled: seq<nat>, out: seq<nat>)
    requires InBlock(info, |idx|, nodes) && InBlock(info, |idx|, out) && multiset(out) == multiset(nodes)
    requires StableByIndex(info, idx, shuffled, out)
    ensures out == nodes <==> WeaklyIncreasing(info, idx, nodes) && TiesInOrder(info, idx, nodes, shuffled)
  {
    var key := StableKey(info, idx, shuffled);
    if WeaklyIncreasing(info, idx, nodes) && TiesInOrder(info, idx, nodes, shuffled) {
      forall i, j | 0 <= i < j < |nodes|
        ensures key(nodes[i]) < key(nodes[j])
      {
        assert HasSlot(info, |idx|, nodes[i]) && HasSlot(info, |idx|, nodes[j]);
        StableKeyLess(info, idx, shuffled, nodes[i], nodes[j]);
      }
      forall i, j | 0 <= i < j < |out|
        ensures key(out[i]) < key(out[j])
      {
        assert HasSlot(info, |idx|, out[i]) && HasSlot(info, |idx|, out[j]);
        StableKeyLess(info, idx, shuffled, out[i], out[j]);
      }
      SortedUnique(key, out, nodes);
    }
  }

  /** Rebuilt from its backups, the data is what it was exactly if it was rebuilt before. */
  lemma RebuiltExactly(info: seq<nat>, data: seq<bv16>, nodes: seq<nat>, low: seq<bv16>, final: seq<bv16>, shuffled: seq<nat>)
    requires InBlock(info, |data|, nodes) && multiset(shuffled) == multiset(nodes)
    requires LowBytesOnly(info, data, low, nodes) && RebuiltFrom(info, low, final, shuffled)
    ensures final == data <==> AllRebuilt(info, data, nodes)
  {
    hide Rebuild;
    if AllRebuilt(info, data, nodes) {
      RebuiltRestores(info, data, nodes, low, final, shuffled);
    }
    if final == data {
      SlotsSame(info, nodes, shuffled);
      forall j | 0 <= j < |nodes|
        ensures Rebuilt(data[info[nodes[j]]])
      {
        var i := info[nodes[j]];
        assert nodes[j] in nodes && HasSlot(info, |data|, nodes[j]);
        assert i in Slots(info, nodes);
        RebuildSettles(low[i]);
      }
    }
  }

  /** The last sort of core_bench_list, from any order of the nodes and any data with the original
      backups: what it makes of the data and of the order, repeated indices or not. */
  lemma FinalSortOrders(info: seq<nat>, data: seq<bv16>, idx: seq<s16>, nodes: seq<nat>,
                        t: State<bv16, Kernel>, shuffled: seq<nat>)
    requires WellFormed(info, data, idx, nodes) && |nodes| >= 2
    requires multiset(shuffled) == multiset(nodes) && LowBytesOnly(info, data, t.data, nodes)
    ensures Fits(info, t.data, idx, shuffled)
    ensures var (u, out) := MergeSort(ByIndex(idx), info, t, shuffled);
            && multiset(out) == multiset(nodes) && InBlock(info, |idx|, out) && u.k == t.k
            && StableByIndex(info, idx, shuffled, out) && RebuiltFrom(info, t.data, u.data, shuffled)
            && (u.data == data <==> AllRebuilt(info, data, nodes))
            && (out == nodes <==> WeaklyIncreasing(info, idx, nodes) && TiesInOrder(info, idx, nodes, shuffled))
  {
    hide MergeSort, ByIndex, StableByIndex, WeaklyIncreasing, TiesInOrder, AllRebuilt, RebuiltFrom;
    SameInBlock(info, |data|, nodes, shuffled);
    SlotsSame(info, nodes, shuffled);
    SameMembers(nodes, shuffled);
    SortByIndexCorrect(info, idx, t, shuffled);
    var (u, out) := MergeSort(ByIndex(idx), info, t, shuffled);
    SameInBlock(info, |data|, nodes, out);
    RebuiltExactly(info, data, nodes, t.data, u.data, shuffled);
    StableOrder(info, idx, nodes, shuffled, out);
  }

  // ------------------------------------------------------------------
  // core_bench_list
  // ------------------------------------------------------------------

  /** The order in which the nodes reach the removal and the last sort. */
  ghost function Shuffled(cfg: Config, info: seq<nat>, data: seq<bv16>, idx: seq<s16>, nodes: seq<nat>, k: Kernel, finderIdx: s16)
    : (shuffled: seq<nat>)
    requires Fits(info, data, idx, nodes) && |nodes| >= 3
  {
    Sorted(cfg, info, data, k, Searched(cfg, info, data, idx, nodes, finderIdx).nodes, finderIdx).1
  }

  /** One call in terms of the order before its last sort. */
  lemma BenchListOrders(cfg: Config, info: seq<nat>, data: seq<bv16>, idx: seq<s16>, nodes: seq<nat>, k: Kernel, finderIdx: s16)
    requires WellFormed(info, data, idx, nodes) && |nodes| >= 3
    ensures var r, shuffled := BenchList(cfg, info, data, idx, nodes, k, finderIdx), Shuffled(cfg, info, data, idx, nodes, k, finderIdx);
            && multiset(r.nodes) == multiset(nodes) && multiset(shuffled) == multiset(nodes) && InBlock(info, |idx|, r.nodes)
            && r.info == info && StableByIndex(info, idx, shuffled, r.nodes)
            && (r.data == data <==> AllRebuilt(info, data, nodes))
  {
    hide MergeSort, ByIndex, ByData, SearchLoop;
    var s := Searched(cfg, info, data, idx, nodes, finderIdx);
    var (t, sorted) := Sorted(cfg, info, data, k, s.nodes, finderIdx);
    BeforeRemoval(cfg, info, data, idx, nodes, s, k, finderIdx);
    FinalSortOrders(info, data, idx, nodes, t, sorted);
    SameInBlock(info, |data|, nodes, sorted);
    SameMembers(nodes, sorted);
    FinishIs(info, idx, Wanted(s.wanted, LastData(cfg.seed3)), t, sorted, Score(s));
  }

  /** For each call: the data comes back exactly if its low bytes were the backups, and the order
      exactly if it was by index, with nodes of the same index last sorted in their old order. */
  lemma BenchListExactly(cfg: Config, info: seq<nat>, data: seq<bv16>, idx: seq<s16>, nodes: seq<nat>, k: Kernel, finderIdx: s16)
    requires WellFormed(info, data, idx, nodes) && |nodes| >= 3
    ensures var r, shuffled := BenchList(cfg, info, data, idx, nodes, k, finderIdx), Shuffled(cfg, info, data, idx, nodes, k, finderIdx);
            && r.info == info && (r.data == data <==> AllRebuilt(info, data, nodes))
            && (r.nodes == nodes <==> WeaklyIncreasing(info, idx, nodes) && TiesInOrder(info, idx, nodes, shuffled))
  {
    hide BenchList, Shuffled, StableByIndex, WeaklyIncreasing, TiesInOrder, AllRebuilt;
    BenchListOrders(cfg, info, data, idx, nodes, k, finderIdx);
    StableOrder(info, idx, nodes, Shuffled(cfg, info, data, idx, nodes, k, finderIdx),
                BenchList(cfg, info, data, idx, nodes, k, finderIdx).nodes);
  }

  /** One call leaves list and data as they were. */
  predicate Restores(cfg: Config, info: seq<nat>, data: seq<bv16>, idx: seq<s16>, nodes: seq<nat>, k: Kernel, finderIdx: s16)
    requires Fits(info, data, idx, nodes) && |nodes| >= 3
  {
    var r := BenchList(cfg, info, data, idx, nodes, k, finderIdx);
    r.nodes == nodes && r.info == info && r.data == data
  }

  /** With one search, for index 0, and a head of index 0: a plain reversal and no sort by data. */
  lemma OneReversal(cfg: Config, info: seq<nat>, data: seq<bv16>, idx: seq<s16>, nodes: seq<nat>, k: Kernel)
    requires Fits(info, data, idx, nodes) && |nodes| >= 3 && idx[info[nodes[0]]] == 0 && cfg.seed3 == 1
    ensures Shuffled(cfg, info, data, idx, nodes, k, 0) == Reverse(nodes)
  {
    var s := Search(nodes, 0, 0, 0, 0);
    assert Find(info, data, idx, nodes, Wanted(0, Word(0))) == 0;
    var t := SearchStep(info, data, idx, s, 0);
    assert t.nodes == Reverse(nodes);
    assert SearchLoop(info, data, idx, s, 0, 1) == SearchLoop(info, data, idx, t, 1, 1) == t;
  }

  /** No low byte of the list is 0, the value the first search by data is for. */
  ghost predicate NoLowZero(info: seq<nat>, data: seq<bv16>, nodes: seq<nat>)
    requires InBlock(info, |data|, nodes)
  {
    forall i | 0 <= i < |nodes| :: LowData(data[info[nodes[i]]]) != 0
  }

  lemma {:induction false} NothingFound(info: seq<nat>, data: seq<bv16>, idx: seq<s16>, nodes: seq<nat>)
    requires Fits(info, data, idx, nodes) && NoLowZero(info, data, nodes)
    ensures Find(info, data, idx, nodes, Wanted(-1, 0)) == |nodes|
  {
    hide LowData;
    if nodes != [] {
      forall i | 0 <= i < |nodes| - 1
        ensures LowData(data[info[nodes[1..][i]]]) != 0
      {
        assert nodes[1..][i] == nodes[i + 1];
      }
      NothingFound(info, data, idx, nodes[1..]);
    }
  }

  /** With one search, by data, that finds nothing: again a plain reversal and no sort by data. */
  lemma OneMiss(cfg: Config, info: seq<nat>, data: seq<bv16>, idx: seq<s16>, nodes: seq<nat>, k: Kernel)
    requires Fits(info, data, idx, nodes) && |nodes| >= 3 && NoLowZero(info, data, nodes) && cfg.seed3 == 1
    ensures Shuffled(cfg, info, data, idx, nodes, k, -1) == Reverse(nodes)
  {
    hide Find;
    var s := Search(nodes, -1, 0, 0, 0);
    NothingFound(info, data, idx, nodes);
    assert Word(0) == 0;
    var t := SearchStep(info, data, idx, s, 0);
    assert t.nodes == Reverse(nodes);
    assert SearchLoop(info, data, idx, s, 0, 1) == SearchLoop(info, data, idx, t, 1, 1) == t;
  }

  lemma DistinctReverse(nodes: seq<nat>)
    requires Distinct(nodes)
    ensures Distinct(Reverse(nodes))
  {
    hide Reverse;
    var r, n := Reverse(nodes), |nodes|;
    forall a, b | 0 <= a < b < n
      ensures r[a] != r[b]
    {
      ReverseAt(nodes, a);
      ReverseAt(nodes, b);
    }
  }

  lemma ReversePositions(nodes: seq<nat>, i: nat, j: nat)
    requires Distinct(nodes) && i < j < |nodes|
    ensures Position(Reverse(nodes), nodes[j]) < Position(Reverse(nodes), nodes[i])
  {
    hide Reverse, Distinct, Position;
    var r, n := Reverse(nodes), |nodes|;
    DistinctReverse(nodes);
    ReverseAt(nodes, n - 1 - i);
    ReverseAt(nodes, n - 1 - j);
    PositionOf(r, n - 1 - i);
    PositionOf(r, n - 1 - j);
  }

  /** A reversal puts every tie out of order. */
  lemma ReversalBreaksTies(info: seq<nat>, idx: seq<s16>, nodes: seq<nat>)
    requires InBlock(info, |idx|, nodes) && Distinct(nodes)
    ensures WeaklyIncreasing(info, idx, nodes) && TiesInOrder(info, idx, nodes, Reverse(nodes)) <==> Increasing(info, idx, nodes)
  {
    forall i, j | 0 <= i < j < |nodes|
      ensures Position(Reverse(nodes), nodes[j]) < Position(Reverse(nodes), nodes[i])
    {
      ReversePositions(nodes, i, j);
    }
  }

  /** The exact condition: a list whose head has index 0, as core_list_init makes it, is given back
      for every finder_idx and every seed3 if and only if its indices strictly increase and its low
      bytes are the backups. */
  lemma RestoredAlways(cfg: Config, info: seq<nat>, data: seq<bv16>, idx: seq<s16>, nodes: seq<nat>, k: Kernel)
    requires WellFormed(info, data, idx, nodes) && |nodes| >= 3 && idx[info[nodes[0]]] == 0
    ensures (forall seed3: s16, finderIdx: s16 :: Restores(cfg.(seed3 := seed3), info, data, idx, nodes, k, finderIdx))
            <==> Initial(info, data, idx, nodes)
  {
    hide BenchList, Shuffled, WeaklyIncreasing, TiesInOrder, AllRebuilt, Increasing;
    if Initial(info, data, idx, nodes) {
      forall seed3: s16, finderIdx: s16
        ensures Restores(cfg.(seed3 := seed3), info, data, idx, nodes, k, finderIdx)
      {
        BenchListRestores(cfg.(seed3 := seed3), info, data, idx, nodes, k, finderIdx);
      }
    }
    if forall seed3: s16, finderIdx: s16 :: Restores(cfg.(seed3 := seed3), info, data, idx, nodes, k, finderIdx) {
      assert Restores(cfg.(seed3 := 1), info, data, idx, nodes, k, 0);
      BenchListExactly(cfg.(seed3 := 1), info, data, idx, nodes, k, 0);
      OneReversal(cfg.(seed3 := 1), info, data, idx, nodes, k);
      ReversalBreaksTies(info, idx, nodes);
    }
  }

  /** A call whose one search reverses the list and nothing else: for index 0 with a head of index
      0, or by data for a low byte 0 that no node has. iterate makes the second. */
  ghost predicate OnlyReverses(cfg: Config, info: seq<nat>, data: seq<bv16>, idx: seq<s16>, nodes: seq<nat>, finderIdx: s16)
    requires Fits(info, data, idx, nodes) && |nodes| >= 3
  {
    cfg.seed3 == 1 && ((finderIdx == 0 && idx[info[nodes[0]]] == 0) || (finderIdx == -1 && NoLowZero(info, data, nodes)))
  }

  /** Two nodes of the same index at the front: one reversing call and the old head is no longer the
      head, so res->list points into the middle of the list. */
  lemma RepeatedIndexLosesHead(cfg: Config, info: seq<nat>, data: seq<bv16>, idx: seq<s16>, nodes: seq<nat>, k: Kernel, finderIdx: s16)
    requires WellFormed(info, data, idx, nodes) && |nodes| >= 3 && OnlyReverses(cfg, info, data, idx, nodes, finderIdx)
    requires idx[info[nodes[0]]] == idx[info[nodes[1]]]
    ensures BenchList(cfg, info, data, idx, nodes, k, finderIdx).nodes[0] != nodes[0]
  {
    hide BenchList, Shuffled, NoLowZero;
    var r := BenchList(cfg, info, data, idx, nodes, k, finderIdx);
    BenchListOrders(cfg, info, data, idx, nodes, k, finderIdx);
    if finderIdx == 0 {
      OneReversal(cfg, info, data, idx, nodes, k);
    } else {
      OneMiss(cfg, info, data, idx, nodes, k);
    }
    ReversePositions(nodes, 0, 1);
    SameMembers(nodes, r.nodes);
    assert nodes[1] in r.nodes;
    var j :| 0 <= j < |r.nodes| && r.nodes[j] == nodes[1];
    assert nodes[0] != nodes[1];
  }

  /** n nodes in the order of the memory block, each with its own payload. */
  function Block(n: nat): seq<nat> { seq(n, (i: nat) requires i < n => i) }

  lemma BlockIsList(idx: seq<s16>, data: seq<bv16>)
    requires |idx| == |data| && forall i, j | 0 <= i < j < |idx| :: idx[i] <= idx[j]
    ensures WellFormed(Block(|idx|), data, idx, Block(|idx|)) && WeaklyIncreasing(Block(|idx|), idx, Block(|idx|))
  {
  }

  /** So it is with every block of nodes sorted by index that starts with two indices 0. */
  lemma RepeatedIndexBlock(cfg: Config, idx: seq<s16>, data: seq<bv16>, k: Kernel)
    requires cfg.seed3 == 1 && 3 <= |idx| == |data| && idx[1] == 0 && idx[0] == 0
    requires forall i, j | 0 <= i < j < |idx| :: idx[i] <= idx[j]
    ensures var nodes := Block(|idx|);
            && WellFormed(nodes, data, idx, nodes) && BenchList(cfg, nodes, data, idx, nodes, k, 0).nodes[0] != nodes[0]
            && (NoLowZero(nodes, data, nodes) ==> BenchList(cfg, nodes, data, idx, nodes, k, -1).nodes[0] != nodes[0])
  {
    hide BenchList, WellFormed, WeaklyIncreasing, NoLowZero;
    BlockIsList(idx, data);
    RepeatedIndexLosesHead(cfg, Block(|idx|), data, idx, Block(|idx|), k, 0);
    if NoLowZero(Block(|idx|), data, Block(|idx|)) {
      RepeatedIndexLosesHead(cfg, Block(|idx|), data, idx, Block(|idx|), k, -1);
    }
  }

  /** One of them: after the second call of iterate the head is another node. */
  lemma RepeatedIndexExample(cfg: Config, data: seq<bv16>, k: Kernel)
    requires cfg.seed3 == 1 && |data| == 4 && forall i | 0 <= i < 4 :: LowData(data[i]) != 0
    ensures WellFormed(Block(4), data, [0, 0, 5, 0x7fff], Block(4))
    ensures BenchList(cfg, Block(4), data, [0, 0, 5, 0x7fff], Block(4), k, 0).nodes[0] != 0
    ensures BenchList(cfg, Block(4), data, [0, 0, 5, 0x7fff], Block(4), k, -1).nodes[0] != 0
  {
    hide BenchList, LowData, WellFormed;
    RepeatedIndexBlock(cfg, [0, 0, 5, 0x7fff], data, k);
  }
}
