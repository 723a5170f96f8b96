/** The list benchmark gives the list back, and its result depends on the kernels'
    memory only through what they compute. */
module CoreListProof {
  import opened CoreMatrix
  import opened ListSort
  import opened ListSortProof
  import opened CoreList

  // ------------------------------------------------------------------
  // Both comparators are lawful
  // ------------------------------------------------------------------

  lemma StoreCaches(d: bv16, r: bv16)
    ensures Cached(Store(d, r))
  {
  }

  lemma StoreKeepsBackup(d: bv16, r: bv16)
    ensures Backup(Store(d, r)) == Backup(d)
  {
  }

  lemma RebuildSettles(d: bv16)
    ensures Rebuilt(Rebuild(d))
  {
  }

  lemma RebuildKeepsBackup(d: bv16)
    ensures Backup(Rebuild(d)) == Backup(d)
  {
  }

  lemma RebuildFromBackup(d: bv16, e: bv16)
    requires Backup(d) == Backup(e)
    ensures Rebuild(d) == Rebuild(e)
  {
  }

  /** Caching a result changes neither a cached word nor any backup, whatever the kernels return. */
  lemma ByDataLawful(cfg: Config)
    ensures Lawful(ByData(cfg))
  {
    var c := ByData(cfg);
    forall d, k {:trigger c.touch(d, k)}
      ensures c.touched(c.touch(d, k).0) && (c.touched(d) ==> c.touch(d, k) == (d, k)) && c.tag(c.touch(d, k).0) == c.tag(d)
    {
      if !Cached(d) {
        StoreCaches(d, CallKernel(cfg, d, k).0);
        StoreKeepsBackup(d, CallKernel(cfg, d, k).0);
      }
    }
  }

  lemma ByIndexLawful(idx: seq<s16>)
    ensures Lawful(ByIndex(idx))
  {
    var c := ByIndex(idx);
    forall d, k {:trigger c.touch(d, k)}
      ensures c.touched(c.touch(d, k).0) && (c.touched(d) ==> c.touch(d, k) == (d, k)) && c.tag(c.touch(d, k).0) == c.tag(d)
    {
      RebuildSettles(d);
      RebuildKeepsBackup(d);
    }
  }

  // ------------------------------------------------------------------
  // The two sorts
  // ------------------------------------------------------------------

  ghost predicate WellFormed(info: seq<nat>, data: seq<bv16>, idx: seq<s16>, nodes: seq<nat>) {
    Fits(info, data, idx, nodes) && Distinct(nodes)
  }

  /** Sorted by cached value; equal values keep the order they had in `before`. */
  ghost predicate StableByValue(info: seq<nat>, data: seq<bv16>, before: seq<nat>, out: seq<nat>)
    requires InBlock(info, |data|, out)
  {
    forall i, j | 0 <= i < j < |out| ::
      var vi, vj := Value(data[info[out[i]]]), Value(data[info[out[j]]]);
      vi < vj || (vi == vj && Position(before, out[i]) < Position(before, out[j]))
  }

  ghost predicate AllCached(info: seq<nat>, data: seq<bv16>, nodes: seq<nat>)
    requires InBlock(info, |data|, nodes)
  {
    forall i | 0 <= i < |nodes| :: Cached(data[info[nodes[i]]])
  }

  /** Only the low bytes of the list's own items may differ. */
  ghost predicate LowBytesOnly(info: seq<nat>, data: seq<bv16>, data': seq<bv16>, nodes: seq<nat>) {
    && |data'| == |data|
    && (forall i | 0 <= i < |data| :: Backup(data'[i]) == Backup(data[i]))
    && (forall i | 0 <= i < |data| && i !in Slots(info, nodes) :: data'[i] == data[i])
  }

  ghost predicate StableByIndex(info: seq<nat>, idx: seq<s16>, before: seq<nat>, out: seq<nat>)
    requires InBlock(info, |idx|, out)
  {
    forall i, j | 0 <= i < j < |out| ::
      var vi, vj := idx[info[out[i]]], idx[info[out[j]]];
      vi < vj || (vi == vj && Position(before, out[i]) < Position(before, out[j]))
  }

  ghost predicate RebuiltFrom(info: seq<nat>, data: seq<bv16>, data': seq<bv16>, nodes: seq<nat>) {
    && |data'| == |data|
    && forall i | 0 <= i < |data| :: data'[i] == if i in Slots(info, nodes) then Rebuild(data[i]) else data[i]
  }

  lemma OrderedByValue(cfg: Config, info: seq<nat>, s: State<bv16, Kernel>, before: seq<nat>, out: seq<nat>)
    requires InBlock(info, |s.data|, out) && Ordered(ByData(cfg), info, s, Rank(before), out)
    ensures StableByValue(info, s.data, before, out)
    ensures AllTouched(ByData(cfg), info, s, out) ==> AllCached(info, s.data, out)
  {
    forall i, j | 0 <= i < j < |out|
      ensures var vi, vj := Value(s.data[info[out[i]]]), Value(s.data[info[out[j]]]);
              vi < vj || (vi == vj && Position(before, out[i]) < Position(before, out[j]))
    {
      assert Before(ByData(cfg), info, s, Rank(before), out[i], out[j]);
    }
  }

  lemma EvolvesLowBytes(c: Comparator<bv16, Kernel>, info: seq<nat>, s: State<bv16, Kernel>, s': State<bv16, Kernel>, nodes: seq<nat>)
    requires c.tag == Backup && Evolves(c, s, s', Slots(info, nodes))
    ensures LowBytesOnly(info, s.data, s'.data, nodes)
  {
    forall i | 0 <= i < |s.data| ensures Backup(s'.data[i]) == Backup(s.data[i]) {
      assert c.tag(s'.data[i]) == c.tag(s.data[i]);
    }
  }

  /** The generic theorem for cmp_complex. */
  lemma ByDataTheorem(cfg: Config, info: seq<nat>, s: State<bv16, Kernel>, nodes: seq<nat>)
    requires InBlock(info, |s.data|, nodes) && Distinct(nodes)
    ensures var (s', out) := MergeSort(ByData(cfg), info, s, nodes);
            && multiset(out) == multiset(nodes)
            && Ordered(ByData(cfg), info, s', Rank(nodes), out)
            && (|nodes| >= 2 ==> AllTouched(ByData(cfg), info, s', out))
            && Evolves(ByData(cfg), s, s', Slots(info, nodes))
  {
    ByDataLawful(cfg);
    MergeSortCorrect(ByData(cfg), info, s, nodes);
  }

  /** core_list_mergesort with cmp_complex: a stable permutation sorted by the cached value,
      all cached, with every backup byte unchanged. */
  lemma SortByDataCorrect(cfg: Config, info: seq<nat>, s: State<bv16, Kernel>, nodes: seq<nat>)
    requires InBlock(info, |s.data|, nodes) && Distinct(nodes)
    ensures var (s', out) := MergeSort(ByData(cfg), info, s, nodes);
            && multiset(out) == multiset(nodes)
            && StableByValue(info, s'.data, nodes, out)
            && (|nodes| >= 2 ==> AllCached(info, s'.data, out))
            && LowBytesOnly(info, s.data, s'.data, nodes)
  {
    var (s', out) := MergeSort(ByData(cfg), info, s, nodes);
    ByDataTheorem(cfg, info, s, nodes);
    OrderedByValue(cfg, info, s', nodes, out);
    EvolvesLowBytes(ByData(cfg), info, s, s', nodes);
  }

  lemma OrderedByIndex(idx: seq<s16>, info: seq<nat>, s: State<bv16, Kernel>, before: seq<nat>, out: seq<nat>)
    requires Fits(info, s.data, idx, out) && Ordered(ByIndex(idx), info, s, Rank(before), out)
    ensures StableByIndex(info, idx, before, out)
  {
    forall i, j | 0 <= i < j < |out|
      ensures var vi, vj := idx[info[out[i]]], idx[info[out[j]]];
              vi < vj || (vi == vj && Position(before, out[i]) < Position(before, out[j]))
    {
      assert Before(ByIndex(idx), info, s, Rank(before), out[i], out[j]);
    }
  }

  /** Touched by cmp_idx, with the backup it had: the data is rebuilt from that backup. */
  lemma TouchedIsRebuilt(idx: seq<s16>, info: seq<nat>, s: State<bv16, Kernel>, s': State<bv16, Kernel>, nodes: seq<nat>, out: seq<nat>)
    requires |s'.data| == |s.data| && InBlock(info, |s.data|, out) && multiset(out) == multiset(nodes)
    requires AllTouched(ByIndex(idx), info, s', out) && LowBytesOnly(info, s.data, s'.data, nodes)
    ensures RebuiltFrom(info, s.data, s'.data, nodes)
  {
    SameMembers(out, nodes);
    forall i | 0 <= i < |s.data| && i in Slots(info, nodes) ensures s'.data[i] == Rebuild(s.data[i]) {
      var n :| n in nodes && n < |info| && info[n] == i;
      var j :| 0 <= j < |out| && out[j] == n;
      assert Rebuilt(s'.data[info[out[j]]]);
      RebuildFromBackup(s.data[i], s'.data[i]);
    }
  }

  /** The generic theorem for cmp_idx. */
  lemma ByIndexTheorem(idx: seq<s16>, info: seq<nat>, s: State<bv16, Kernel>, nodes: seq<nat>)
    requires InBlock(info, |s.data|, nodes) && Distinct(nodes)
    ensures var (s', out) := MergeSort(ByIndex(idx), info, s, nodes);
            && multiset(out) == multiset(nodes) && s'.k == s.k
            && Ordered(ByIndex(idx), info, s', Rank(nodes), out)
            && (|nodes| >= 2 ==> AllTouched(ByIndex(idx), info, s', out))
            && Evolves(ByIndex(idx), s, s', Slots(info, nodes))
  {
    ByIndexLawful(idx);
    MergeSortCorrect(ByIndex(idx), info, s, nodes);
    SortKeepsState(ByIndex(idx), info, s, nodes, 1);
  }

  /** core_list_mergesort with cmp_idx and no results record: sorted by index, stably, and
      every word of a list of two or more nodes rebuilt from its backup byte. */
  lemma SortByIndexCorrect(info: seq<nat>, idx: seq<s16>, s: State<bv16, Kernel>, nodes: seq<nat>)
    requires WellFormed(info, s.data, idx, nodes)
    ensures var (s', out) := MergeSort(ByIndex(idx), info, s, nodes);
            && multiset(out) == multiset(nodes) && s'.k == s.k
            && StableByIndex(info, idx, nodes, out)
            && (|nodes| >= 2 ==> RebuiltFrom(info, s.data, s'.data, nodes))
  {
    var (s', out) := MergeSort(ByIndex(idx), info, s, nodes);
    ByIndexTheorem(idx, info, s, nodes);
    OrderedByIndex(idx, info, s', nodes, out);
    EvolvesLowBytes(ByIndex(idx), info, s, s', nodes);
    if |nodes| >= 2 {
      TouchedIsRebuilt(idx, info, s, s', nodes, out);
    }
  }

  lemma {:induction false} MergeKeepsState(c: Comparator<bv16, Kernel>, info: seq<nat>, s: State<bv16, Kernel>, p: seq<nat>, q: seq<nat>)
    requires InBlock(info, |s.data|, p) && InBlock(info, |s.data|, q)
    requires forall d, k :: c.touch(d, k).1 == k
    ensures Merge(c, info, s, p, q).0.k == s.k
    decreases |p| + |q|
  {
    if p != [] && q != [] {
      var s' := Compare(c, info, s, p[0], q[0]);
      MergeKeepsState(c, info, s', p[1..], q);
      MergeKeepsState(c, info, s', p, q[1..]);
    }
  }

  lemma {:induction false} PassKeepsState(c: Comparator<bv16, Kernel>, info: seq<nat>, s: State<bv16, Kernel>, nodes: seq<nat>, w: nat)
    requires InBlock(info, |s.data|, nodes) && w > 0
    requires forall d, k :: c.touch(d, k).1 == k
    ensures Pass(c, info, s, nodes, w).0.k == s.k
    decreases |nodes|
  {
    if nodes != [] {
      var p, rest := Take(nodes, w), Drop(nodes, w);
      var q, tail := Take(rest, w), Drop(rest, w);
      MergeKeepsState(c, info, s, p, q);
      PassKeepsState(c, info, Merge(c, info, s, p, q).0, tail, w);
    }
  }

  lemma {:induction false} SortKeepsState(c: Comparator<bv16, Kernel>, info: seq<nat>, s: State<bv16, Kernel>, nodes: seq<nat>, w: nat)
    requires InBlock(info, |s.data|, nodes) && w > 0
    requires forall d, k :: c.touch(d, k).1 == k
    ensures Sort(c, info, s, nodes, w).0.k == s.k
    decreases |nodes| - w
  {
    PassKeepsState(c, info, s, nodes, w);
    PassMembers(c, info, s, nodes, w);
    var r := Pass(c, info, s, nodes, w);
    if |nodes| > 2 * w {
      SortKeepsState(c, info, r.0, r.1, 2 * w);
    }
  }

  // ------------------------------------------------------------------
  // The list is back to its original state
  // ------------------------------------------------------------------

  ghost predicate Increasing(info: seq<nat>, idx: seq<s16>, nodes: seq<nat>)
    requires InBlock(info, |idx|, nodes)
  {
    forall i, j | 0 <= i < j < |nodes| :: idx[info[nodes[i]]] < idx[info[nodes[j]]]
  }

  ghost predicate AllRebuilt(info: seq<nat>, data: seq<bv16>, nodes: seq<nat>)
    requires InBlock(info, |data|, nodes)
  {
    forall i | 0 <= i < |nodes| :: Rebuilt(data[info[nodes[i]]])
  }

  /** The state core_list_init leaves: indices in order, low bytes equal to their backup. */
  ghost predicate Initial(info: seq<nat>, data: seq<bv16>, idx: seq<s16>, nodes: seq<nat>) {
    && WellFormed(info, data, idx, nodes) && |nodes| >= 3
    && Increasing(info, idx, nodes) && AllRebuilt(info, data, nodes)
  }

  lemma RebuiltRestores(info: seq<nat>, data: seq<bv16>, nodes: seq<nat>, low: seq<bv16>, final: seq<bv16>, shuffled: seq<nat>)
    requires InBlock(info, |data|, nodes) && AllRebuilt(info, data, nodes)
    requires LowBytesOnly(info, data, low, nodes) && RebuiltFrom(info, low, final, shuffled)
    requires multiset(shuffled) == multiset(nodes)
    ensures final == data
  {
    SlotsSame(info, nodes, shuffled);
    forall i | 0 <= i < |data| ensures final[i] == data[i] {
      if i in Slots(info, nodes) {
        var n :| n in nodes && n < |info| && info[n] == i;
        var j :| 0 <= j < |nodes| && nodes[j] == n;
        assert Rebuilt(data[info[nodes[j]]]);
        RebuildFromBackup(low[i], data[i]);
      }
    }
  }

  lemma IncreasingKeys(info: seq<nat>, idx: seq<s16>, t: State<bv16, Kernel>, nodes: seq<nat>)
    requires Fits(info, t.data, idx, nodes) && Increasing(info, idx, nodes)
    ensures forall i, j | 0 <= i < j < |nodes| ::
              Key(ByIndex(idx), info, t, nodes[i]) < Key(ByIndex(idx), info, t, nodes[j])
    ensures forall i, d, d' :: ByIndex(idx).key(i, d) == ByIndex(idx).key(i, d')
  {
    forall i, j | 0 <= i < j < |nodes|
      ensures Key(ByIndex(idx), info, t, nodes[i]) < Key(ByIndex(idx), info, t, nodes[j])
    {
      assert HasSlot(info, |idx|, nodes[i]) && HasSlot(info, |idx|, nodes[j]);
    }
  }

  lemma IndexSortRestoresOrder(info: seq<nat>, idx: seq<s16>, t: State<bv16, Kernel>, nodes: seq<nat>, shuffled: seq<nat>)
    requires WellFormed(info, t.data, idx, nodes) && Increasing(info, idx, nodes)
    requires WellFormed(info, t.data, idx, shuffled) && multiset(shuffled) == multiset(nodes)
    ensures MergeSort(ByIndex(idx), info, t, shuffled).1 == nodes
  {
    ByIndexLawful(idx);
    IncreasingKeys(info, idx, t, nodes);
    MergeSortRestores(ByIndex(idx), info, t, shuffled, nodes);
  }

  /** The last sort of core_bench_list, from any order of the nodes and any data with the
      original backups, restores the list. */
  lemma FinalSortRestores(info: seq<nat>, data: seq<bv16>, idx: seq<s16>, nodes: seq<nat>,
                          t: State<bv16, Kernel>, shuffled: seq<nat>)
    requires Initial(info, data, idx, nodes)
    requires multiset(shuffled) == multiset(nodes) && LowBytesOnly(info, data, t.data, nodes)
    ensures Fits(info, t.data, idx, shuffled) && |shuffled| >= 3
    ensures MergeSort(ByIndex(idx), info, t, shuffled) == (State(data, t.k), nodes)
  {
    SameInBlock(info, |data|, nodes, shuffled);
    SlotsSame(info, nodes, shuffled);
    SameMembers(nodes, shuffled);
    SortByIndexCorrect(info, idx, t, shuffled);
    IndexSortRestoresOrder(info, idx, t, nodes, shuffled);
    RebuiltRestores(info, data, nodes, t.data, MergeSort(ByIndex(idx), info, t, shuffled).0.data, shuffled);
  }

  lemma FinishRestores(info: seq<nat>, data: seq<bv16>, idx: seq<s16>, nodes: seq<nat>, w: Wanted,
                       t: State<bv16, Kernel>, shuffled: seq<nat>, retval: bv16)
    requires Initial(info, data, idx, nodes)
    requires multiset(shuffled) == multiset(nodes) && LowBytesOnly(info, data, t.data, nodes)
    ensures Fits(info, t.data, idx, shuffled) && |shuffled| >= 3
    ensures var r := Finish(info, idx, w, t, shuffled, retval);
            && r.nodes == nodes && r.info == info && r.data == data && r.k == t.k
            && r.retval == CrcRepeat(data[info[nodes[0]]], |nodes| - 1, CrcFromFound(info, t.data, idx, shuffled, w, retval))
  {
    hide Finish, MergeSort, CrcFromFound, CrcRepeat, ByIndex, Initial, LowBytesOnly, CoreList.Fits;
    FinalSortRestores(info, data, idx, nodes, t, shuffled);
    FinishIs(info, idx, w, t, shuffled, retval);
  }

  /** What the list benchmark has done before the removal: the nodes in some order, and
      data in which only the low bytes of the list's own items may have changed. */
  lemma BeforeRemoval(cfg: Config, info: seq<nat>, data: seq<bv16>, idx: seq<s16>, nodes: seq<nat>, s: Search, k: Kernel, finderIdx: s16)
    requires WellFormed(info, data, idx, nodes) && Fits(info, data, idx, s.nodes) && multiset(s.nodes) == multiset(nodes)
    ensures var (t, sorted) := Sorted(cfg, info, data, k, s.nodes, finderIdx);
            multiset(sorted) == multiset(nodes) && LowBytesOnly(info, data, t.data, nodes)
  {
    SlotsSame(info, nodes, s.nodes);
    if finderIdx > 0 {
      SortByDataCorrect(cfg, info, State(data, k), s.nodes);
    }
  }

  function Searched(cfg: Config, info: seq<nat>, data: seq<bv16>, idx: seq<s16>, nodes: seq<nat>, finderIdx: s16): (s: Search)
    requires Fits(info, data, idx, nodes) && |nodes| >= 2
    ensures multiset(s.nodes) == multiset(nodes) && Fits(info, data, idx, s.nodes)
  {
    SearchLoop(info, data, idx, Search(nodes, finderIdx, 0, 0, 0), 0, cfg.seed3)
  }

  /** core_bench_list leaves the list as it found it, for every finder_idx, every seed and
      whatever the kernels do to the other data. */
  lemma BenchListRestores(cfg: Config, info: seq<nat>, data: seq<bv16>, idx: seq<s16>, nodes: seq<nat>, k: Kernel, finderIdx: s16)
    requires Initial(info, data, idx, nodes)
    ensures var r := BenchList(cfg, info, data, idx, nodes, k, finderIdx);
            r.nodes == nodes && r.info == info && r.data == data
  {
    var s := Searched(cfg, info, data, idx, nodes, finderIdx);
    var (t, sorted) := Sorted(cfg, info, data, k, s.nodes, finderIdx);
    BeforeRemoval(cfg, info, data, idx, nodes, s, k, finderIdx);
    FinishRestores(info, data, idx, nodes, Wanted(s.wanted, LastData(cfg.seed3)), t, sorted, Score(s));
  }
}
