/** What core_bench_list returns, told by what its list goes through: the find loop's checksum, then
    one CRC step of the head's word for each node from the one the last key finds, then one for each
    node but the first of the list in index order.
 */
module BenchValue {
  import opened CoreUtil
  import opened CoreMatrix
  import opened ListSort
  import opened ListSortProof
  import opened SortTouches
  import opened CoreList
  import CoreListProof
  import opened DataWord
  import opened FindTrace

  /** The CRC of the same word, times over. */
  function CrcTimes(word: bv16, times: nat, crc: bv16): bv16 { Iterate((c: bv16) => CrcU16(word, c), crc, times) }

  lemma {:induction false} RepeatIs(word: bv16, times: nat, crc: bv16, f: bv16 -> bv16)
    requires f == ((c: bv16) => CrcU16(word, c))
    ensures CrcRepeat(word, times, crc) == Iterate(f, crc, times)
    decreases times
  {
    hide CrcU16;
    if times > 0 {
      assert f(crc) == CrcU16(word, crc);
      RepeatIs(word, times - 1, CrcU16(word, crc), f);
    }
  }

  /** The list without its second item. */
  function WithoutSecond(order: seq<nat>): (r: seq<nat>)
    requires |order| >= 2
    ensures |r| == |order| - 1
  {
    [order[0]] + order[2..]
  }

  /** The number of nodes from the first that is hit on; if none is, all but the head. */
  function FromHit(n: nat, at: nat): nat
    requires at <= n && n > 0
  {
    if at < n then n - at else n - 1
  }

  /** The list after the sort by data, which comes only with a positive finder_idx. */
  function ByDataOrNot(cfg: Config, info: seq<nat>, data: seq<bv16>, k: Kernel, last: seq<nat>, finderIdx: s16)
    : (r: (State<bv16, Kernel>, seq<nat>))
    requires InBlock(info, |data|, last)
    ensures |r.0.data| == |data| && multiset(r.1) == multiset(last) && InBlock(info, |data|, r.1)
  {
    if finderIdx > 0 then MergeSort(ByData(cfg), info, State(data, k), last) else (State(data, k), last)
  }

  /** retval from the CRC start on: at is the place of the first item that the last key hits once
      the second item is gone. */
  ghost predicate Phases(cfg: Config, info: seq<nat>, data: seq<bv16>, idx: seq<s16>, k: Kernel, finderIdx: s16,
                         last: seq<nat>, key: s16, start: bv16, at: nat, retval: bv16)
    requires Fits(info, data, idx, last) && |last| >= 3
  {
    var (t, order) := ByDataOrNot(cfg, info, data, k, last, finderIdx);
    var (u, final) := MergeSort(ByIndex(idx), info, t, order);
    SameMembers(order, last);
    SameMembers(final, order);
    assert HasSlot(info, |data|, order[0]) && HasSlot(info, |data|, final[0]);
    var rest := WithoutSecond(order);
    RestFits(info, t.data, idx, order);
    && FirstHit(info, t.data, idx, rest, key, if cfg.seed3 > 0 then cfg.seed3 - 1 else 0, at)
    && retval == CrcTimes(u.data[info[final[0]]], |last| - 1,
                          CrcTimes(t.data[info[order[0]]], FromHit(|last| - 1, at), start))
  }

  lemma RestFits(info: seq<nat>, data: seq<bv16>, idx: seq<s16>, order: seq<nat>)
    requires Fits(info, data, idx, order) && |order| >= 3
    ensures Fits(info, data, idx, WithoutSecond(order))
  {
    var rest := WithoutSecond(order);
    forall i | 0 <= i < |rest| ensures HasSlot(info, |data|, rest[i]) {
      assert rest[i] == order[if i == 0 then 0 else i + 1];
    }
  }

  /** The value of core_bench_list on a list. */
  ghost predicate Returns(cfg: Config, info: seq<nat>, data: seq<bv16>, idx: seq<s16>, nodes: seq<nat>, k: Kernel, finderIdx: s16,
                          retval: bv16)
  {
    exists last: seq<nat>, key: s16, start: bv16, at: nat ::
      && LoopLeaves(info, data, idx, nodes, finderIdx, if cfg.seed3 > 0 then cfg.seed3 else 0, last, key, start)
      && Fits(info, data, idx, last) && |last| >= 3
      && Phases(cfg, info, data, idx, k, finderIdx, last, key, start, at, retval)
  }

  /** A removal exchanges two items and unlinks a node: what is left is the list without its second
      item. */
  lemma RemovedSlots(info: seq<nat>, data: seq<bv16>, idx: seq<s16>, order: seq<nat>)
    requires Fits(info, data, idx, order) && |order| >= 3 && Distinct(order)
    ensures Fits(RemoveInfo(info, order), data, idx, RemoveNodes(order)) && Fits(info, data, idx, WithoutSecond(order))
    ensures forall i | 0 <= i < |order| - 1 :: RemoveInfo(info, order)[RemoveNodes(order)[i]] == info[WithoutSecond(order)[i]]
  {
    RemovedFits(info, data, idx, order);
    RestFits(info, data, idx, order);
  }

  lemma RemovedHit(info: seq<nat>, data: seq<bv16>, idx: seq<s16>, order: seq<nat>, key: s16, low: nat, at: nat)
    requires Fits(info, data, idx, order) && |order| >= 3 && Distinct(order)
    requires Fits(RemoveInfo(info, order), data, idx, RemoveNodes(order)) && Fits(info, data, idx, WithoutSecond(order))
    requires FirstHit(RemoveInfo(info, order), data, idx, RemoveNodes(order), key, low, at)
    ensures FirstHit(info, data, idx, WithoutSecond(order), key, low, at)
  {
    hide Hit, RemoveInfo, RemoveNodes, WithoutSecond;
    RemovedSlots(info, data, idx, order);
    assert |RemoveNodes(order)| == |order| - 1 by { RemovedLength(order); }
  }

  lemma RemovedLength(order: seq<nat>)
    requires |order| >= 3
    ensures |RemoveNodes(order)| == |order| - 1
  {
  }

  lemma LastKey(findNum: int)
    ensures LastData(findNum) == Word((if findNum > 0 then findNum - 1 else 0) % 0x100)
  {
    assert Word(0) == 0;
  }

  /** The first CRC phase. */
  lemma FoundPhase(info: seq<nat>, data: seq<bv16>, idx: seq<s16>, order: seq<nat>, key: s16, findNum: int, retval: bv16)
    returns (at: nat)
    requires Fits(info, data, idx, order) && |order| >= 3 && Distinct(order)
    ensures HasSlot(info, |data|, order[0]) && Fits(info, data, idx, WithoutSecond(order)) && at <= |order| - 1
    ensures FirstHit(info, data, idx, WithoutSecond(order), key, if findNum > 0 then findNum - 1 else 0, at)
    ensures CrcFromFound(info, data, idx, order, Wanted(key, LastData(findNum)), retval)
            == CrcTimes(data[info[order[0]]], FromHit(|order| - 1, at), retval)
  {
    hide Find, FirstHit, CrcRepeat, CrcTimes, LastData, Word, CrcU16;
    var low: nat := if findNum > 0 then findNum - 1 else 0;
    RestFits(info, data, idx, order);
    RemovedFits(info, data, idx, order);
    RemovedSlots(info, data, idx, order);
    LastKey(findNum);
    at := Find(RemoveInfo(info, order), data, idx, RemoveNodes(order), Wanted(key, Word(low % 0x100)));
    FindIs(RemoveInfo(info, order), data, idx, RemoveNodes(order), key, low);
    RemovedHit(info, data, idx, order, key, low, at);
    RepeatIsTimes(data[info[order[0]]], FromHit(|order| - 1, at), retval);
  }

  lemma RepeatIsTimes(word: bv16, times: nat, crc: bv16)
    ensures CrcRepeat(word, times, crc) == CrcTimes(word, times, crc)
  {
    hide CrcU16, CrcRepeat;
    RepeatIs(word, times, crc, (c: bv16) => CrcU16(word, c));
  }

  lemma SortedAs(cfg: Config, info: seq<nat>, data: seq<bv16>, k: Kernel, last: seq<nat>, finderIdx: s16)
    requires InBlock(info, |data|, last)
    ensures Sorted(cfg, info, data, k, last, finderIdx) == ByDataOrNot(cfg, info, data, k, last, finderIdx)
  {
    hide MergeSort, ByData;
  }

  lemma ShuffledDistinct(a: seq<nat>, b: seq<nat>)
    requires Distinct(a) && multiset(a) == multiset(b)
    ensures Distinct(b)
  {
    DistinctCount(a);
    CountDistinct(b);
  }

  lemma PhasesAre(cfg: Config, info: seq<nat>, data: seq<bv16>, idx: seq<s16>, k: Kernel, finderIdx: s16,
                  last: seq<nat>, key: s16, start: bv16) returns (at: nat)
    requires Fits(info, data, idx, last) && |last| >= 3 && Distinct(last)
    ensures var t := Sorted(cfg, info, data, k, last, finderIdx);
            && |t.1| >= 3 && Fits(info, t.0.data, idx, t.1)
            && Phases(cfg, info, data, idx, k, finderIdx, last, key, start, at,
                      Finish(info, idx, Wanted(key, LastData(cfg.seed3)), t.0, t.1, start).retval)
  {
    hide MergeSort, ByIndex, ByData, Finish, FirstHit, CrcFromFound, CrcRepeat, CrcTimes, LastData, Sorted, ByDataOrNot;
    SortedIs(cfg, info, data, idx, k, last, finderIdx);
    SortedAs(cfg, info, data, k, last, finderIdx);
    var (t, order) := ByDataOrNot(cfg, info, data, k, last, finderIdx);
    SameMembers(order, last);
    ShuffledDistinct(last, order);
    FinishIs(info, idx, Wanted(key, LastData(cfg.seed3)), t, order, start);
    at := FoundPhase(info, t.data, idx, order, key, cfg.seed3, start);
    var u := MergeSort(ByIndex(idx), info, t, order);
    RepeatIsTimes(u.0.data[info[u.1[0]]], |order| - 1, CrcFromFound(info, t.data, idx, order, Wanted(key, LastData(cfg.seed3)), start));
  }

  /** For every list: what core_bench_list returns is the checksum of its find loop, carried through
      the two CRC phases. */
  lemma BenchReturns(cfg: Config, info: seq<nat>, data: seq<bv16>, idx: seq<s16>, nodes: seq<nat>, k: Kernel, finderIdx: s16)
    requires Fits(info, data, idx, nodes) && |nodes| >= 3 && Distinct(nodes)
    ensures Returns(cfg, info, data, idx, nodes, k, finderIdx, BenchList(cfg, info, data, idx, nodes, k, finderIdx).retval)
  {
    hide SearchLoop, Score, Phases, LoopLeaves, LastData, Finish, BenchList, Sorted;
    var s := SearchLoop(info, data, idx, Search(nodes, finderIdx, 0, 0, 0), 0, cfg.seed3);
    SameMembers(s.nodes, nodes);
    ShuffledDistinct(nodes, s.nodes);
    FindLoopLeaves(info, data, idx, nodes, finderIdx, cfg.seed3);
    BenchListIs(cfg, info, data, idx, nodes, k, finderIdx);
    var at := PhasesAre(cfg, info, data, idx, k, finderIdx, s.nodes, s.wanted, Score(s));
  }

  // ------------------------------------------------------------------
  // The calls of the kernels
  // ------------------------------------------------------------------

  /** calc_func on the item of each node in turn. */
  function CalcEach(cfg: Config, info: seq<nat>, s: State<bv16, Kernel>, nodes: seq<nat>): (r: State<bv16, Kernel>)
    requires InBlock(info, |s.data|, nodes)
    decreases |nodes|
  {
    if nodes == [] then s
    else
      assert HasSlot(info, |s.data|, nodes[0]);
      var slot := info[nodes[0]];
      var (d, k) := Calc(cfg, s.data[slot], s.k);
      CalcEach(cfg, info, State(s.data[slot := d], k), nodes[1..])
  }

  lemma {:induction false} TouchIsCalc(cfg: Config, info: seq<nat>, s: State<bv16, Kernel>, nodes: seq<nat>)
    requires InBlock(info, |s.data|, nodes)
    ensures TouchAll(ByData(cfg), info, s, nodes) == CalcEach(cfg, info, s, nodes)
    decreases |nodes|
  {
    hide Calc;
    if nodes != [] {
      assert HasSlot(info, |s.data|, nodes[0]);
      var slot := info[nodes[0]];
      var r := Calc(cfg, s.data[slot], s.k);
      TouchIsCalc(cfg, info, State(s.data[slot := r.0], r.1), nodes[1..]);
    }
  }

  /** For every list of at least two nodes the sort by data leaves items, results record and kernels'
      memory as calc_func does, called for each item once in the order of the list. */
  lemma SortCallsInOrder(cfg: Config, info: seq<nat>, s: State<bv16, Kernel>, nodes: seq<nat>)
    requires InBlock(info, |s.data|, nodes) && Distinct(nodes) && |nodes| >= 2
    ensures MergeSort(ByData(cfg), info, s, nodes).0 == CalcEach(cfg, info, s, nodes)
  {
    hide ByData, MergeSort, CalcEach, TouchAll;
    CoreListProof.ByDataLawful(cfg);
    SortTouchesInOrder(ByData(cfg), info, s, nodes);
    TouchIsCalc(cfg, info, s, nodes);
  }
}
