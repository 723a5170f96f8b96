/** The list benchmark of core_list_join.c as functions on the list's contents.

    The memory block is modelled by index: node n has the data slot info[n]; slot i
    holds data16[i] and idx[i]. A list is the sequence of its nodes from head to tail.
 */
module CoreList {
  import opened CoreUtil
  import opened CoreState
  import opened CoreMatrix
  import opened ListSort

  /** The parts of core_results that a run does not change. */
  datatype Config = Config(size: nat, seed1: int, seed2: int, seed3: int, n: nat, b: seq<s16>)

  /** What the comparator cmp_complex changes besides the data: res and the kernels' memory. */
  datatype Kernel = Kernel(crc: bv16, crcstate: bv16, crcmatrix: bv16, block: seq<bv8>, a: seq<s16>)

  // ------------------------------------------------------------------
  // Fields of a data word
  // ------------------------------------------------------------------

  /** Bit 7: the low seven bits are a cached result. */
  predicate Cached(d: bv16) { d & 0x80 == 0x80 }

  /** Bits 0-6. */
  function Value(d: bv16): int { (d & 0x7f) as int }

  /** Bits 8-15, the backup of the original data. */
  function Backup(d: bv16): bv16 { d >> 8 }

  function Flag(d: bv16): bv16 { d & 0x7 }

  /** Bits 3-6, written twice to make eight bits. */
  function DType(d: bv16): bv16 { ((d >> 3) & 0xf) | (((d >> 3) & 0xf) << 4) }

  function DTypeInt(d: bv16): (r: nat)
    ensures r < 0x1_0000
  {
    DType(d) as int
  }

  function Step(d: bv16): (r: nat)
    ensures r > 0
  {
    if DTypeInt(d) < 0x22 then 0x22 else DTypeInt(d)
  }

  /** The data word with its result cached. */
  function Store(d: bv16, retval: bv16): bv16 { (d & 0xff00) | 0x80 | (retval & 0x7f) }

  /** The data word rebuilt from its backup. */
  function Rebuild(d: bv16): bv16 { (d & 0xff00) | (0xff & (d >> 8)) }

  predicate Rebuilt(d: bv16) { Rebuild(d) == d }

  // ------------------------------------------------------------------
  // Comparators
  // ------------------------------------------------------------------

  /** One 16-bit signed value out of 0..0xffff. */
  function AsS16(n: nat): s16 { Wrap16(n) }

  function StateCall(cfg: Config, d: bv16, k: Kernel): (bv16, Kernel) {
    var r := BenchState(cfg.size, k.block, SeedByte(cfg.seed1), SeedByte(cfg.seed2), Step(d), k.crc);
    (r.0, k.(block := r.1, crcstate := if k.crcstate == 0 then r.0 else k.crcstate))
  }

  function MatrixCall(cfg: Config, d: bv16, k: Kernel): (bv16, Kernel)
    requires Square(cfg.n, |k.a|) && Square(cfg.n, |cfg.b|)
  {
    var retval := BenchMatrix(cfg.n, k.a, cfg.b, AsS16(DTypeInt(d)), k.crc);
    (retval, k.(crcmatrix := if k.crcmatrix == 0 then retval else k.crcmatrix))
  }

  /** The kernel call of calc_func: its result and the memory it leaves. */
  function CallKernel(cfg: Config, d: bv16, k: Kernel): (bv16, Kernel) {
    if Flag(d) == 0 then StateCall(cfg, d, k)
    else if Flag(d) == 1 && Square(cfg.n, |k.a|) && Square(cfg.n, |cfg.b|) then MatrixCall(cfg, d, k)
    else (d, k)
  }

  /** calc_func, for a data word and the state it finds. */
  function Calc(cfg: Config, d: bv16, k: Kernel): (bv16, Kernel) {
    if Cached(d) then (d, k)
    else
      var (retval, k') := CallKernel(cfg, d, k);
      (Store(d, retval), k'.(crc := CrcU16(retval, k'.crc)))
  }

  function ByData(cfg: Config): Comparator<bv16, Kernel> {
    Comparator((d, k) => Calc(cfg, d, k), Cached, (i, d) => Value(d), Backup)
  }

  /** cmp_idx with a null res: the data of both items is rebuilt. */
  function ByIndex(idx: seq<s16>): Comparator<bv16, Kernel> {
    Comparator((d, k) => (Rebuild(d), k), Rebuilt, (i: nat, d: bv16) => if i < |idx| then idx[i] else 0, Backup)
  }

  // ------------------------------------------------------------------
  // List operations
  // ------------------------------------------------------------------

  /** The search key: by index if it is not negative, else by the low data byte. */
  datatype Wanted = Wanted(idx: s16, data16: bv16)

  function LowData(d: bv16): bv16 { d & 0xff }

  predicate Matches(data: seq<bv16>, idx: seq<s16>, slot: nat, w: Wanted)
    requires slot < |data| && slot < |idx|
  {
    if w.idx >= 0 then idx[slot] == w.idx else LowData(data[slot]) == w.data16
  }

  predicate Fits(info: seq<nat>, data: seq<bv16>, idx: seq<s16>, nodes: seq<nat>) {
    |idx| == |data| && InBlock(info, |data|, nodes)
  }

  /** The position of the first match, or the length of the list. */
  function Find(info: seq<nat>, data: seq<bv16>, idx: seq<s16>, nodes: seq<nat>, w: Wanted): (k: nat)
    requires Fits(info, data, idx, nodes)
    ensures k <= |nodes|
  {
    if nodes == [] || Matches(data, idx, info[nodes[0]], w) then 0
    else 1 + Find(info, data, idx, nodes[1..], w)
  }

  /** What is found matches, and nothing before it does. */
  lemma {:induction false} FindFirst(info: seq<nat>, data: seq<bv16>, idx: seq<s16>, nodes: seq<nat>, w: Wanted)
    requires Fits(info, data, idx, nodes)
    ensures var k := Find(info, data, idx, nodes, w);
            && (k < |nodes| ==> Matches(data, idx, info[nodes[k]], w))
            && forall i | 0 <= i < k :: !Matches(data, idx, info[nodes[i]], w)
  {
    hide Matches;
    if nodes != [] && !Matches(data, idx, info[nodes[0]], w) {
      FindFirst(info, data, idx, nodes[1..], w);
      var k := Find(info, data, idx, nodes, w);
      forall i | 0 <= i < k
        ensures !Matches(data, idx, info[nodes[i]], w)
      {
        assert i > 0 ==> nodes[i] == nodes[1..][i - 1];
      }
    }
  }

  function Reverse(nodes: seq<nat>): (r: seq<nat>)
    ensures |r| == |nodes|
  {
    if nodes == [] then [] else Reverse(nodes[1..]) + [nodes[0]]
  }

  /** The node after position k moves to the place behind the head. */
  function Promote(nodes: seq<nat>, k: nat): (r: seq<nat>)
    requires k < |nodes|
    ensures |r| == |nodes|
  {
    if k + 1 == |nodes| then nodes
    else [nodes[0], nodes[k + 1]] + nodes[1..k + 1] + nodes[k + 2..]
  }

  function NextIdx(i: s16): s16 { if i >= 0 then Wrap16(i + 1) else i }

  datatype Search = Search(nodes: seq<nat>, wanted: s16, retval: bv16, found: bv16, missed: bv16)

  /** ee_u16 arithmetic, which wraps. */
  function Plus(x: bv16, y: bv16): bv16 { x + y }

  function Bit8(d: bv16): bv16 { (d >> 8) & 1 }
  function Bit9(d: bv16): bv16 { (d >> 9) & 1 }
  predicate Bit0(d: bv16) { d & 1 == 1 }

  /** Distance of a node from the end of the reversed list: the position of nodes[k] after a reverse. */
  function Mirror(len: nat, k: nat): nat
    requires k < len
  {
    len - 1 - k
  }

  /** One turn of the find loop. */
  function SearchStep(info: seq<nat>, data: seq<bv16>, idx: seq<s16>, s: Search, i: nat): (r: Search)
    requires Fits(info, data, idx, s.nodes) && |s.nodes| >= 2
    ensures |r.nodes| == |s.nodes|
  {
    var k := Find(info, data, idx, s.nodes, Wanted(s.wanted, Word(i % 0x100)));
    var nodes := Reverse(s.nodes);
    ReverseInBlock(info, |data|, s.nodes);
    if k == |nodes| then
      Search(nodes, NextIdx(s.wanted), Plus(s.retval, Bit8(data[info[nodes[1]]])), s.found, Plus(s.missed, 1))
    else
      var d := data[info[s.nodes[k]]];
      Search(Promote(nodes, Mirror(|nodes|, k)), NextIdx(s.wanted),
             if Bit0(d) then Plus(s.retval, Bit9(d)) else s.retval, Plus(s.found, 1), s.missed)
  }

  lemma {:induction false} ReverseAt(nodes: seq<nat>, i: nat)
    requires i < |nodes|
    ensures Reverse(nodes)[i] == nodes[|nodes| - 1 - i]
  {
    if i < |nodes| - 1 {
      ReverseAt(nodes[1..], i);
    }
  }

  lemma {:induction false} ReverseMembers(nodes: seq<nat>)
    ensures multiset(Reverse(nodes)) == multiset(nodes)
  {
    if nodes != [] {
      ReverseMembers(nodes[1..]);
      assert nodes == [nodes[0]] + nodes[1..];
    }
  }

  lemma ReverseInBlock(info: seq<nat>, size: nat, nodes: seq<nat>)
    requires InBlock(info, size, nodes)
    ensures InBlock(info, size, Reverse(nodes))
  {
    forall i | 0 <= i < |nodes| ensures HasSlot(info, size, Reverse(nodes)[i]) {
      ReverseAt(nodes, i);
    }
  }

  lemma PromoteParts(nodes: seq<nat>, k: nat)
    requires k + 1 < |nodes|
    ensures Promote(nodes, k) == [nodes[0]] + [nodes[k + 1]] + nodes[1..k + 1] + nodes[k + 2..]
    ensures nodes == [nodes[0]] + nodes[1..k + 1] + [nodes[k + 1]] + nodes[k + 2..]
  {
  }

  lemma PromoteMembers(nodes: seq<nat>, k: nat)
    requires k < |nodes|
    ensures multiset(Promote(nodes, k)) == multiset(nodes)
  {
    if k + 1 < |nodes| {
      hide Promote;
      PromoteParts(nodes, k);
      Exchanged([nodes[0]], nodes[1..k + 1], [nodes[k + 1]], nodes[k + 2..]);
    }
  }

  lemma Exchanged(a: seq<nat>, b: seq<nat>, c: seq<nat>, d: seq<nat>)
    ensures multiset(a + b + c + d) == multiset(a + c + b + d)
  {
  }

  lemma SameInBlock(info: seq<nat>, size: nat, a: seq<nat>, b: seq<nat>)
    requires InBlock(info, size, a) && multiset(a) == multiset(b)
    ensures InBlock(info, size, b)
  {
    SameMembers(a, b);
    forall i | 0 <= i < |b| ensures HasSlot(info, size, b[i]) {
      assert b[i] in a;
    }
  }

  lemma SearchStepMembers(info: seq<nat>, data: seq<bv16>, idx: seq<s16>, s: Search, i: nat)
    requires Fits(info, data, idx, s.nodes) && |s.nodes| >= 2
    ensures multiset(SearchStep(info, data, idx, s, i).nodes) == multiset(s.nodes)
    ensures Fits(info, data, idx, SearchStep(info, data, idx, s, i).nodes)
  {
    hide Find, Word, Bit0, Bit8, Bit9, InBlock, Promote;
    var k := Find(info, data, idx, s.nodes, Wanted(s.wanted, Word(i % 0x100)));
    ReverseMembers(s.nodes);
    if k < |s.nodes| {
      PromoteMembers(Reverse(s.nodes), Mirror(|s.nodes|, k));
    }
    SameInBlock(info, |data|, s.nodes, SearchStep(info, data, idx, s, i).nodes);
  }

  lemma SearchMissed(info: seq<nat>, data: seq<bv16>, idx: seq<s16>, s: Search, i: nat)
    requires Fits(info, data, idx, s.nodes) && |s.nodes| >= 2
    requires Find(info, data, idx, s.nodes, Wanted(s.wanted, Word(i % 0x100))) == |s.nodes|
    ensures HasSlot(info, |data|, Reverse(s.nodes)[1])
    ensures SearchStep(info, data, idx, s, i) == Search(Reverse(s.nodes), NextIdx(s.wanted),
              Plus(s.retval, Bit8(data[info[Reverse(s.nodes)[1]]])), s.found, Plus(s.missed, 1))
  {
    hide Find, Bit8, Bit0, Bit9, Word, NextIdx, Promote, Reverse, Plus;
    ReverseInBlock(info, |data|, s.nodes);
  }

  lemma SearchFound(info: seq<nat>, data: seq<bv16>, idx: seq<s16>, s: Search, i: nat)
    requires Fits(info, data, idx, s.nodes) && |s.nodes| >= 2
    requires Find(info, data, idx, s.nodes, Wanted(s.wanted, Word(i % 0x100))) < |s.nodes|
    ensures var k := Find(info, data, idx, s.nodes, Wanted(s.wanted, Word(i % 0x100)));
            var d := data[info[s.nodes[k]]];
            SearchStep(info, data, idx, s, i) == Search(Promote(Reverse(s.nodes), Mirror(|s.nodes|, k)), NextIdx(s.wanted),
              if Bit0(d) then Plus(s.retval, Bit9(d)) else s.retval, Plus(s.found, 1), s.missed)
  {
    hide Find, Bit8, Bit0, Bit9, Word, NextIdx, Promote, Reverse, Plus;
  }

  /** Turns i, i+1, ... up to find_num. */
  function SearchLoop(info: seq<nat>, data: seq<bv16>, idx: seq<s16>, s: Search, i: nat, findNum: int): (r: Search)
    requires Fits(info, data, idx, s.nodes) && |s.nodes| >= 2
    ensures multiset(r.nodes) == multiset(s.nodes) && Fits(info, data, idx, r.nodes)
    decreases findNum - i
  {
    if i >= findNum then s
    else
      SearchStepMembers(info, data, idx, s, i);
      SearchLoop(info, data, idx, SearchStep(info, data, idx, s, i), i + 1, findNum)
  }

  /** core_list_remove(item) where item is at position 1: the two data pointers are
      exchanged and the item behind it is unlinked. */
  function RemoveInfo(info: seq<nat>, nodes: seq<nat>): (r: seq<nat>)
    requires |nodes| >= 3 && nodes[1] < |info| && nodes[2] < |info|
    ensures |r| == |info|
  {
    info[nodes[1] := info[nodes[2]]][nodes[2] := info[nodes[1]]]
  }

  function RemoveNodes(nodes: seq<nat>): seq<nat>
    requires |nodes| >= 3
  {
    nodes[..2] + nodes[3..]
  }

  /** core_list_undo_remove(removed, item) with item at position 1. */
  function UndoInfo(info: seq<nat>, removed: nat, item: nat): seq<nat>
    requires removed < |info| && item < |info|
  {
    info[removed := info[item]][item := info[removed]]
  }

  function UndoNodes(nodes: seq<nat>, removed: nat): seq<nat>
    requires |nodes| >= 2
  {
    nodes[..2] + [removed] + nodes[2..]
  }

  /** Undoing a removal gives back the order and every data pointer. */
  lemma RemoveUndone(info: seq<nat>, nodes: seq<nat>)
    requires |nodes| >= 3 && nodes[1] < |info| && nodes[2] < |info|
    ensures UndoInfo(RemoveInfo(info, nodes), nodes[2], nodes[1]) == info
    ensures UndoNodes(RemoveNodes(nodes), nodes[2]) == nodes
  {
  }

  /** times applications of the CRC to the same data word. */
  function CrcRepeat(d: bv16, times: nat, crc: bv16): bv16
    decreases times, [d]
  {
    if times == 0 then crc else CrcRepeat(d, times - 1, CrcU16(d, crc))
  }

  /** The checksum of the find loop: retval += found * 4 - missed. */
  function Score(s: Search): bv16 { Plus(s.retval, Balance(s.found, s.missed)) }

  function Balance(found: bv16, missed: bv16): bv16 { found * 4 - missed }

  datatype Bench = Bench(nodes: seq<nat>, info: seq<nat>, data: seq<bv16>, k: Kernel, retval: bv16)

  function Sorted(cfg: Config, info: seq<nat>, data: seq<bv16>, k: Kernel, nodes: seq<nat>, finderIdx: s16)
    : (r: (State<bv16, Kernel>, seq<nat>))
    requires InBlock(info, |data|, nodes)
    ensures |r.0.data| == |data| && multiset(r.1) == multiset(nodes) && InBlock(info, |data|, r.1)
  {
    if finderIdx > 0 then MergeSort(ByData(cfg), info, State(data, k), nodes) else (State(data, k), nodes)
  }

  lemma RemovedFits(info: seq<nat>, data: seq<bv16>, idx: seq<s16>, nodes: seq<nat>)
    requires Fits(info, data, idx, nodes) && |nodes| >= 3
    ensures Fits(RemoveInfo(info, nodes), data, idx, RemoveNodes(nodes))
  {
    var r, ns := RemoveInfo(info, nodes), RemoveNodes(nodes);
    forall i | 0 <= i < |ns| ensures HasSlot(r, |data|, ns[i]) {
      var j := if i < 2 then i else i + 1;
      assert ns[i] == nodes[j] && HasSlot(info, |data|, nodes[j]);
      assert HasSlot(info, |data|, nodes[1]) && HasSlot(info, |data|, nodes[2]);
    }
  }

  /** The CRC of the first phase: the head's data, once for every node from the found one on. */
  function CrcFromFound(info: seq<nat>, data: seq<bv16>, idx: seq<s16>, nodes: seq<nat>, w: Wanted, retval: bv16): bv16
    requires Fits(info, data, idx, nodes) && |nodes| >= 3
  {
    RemovedFits(info, data, idx, nodes);
    var info', nodes' := RemoveInfo(info, nodes), RemoveNodes(nodes);
    var k := Find(info', data, idx, nodes', w);
    CrcRepeat(data[info'[nodes'[0]]], |nodes'| - if k == |nodes'| then 1 else k, retval)
  }

  function LastData(findNum: int): bv16 { if findNum > 0 then Word((findNum - 1) % 0x100) else 0 }

  /** core_bench_list from the removal on: remove, CRC, undo, sort by index, CRC. */
  function Finish(info: seq<nat>, idx: seq<s16>, w: Wanted, t: State<bv16, Kernel>, nodes: seq<nat>, retval: bv16): (r: Bench)
    requires Fits(info, t.data, idx, nodes) && |nodes| >= 3
    ensures r.info == info && |r.nodes| == |nodes| && Fits(info, r.data, idx, r.nodes)
    ensures multiset(r.nodes) == multiset(nodes)
  {
    var retval1 := CrcFromFound(info, t.data, idx, nodes, w, retval);
    var item, removed := nodes[1], nodes[2];
    assert HasSlot(info, |t.data|, item) && HasSlot(info, |t.data|, removed);
    var info2 := UndoInfo(RemoveInfo(info, nodes), removed, item);
    var nodes2 := UndoNodes(RemoveNodes(nodes), removed);
    RemoveUndone(info, nodes);
    var (u, final) := MergeSort(ByIndex(idx), info2, t, nodes2);
    SameMembers(final, nodes2);
    Bench(final, info2, u.data, u.k, CrcRepeat(u.data[info2[final[0]]], |final| - 1, retval1))
  }

  /** Finish without the removal it undoes. */
  lemma FinishIs(info: seq<nat>, idx: seq<s16>, w: Wanted, t: State<bv16, Kernel>, nodes: seq<nat>, retval: bv16)
    requires Fits(info, t.data, idx, nodes) && |nodes| >= 3
    ensures var u := MergeSort(ByIndex(idx), info, t, nodes);
            && |u.1| == |nodes| && HasSlot(info, |t.data|, u.1[0])
            && Finish(info, idx, w, t, nodes, retval) == Bench(u.1, info, u.0.data, u.0.k,
                 CrcRepeat(u.0.data[info[u.1[0]]], |u.1| - 1, CrcFromFound(info, t.data, idx, nodes, w, retval)))
  {
    hide MergeSort, CrcFromFound, CrcRepeat, ByIndex;
    assert HasSlot(info, |t.data|, nodes[1]) && HasSlot(info, |t.data|, nodes[2]);
    RemoveUndone(info, nodes);
    SameMembers(MergeSort(ByIndex(idx), info, t, nodes).1, nodes);
    assert HasSlot(info, |t.data|, MergeSort(ByIndex(idx), info, t, nodes).1[0]);
  }

  /** core_bench_list, lines 158-235. */
  function BenchList(cfg: Config, info: seq<nat>, data: seq<bv16>, idx: seq<s16>, nodes: seq<nat>, k: Kernel, finderIdx: s16)
    : (r: Bench)
    requires Fits(info, data, idx, nodes) && |nodes| >= 3
    ensures r.info == info && |r.nodes| == |nodes| && Fits(info, r.data, idx, r.nodes)
    ensures multiset(r.nodes) == multiset(nodes)
  {
    var s := SearchLoop(info, data, idx, Search(nodes, finderIdx, 0, 0, 0), 0, cfg.seed3);
    SameMembers(s.nodes, nodes);
    var (t, sorted) := Sorted(cfg, info, data, k, s.nodes, finderIdx);
    SameMembers(sorted, s.nodes);
    Finish(info, idx, Wanted(s.wanted, LastData(cfg.seed3)), t, sorted, Score(s))
  }

  lemma SortedIs(cfg: Config, info: seq<nat>, data: seq<bv16>, idx: seq<s16>, k: Kernel, nodes: seq<nat>, finderIdx: s16)
    requires Fits(info, data, idx, nodes)
    ensures InBlock(info, |data|, nodes)
    ensures var t := Sorted(cfg, info, data, k, nodes, finderIdx);
            && t == (if finderIdx > 0 then MergeSort(ByData(cfg), info, State(data, k), nodes) else (State(data, k), nodes))
            && Fits(info, t.0.data, idx, t.1) && |t.1| == |nodes|
  {
    hide MergeSort, ByData;
    SameMembers(Sorted(cfg, info, data, k, nodes, finderIdx).1, nodes);
  }

  lemma BenchListIs(cfg: Config, info: seq<nat>, data: seq<bv16>, idx: seq<s16>, nodes: seq<nat>, k: Kernel, finderIdx: s16)
    requires Fits(info, data, idx, nodes) && |nodes| >= 3
    ensures var s := SearchLoop(info, data, idx, Search(nodes, finderIdx, 0, 0, 0), 0, cfg.seed3);
            var t := Sorted(cfg, info, data, k, s.nodes, finderIdx);
            && |t.1| >= 3 && BenchList(cfg, info, data, idx, nodes, k, finderIdx)
               == Finish(info, idx, Wanted(s.wanted, LastData(cfg.seed3)), t.0, t.1, Score(s))
  {
    hide SearchLoop, Sorted, Finish, Score, LastData;
    var s := SearchLoop(info, data, idx, Search(nodes, finderIdx, 0, 0, 0), 0, cfg.seed3);
    SameMembers(s.nodes, nodes);
    SameMembers(Sorted(cfg, info, data, k, s.nodes, finderIdx).1, s.nodes);
  }
}
