/** iterate of core_main.c: every iteration runs the same computation. */
module CoreMain {
  import opened CoreUtil
  import opened CoreState
  import opened CoreStateProof
  import opened CoreMatrix
  import opened ListSort
  import opened ListSortProof
  import opened CoreList
  import opened CoreListProof

  /** The list and the results record between two calls of core_bench_list. */
  datatype Memory = Memory(nodes: seq<nat>, info: seq<nat>, data: seq<bv16>, k: Kernel)

  /** core_bench_list needs a second and a third node. */
  predicate Usable(idx: seq<s16>, m: Memory) {
    Fits(m.info, m.data, idx, m.nodes) && |m.nodes| >= 3
  }

  /** The list from the node head on: what a pointer to that node shows of it. */
  function Visible(nodes: seq<nat>, head: nat): (r: seq<nat>)
    ensures |r| <= |nodes|
  {
    if nodes == [] || nodes[0] == head then nodes else Visible(nodes[1..], head)
  }

  lemma {:induction false} VisibleIsSuffix(nodes: seq<nat>, head: nat)
    ensures Visible(nodes, head) == nodes[|nodes| - |Visible(nodes, head)|..]
    ensures Visible(nodes, head) != [] ==> Visible(nodes, head)[0] == head
    ensures head in nodes ==> Visible(nodes, head) != []
  {
    if nodes != [] && nodes[0] != head {
      VisibleIsSuffix(nodes[1..], head);
    }
  }

  /** core_bench_list followed by folding its result into res->crc. res->list still points to the
      node that was the head. */
  function Measure(cfg: Config, idx: seq<s16>, m: Memory, finderIdx: s16): (r: Memory)
    requires Usable(idx, m)
    ensures Fits(r.info, r.data, idx, r.nodes)
  {
    var r := BenchList(cfg, m.info, m.data, idx, m.nodes, m.k, finderIdx);
    VisibleFits(m.info, r.data, idx, r.nodes, m.nodes[0]);
    Memory(Visible(r.nodes, m.nodes[0]), r.info, r.data, r.k.(crc := CrcU16(r.retval, r.k.crc)))
  }

  lemma VisibleFits(info: seq<nat>, data: seq<bv16>, idx: seq<s16>, nodes: seq<nat>, head: nat)
    requires Fits(info, data, idx, nodes)
    ensures Fits(info, data, idx, Visible(nodes, head))
  {
    var r := Visible(nodes, head);
    VisibleIsSuffix(nodes, head);
    forall i | 0 <= i < |r|
      ensures HasSlot(info, |data|, r[i])
    {
      assert r[i] == nodes[|nodes| - |r| + i];
    }
  }

  /** Both calls of an iteration find a long enough list. */
  predicate Turns(cfg: Config, idx: seq<s16>, m: Memory) {
    Usable(idx, m) && Usable(idx, Measure(cfg, idx, m, 1))
  }

  /** The body of the loop in iterate. */
  function Turn(cfg: Config, idx: seq<s16>, m: Memory): (r: Memory)
    requires Turns(cfg, idx, m)
  {
    Measure(cfg, idx, Measure(cfg, idx, m, 1), -1)
  }

  /** Turn as a function on every memory. */
  function Turning(cfg: Config, idx: seq<s16>): Memory -> Memory {
    (m: Memory) => if Turns(cfg, idx, m) then Turn(cfg, idx, m) else m
  }

  function Cleared(m: Memory): Memory {
    m.(k := m.k.(crc := 0, crcstate := 0, crcmatrix := 0))
  }

  datatype Outcome = Outcome(memory: Memory, crclist: bv16)

  /** No call of iterate meets a list of fewer than three nodes. */
  ghost predicate Lasts(cfg: Config, idx: seq<s16>, m: Memory, iterations: nat) {
    forall i: nat | i < iterations :: Turns(cfg, idx, Iterate(Turning(cfg, idx), Cleared(m), i))
  }

  /** iterate: the memory it leaves, with crclist taken after the first iteration. */
  function IterateBench(cfg: Config, idx: seq<s16>, m: Memory, iterations: nat): Outcome {
    Outcome(Iterate(Turning(cfg, idx), Cleared(m), iterations),
            if iterations == 0 then 0 else Turning(cfg, idx)(Cleared(m)).k.crc)
  }

  /** The state benchmark leaves this block as it was, for every step a data word can ask for. */
  ghost predicate Steady(cfg: Config, block: seq<bv8>) {
    forall d, i | 0 <= i < |block| && Visited(cfg.size, Step(d), i) ::
      Undoes(block[i], SeedByte(cfg.seed1), SeedByte(cfg.seed2))
  }

  /** Equal but for the two fields that only record first results. */
  predicate Same(k: Kernel, k': Kernel) {
    k.crc == k'.crc && k.block == k'.block && k.a == k'.a
  }

  ghost function SameOn(block: seq<bv8>, a: seq<s16>): (Kernel, Kernel) -> bool {
    (k, k') => Same(k, k') && k.block == block && k.a == a
  }

  lemma CallKernelSame(cfg: Config, d: bv16, k: Kernel, k': Kernel)
    requires Same(k, k') && Steady(cfg, k.block)
    ensures CallKernel(cfg, d, k).0 == CallKernel(cfg, d, k').0
    ensures Same(CallKernel(cfg, d, k).1, CallKernel(cfg, d, k').1)
    ensures CallKernel(cfg, d, k).1.block == k.block && CallKernel(cfg, d, k).1.a == k.a
  {
    if Flag(d) == 0 {
      RestoredExactly(cfg.size, k.block, SeedByte(cfg.seed1), SeedByte(cfg.seed2), Step(d), k.crc);
    }
  }

  lemma CalcRespects(cfg: Config, block: seq<bv8>, a: seq<s16>)
    requires Steady(cfg, block)
    ensures Respects(ByData(cfg), SameOn(block, a))
  {
    var c, related := ByData(cfg), SameOn(block, a);
    forall d, k, k' | related(k, k')
      ensures c.touch(d, k).0 == c.touch(d, k').0 && related(c.touch(d, k).1, c.touch(d, k').1)
    {
      CallKernelSame(cfg, d, k, k');
    }
  }

  lemma SortedSame(cfg: Config, info: seq<nat>, data: seq<bv16>, k: Kernel, k': Kernel, nodes: seq<nat>, finderIdx: s16)
    requires InBlock(info, |data|, nodes) && Steady(cfg, k.block) && Same(k, k')
    ensures var r, r' := Sorted(cfg, info, data, k, nodes, finderIdx), Sorted(cfg, info, data, k', nodes, finderIdx);
            r.1 == r'.1 && r.0.data == r'.0.data && Same(r.0.k, r'.0.k) && r.0.k.block == k.block && r.0.k.a == k.a
  {
    if finderIdx > 0 {
      CalcRespects(cfg, k.block, k.a);
      SortAlike(ByData(cfg), info, SameOn(k.block, k.a), State(data, k), State(data, k'), nodes, 1);
    }
  }

  /** The last sort does the same to the list whatever the results record holds, and not to it. */
  lemma IndexSortSame(idx: seq<s16>, info: seq<nat>, t: State<bv16, Kernel>, t': State<bv16, Kernel>, nodes: seq<nat>)
    requires InBlock(info, |t.data|, nodes) && t.data == t'.data
    ensures var u, u' := MergeSort(ByIndex(idx), info, t, nodes), MergeSort(ByIndex(idx), info, t', nodes);
            u.1 == u'.1 && u.0.data == u'.0.data && u.0.k == t.k && u'.0.k == t'.k
  {
    SortAlike(ByIndex(idx), info, (k: Kernel, k': Kernel) => true, t, t', nodes, 1);
    SortKeepsState(ByIndex(idx), info, t, nodes, 1);
    SortKeepsState(ByIndex(idx), info, t', nodes, 1);
  }

  lemma FinishSame(info: seq<nat>, idx: seq<s16>, w: Wanted, t: State<bv16, Kernel>, t': State<bv16, Kernel>,
                   nodes: seq<nat>, retval: bv16)
    requires Fits(info, t.data, idx, nodes) && |nodes| >= 3 && t.data == t'.data
    ensures var r, r' := Finish(info, idx, w, t, nodes, retval), Finish(info, idx, w, t', nodes, retval);
            r' == r.(k := r'.k) && r.k == t.k && r'.k == t'.k
  {
    hide MergeSort, ByIndex, CrcFromFound, CrcRepeat, Finish;
    FinishIs(info, idx, w, t, nodes, retval);
    FinishIs(info, idx, w, t', nodes, retval);
    IndexSortSame(idx, info, t, t', nodes);
  }

  lemma BenchListSame(cfg: Config, info: seq<nat>, data: seq<bv16>, idx: seq<s16>, nodes: seq<nat>, k: Kernel, k': Kernel, finderIdx: s16)
    requires Fits(info, data, idx, nodes) && |nodes| >= 3 && Steady(cfg, k.block) && Same(k, k')
    ensures var r, r' := BenchList(cfg, info, data, idx, nodes, k, finderIdx), BenchList(cfg, info, data, idx, nodes, k', finderIdx);
            r' == r.(k := r'.k) && Same(r.k, r'.k) && r.k.block == k.block && r.k.a == k.a
  {
    hide Finish, Sorted, SearchLoop;
    var s := Searched(cfg, info, data, idx, nodes, finderIdx);
    SortedSame(cfg, info, data, k, k', s.nodes, finderIdx);
    var (t, sorted) := Sorted(cfg, info, data, k, s.nodes, finderIdx);
    var t' := Sorted(cfg, info, data, k', s.nodes, finderIdx).0;
    SameMembers(s.nodes, nodes);
    SameMembers(sorted, s.nodes);
    FinishSame(info, idx, Wanted(s.wanted, LastData(cfg.seed3)), t, t', sorted, Score(s));
  }

  /** One call of core_bench_list, on any list: payloads, state block and matrix A are as they were,
      and what it makes of the list and of res->crc depends on res->crc alone among the fields of
      res that change. */
  lemma MeasureSame(cfg: Config, idx: seq<s16>, m: Memory, k': Kernel, finderIdx: s16)
    requires Usable(idx, m) && Steady(cfg, m.k.block) && Same(m.k, k')
    ensures var r, r' := Measure(cfg, idx, m, finderIdx), Measure(cfg, idx, m.(k := k'), finderIdx);
            && r.info == m.info && r.k.block == m.k.block && r.k.a == m.k.a
            && r' == r.(k := r'.k) && Same(r.k, r'.k)
  {
    hide BenchList;
    BenchListSame(cfg, m.info, m.data, idx, m.nodes, m.k, k', finderIdx);
  }

  /** An initialised list is given back. */
  lemma MeasureRestores(cfg: Config, idx: seq<s16>, m: Memory, finderIdx: s16)
    requires Initial(m.info, m.data, idx, m.nodes)
    ensures var r := Measure(cfg, idx, m, finderIdx);
            r.nodes == m.nodes && r.info == m.info && r.data == m.data
  {
    hide BenchList;
    BenchListRestores(cfg, m.info, m.data, idx, m.nodes, m.k, finderIdx);
  }

  /** res->crc after core_bench_list on the list m and the fold of what it returns. */
  function Folded(cfg: Config, idx: seq<s16>, m: Memory, crc: bv16, finderIdx: s16): bv16
    requires Usable(idx, m)
  {
    var r := BenchList(cfg, m.info, m.data, idx, m.nodes, Kernel(crc, 0, 0, m.k.block, m.k.a), finderIdx);
    CrcU16(r.retval, r.k.crc)
  }

  /** The CRC one iteration makes of the CRC it starts from: finder_idx 1, then -1, both on the list
      as it was. */
  function RoundCrc(cfg: Config, idx: seq<s16>, m: Memory, crc: bv16): bv16 {
    if Usable(idx, m) then Folded(cfg, idx, m, Folded(cfg, idx, m, crc, 1), -1) else crc
  }

  lemma MeasureFolds(cfg: Config, idx: seq<s16>, m: Memory, finderIdx: s16)
    requires Usable(idx, m) && Steady(cfg, m.k.block)
    ensures Measure(cfg, idx, m, finderIdx).k.crc == Folded(cfg, idx, m, m.k.crc, finderIdx)
  {
    hide BenchList, CrcU16, Steady, Visible;
    BenchListSame(cfg, m.info, m.data, idx, m.nodes, m.k, Kernel(m.k.crc, 0, 0, m.k.block, m.k.a), finderIdx);
  }

  function Round(cfg: Config, idx: seq<s16>, m: Memory): bv16 -> bv16 {
    crc => RoundCrc(cfg, idx, m, crc)
  }

  ghost predicate Unchanged(m: Memory, r: Memory) {
    r.nodes == m.nodes && r.info == m.info && r.data == m.data && r.k.block == m.k.block && r.k.a == m.k.a
  }

  lemma TurnIsRound(cfg: Config, idx: seq<s16>, m: Memory)
    requires Initial(m.info, m.data, idx, m.nodes) && Steady(cfg, m.k.block)
    ensures Turns(cfg, idx, m) && Unchanged(m, Turn(cfg, idx, m))
    ensures Turn(cfg, idx, m).k.crc == RoundCrc(cfg, idx, m, m.k.crc)
  {
    hide Measure, Initial, Steady, BenchList, CrcU16;
    InitialUsable(idx, m);
    MeasureSame(cfg, idx, m, m.k, 1);
    MeasureRestores(cfg, idx, m, 1);
    var r := Measure(cfg, idx, m, 1);
    MeasureSame(cfg, idx, r, r.k, -1);
    MeasureRestores(cfg, idx, r, -1);
    MeasureFolds(cfg, idx, m, 1);
    MeasureFolds(cfg, idx, r, -1);
  }

  lemma InitialUsable(idx: seq<s16>, m: Memory)
    requires Initial(m.info, m.data, idx, m.nodes)
    ensures Usable(idx, m)
  {
  }

  /** A round depends on the list, the block and the matrix, not on the counters of res. */
  lemma RoundOfMemory(cfg: Config, idx: seq<s16>, m: Memory, r: Memory, crc: bv16)
    requires Unchanged(m, r)
    ensures RoundCrc(cfg, idx, r, crc) == RoundCrc(cfg, idx, m, crc)
  {
    hide BenchList, CrcU16;
  }

  lemma TurningIsRound(cfg: Config, idx: seq<s16>, m: Memory, r: Memory)
    requires Initial(m.info, m.data, idx, m.nodes) && Steady(cfg, m.k.block) && Unchanged(m, r)
    ensures Unchanged(m, Turning(cfg, idx)(r))
    ensures Turning(cfg, idx)(r).k.crc == Round(cfg, idx, m)(r.k.crc)
  {
    TurnIsRound(cfg, idx, r);
    RoundOfMemory(cfg, idx, m, r, r.k.crc);
  }

  function CrcOf(): Memory -> bv16 { (x: Memory) => x.k.crc }

  ghost function Like(m: Memory): Memory -> bool { (x: Memory) => Unchanged(m, x) }

  lemma TurningSimulatesRound(cfg: Config, idx: seq<s16>, m: Memory)
    requires Initial(m.info, m.data, idx, m.nodes) && Steady(cfg, m.k.block)
    ensures Simulates(Turning(cfg, idx), Round(cfg, idx, m), CrcOf(), Like(m))
  {
    var f, g := Turning(cfg, idx), Round(cfg, idx, m);
    forall x | Like(m)(x) ensures Like(m)(f(x)) && CrcOf()(f(x)) == g(CrcOf()(x)) {
      TurningIsRound(cfg, idx, m, x);
    }
  }

  lemma TurnsAreRounds(cfg: Config, idx: seq<s16>, m: Memory, r: Memory, n: nat)
    requires Initial(m.info, m.data, idx, m.nodes) && Steady(cfg, m.k.block) && Unchanged(m, r)
    ensures Unchanged(m, Iterate(Turning(cfg, idx), r, n))
    ensures Iterate(Turning(cfg, idx), r, n).k.crc == Iterate(Round(cfg, idx, m), r.k.crc, n)
  {
    TurningSimulatesRound(cfg, idx, m);
    IterateSimulates(Turning(cfg, idx), Round(cfg, idx, m), CrcOf(), Like(m), r, n);
  }

  lemma UnchangedInitial(idx: seq<s16>, m: Memory, r: Memory)
    requires Initial(m.info, m.data, idx, m.nodes) && Unchanged(m, r)
    ensures Initial(r.info, r.data, idx, r.nodes)
  {
  }

  /** iterate: the list, the state block and the matrix end as they began; the final CRC is one
      fixed function applied `iterations` times to 0; crclist is that function of 0, whatever
      the number of iterations. */
  lemma IterateRepeats(cfg: Config, idx: seq<s16>, m: Memory, iterations: nat)
    requires Initial(m.info, m.data, idx, m.nodes) && Steady(cfg, m.k.block)
    ensures Lasts(cfg, idx, m, iterations)
    ensures var out := IterateBench(cfg, idx, m, iterations);
            && Unchanged(m, out.memory)
            && out.memory.k.crc == Iterate(Round(cfg, idx, m), 0, iterations)
            && (iterations > 0 ==> out.crclist == RoundCrc(cfg, idx, m, 0))
  {
    hide Initial, Steady, Turns, Turn;
    forall i: nat | i < iterations
      ensures Turns(cfg, idx, Iterate(Turning(cfg, idx), Cleared(m), i))
    {
      TurnsAreRounds(cfg, idx, m, Cleared(m), i);
      UnchangedInitial(idx, m, Iterate(Turning(cfg, idx), Cleared(m), i));
      TurnIsRound(cfg, idx, Iterate(Turning(cfg, idx), Cleared(m), i));
    }
    TurnsAreRounds(cfg, idx, m, Cleared(m), iterations);
    UnchangedInitial(idx, m, Cleared(m));
    TurnIsRound(cfg, idx, Cleared(m));
    RoundOfMemory(cfg, idx, m, Cleared(m), 0);
  }
}
