/** core_list_join.c and iterate on the memory block itself: pointers are relinked and
    data overwritten in place. Each method is proved against the functions of CoreList. */
module CoreListCode {
  import opened CoreUtil
  import opened CoreState
  import opened CoreStateProof
  import opened CoreMatrix
  import opened ListSort
  import opened CoreList
  import opened ListHeap
  import opened CoreListProof
  import opened CoreMain
  import opened FindTrace
  import opened BenchValue
  import opened DataWord

  /** The two comparators core_bench_list passes to the sort. */
  datatype Cmp = CmpComplex | CmpIdx

  /** The block between the two corruptions of a state kernel call, and after it. */
  function HalfWay(cfg: Config, block: seq<bv8>, d: bv16): (r: seq<bv8>)
    ensures |r| == |block|
  {
    Corrupt(block, cfg.size, SeedByte(cfg.seed1), Step(d))
  }

  function AfterCall(cfg: Config, block: seq<bv8>, d: bv16): (r: seq<bv8>)
    ensures |r| == |block|
  {
    Corrupt(HalfWay(cfg, block, d), cfg.size, SeedByte(cfg.seed2), Step(d))
  }

  /** The block after calls with these data words. */
  function AfterCalls(cfg: Config, block: seq<bv8>, ds: seq<bv16>): seq<bv8>
    decreases |ds|
  {
    if ds == [] then block else AfterCalls(cfg, AfterCall(cfg, block, ds[0]), ds[1..])
  }

  /** Both scans of every call that may ever come, whatever its data word and those before it, find
      a NUL to stop at. */
  ghost predicate NulStays(cfg: Config, block: seq<bv8>) {
    forall ds: seq<bv16> :: NulNow(cfg, AfterCalls(cfg, block, ds))
  }

  /** Both scans of a call with this data word find a NUL. */
  ghost predicate NulFor(cfg: Config, block: seq<bv8>, d: bv16) {
    HasNul(block) && HasNul(HalfWay(cfg, block, d))
  }

  ghost predicate NulNow(cfg: Config, block: seq<bv8>) {
    forall d :: NulFor(cfg, block, d)
  }

  lemma NulStaysNow(cfg: Config, block: seq<bv8>)
    requires NulStays(cfg, block)
    ensures NulNow(cfg, block)
  {
    assert AfterCalls(cfg, block, []) == block;
  }

  lemma NulStaysAfter(cfg: Config, block: seq<bv8>, d: bv16)
    requires NulStays(cfg, block)
    ensures NulStays(cfg, AfterCall(cfg, block, d))
  {
    hide NulNow, AfterCall;
    forall ds: seq<bv16>
      ensures NulNow(cfg, AfterCalls(cfg, AfterCall(cfg, block, d), ds))
    {
      assert ([d] + ds)[1..] == ds;
      assert AfterCalls(cfg, block, [d] + ds) == AfterCalls(cfg, AfterCall(cfg, block, d), ds);
    }
  }

  /** The kernel runs for this word, and it is the state kernel. */
  predicate CallsState(d: bv16) { !Cached(d) && Flag(d) == 0 }

  /** One call of calc_func finds the NULs it needs, and keeps those that later calls need. */
  lemma CalcKeepsNul(cfg: Config, d: bv16, k: Kernel)
    requires NulStays(cfg, k.block)
    ensures NulFor(cfg, k.block, d) && NulStays(cfg, Calc(cfg, d, k).1.block)
  {
    hide NulStays, NulFor, Corrupt, CrcCounts, CrcU16, BenchMatrix;
    NulStaysNow(cfg, k.block);
    NulStaysAfter(cfg, k.block, d);
    NulOfAll(cfg, k.block, d);
  }

  lemma CachedStays(cfg: Config, d: bv16, k: Kernel)
    requires Cached(d)
    ensures Calc(cfg, d, k).0 == d
  {
  }

  lemma NulOfAll(cfg: Config, block: seq<bv8>, d: bv16)
    requires NulNow(cfg, block)
    ensures NulFor(cfg, block, d)
  {
  }

  /** No step lands on i, or the seeds change nothing. */
  ghost predicate Spared(cfg: Config, i: nat) {
    (SeedByte(cfg.seed1) == 0 && SeedByte(cfg.seed2) == 0) || forall d :: !Visited(cfg.size, Step(d), i)
  }

  lemma SparedNow(cfg: Config, block: seq<bv8>, i: nat)
    requires i < |block| && block[i] == 0 && Spared(cfg, i)
    ensures NulNow(cfg, block) && forall d :: AfterCall(cfg, block, d)[i] == 0
  {
    hide SeedByte;
    assert Xor8(0, 0) == 0;
    forall d
      ensures NulFor(cfg, block, d) && AfterCall(cfg, block, d)[i] == 0
    {
      assert HalfWay(cfg, block, d)[i] == 0;
    }
  }

  lemma {:induction false} SparedCalls(cfg: Config, block: seq<bv8>, i: nat, ds: seq<bv16>)
    requires i < |block| && block[i] == 0 && Spared(cfg, i)
    ensures NulNow(cfg, AfterCalls(cfg, block, ds))
    decreases |ds|
  {
    hide NulNow, AfterCall, Spared;
    SparedNow(cfg, block, i);
    if ds != [] {
      SparedCalls(cfg, AfterCall(cfg, block, ds[0]), i, ds[1..]);
    }
  }

  /** A NUL that no step lands on is enough. */
  lemma SparedStays(cfg: Config, block: seq<bv8>, i: nat)
    requires i < |block| && block[i] == 0 && Spared(cfg, i)
    ensures NulStays(cfg, block)
  {
    forall ds: seq<bv16>
      ensures NulNow(cfg, AfterCalls(cfg, block, ds))
    {
      SparedCalls(cfg, block, i, ds);
    }
  }

  lemma {:induction false} SteadyCalls(cfg: Config, block: seq<bv8>, ds: seq<bv16>)
    requires Steady(cfg, block)
    ensures AfterCalls(cfg, block, ds) == block
    decreases |ds|
  {
    hide AfterCall, Steady;
    if ds != [] {
      SteadyCall(cfg, block, ds[0]);
      SteadyCalls(cfg, block, ds[1..]);
    }
  }

  lemma SteadyCall(cfg: Config, block: seq<bv8>, d: bv16)
    requires Steady(cfg, block)
    ensures AfterCall(cfg, block, d) == block
  {
    RestoredExactly(cfg.size, block, SeedByte(cfg.seed1), SeedByte(cfg.seed2), Step(d), 0);
  }

  /** For a block that each call gives back, what is needed of one call is needed of all. */
  lemma SteadyStays(cfg: Config, block: seq<bv8>)
    requires Steady(cfg, block)
    ensures NulStays(cfg, block) <==> NulNow(cfg, block)
  {
    if NulStays(cfg, block) {
      NulStaysNow(cfg, block);
    }
    hide NulNow, Steady;
    forall ds: seq<bv16>
      ensures AfterCalls(cfg, block, ds) == block
    {
      SteadyCalls(cfg, block, ds);
    }
  }

  lemma StoredValue(d: bv16, r: bv16)
    ensures Value(Store(d, r)) == Value(r)
  {
    StoredLow(d, r);
  }

  lemma StoredCached(d: bv16, r: bv16)
    ensures Cached(Store(d, r))
  {
  }

  lemma StoredLow(d: bv16, r: bv16)
    ensures Store(d, r) & 0x7f == r & 0x7f
  {
  }

  class CoreMark {
    const next: array<Ref>
    const info: array<nat>
    const data16: array<bv16>
    const idx: array<s16>
    const size: nat
    const block: array<bv8>
    const n: nat
    const a: array<s16>
    const b: array<s16>
    const c: array<s32>
    const seed1: int
    const seed2: int
    const seed3: int
    var list: Ref
    var crc: bv16
    var crcstate: bv16
    var crcmatrix: bv16
    var crclist: bv16

    constructor (next: array<Ref>, info: array<nat>, data16: array<bv16>, idx: array<s16>, size: nat, block: array<bv8>,
                 n: nat, a: array<s16>, b: array<s16>, c: array<s32>, seed1: int, seed2: int, seed3: int, list: Ref)
      ensures this.next == next && this.info == info && this.data16 == data16 && this.idx == idx
      ensures this.size == size && this.block == block && this.n == n && this.a == a && this.b == b && this.c == c
      ensures this.seed1 == seed1 && this.seed2 == seed2 && this.seed3 == seed3 && this.list == list
    {
      this.next, this.info, this.data16, this.idx := next, info, data16, idx;
      this.size, this.block, this.n, this.a, this.b, this.c := size, block, n, a, b, c;
      this.seed1, this.seed2, this.seed3, this.list := seed1, seed2, seed3, list;
    }

    /** The regions of the memory block do not overlap. */
    ghost predicate Apart() {
      && idx != a && idx != b && a != b
      && (data16 as object) != block && (data16 as object) != a && (data16 as object) != b && (data16 as object) != c
      && (data16 as object) != idx && (data16 as object) != info && (data16 as object) != next
      && (block as object) != a && (block as object) != b && (block as object) != c
      && (block as object) != idx && (block as object) != info && (block as object) != next
      && (c as object) != a && (c as object) != b && (c as object) != idx && (c as object) != info && (c as object) != next
      && (a as object) != info && (a as object) != next
      && (info as object) != next && (info as object) != idx && (info as object) != b && (next as object) != idx && (next as object) != b
      && idx.Length == data16.Length
    }

    /** The regions have the sizes the kernels expect. */
    ghost predicate Sized() {
      size <= block.Length && Square(n, a.Length) && Square(n, b.Length) && Square(n, c.Length)
    }

    ghost function Cfg(): Config
      reads b
    {
      Config(size, seed1, seed2, seed3, n, b[..])
    }

    ghost function Kern(): Kernel
      reads this, block, a
    {
      Kernel(crc, crcstate, crcmatrix, block[..], a[..])
    }

    ghost function Now(): State<bv16, Kernel>
      reads this, block, a, data16
    {
      State(data16[..], Kern())
    }

    /** What every method that calls the kernels needs. */
    ghost predicate Ready()
      reads b, block
    {
      Apart() && Sized() && NulStays(Cfg(), block[..])
    }

    /** What a sort needs: cmp_idx calls no kernel. */
    ghost predicate ReadyFor(cmp: Cmp)
      reads b, block
    {
      Apart() && (cmp == CmpComplex ==> Sized() && NulStays(Cfg(), block[..]))
    }

    ghost function Comp(cmp: Cmp): Comparator<bv16, Kernel>
      reads b, idx
    {
      if cmp == CmpComplex then ByData(Cfg()) else ByIndex(idx[..])
    }

    /** Flag 0 of calc_func: the state kernel. */
    method StateKernel(data: bv16) returns (retval: bv16)
      requires Apart() && Sized() && NulFor(Cfg(), block[..], data)
      modifies this`crcstate, block
      ensures (retval, Kern()) == StateCall(Cfg(), data, old(Kern()))
      ensures (retval, block[..]) == StateResult(Cfg(), Num(data), old(Kern()))
    {
      hide Num, SeedByte, BenchState, StateResult, Step;
      ghost var k, cfg := Kern(), Cfg();
      StateCallIs(cfg, data, k);
      retval := CoreBenchState(size, block, seed1, seed2, Step(data), crc);
      if crcstate == 0 {
        crcstate := retval;
      }
      assert a[..] == k.a && b[..] == cfg.b;
    }

    /** Flag 1 of calc_func: the matrix kernel. */
    method MatrixKernel(data: bv16) returns (retval: bv16)
      requires Apart() && Sized()
      modifies this`crcmatrix, a, c
      ensures (retval, Kern()) == MatrixCall(Cfg(), data, old(Kern()))
      ensures retval == MatrixResult(Cfg(), Num(data), old(Kern()))
    {
      hide Num, MatrixResult, DTypeInt;
      ghost var k, cfg := Kern(), Cfg();
      MatrixCallIs(cfg, data, k);
      hide BenchMatrix;
      retval := CoreBenchMatrix(n, c, a, b, AsS16(DTypeInt(data)), crc);
      if crcmatrix == 0 {
        crcmatrix := retval;
      }
      assert block[..] == k.block && b[..] == cfg.b;
    }

    /** The switch of calc_func, lines 86-108. */
    method KernelFor(data: bv16) returns (retval: bv16)
      requires Apart() && Sized() && (Flag(data) == 0 ==> NulFor(Cfg(), block[..], data))
      modifies this`crcstate, this`crcmatrix, block, a, c
      ensures Cfg() == old(Cfg()) && (retval, Kern()) == CallKernel(Cfg(), data, old(Kern()))
    {
      hide Flag, StateCall, MatrixCall, NulFor;
      var flag := Flag(data);
      if flag == 0 {
        retval := StateKernel(data);
      } else if flag == 1 {
        retval := MatrixKernel(data);
      } else {
        retval := data;
      }
    }

    /** calc_func(&data16[slot], res), lines 69-114. */
    method CalcFunc(slot: nat) returns (r: int)
      requires Apart() && Sized() && slot < data16.Length
      requires CallsState(data16[slot]) ==> NulFor(Cfg(), block[..], data16[slot])
      modifies this`crc, this`crcstate, this`crcmatrix, data16, block, a, c
      ensures Cfg() == old(Cfg()) && Now() == TouchSlot(ByData(Cfg()), old(Now()), slot)
      ensures r == Value(data16[slot]) == Num(data16[slot]) % 128 && Cached(data16[slot])
    {
      hide CallKernel, CrcU16, NulFor, Num;
      var data := data16[slot];
      ghost var s, cfg := Now(), Cfg();
      if Cached(data) {
        r := Value(data);
        ValueIs(data);
        assert s.data[slot := data] == s.data;
      } else {
        var retval := KernelFor(data);
        assert Now().data == s.data && Cfg() == cfg;
        crc := CrcU16(retval, crc);
        r := Value(retval);
        data16[slot] := Store(data, retval);
        StoredValue(data, retval);
        StoredCached(data, retval);
        ValueIs(Store(data, retval));
        assert Now() == State(s.data[slot := Calc(cfg, data, s.k).0], Calc(cfg, data, s.k).1);
      }
    }

    /** core_list_find, lines 434-449. */
    method CoreListFind(head: Ref, w: Wanted, ghost nodes: seq<nat>) returns (cur: Ref)
      requires IsList(next[..], head, nodes) && Fits(info[..], data16[..], idx[..], nodes)
      ensures var k := Find(info[..], data16[..], idx[..], nodes, w);
              cur == if k == |nodes| then Null else At(nodes[k])
    {
      hide IsList;
      cur := head;
      HeadOfList(next[..], head, nodes);
      ghost var i, all := 0, Find(info[..], data16[..], idx[..], nodes, w);
      if w.idx >= 0 {
        while cur.At? && idx[info[cur.node]] != w.idx
          invariant 0 <= i <= |nodes| && cur == Head(nodes[i..]) && IsList(next[..], cur, nodes[i..])
          invariant all == i + Find(info[..], data16[..], idx[..], nodes[i..], w)
          decreases |nodes| - i
        {
          ListTail(next[..], cur, nodes[i..]);
          assert nodes[i..][1..] == nodes[i + 1..];
          cur := next[cur.node];
          HeadOfList(next[..], cur, nodes[i + 1..]);
          i := i + 1;
        }
      } else {
        while cur.At? && LowData(data16[info[cur.node]]) != w.data16
          invariant 0 <= i <= |nodes| && cur == Head(nodes[i..]) && IsList(next[..], cur, nodes[i..])
          invariant all == i + Find(info[..], data16[..], idx[..], nodes[i..], w)
          decreases |nodes| - i
        {
          ListTail(next[..], cur, nodes[i..]);
          assert nodes[i..][1..] == nodes[i + 1..];
          cur := next[cur.node];
          HeadOfList(next[..], cur, nodes[i + 1..]);
          i := i + 1;
        }
      }
    }

    /** core_list_reverse, lines 464-476. */
    method CoreListReverse(head: Ref, ghost nodes: seq<nat>) returns (r: Ref)
      requires IsList(next[..], head, nodes)
      modifies next
      ensures IsList(next[..], r, Reverse(nodes))
    {
      hide IsList, Disjoint, Reverse;
      r := Null;
      var cur := head;
      ghost var done, rest: seq<nat> := [], nodes;
      NoList(next[..]);
      ReverseEnds(nodes, done);
      HeadOfList(next[..], head, nodes);
      while cur.At?
        invariant r == Head(done) && cur == Head(rest)
        invariant IsList(next[..], r, done) && IsList(next[..], cur, rest) && Disjoint(done, rest)
        invariant Reverse(rest) + done == Reverse(nodes)
        decreases |rest|
      {
        ghost var before := next[..];
        ListTail(before, cur, rest);
        var tmp := next[cur.node];
        next[cur.node] := r;
        r := cur;
        cur := tmp;
        ReverseStep(before, done, rest, next[..]);
        HeadOfList(next[..], cur, rest[1..]);
        done, rest := [rest[0]] + done, rest[1..];
      }
      ReverseEnds(nodes, done);
    }

    /** cmp_complex, lines 120-126. */
    method CompareByData(x: nat, y: nat) returns (r: int)
      requires Ready() && HasSlot(info[..], data16.Length, x) && HasSlot(info[..], data16.Length, y)
      modifies this`crc, this`crcstate, this`crcmatrix, data16, block, a, c
      ensures Ready() && Cfg() == old(Cfg()) && Now() == Compare(ByData(Cfg()), info[..], old(Now()), x, y)
      ensures r == Value(data16[info[x]]) - Value(data16[info[y]])
    {
      hide Calc, NulStays, NulFor, Cached;
      CalcKeepsNul(Cfg(), data16[info[x]], Kern());
      var val1 := CalcFunc(info[x]);
      ghost var s := Now();
      CalcKeepsNul(Cfg(), data16[info[y]], Kern());
      var val2 := CalcFunc(info[y]);
      r := val1 - val2;
      CachedStays(Cfg(), s.data[info[x]], s.k);
    }

    /** cmp_idx as it is called, with a null res: lines 133-142. */
    method CompareByIndex(x: nat, y: nat) returns (r: int)
      requires Apart() && HasSlot(info[..], data16.Length, x) && HasSlot(info[..], data16.Length, y)
      modifies data16
      ensures Now() == Compare(ByIndex(idx[..]), info[..], old(Now()), x, y)
      ensures r == idx[info[x]] as int - idx[info[y]] as int
    {
      hide Rebuild;
      ghost var s := Now();
      data16[info[x]] := Rebuild(data16[info[x]]);
      assert Now() == TouchSlot(ByIndex(idx[..]), s, info[x]);
      ghost var t := Now();
      data16[info[y]] := Rebuild(data16[info[y]]);
      assert Now() == TouchSlot(ByIndex(idx[..]), t, info[y]);
      r := idx[info[x]] as int - idx[info[y]] as int;
    }

    /** The comparator the sort was given. */
    method CompareItems(cmp: Cmp, x: nat, y: nat) returns (r: int)
      requires ReadyFor(cmp) && HasSlot(info[..], data16.Length, x) && HasSlot(info[..], data16.Length, y)
      modifies this`crc, this`crcstate, this`crcmatrix, data16, block, a, c
      ensures ReadyFor(cmp) && Comp(cmp) == old(Comp(cmp)) && Now() == Compare(Comp(cmp), info[..], old(Now()), x, y)
      ensures r <= 0 <==> Key(Comp(cmp), info[..], Now(), x) <= Key(Comp(cmp), info[..], Now(), y)
    {
      hide Calc, Rebuild, Compare, NulStays, Value;
      if cmp == CmpComplex {
        r := CompareByData(x, y);
      } else {
        r := CompareByIndex(x, y);
      }
    }

    /** Lines 536-565: whether the next element of the merge comes from p. */
    method Choose(p: Ref, psize: nat, q: Ref, qsize: nat, cmp: Cmp, ghost done: seq<nat>, ghost left: seq<nat>, ghost chain: seq<nat>)
      returns (fromP: bool)
      requires ReadyFor(cmp) && InBlock(info[..], data16.Length, left) && InBlock(info[..], data16.Length, chain)
      requires psize == |left| && (left != [] ==> p == At(left[0])) && q == Head(chain)
      requires psize > 0 || (qsize > 0 && q.At?)
      modifies this`crc, this`crcstate, this`crcmatrix, data16, block, a, c
      ensures ReadyFor(cmp) && Comp(cmp) == old(Comp(cmp))
      ensures if fromP then left != [] else chain != [] && qsize > 0
      ensures Rest(Comp(cmp), info[..], old(Now()), done, left, chain, qsize)
           == if fromP then Rest(Comp(cmp), info[..], Now(), done + [left[0]], left[1..], chain, qsize)
              else Rest(Comp(cmp), info[..], Now(), done + [chain[0]], left, chain[1..], qsize - 1)
    {
      ghost var C, I, before := Comp(cmp), info[..], Now();
      hide Rest, Compare, Key, Comp;
      if psize == 0 {
        fromP := false;
      } else if qsize == 0 || q == Null {
        fromP := true;
      } else {
        var r := CompareItems(cmp, p.node, q.node);
        fromP := r <= 0;
      }
      if fromP {
        StepFromP(C, I, before, Now(), done, left, chain, qsize);
      } else {
        StepFromQ(C, I, before, Now(), done, left, chain, qsize);
      }
    }

    /** Lines 568-576: e is appended to the merged list. */
    method Link(list0: Ref, tail: Ref, e: nat) returns (list: Ref)
      requires tail.At? ==> tail.node < next.Length
      modifies next
      ensures next[..] == Append(old(next[..]), tail, e) && list == if tail.At? then list0 else At(e)
    {
      list := list0;
      if tail.At? {
        next[tail.node] := At(e);
      } else {
        list := At(e);
      }
    }

    /** The pointers and counters of the inner loop, for the nodes in order, what is left of
        the first run, and the chain that starts with the second. */
    ghost predicate InMerge(list: Ref, tail: Ref, p: Ref, psize: nat, q: Ref, done: seq<nat>, left: seq<nat>, chain: seq<nat>)
      reads next, info, data16
    {
      && Merging(next[..], list, tail, done, left, chain)
      && InBlock(info[..], data16.Length, left) && InBlock(info[..], data16.Length, chain)
      && psize == |left| && (left != [] ==> p == At(left[0])) && q == Head(chain)
    }

    /** One turn of the inner loop. */
    method MergeOne(list0: Ref, tail0: Ref, p0: Ref, psize0: nat, q0: Ref, qsize0: nat, cmp: Cmp,
                    ghost done0: seq<nat>, ghost left0: seq<nat>, ghost chain0: seq<nat>)
      returns (list: Ref, tail: Ref, p: Ref, psize: nat, q: Ref, qsize: nat,
               ghost done: seq<nat>, ghost left: seq<nat>, ghost chain: seq<nat>)
      requires ReadyFor(cmp) && InMerge(list0, tail0, p0, psize0, q0, done0, left0, chain0)
      requires psize0 > 0 || (qsize0 > 0 && q0.At?)
      modifies this`crc, this`crcstate, this`crcmatrix, data16, block, a, c, next
      ensures ReadyFor(cmp) && Comp(cmp) == old(Comp(cmp)) && info[..] == old(info[..])
      ensures InMerge(list, tail, p, psize, q, done, left, chain)
      ensures Drop(chain, qsize) == Drop(chain0, qsize0) && psize + |chain| < psize0 + |chain0|
      ensures Rest(Comp(cmp), info[..], Now(), done, left, chain, qsize)
           == Rest(Comp(cmp), info[..], old(Now()), done0, left0, chain0, qsize0)
    {
      hide Merging, Rest, Append, Comp, NulStays, ByData, ByIndex, Compare, Merge, Take;
      list, tail, p, psize, q, qsize := list0, tail0, p0, psize0, q0, qsize0;
      done, left, chain := done0, left0, chain0;
      var fromP := Choose(p, psize, q, qsize, cmp, done, left, chain);
      var e;
      if fromP {
        TakeFromP(next[..], list, tail, done, left, chain);
        e := p.node;
        p := next[e];
        psize := psize - 1;
        done, left := done + [e], left[1..];
      } else {
        TakeFromChain(next[..], list, tail, done, left, chain);
        RunHead(chain, qsize);
        e := q.node;
        q := next[e];
        qsize := qsize - 1;
        done, chain := done + [e], chain[1..];
      }
      list := Link(list, tail, e);
      tail := At(e);
    }

    /** The inner loop of core_list_mergesort, lines 533-577: merges the run of psize nodes
        at p with the run of at most qsize nodes at q behind the nodes already in order. */
    method MergeTwo(list0: Ref, tail0: Ref, p0: Ref, psize0: nat, q0: Ref, qsize0: nat, cmp: Cmp,
                    ghost done0: seq<nat>, ghost run: seq<nat>, ghost chain0: seq<nat>)
      returns (list: Ref, tail: Ref, q: Ref)
      requires ReadyFor(cmp) && InMerge(list0, tail0, p0, psize0, q0, done0, run, chain0)
      modifies this`crc, this`crcstate, this`crcmatrix, data16, block, a, c, next
      ensures ReadyFor(cmp) && Comp(cmp) == old(Comp(cmp)) && info[..] == old(info[..])
      ensures var m := Merge(Comp(cmp), info[..], old(Now()), run, Take(chain0, qsize0));
              Now() == m.0 && InMerge(list, tail, Null, 0, q, done0 + m.1, [], Drop(chain0, qsize0))
    {
      hide Merging, Rest, Comp, NulStays, Merge;
      var p, psize: nat, qsize: nat := p0, psize0, qsize0;
      list, tail, q := list0, tail0, q0;
      ghost var C, I, goal := Comp(cmp), info[..], Rest(Comp(cmp), info[..], Now(), done0, run, chain0, qsize0);
      ghost var done, left, chain := done0, run, chain0;
      MeaningOfRest(C, I, Now(), done0, run, chain0, qsize0);
      while psize > 0 || (qsize > 0 && q.At?)
        invariant ReadyFor(cmp) && Comp(cmp) == C && info[..] == I
        invariant InMerge(list, tail, p, psize, q, done, left, chain)
        invariant Drop(chain, qsize) == Drop(chain0, qsize0)
        invariant Rest(C, I, Now(), done, left, chain, qsize) == goal
        decreases psize + |chain|
      {
        list, tail, p, psize, q, qsize, done, left, chain :=
          MergeOne(list, tail, p, psize, q, qsize, cmp, done, left, chain);
      }
      RestOfNothing(C, I, Now(), done, left, chain, qsize);
    }

    /** Lines 518-527: steps past the first insize nodes of the chain at p. */
    method SplitRun(p: Ref, insize: nat, ghost chain: seq<nat>) returns (q: Ref, psize: nat)
      requires IsList(next[..], p, chain) && chain != [] && insize > 0
      ensures psize == |Take(chain, insize)| && q == Head(Drop(chain, insize))
    {
      hide IsList;
      q, psize := p, 0;
      var i := 0;
      HeadOfList(next[..], p, chain);
      while i < insize
        invariant i == psize <= insize && psize < |chain|
        invariant q == Head(chain[psize..]) && IsList(next[..], q, chain[psize..])
      {
        ListTail(next[..], q, chain[psize..]);
        assert chain[psize..][1..] == chain[psize + 1..];
        psize := psize + 1;
        q := next[q.node];
        HeadOfList(next[..], q, chain[psize..]);
        if q == Null {
          return;
        }
        i := i + 1;
      }
    }

    /** Lines 514-579: splits off the next two runs and merges them behind the nodes done. */
    method MergeRuns(list0: Ref, tail0: Ref, p: Ref, cmp: Cmp, insize: nat, ghost done: seq<nat>, ghost chain: seq<nat>)
      returns (list: Ref, tail: Ref, q: Ref)
      requires ReadyFor(cmp) && Merging(next[..], list0, tail0, done, [], chain) && p == Head(chain)
      requires InBlock(info[..], data16.Length, chain) && chain != [] && insize > 0
      modifies this`crc, this`crcstate, this`crcmatrix, data16, block, a, c, next
      ensures ReadyFor(cmp) && Comp(cmp) == old(Comp(cmp)) && info[..] == old(info[..])
      ensures var rest := Drop(chain, insize);
              var m := Merge(Comp(cmp), info[..], old(Now()), Take(chain, insize), Take(rest, insize));
              && Now() == m.0 && Merging(next[..], list, tail, done + m.1, [], Drop(rest, insize))
              && q == Head(Drop(rest, insize)) && InBlock(info[..], data16.Length, Drop(rest, insize))
    {
      hide Merging, IsList, Comp, NulStays, Merge, ByData, ByIndex, CoreMark.Cfg;
      ChainOfMerge(next[..], list0, tail0, done, [], chain);
      var psize;
      q, psize := SplitRun(p, insize, chain);
      ghost var rest := Drop(chain, insize);
      StartMerge(next[..], list0, tail0, done, chain, psize);
      assert Take(chain, insize) == chain[..psize] && rest == chain[psize..];
      assert InMerge(list0, tail0, p, psize, q, done, Take(chain, insize), rest);
      list, tail, q := MergeTwo(list0, tail0, p, psize, q, insize, cmp, done, Take(chain, insize), rest);
    }

    /** One turn of the outer loop of core_list_mergesort, lines 509-583. */
    method OnePass(list0: Ref, cmp: Cmp, insize: nat, ghost nodes: seq<nat>) returns (list: Ref, nmerges: nat)
      requires ReadyFor(cmp) && IsList(next[..], list0, nodes) && nodes != [] && insize > 0
      requires InBlock(info[..], data16.Length, nodes)
      modifies this`crc, this`crcstate, this`crcmatrix, data16, block, a, c, next
      ensures ReadyFor(cmp) && Comp(cmp) == old(Comp(cmp))
      ensures var r := Pass(Comp(cmp), info[..], old(Now()), nodes, insize);
              Now() == r.0 && IsList(next[..], list, r.1)
      ensures nmerges <= 1 <==> |nodes| <= 2 * insize
    {
      hide Merging, IsList, Comp, NulStays, Merge, Pass, PassRest, InBlock, Take, Drop, ByData, ByIndex, CoreMark.Cfg;
      var p, tail := list0, Null;
      list, nmerges := Null, 0;
      ghost var C, I, goal := Comp(cmp), info[..], PassRest(Comp(cmp), info[..], Now(), [], nodes, insize);
      ghost var done, chain := [], nodes;
      MeaningOfPassRest(C, I, Now(), [], nodes, insize);
      StartPass(next[..], list0, nodes);
      HeadOfList(next[..], list0, nodes);
      while p.At?
        invariant ReadyFor(cmp) && Comp(cmp) == C && info[..] == I
        invariant Merging(next[..], list, tail, done, [], chain) && p == Head(chain)
        invariant InBlock(I, data16.Length, chain) && (done == [] ==> chain == nodes)
        invariant PassRest(C, I, Now(), done, chain, insize) == goal
        invariant nmerges == 0 ==> chain == nodes
        invariant nmerges == 1 ==> (chain == [] <==> |nodes| <= 2 * insize)
        invariant nmerges >= 2 ==> |nodes| > 2 * insize
        decreases |chain|
      {
        nmerges := nmerges + 1;
        PassStep(C, I, Now(), done, chain, insize);
        ghost var rest := Drop(chain, insize);
        ghost var m := Merge(C, I, Now(), Take(chain, insize), Take(rest, insize));
        list, tail, p := MergeRuns(list, tail, p, cmp, insize, done, chain);
        done, chain := done + m.1, Drop(rest, insize);
      }
      PassOfNothing(C, I, Now(), done, insize);
      EndPass(next[..], list, tail, done);
      next[tail.node] := Null;
    }

    /** core_list_mergesort, lines 499-595. The list must not be empty: the last node of a
        pass is dereferenced. The bound keeps insize within an ee_s32. */
    method CoreListMergesort(list0: Ref, cmp: Cmp, ghost nodes0: seq<nat>) returns (list: Ref)
      requires ReadyFor(cmp) && IsList(next[..], list0, nodes0) && nodes0 != [] && |nodes0| < 0x4000_0000
      requires InBlock(info[..], data16.Length, nodes0)
      modifies this`crc, this`crcstate, this`crcmatrix, data16, block, a, c, next
      ensures ReadyFor(cmp) && Comp(cmp) == old(Comp(cmp))
      ensures var r := MergeSort(Comp(cmp), info[..], old(Now()), nodes0);
              Now() == r.0 && IsList(next[..], list, r.1)
    {
      hide IsList, Comp, NulStays, Pass, ByData, ByIndex, CoreMark.Cfg;
      ghost var C, I, s0 := Comp(cmp), info[..], Now();
      ghost var nodes := nodes0;
      var insize: nat := 1;
      list := list0;
      while true
        invariant ReadyFor(cmp) && Comp(cmp) == C && info[..] == I && 0 < insize < 0x4000_0000
        invariant IsList(next[..], list, nodes) && |nodes| == |nodes0|
        invariant InBlock(I, data16.Length, nodes)
        invariant Sort(C, I, Now(), nodes, insize) == MergeSort(C, I, s0, nodes0)
        decreases |nodes0| - insize
      {
        ghost var s := Now();
        var nmerges;
        list, nmerges := OnePass(list, cmp, insize, nodes);
        SortStep(C, I, s, nodes, insize);
        nodes := Pass(C, I, s, nodes, insize).1;
        if nmerges <= 1 {
          return;
        }
        insize := insize * 2;
      }
    }

    /** core_list_remove, lines 376-389. */
    method CoreListRemove(item: nat, ghost nodes: seq<nat>) returns (ret: nat)
      requires (info as object) != next && IsList(next[..], Head(nodes), nodes) && |nodes| >= 3 && item == nodes[1]
      requires nodes[1] < info.Length && nodes[2] < info.Length
      modifies next, info
      ensures ret == nodes[2] && IsList(next[..], Head(nodes), RemoveNodes(nodes))
      ensures info[..] == RemoveInfo(old(info[..]), nodes)
    {
      ghost var before := next[..];
      ret := next[item].node;
      var tmp := info[item];
      info[item] := info[ret];
      info[ret] := tmp;
      next[item] := next[next[item].node];
      ghost var middle := next[..];
      next[ret] := Null;
      RemoveLinks(before, nodes, middle, next[..]);
    }

    /** core_list_undo_remove, lines 407-419. */
    method CoreListUndoRemove(removed: nat, modified: nat, ghost nodes: seq<nat>)
      requires (info as object) != next && IsList(next[..], Head(nodes), nodes) && |nodes| >= 2 && modified == nodes[1]
      requires removed < next.Length && removed < info.Length && modified < info.Length
      requires forall i | 0 <= i < |nodes| :: nodes[i] != removed
      modifies next, info
      ensures IsList(next[..], Head(nodes), UndoNodes(nodes, removed))
      ensures info[..] == UndoInfo(old(info[..]), removed, modified)
    {
      ghost var before := next[..];
      var tmp := info[removed];
      info[removed] := info[modified];
      info[modified] := tmp;
      next[removed] := next[modified];
      ghost var middle := next[..];
      next[modified] := At(removed);
      UndoLinks(before, nodes, removed, middle, next[..]);
    }

    /** Lines 191-194: the node behind f moves to the place behind the head. */
    method MoveBehindHead(list: nat, f: nat, ghost nodes: seq<nat>, ghost k: nat)
      requires IsList(next[..], Head(nodes), nodes) && k + 1 < |nodes| && list == nodes[0] && f == nodes[k]
      modifies next
      ensures IsList(next[..], Head(nodes), Promote(nodes, k))
    {
      ghost var next0 := next[..];
      NextOnList(next0, nodes, k);
      var finder := next[f].node;
      next[f] := next[finder];
      ghost var next1 := next[..];
      next[finder] := next[list];
      ghost var next2 := next[..];
      next[list] := At(finder);
      ThreeAssignments(next0, nodes, k, next1, next2, next[..]);
      PromoteLinks(next0, nodes, k, next[..]);
    }

    /** One turn of the find loop, lines 173-198. */
    method FindTurn(list0: Ref, i: nat, ghost s: Search, idx0: s16, retval0: bv16, found0: bv16, missed0: bv16)
      returns (list: Ref, idx1: s16, retval: bv16, found: bv16, missed: bv16)
      requires Apart() && IsList(next[..], list0, s.nodes) && |s.nodes| >= 2
      requires Fits(info[..], data16[..], idx[..], s.nodes)
      requires s == Search(s.nodes, idx0, retval0, found0, missed0)
      modifies next
      ensures var r := SearchStep(info[..], data16[..], idx[..], s, i);
              r == Search(r.nodes, idx1, retval, found, missed) && IsList(next[..], list, r.nodes)
    {
      hide IsList, Find, Promote, Reverse, Bit8, Bit9, Bit0, Word, NextIdx, SearchStep, Plus;
      ghost var nodes, D, I, X := s.nodes, data16[..], info[..], idx[..];
      HeadOfList(next[..], list0, nodes);
      var w := Wanted(idx0, Word(i % 0x100));
      var thisFind := CoreListFind(list0, w, nodes);
      list := CoreListReverse(list0, nodes);
      ghost var k, reversed := Find(I, D, X, nodes, w), Reverse(nodes);
      ReverseInBlock(I, |D|, nodes);
      HeadOfList(next[..], list, reversed);
      assert D == data16[..] && I == info[..] && X == idx[..];
      retval, found, missed, idx1 := retval0, found0, missed0, NextIdx(idx0);
      if thisFind == Null {
        missed := Plus(missed, 1);
        ListTail(next[..], list, reversed);
        HeadOfList(next[..], next[list.node], reversed[1..]);
        assert HasSlot(I, |D|, reversed[1]);
        retval := Plus(retval, Bit8(data16[info[next[list.node].node]]));
        SearchMissed(I, D, X, s, i);
        assert SearchStep(I, D, X, s, i) == Search(reversed, idx1, retval, found, missed);
      } else {
        found := Plus(found, 1);
        var f := thisFind.node;
        assert HasSlot(I, |D|, nodes[k]);
        if Bit0(data16[info[f]]) {
          retval := Plus(retval, Bit9(data16[info[f]]));
        }
        SearchFound(I, D, X, s, i);
        ghost var m := Mirror(|nodes|, k);
        ReverseAt(nodes, m);
        NextOnList(next[..], reversed, m);
        if next[f] != Null {
          MoveBehindHead(list.node, f, reversed, m);
          PromoteHead(reversed, m);
        } else {
          PromoteLast(reversed, m);
        }
        assert SearchStep(I, D, X, s, i) == Search(Promote(reversed, m), idx1, retval, found, missed);
      }
      assert D == data16[..] && I == info[..] && X == idx[..];
    }

    /** The find loop, lines 173-202, from the list at list0. */
    method FindLoop(list0: Ref, finderIdx: s16, ghost nodes: seq<nat>)
      returns (head: Ref, w: Wanted, retval: bv16, ghost s: Search)
      requires Apart() && IsList(next[..], list0, nodes) && |nodes| >= 2
      requires Fits(info[..], data16[..], idx[..], nodes)
      modifies next
      ensures info[..] == old(info[..]) && idx[..] == old(idx[..]) && Now() == old(Now()) && Cfg() == old(Cfg())
      ensures s == SearchLoop(info[..], data16[..], idx[..], Search(nodes, finderIdx, 0, 0, 0), 0, seed3)
      ensures IsList(next[..], head, s.nodes) && w == Wanted(s.wanted, LastData(seed3)) && retval == Score(s)
      ensures LoopLeaves(info[..], data16[..], idx[..], nodes, finderIdx, if seed3 > 0 then seed3 else 0, s.nodes, w.idx, retval)
    {
      hide IsList, SearchStep, SearchLoop, Word, LastData, Plus, Balance, Fits, LoopLeaves;
      FindLoopLeaves(info[..], data16[..], idx[..], nodes, finderIdx, seed3);
      LastDataAt(0);
      head, w, retval := list0, Wanted(finderIdx, 0), 0;
      var found, missed: bv16 := 0, 0;
      s := Search(nodes, finderIdx, 0, 0, 0);
      ghost var D, I, X, k, cfg := data16[..], info[..], idx[..], Kern(), Cfg();
      ghost var goal := SearchLoop(I, D, X, s, 0, seed3);
      var i := 0;
      while i < seed3
        invariant 0 <= i && D == data16[..] && I == info[..] && X == idx[..] && k == Kern() && cfg == Cfg()
        invariant IsList(next[..], head, s.nodes) && |s.nodes| >= 2 && Fits(I, D, X, s.nodes)
        invariant s == Search(s.nodes, w.idx, retval, found, missed)
        invariant SearchLoop(I, D, X, s, i, seed3) == goal
        invariant w.data16 == LastData(i) && (i <= seed3 || i == 0)
      {
        SearchUnroll(I, D, X, s, i, seed3);
        LastDataAt(i + 1);
        var idx1;
        head, idx1, retval, found, missed := FindTurn(head, i, s, w.idx, retval, found, missed);
        w := Wanted(idx1, Word(i % 0x100));
        s := SearchStep(I, D, X, s, i);
        i := i + 1;
      }
      SearchUnroll(I, D, X, s, i, seed3);
      retval := Plus(retval, Balance(found, missed));
    }

    /** Lines 213-217 and 226-230: the head's data enters the CRC once for each node from finder on. */
    method CrcWalk(head: nat, finder0: Ref, retval0: bv16, ghost nodes: seq<nat>, ghost k: nat) returns (retval: bv16)
      requires IsList(next[..], Head(nodes), nodes) && k <= |nodes| && finder0 == Head(nodes[k..])
      requires HasSlot(info[..], data16.Length, head)
      ensures retval == CrcRepeat(data16[info[head]], |nodes| - k, retval0)
    {
      hide IsList, CrcU16;
      retval := retval0;
      var finder := finder0;
      ghost var j, d := k, data16[info[head]];
      ListDrop(next[..], nodes, k);
      while finder.At?
        invariant k <= j <= |nodes| && finder == Head(nodes[j..]) && IsList(next[..], finder, nodes[j..])
        invariant CrcRepeat(d, |nodes| - j, retval) == CrcRepeat(d, |nodes| - k, retval0)
        decreases |nodes| - j
      {
        ListTail(next[..], finder, nodes[j..]);
        assert nodes[j..][1..] == nodes[j + 1..];
        retval := CrcU16(data16[info[head]], retval);
        finder := next[finder.node];
        HeadOfList(next[..], finder, nodes[j + 1..]);
        j := j + 1;
      }
    }

    /** Lines 207-221: one item is removed, the head's data enters the CRC, the item is put back. */
    method RemoveAndRestore(head: nat, w: Wanted, retval0: bv16, ghost nodes: seq<nat>) returns (retval: bv16)
      requires Apart() && IsList(next[..], Head(nodes), nodes) && |nodes| >= 3 && head == nodes[0]
      requires Fits(info[..], data16[..], idx[..], nodes)
      modifies next, info
      ensures IsList(next[..], Head(nodes), nodes) && info[..] == old(info[..])
      ensures retval == CrcFromFound(info[..], data16[..], idx[..], nodes, w, retval0)
    {
      hide IsList, Find, CrcRepeat;
      ghost var I, D, X := info[..], data16[..], idx[..];
      assert HasSlot(I, |D|, nodes[0]) && HasSlot(I, |D|, nodes[1]) && HasSlot(I, |D|, nodes[2]);
      NextOnList(next[..], nodes, 0);
      NextOnList(next[..], nodes, 1);
      StillDistinct(next[..], nodes, RemoveNodes(nodes));
      var item := next[head].node;
      var remover := CoreListRemove(item, nodes);
      ghost var left, I' := RemoveNodes(nodes), info[..];
      RemovedFits(I, D, X, nodes);
      assert D == data16[..] && X == idx[..] && left[0] == head && left[1] == item;
      var finder := CoreListFind(At(head), w, left);
      ghost var k := Find(I', D, X, left, w);
      NextOnList(next[..], left, 0);
      if finder == Null {
        finder := next[head];
        k := 1;
      }
      assert HasSlot(I', |D|, left[0]);
      retval := CrcWalk(head, finder, retval0, left, k);
      NextOnList(next[..], left, 0);
      CoreListUndoRemove(remover, next[head].node, left);
      RemoveUndone(I, nodes);
    }

    /** core_bench_list from the removal on, lines 207-234. */
    method FinishBench(head0: Ref, w: Wanted, retval0: bv16, ghost nodes: seq<nat>) returns (retval: bv16, head: Ref)
      requires Ready() && IsList(next[..], head0, nodes) && 3 <= |nodes| < 0x4000_0000
      requires Fits(info[..], data16[..], idx[..], nodes)
      modifies this`crc, this`crcstate, this`crcmatrix, data16, block, a, c, next, info
      ensures Ready() && info[..] == old(info[..]) && idx[..] == old(idx[..]) && Cfg() == old(Cfg())
      ensures var r := Finish(old(info[..]), idx[..], w, old(Now()), nodes, retval0);
              IsList(next[..], head, r.nodes) && Now() == State(r.data, r.k) && retval == r.retval
    {
      hide IsList, NulStays, MergeSort, CrcFromFound, CrcRepeat, ByData, ByIndex, CoreMark.Cfg, Finish;
      ghost var I, X, t := info[..], idx[..], Now();
      HeadOfList(next[..], head0, nodes);
      retval := RemoveAndRestore(head0.node, w, retval0, nodes);
      assert Now() == t && I == info[..] && X == idx[..];
      FinishIs(I, X, w, t, nodes, retval0);
      ghost var final := MergeSort(ByIndex(X), I, t, nodes);
      head := CoreListMergesort(head0, CmpIdx, nodes);
      IndexSortKeepsKernel(X, I, t, nodes);
      assert Now() == final.0 && I == info[..];
      HeadOfList(next[..], head, final.1);
      NextOnList(next[..], final.1, 0);
      retval := CrcWalk(head.node, next[head.node], retval, final.1, 1);
    }

    /** Lines 205-206: the sort by data, if finder_idx is positive. */
    method SortPhase(head0: Ref, finderIdx: s16, ghost nodes: seq<nat>) returns (head: Ref)
      requires Ready() && IsList(next[..], head0, nodes) && 3 <= |nodes| < 0x4000_0000
      requires InBlock(info[..], data16.Length, nodes)
      modifies this`crc, this`crcstate, this`crcmatrix, data16, block, a, c, next
      ensures Ready() && info[..] == old(info[..]) && idx[..] == old(idx[..]) && Cfg() == old(Cfg())
      ensures var r := Sorted(Cfg(), old(info[..]), old(data16[..]), old(Kern()), nodes, finderIdx);
              IsList(next[..], head, r.1) && Now() == r.0
    {
      hide IsList, NulStays, MergeSort, ByData, ByIndex;
      head := head0;
      if finderIdx > 0 {
        head := CoreListMergesort(head, CmpComplex, nodes);
      }
    }

    /** core_bench_list, lines 158-235, on the list at res->list. The head it ends with is
        returned for the proof only; the C code drops it. */
    method CoreBenchList(finderIdx: s16, ghost nodes: seq<nat>) returns (retval: bv16, head: Ref)
      requires Ready() && IsList(next[..], list, nodes) && 3 <= |nodes| < 0x4000_0000
      requires Fits(info[..], data16[..], idx[..], nodes)
      modifies this`crc, this`crcstate, this`crcmatrix, data16, block, a, c, next, info
      ensures Ready() && info[..] == old(info[..]) && idx[..] == old(idx[..]) && Cfg() == old(Cfg())
      ensures var r := BenchMemory(Cfg(), idx[..], old(Mem(nodes)), finderIdx);
              IsList(next[..], head, r.nodes) && Now() == State(r.data, r.k) && retval == r.retval
      ensures Returns(Cfg(), info[..], old(data16[..]), idx[..], nodes, old(Kern()), finderIdx, retval)
    {
      ghost var I, D, X, cfg, k := info[..], data16[..], idx[..], Cfg(), Kern();
      DistinctList(next[..], list, nodes);
      BenchReturns(cfg, I, D, X, nodes, k, finderIdx);
      assert cfg.seed3 == seed3 && Apart() && Now() == State(D, k);
      hide IsList, NulStays, SearchLoop, MergeSort, ByData, ByIndex, Score, LastData, CoreMark.Cfg, BenchList, Finish,
        CoreMark.Ready, CoreMark.Now, CoreMark.Kern, CoreMark.Apart, Sorted, Returns, LoopLeaves;
      var w;
      ghost var s;
      head, w, retval, s := FindLoop(list, finderIdx, nodes);
      SameMembers(s.nodes, nodes);
      ghost var sorted := Sorted(cfg, I, D, k, s.nodes, finderIdx);
      SortedIs(cfg, I, D, X, k, s.nodes, finderIdx);
      head := SortPhase(head, finderIdx, s.nodes);
      BenchListIs(cfg, I, D, X, nodes, k, finderIdx);
      retval, head := FinishBench(head, w, retval, sorted.1);
    }

    /** The list with these nodes, and the results record. */
    ghost function Mem(nodes: seq<nat>): Memory
      reads this, info, data16, block, a
    {
      Memory(nodes, info[..], data16[..], Kern())
    }

    /** The list at res->list. */
    ghost predicate Listed(nodes: seq<nat>)
      reads this, next, info, data16, idx
    {
      IsList(next[..], list, nodes) && Fits(info[..], data16[..], idx[..], nodes) && |nodes| < 0x4000_0000
    }

    /** core_bench_list on any list, seen from res->list, which it does not set: the part of the list
        behind the old head. */
    method BenchInPlace(finderIdx: s16, ghost nodes: seq<nat>, ghost m: Memory) returns (r: bv16, ghost seen: seq<nat>)
      requires Ready() && Listed(nodes) && |nodes| >= 3 && m == Mem(nodes) && Usable(idx[..], m)
      modifies this`crc, this`crcstate, this`crcmatrix, data16, block, a, c, next, info
      ensures Ready() && Listed(seen) && Cfg() == old(Cfg()) && idx[..] == old(idx[..])
      ensures var bench := BenchMemory(Cfg(), idx[..], m, finderIdx);
              && seen == Visible(bench.nodes, nodes[0]) && r == bench.retval
              && Mem(seen) == Memory(seen, bench.info, bench.data, bench.k)
    {
      hide IsList, NulStays, Fits, BenchMemory, Visible, CoreMark.Ready, CoreMark.Kern, CoreMark.Cfg;
      ghost var cfg, X := Cfg(), idx[..];
      var head;
      HeadOfList(next[..], list, nodes);
      assert Fits(m.info, m.data, X, nodes);
      r, head := CoreBenchList(finderIdx, nodes);
      ghost var bench := BenchMemory(cfg, X, m, finderIdx);
      BenchKeepsHead(cfg, X, m, finderIdx);
      seen := Visible(bench.nodes, nodes[0]);
      VisibleList(next[..], head, bench.nodes, nodes[0]);
      VisibleFits(bench.info, bench.data, X, bench.nodes, nodes[0]);
    }

    /** One call in iterate and the CRC that folds its result. */
    method MeasureOnce(finderIdx: s16, ghost nodes: seq<nat>) returns (ghost seen: seq<nat>)
      requires Ready() && Listed(nodes) && |nodes| >= 3
      modifies this`crc, this`crcstate, this`crcmatrix, data16, block, a, c, next, info
      ensures Ready() && Listed(seen) && Cfg() == old(Cfg()) && idx[..] == old(idx[..])
      ensures Usable(idx[..], old(Mem(nodes))) && Mem(seen) == Measure(Cfg(), idx[..], old(Mem(nodes)), finderIdx)
    {
      hide IsList, NulStays, Fits, CrcU16, BenchMemory, Measure, Visible, CoreMark.Ready;
      ghost var m := Mem(nodes);
      var r;
      r, seen := BenchInPlace(finderIdx, nodes, m);
      MeasureIs(Cfg(), idx[..], m, finderIdx);
      crc := CrcU16(r, crc);
    }

    /** iterate, lines 51-73 of core_main.c, on every list that is long enough for each call. */
    method RunIterate(iterations: nat, ghost nodes: seq<nat>) returns (ghost seen: seq<nat>)
      requires Ready() && Listed(nodes) && Lasts(Cfg(), idx[..], Mem(nodes), iterations)
      modifies this`crc, this`crcstate, this`crcmatrix, this`crclist, data16, block, a, c, next, info
      ensures Ready() && Listed(seen)
      ensures IterateBench(Cfg(), idx[..], old(Mem(nodes)), iterations) == Outcome(Mem(seen), crclist)
    {
      hide IsList, NulStays, Measure, Fits;
      ghost var m0, X, cfg := Mem(nodes), idx[..], Cfg();
      crc := 0;
      crclist := 0;
      crcmatrix := 0;
      crcstate := 0;
      seen := nodes;
      assert Mem(seen) == Cleared(m0);
      ghost var f := Turning(cfg, X);
      for i := 0 to iterations
        invariant Ready() && Listed(seen) && Cfg() == cfg && idx[..] == X
        invariant Mem(seen) == Iterate(f, Cleared(m0), i)
        invariant crclist == if i == 0 then 0 else f(Cleared(m0)).k.crc
      {
        ghost var m := Mem(seen);
        assert Turns(cfg, X, m);
        seen := MeasureOnce(1, seen);
        seen := MeasureOnce(-1, seen);
        assert Mem(seen) == f(m);
        IterateOnce(f, Cleared(m0), i);
        if i == 0 {
          crclist := crc;
        }
      }
    }
  }

  lemma {:induction false} IterateOnce<T>(f: T -> T, x: T, n: nat)
    ensures Iterate(f, x, n + 1) == f(Iterate(f, x, n))
    decreases n
  {
    if n > 0 {
      IterateOnce(f, f(x), n - 1);
    }
  }

  ghost function BenchMemory(cfg: Config, idx: seq<s16>, m: Memory, finderIdx: s16): Bench
    requires Usable(idx, m)
  {
    BenchList(cfg, m.info, m.data, idx, m.nodes, m.k, finderIdx)
  }

  lemma BenchKeepsHead(cfg: Config, idx: seq<s16>, m: Memory, finderIdx: s16)
    requires Usable(idx, m)
    ensures var bench := BenchMemory(cfg, idx, m, finderIdx);
            && Fits(bench.info, bench.data, idx, bench.nodes) && bench.info == m.info
            && m.nodes[0] in bench.nodes && |bench.nodes| == |m.nodes|
  {
    hide BenchList;
    SameMembers(m.nodes, BenchMemory(cfg, idx, m, finderIdx).nodes);
  }

  /** A pointer to a node of a list points to the list from that node on. */
  lemma VisibleList(next: seq<Ref>, head: Ref, nodes: seq<nat>, x: nat)
    requires IsList(next, head, nodes) && x in nodes
    ensures IsList(next, At(x), Visible(nodes, x))
  {
    hide IsList;
    HeadOfList(next, head, nodes);
    VisibleIsSuffix(nodes, x);
    var seen := Visible(nodes, x);
    ListDrop(next, nodes, |nodes| - |seen|);
  }

  lemma MeasureIs(cfg: Config, idx: seq<s16>, m: Memory, finderIdx: s16)
    requires Usable(idx, m)
    ensures var bench := BenchMemory(cfg, idx, m, finderIdx);
            Measure(cfg, idx, m, finderIdx) == Memory(Visible(bench.nodes, m.nodes[0]), bench.info, bench.data,
                                                      bench.k.(crc := CrcU16(bench.retval, bench.k.crc)))
  {
    hide BenchList, CrcU16;
  }

  lemma DistinctList(next: seq<Ref>, head: Ref, nodes: seq<nat>)
    requires IsList(next, head, nodes)
    ensures Distinct(nodes)
  {
  }

  lemma IndexSortKeepsKernel(idx: seq<s16>, info: seq<nat>, t: State<bv16, Kernel>, nodes: seq<nat>)
    requires InBlock(info, |t.data|, nodes)
    ensures MergeSort(ByIndex(idx), info, t, nodes).0.k == t.k
  {
    SortKeepsState(ByIndex(idx), info, t, nodes, 1);
  }

  lemma LastDataAt(i: nat)
    ensures LastData(i) == if i == 0 then 0 else Word((i - 1) % 0x100)
    ensures forall findNum: int :: findNum <= 0 ==> LastData(findNum) == 0
  {
  }

  lemma SearchUnroll(info: seq<nat>, data: seq<bv16>, idx: seq<s16>, s: Search, i: nat, findNum: int)
    requires Fits(info, data, idx, s.nodes) && |s.nodes| >= 2
    ensures i >= findNum ==> SearchLoop(info, data, idx, s, i, findNum) == s
    ensures i < findNum ==> var r := SearchStep(info, data, idx, s, i);
      |r.nodes| == |s.nodes| && Fits(info, data, idx, r.nodes) &&
      SearchLoop(info, data, idx, s, i, findNum) == SearchLoop(info, data, idx, r, i + 1, findNum)
  {
    hide SearchStep;
    SearchStepMembers(info, data, idx, s, i);
  }

  lemma StillDistinct(next: seq<Ref>, nodes: seq<nat>, left: seq<nat>)
    requires IsList(next, Head(nodes), nodes) && |nodes| >= 3 && left == RemoveNodes(nodes)
    ensures forall i | 0 <= i < |left| :: left[i] != nodes[2]
  {
  }

  lemma NextOnList(next: seq<Ref>, nodes: seq<nat>, k: nat)
    requires IsList(next, Head(nodes), nodes) && k < |nodes|
    ensures nodes[k] < |next| && next[nodes[k]] == if k + 1 < |nodes| then At(nodes[k + 1]) else Null
    ensures k + 1 < |nodes| ==> nodes[k + 1] < |next|
  {
    if k + 1 < |nodes| {
      assert nodes[k + 1] < |next|;
    }
  }

  lemma PromoteHead(nodes: seq<nat>, k: nat)
    requires k + 1 < |nodes|
    ensures Head(Promote(nodes, k)) == Head(nodes)
  {
  }

  lemma PromoteLast(nodes: seq<nat>, k: nat)
    requires k + 1 == |nodes|
    ensures Promote(nodes, k) == nodes
  {
  }

  lemma ChainOfMerge(next: seq<Ref>, list: Ref, tail: Ref, done: seq<nat>, p: seq<nat>, chain: seq<nat>)
    requires Merging(next, list, tail, done, p, chain)
    ensures IsList(next, Head(chain), chain)
  {
  }

  lemma SortStep(c: Comparator<bv16, Kernel>, info: seq<nat>, s: State<bv16, Kernel>, nodes: seq<nat>, w: nat)
    requires InBlock(info, |s.data|, nodes) && w > 0
    ensures var r := Pass(c, info, s, nodes, w);
            Sort(c, info, s, nodes, w) == if |nodes| <= 2 * w then r else Sort(c, info, r.0, r.1, 2 * w)
  {
  }

  /** The state and the nodes in order once the current pass is over. */
  ghost function PassRest(c: Comparator<bv16, Kernel>, info: seq<nat>, s: State<bv16, Kernel>,
                          done: seq<nat>, chain: seq<nat>, w: nat): (State<bv16, Kernel>, seq<nat>)
    requires InBlock(info, |s.data|, chain) && w > 0
  {
    var r := Pass(c, info, s, chain, w);
    (r.0, done + r.1)
  }

  lemma MeaningOfPassRest(c: Comparator<bv16, Kernel>, info: seq<nat>, s: State<bv16, Kernel>,
                          done: seq<nat>, chain: seq<nat>, w: nat)
    requires InBlock(info, |s.data|, chain) && w > 0
    ensures var r := Pass(c, info, s, chain, w);
            PassRest(c, info, s, done, chain, w) == (r.0, done + r.1) && (done == [] ==> done + r.1 == r.1)
  {
  }

  lemma PassOfNothing(c: Comparator<bv16, Kernel>, info: seq<nat>, s: State<bv16, Kernel>, done: seq<nat>, w: nat)
    requires w > 0
    ensures PassRest(c, info, s, done, [], w) == (s, done)
  {
    assert done + [] == done;
  }

  lemma PassStep(c: Comparator<bv16, Kernel>, info: seq<nat>, s: State<bv16, Kernel>, done: seq<nat>, chain: seq<nat>, w: nat)
    requires InBlock(info, |s.data|, chain) && w > 0 && chain != []
    ensures InBlock(info, |s.data|, Take(chain, w)) && InBlock(info, |s.data|, Take(Drop(chain, w), w))
    ensures var rest := Drop(chain, w);
            var m := Merge(c, info, s, Take(chain, w), Take(rest, w));
            && m.1 != [] && PassRest(c, info, s, done, chain, w) == PassRest(c, info, m.0, done + m.1, Drop(rest, w), w)
            && |Drop(rest, w)| < |chain| && (Drop(rest, w) == [] <==> |chain| <= 2 * w)
  {
    var rest := Drop(chain, w);
    var m := Merge(c, info, s, Take(chain, w), Take(rest, w));
    var r := Pass(c, info, m.0, Drop(rest, w), w);
    assert done + (m.1 + r.1) == (done + m.1) + r.1;
  }

  /** The state and the nodes in order once the current merge is over. */
  ghost function Rest(c: Comparator<bv16, Kernel>, info: seq<nat>, s: State<bv16, Kernel>,
                      done: seq<nat>, p: seq<nat>, chain: seq<nat>, qsize: nat): (State<bv16, Kernel>, seq<nat>)
    requires InBlock(info, |s.data|, p) && InBlock(info, |s.data|, chain)
  {
    var m := Merge(c, info, s, p, Take(chain, qsize));
    (m.0, done + m.1)
  }

  lemma MeaningOfRest(c: Comparator<bv16, Kernel>, info: seq<nat>, s: State<bv16, Kernel>,
                      done: seq<nat>, p: seq<nat>, chain: seq<nat>, qsize: nat)
    requires InBlock(info, |s.data|, p) && InBlock(info, |s.data|, chain)
    ensures var m := Merge(c, info, s, p, Take(chain, qsize)); Rest(c, info, s, done, p, chain, qsize) == (m.0, done + m.1)
  {
  }

  lemma RestOfNothing(c: Comparator<bv16, Kernel>, info: seq<nat>, s: State<bv16, Kernel>,
                      done: seq<nat>, p: seq<nat>, chain: seq<nat>, qsize: nat)
    requires p == [] && (qsize == 0 || chain == []) && InBlock(info, |s.data|, chain)
    ensures Rest(c, info, s, done, p, chain, qsize) == (s, done) && Drop(chain, qsize) == chain
  {
    assert Take(chain, qsize) == [];
    assert done + [] == done;
  }

  lemma MergeTakesP(c: Comparator<bv16, Kernel>, info: seq<nat>, s: State<bv16, Kernel>, s': State<bv16, Kernel>,
                    p: seq<nat>, q: seq<nat>)
    requires |s'.data| == |s.data| && InBlock(info, |s.data|, p) && InBlock(info, |s.data|, q) && p != []
    requires if q == [] then s' == s
             else s' == Compare(c, info, s, p[0], q[0]) && Key(c, info, s', p[0]) <= Key(c, info, s', q[0])
    ensures var m := Merge(c, info, s', p[1..], q); Merge(c, info, s, p, q) == (m.0, [p[0]] + m.1)
  {
    if q == [] {
      assert p == [p[0]] + p[1..];
    }
  }

  lemma MergeTakesQ(c: Comparator<bv16, Kernel>, info: seq<nat>, s: State<bv16, Kernel>, s': State<bv16, Kernel>,
                    p: seq<nat>, q: seq<nat>)
    requires |s'.data| == |s.data| && InBlock(info, |s.data|, p) && InBlock(info, |s.data|, q) && q != []
    requires if p == [] then s' == s
             else s' == Compare(c, info, s, p[0], q[0]) && Key(c, info, s', p[0]) > Key(c, info, s', q[0])
    ensures var m := Merge(c, info, s', p, q[1..]); Merge(c, info, s, p, q) == (m.0, [q[0]] + m.1)
  {
    if p == [] {
      assert q == [q[0]] + q[1..];
    }
  }

  lemma RunHead(chain: seq<nat>, qsize: nat)
    requires qsize > 0 && chain != []
    ensures var q := Take(chain, qsize); q != [] && q[0] == chain[0] && q[1..] == Take(chain[1..], qsize - 1)
    ensures Drop(chain, qsize) == Drop(chain[1..], qsize - 1)
  {
  }

  lemma Regroup(done: seq<nat>, e: nat, r: seq<nat>)
    ensures done + ([e] + r) == (done + [e]) + r
  {
  }

  lemma StepFromP(c: Comparator<bv16, Kernel>, info: seq<nat>, s: State<bv16, Kernel>, s': State<bv16, Kernel>,
                  done: seq<nat>, p: seq<nat>, chain: seq<nat>, qsize: nat)
    requires |s'.data| == |s.data| && InBlock(info, |s.data|, p) && InBlock(info, |s.data|, chain) && p != []
    requires if qsize == 0 || chain == [] then s' == s
             else s' == Compare(c, info, s, p[0], chain[0]) && Key(c, info, s', p[0]) <= Key(c, info, s', chain[0])
    ensures Rest(c, info, s, done, p, chain, qsize) == Rest(c, info, s', done + [p[0]], p[1..], chain, qsize)
  {
    hide Compare, Key, Merge;
    var q := Take(chain, qsize);
    if qsize > 0 && chain != [] {
      RunHead(chain, qsize);
    }
    MergeTakesP(c, info, s, s', p, q);
    Regroup(done, p[0], Merge(c, info, s', p[1..], q).1);
  }

  lemma StepFromQ(c: Comparator<bv16, Kernel>, info: seq<nat>, s: State<bv16, Kernel>, s': State<bv16, Kernel>,
                  done: seq<nat>, p: seq<nat>, chain: seq<nat>, qsize: nat)
    requires |s'.data| == |s.data| && InBlock(info, |s.data|, p) && InBlock(info, |s.data|, chain) && chain != [] && qsize > 0
    requires if p == [] then s' == s
             else s' == Compare(c, info, s, p[0], chain[0]) && Key(c, info, s', p[0]) > Key(c, info, s', chain[0])
    ensures Rest(c, info, s, done, p, chain, qsize) == Rest(c, info, s', done + [chain[0]], p, chain[1..], qsize - 1)
  {
    hide Compare, Key, Merge;
    var q := Take(chain, qsize);
    RunHead(chain, qsize);
    MergeTakesQ(c, info, s, s', p, q);
    Regroup(done, chain[0], Merge(c, info, s', p, q[1..]).1);
  }
}
