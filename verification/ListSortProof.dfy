/** Correctness of the abstract merge sort: for every lawful comparator the result
    is a stable, sorted permutation, every item of a list of two or more nodes has
    been touched, and nothing else has changed. */
module ListSortProof {
  import opened ListSort

  ghost function Slots(info: seq<nat>, nodes: seq<nat>): set<nat> {
    set n | n in nodes && n < |info| :: info[n]
  }

  /** What any number of comparisons among items in `slots` may do to the data. */
  ghost predicate Evolves<D(!new), K(!new)>(c: Comparator<D, K>, s: State<D, K>, s': State<D, K>, slots: set<nat>) {
    && |s'.data| == |s.data|
    && forall i | 0 <= i < |s.data| ::
         && c.tag(s'.data[i]) == c.tag(s.data[i])
         && (c.touched(s.data[i]) || i !in slots ==> s'.data[i] == s.data[i])
  }

  ghost predicate AllTouched<D(!new), K(!new)>(c: Comparator<D, K>, info: seq<nat>, s: State<D, K>, nodes: seq<nat>)
    requires InBlock(info, |s.data|, nodes)
  {
    forall i | 0 <= i < |nodes| :: c.touched(s.data[info[nodes[i]]])
  }

  /** x comes strictly before y: smaller key, or equal keys and x was first. */
  ghost predicate Before<D(!new), K(!new)>(c: Comparator<D, K>, info: seq<nat>, s: State<D, K>, rank: nat -> int, x: nat, y: nat)
    requires HasSlot(info, |s.data|, x) && HasSlot(info, |s.data|, y)
  {
    var kx, ky := Key(c, info, s, x), Key(c, info, s, y);
    kx < ky || (kx == ky && rank(x) < rank(y))
  }

  ghost predicate Ordered<D(!new), K(!new)>(c: Comparator<D, K>, info: seq<nat>, s: State<D, K>, rank: nat -> int, nodes: seq<nat>)
    requires InBlock(info, |s.data|, nodes)
  {
    forall i, j | 0 <= i < j < |nodes| :: Before(c, info, s, rank, nodes[i], nodes[j])
  }

  /** A run in order. Only a run of one node may still be untouched. */
  ghost predicate IsRun<D(!new), K(!new)>(c: Comparator<D, K>, info: seq<nat>, s: State<D, K>, rank: nat -> int, nodes: seq<nat>)
    requires InBlock(info, |s.data|, nodes)
  {
    && Ordered(c, info, s, rank, nodes)
    && (|nodes| >= 2 ==> AllTouched(c, info, s, nodes))
  }

  ghost predicate RanksBelow(rank: nat -> int, xs: seq<nat>, ys: seq<nat>) {
    forall x, y | x in xs && y in ys :: rank(x) < rank(y)
  }

  /** The list is cut into runs of w nodes, each from its own stretch of the original order. */
  ghost predicate IsRuns<D(!new), K(!new)>(c: Comparator<D, K>, info: seq<nat>, s: State<D, K>, rank: nat -> int, nodes: seq<nat>, w: nat)
    requires InBlock(info, |s.data|, nodes) && w > 0
    decreases |nodes|
  {
    nodes == [] ||
    (&& IsRun(c, info, s, rank, Take(nodes, w))
     && RanksBelow(rank, Take(nodes, w), Drop(nodes, w))
     && IsRuns(c, info, s, rank, Drop(nodes, w), w))
  }

  lemma EvolvesTrans<D(!new), K(!new)>(c: Comparator<D, K>, s: State<D, K>, t: State<D, K>, u: State<D, K>, a: set<nat>, b: set<nat>)
    requires Evolves(c, s, t, a) && Evolves(c, t, u, b)
    ensures Evolves(c, s, u, a + b)
  {
  }

  lemma EvolvesWider<D(!new), K(!new)>(c: Comparator<D, K>, s: State<D, K>, t: State<D, K>, a: set<nat>, b: set<nat>)
    requires Evolves(c, s, t, a) && a <= b
    ensures Evolves(c, s, t, b)
  {
  }

  lemma TouchEvolves<D(!new), K(!new)>(c: Comparator<D, K>, s: State<D, K>, i: nat)
    requires Lawful(c) && i < |s.data|
    ensures Evolves(c, s, TouchSlot(c, s, i), {i})
    ensures c.touched(TouchSlot(c, s, i).data[i])
  {
  }

  lemma CompareEvolves<D(!new), K(!new)>(c: Comparator<D, K>, info: seq<nat>, s: State<D, K>, a: nat, b: nat)
    requires Lawful(c) && HasSlot(info, |s.data|, a) && HasSlot(info, |s.data|, b)
    ensures var s' := Compare(c, info, s, a, b);
            Evolves(c, s, s', {info[a], info[b]}) && c.touched(s'.data[info[a]]) && c.touched(s'.data[info[b]])
  {
    var t := TouchSlot(c, s, info[a]);
    TouchEvolves(c, s, info[a]);
    TouchEvolves(c, t, info[b]);
    EvolvesTrans(c, s, t, TouchSlot(c, t, info[b]), {info[a]}, {info[b]});
    assert {info[a]} + {info[b]} == {info[a], info[b]};
  }

  lemma {:induction false} MergeEvolves<D(!new), K(!new)>(c: Comparator<D, K>, info: seq<nat>, s: State<D, K>, p: seq<nat>, q: seq<nat>)
    requires Lawful(c) && InBlock(info, |s.data|, p) && InBlock(info, |s.data|, q)
    ensures Evolves(c, s, Merge(c, info, s, p, q).0, Slots(info, p) + Slots(info, q))
    decreases |p| + |q|
  {
    if p != [] && q != [] {
      var a, b := p[0], q[0];
      var s' := Compare(c, info, s, a, b);
      CompareEvolves(c, info, s, a, b);
      assert a in p && b in q;
      var all := Slots(info, p) + Slots(info, q);
      EvolvesWider(c, s, s', {info[a], info[b]}, all);
      if Key(c, info, s', a) <= Key(c, info, s', b) {
        MergeEvolves(c, info, s', p[1..], q);
        EvolvesWider(c, s', Merge(c, info, s, p, q).0, Slots(info, p[1..]) + Slots(info, q), all);
      } else {
        MergeEvolves(c, info, s', p, q[1..]);
        EvolvesWider(c, s', Merge(c, info, s, p, q).0, Slots(info, p) + Slots(info, q[1..]), all);
      }
      EvolvesTrans(c, s, s', Merge(c, info, s, p, q).0, all, all);
      assert all + all == all;
    }
  }

  lemma {:induction false} PassEvolves<D(!new), K(!new)>(c: Comparator<D, K>, info: seq<nat>, s: State<D, K>, nodes: seq<nat>, w: nat)
    requires Lawful(c) && InBlock(info, |s.data|, nodes) && w > 0
    ensures Evolves(c, s, Pass(c, info, s, nodes, w).0, Slots(info, nodes))
    decreases |nodes|
  {
    if nodes != [] {
      var p, rest := Take(nodes, w), Drop(nodes, w);
      var q, tail := Take(rest, w), Drop(rest, w);
      var t := Merge(c, info, s, p, q).0;
      MergeEvolves(c, info, s, p, q);
      PassEvolves(c, info, t, tail, w);
      EvolvesTrans(c, s, t, Pass(c, info, t, tail, w).0, Slots(info, p) + Slots(info, q), Slots(info, tail));
      Cut(nodes, w);
      Cut(rest, w);
      EvolvesWider(c, s, Pass(c, info, t, tail, w).0,
                   Slots(info, p) + Slots(info, q) + Slots(info, tail), Slots(info, nodes));
    }
  }

  lemma AllTouchedStays<D(!new), K(!new)>(c: Comparator<D, K>, info: seq<nat>, s: State<D, K>, s': State<D, K>,
                                          slots: set<nat>, nodes: seq<nat>)
    requires InBlock(info, |s.data|, nodes) && Evolves(c, s, s', slots) && AllTouched(c, info, s, nodes)
    ensures AllTouched(c, info, s', nodes)
    ensures forall i | 0 <= i < |nodes| :: s'.data[info[nodes[i]]] == s.data[info[nodes[i]]]
  {
    forall i | 0 <= i < |nodes| ensures s'.data[info[nodes[i]]] == s.data[info[nodes[i]]] {
      assert HasSlot(info, |s.data|, nodes[i]);
    }
  }

  /** Runs are not disturbed: a longer one is all touched, and one node is always in order. */
  lemma RunFrame<D(!new), K(!new)>(c: Comparator<D, K>, info: seq<nat>, s: State<D, K>, s': State<D, K>,
                       slots: set<nat>, rank: nat -> int, nodes: seq<nat>)
    requires InBlock(info, |s.data|, nodes) && Evolves(c, s, s', slots)
    requires IsRun(c, info, s, rank, nodes)
    ensures IsRun(c, info, s', rank, nodes)
    ensures AllTouched(c, info, s, nodes) ==> AllTouched(c, info, s', nodes)
  {
    if AllTouched(c, info, s, nodes) {
      AllTouchedStays(c, info, s, s', slots, nodes);
    }
  }

  lemma {:induction false} RunsFrame<D(!new), K(!new)>(c: Comparator<D, K>, info: seq<nat>, s: State<D, K>, s': State<D, K>,
                                           slots: set<nat>, rank: nat -> int, nodes: seq<nat>, w: nat)
    requires w > 0 && InBlock(info, |s.data|, nodes) && Evolves(c, s, s', slots)
    requires IsRuns(c, info, s, rank, nodes, w)
    ensures IsRuns(c, info, s', rank, nodes, w)
    decreases |nodes|
  {
    if nodes != [] {
      Cut(nodes, w);
      RunFrame(c, info, s, s', slots, rank, Take(nodes, w));
      RunsFrame(c, info, s, s', slots, rank, Drop(nodes, w), w);
    }
  }

  /** Putting x in front of a run it precedes. */
  lemma Prepend<D(!new), K(!new)>(c: Comparator<D, K>, info: seq<nat>, s: State<D, K>, rank: nat -> int, x: nat, run: seq<nat>)
    requires HasSlot(info, |s.data|, x) && InBlock(info, |s.data|, run)
    requires Ordered(c, info, s, rank, run)
    requires forall i | 0 <= i < |run| :: Before(c, info, s, rank, x, run[i])
    ensures InBlock(info, |s.data|, [x] + run) && Ordered(c, info, s, rank, [x] + run)
  {
    var all := [x] + run;
    assert all[0] == x;
    forall i, j | 0 <= i < j < |all| ensures Before(c, info, s, rank, all[i], all[j]) {
      if i == 0 {
        assert all[j] == run[j - 1];
      } else {
        assert all[i] == run[i - 1] && all[j] == run[j - 1];
      }
    }
  }

  /** The head of a run that wins the comparison precedes both runs. */
  lemma WinnerFirst<D(!new), K(!new)>(c: Comparator<D, K>, info: seq<nat>, s: State<D, K>, rank: nat -> int, p: seq<nat>, q: seq<nat>)
    requires InBlock(info, |s.data|, p) && InBlock(info, |s.data|, q) && p != [] && q != []
    requires Ordered(c, info, s, rank, p) && Ordered(c, info, s, rank, q)
    requires Before(c, info, s, rank, p[0], q[0])
    ensures forall i | 1 <= i < |p| :: Before(c, info, s, rank, p[0], p[i])
    ensures forall i | 0 <= i < |q| :: Before(c, info, s, rank, p[0], q[i])
  {
    forall i | 0 <= i < |q| ensures Before(c, info, s, rank, p[0], q[i]) {
      assert i > 0 ==> Before(c, info, s, rank, q[0], q[i]);
    }
  }

  /** Comparisons leave a run in order once its only node, or all of its nodes, are touched. */
  lemma CompareKeepsRun<D(!new), K(!new)>(c: Comparator<D, K>, info: seq<nat>, s: State<D, K>, rank: nat -> int,
                                          a: nat, b: nat, run: seq<nat>)
    requires Lawful(c) && HasSlot(info, |s.data|, a) && HasSlot(info, |s.data|, b)
    requires InBlock(info, |s.data|, run) && IsRun(c, info, s, rank, run)
    requires run != [] && (run[0] == a || run[0] == b)
    ensures var s' := Compare(c, info, s, a, b); IsRun(c, info, s', rank, run) && AllTouched(c, info, s', run)
  {
    CompareEvolves(c, info, s, a, b);
    if |run| >= 2 {
      RunFrame(c, info, s, Compare(c, info, s, a, b), {info[a], info[b]}, rank, run);
    }
  }

  /** The step both branches of Merge share: x is taken, p and q remain. */
  lemma TakeHead<D(!new), K(!new)>(c: Comparator<D, K>, info: seq<nat>, s: State<D, K>, rank: nat -> int,
                                   x: nat, p: seq<nat>, q: seq<nat>)
    requires Lawful(c) && HasSlot(info, |s.data|, x) && InBlock(info, |s.data|, p) && InBlock(info, |s.data|, q)
    requires c.touched(s.data[info[x]]) && AllTouched(c, info, s, p) && AllTouched(c, info, s, q)
    requires forall i | 0 <= i < |p| :: Before(c, info, s, rank, x, p[i])
    requires forall i | 0 <= i < |q| :: Before(c, info, s, rank, x, q[i])
    requires var r := Merge(c, info, s, p, q); IsRun(c, info, r.0, rank, r.1)
    ensures var r := Merge(c, info, s, p, q);
            InBlock(info, |s.data|, [x] + r.1) && IsRun(c, info, r.0, rank, [x] + r.1) && AllTouched(c, info, r.0, [x] + r.1)
  {
    var r := Merge(c, info, s, p, q);
    var slots := Slots(info, p) + Slots(info, q);
    MergeEvolves(c, info, s, p, q);
    MergeMembers(c, info, s, p, q);
    SameMembers(r.1, p + q);
    AllTouchedStays(c, info, s, r.0, slots, p);
    AllTouchedStays(c, info, s, r.0, slots, q);
    assert r.0.data[info[x]] == s.data[info[x]];
    forall i | 0 <= i < |r.1|
      ensures Before(c, info, r.0, rank, x, r.1[i]) && c.touched(r.0.data[info[r.1[i]]])
    {
      assert r.1[i] in p + q;
      var j :| 0 <= j < |p + q| && (p + q)[j] == r.1[i];
      if j < |p| {
        assert p[j] == r.1[i];
      } else {
        assert q[j - |p|] == r.1[i];
      }
    }
    Prepend(c, info, r.0, rank, x, r.1);
    forall i | 0 <= i < |[x] + r.1| ensures c.touched(r.0.data[info[([x] + r.1)[i]]]) {
      assert i > 0 ==> ([x] + r.1)[i] == r.1[i - 1];
    }
  }

  lemma {:induction false} MergeIsRun<D(!new), K(!new)>(c: Comparator<D, K>, info: seq<nat>, s: State<D, K>, rank: nat -> int,
                                                        p: seq<nat>, q: seq<nat>)
    requires Lawful(c) && InBlock(info, |s.data|, p) && InBlock(info, |s.data|, q)
    requires IsRun(c, info, s, rank, p) && IsRun(c, info, s, rank, q) && RanksBelow(rank, p, q)
    ensures var r := Merge(c, info, s, p, q);
            IsRun(c, info, r.0, rank, r.1) && (p != [] && q != [] ==> AllTouched(c, info, r.0, r.1))
    decreases |p| + |q|
  {
    if p != [] && q != [] {
      var a, b := p[0], q[0];
      var s' := Compare(c, info, s, a, b);
      CompareKeepsRun(c, info, s, rank, a, b, p);
      CompareKeepsRun(c, info, s, rank, a, b, q);
      assert a in p && b in q;
      if Key(c, info, s', a) <= Key(c, info, s', b) {
        WinnerFirst(c, info, s', rank, p, q);
        MergeIsRun(c, info, s', rank, p[1..], q);
        TakeHead(c, info, s', rank, a, p[1..], q);
      } else {
        WinnerFirst(c, info, s', rank, q, p);
        MergeIsRun(c, info, s', rank, p, q[1..]);
        TakeHead(c, info, s', rank, b, p, q[1..]);
      }
    }
  }

  /** The first run of a list, which may be empty, and the runs behind it. */
  lemma FirstRun<D(!new), K(!new)>(c: Comparator<D, K>, info: seq<nat>, s: State<D, K>, rank: nat -> int, nodes: seq<nat>, w: nat)
    requires InBlock(info, |s.data|, nodes) && w > 0 && IsRuns(c, info, s, rank, nodes, w)
    ensures IsRun(c, info, s, rank, Take(nodes, w)) && IsRuns(c, info, s, rank, Drop(nodes, w), w)
    ensures RanksBelow(rank, Take(nodes, w), Drop(nodes, w))
  {
  }

  lemma JoinRanks(rank: nat -> int, p: seq<nat>, q: seq<nat>, tail: seq<nat>)
    requires RanksBelow(rank, p, q + tail) && RanksBelow(rank, q, tail)
    ensures RanksBelow(rank, p, q) && RanksBelow(rank, p + q, tail)
  {
  }

  lemma IsRunsCut<D(!new), K(!new)>(c: Comparator<D, K>, info: seq<nat>, s: State<D, K>, rank: nat -> int, nodes: seq<nat>, w: nat)
    requires InBlock(info, |s.data|, nodes) && w > 0 && nodes != [] && IsRuns(c, info, s, rank, nodes, w)
    ensures var p, rest := Take(nodes, w), Drop(nodes, w);
            var q, tail := Take(rest, w), Drop(rest, w);
            && IsRun(c, info, s, rank, p) && IsRun(c, info, s, rank, q) && IsRuns(c, info, s, rank, tail, w)
            && RanksBelow(rank, p, q) && RanksBelow(rank, p + q, tail)
            && nodes == p + q + tail && (tail != [] ==> |p + q| == 2 * w) && |p + q| <= 2 * w
  {
    hide IsRun, IsRuns, RanksBelow, InBlock, Take, Drop;
    var p, rest := Take(nodes, w), Drop(nodes, w);
    var q, tail := Take(rest, w), Drop(rest, w);
    CutInBlock(info, |s.data|, nodes, w);
    CutLengths(nodes, w);
    FirstRun(c, info, s, rank, nodes, w);
    FirstRun(c, info, s, rank, rest, w);
    JoinRanks(rank, p, q, tail);
  }

  lemma CutOnce(nodes: seq<nat>, w: nat)
    requires w > 0
    ensures nodes == Take(nodes, w) + Drop(nodes, w) && |Take(nodes, w)| <= w && (Drop(nodes, w) != [] ==> |Take(nodes, w)| == w)
  {
  }

  lemma Associative(p: seq<nat>, q: seq<nat>, tail: seq<nat>)
    ensures p + (q + tail) == p + q + tail
  {
  }

  lemma CutLengths(nodes: seq<nat>, w: nat)
    requires w > 0
    ensures var p, rest := Take(nodes, w), Drop(nodes, w);
            var q, tail := Take(rest, w), Drop(rest, w);
            && rest == q + tail && nodes == p + q + tail && (tail != [] ==> |p + q| == 2 * w) && |p + q| <= 2 * w
  {
    hide Take, Drop;
    CutOnce(nodes, w);
    CutOnce(Drop(nodes, w), w);
    Associative(Take(nodes, w), Take(Drop(nodes, w), w), Drop(Drop(nodes, w), w));
  }

  lemma RanksBelowSame(rank: nat -> int, a: seq<nat>, b: seq<nat>, a': seq<nat>, b': seq<nat>)
    requires RanksBelow(rank, a, b) && multiset(a) == multiset(a') && multiset(b) == multiset(b')
    ensures RanksBelow(rank, a', b')
  {
    SameMembers(a, a');
    SameMembers(b, b');
  }

  lemma IsRunsJoin<D(!new), K(!new)>(c: Comparator<D, K>, info: seq<nat>, s: State<D, K>, rank: nat -> int,
                                     run: seq<nat>, rest: seq<nat>, w: nat)
    requires w > 0 && InBlock(info, |s.data|, run) && InBlock(info, |s.data|, rest)
    requires run != [] && |run| <= w && (rest != [] ==> |run| == w)
    requires IsRun(c, info, s, rank, run) && IsRuns(c, info, s, rank, rest, w) && RanksBelow(rank, run, rest)
    ensures InBlock(info, |s.data|, run + rest) && IsRuns(c, info, s, rank, run + rest, w)
  {
    assert Take(run + rest, w) == run;
    assert Drop(run + rest, w) == rest;
  }

  lemma FirstMerge<D(!new), K(!new)>(c: Comparator<D, K>, info: seq<nat>, s: State<D, K>, rank: nat -> int,
                                     p: seq<nat>, q: seq<nat>, tail: seq<nat>, w: nat)
    requires Lawful(c) && w > 0 && InBlock(info, |s.data|, p) && InBlock(info, |s.data|, q) && InBlock(info, |s.data|, tail)
    requires IsRun(c, info, s, rank, p) && IsRun(c, info, s, rank, q) && RanksBelow(rank, p, q)
    requires IsRuns(c, info, s, rank, tail, w)
    ensures var m := Merge(c, info, s, p, q);
            && IsRun(c, info, m.0, rank, m.1) && IsRuns(c, info, m.0, rank, tail, w)
            && multiset(m.1) == multiset(p + q)
  {
    var m := Merge(c, info, s, p, q);
    MergeIsRun(c, info, s, rank, p, q);
    MergeEvolves(c, info, s, p, q);
    MergeMembers(c, info, s, p, q);
    RunsFrame(c, info, s, m.0, Slots(info, p) + Slots(info, q), rank, tail, w);
  }

  /** The merged run stays in order while the rest of the pass works elsewhere. */
  lemma RunThenRuns<D(!new), K(!new)>(c: Comparator<D, K>, info: seq<nat>, s: State<D, K>, t: State<D, K>, rank: nat -> int,
                                      pq: seq<nat>, tail: seq<nat>, run: seq<nat>, runs: seq<nat>, w: nat)
    requires w > 0 && InBlock(info, |s.data|, run) && InBlock(info, |t.data|, runs)
    requires IsRun(c, info, s, rank, run)
    requires Evolves(c, s, t, Slots(info, tail)) && IsRuns(c, info, t, rank, runs, w)
    requires multiset(run) == multiset(pq) && multiset(runs) == multiset(tail) && RanksBelow(rank, pq, tail)
    requires run != [] && |run| <= w && (runs != [] ==> |run| == w)
    ensures InBlock(info, |t.data|, run + runs) && IsRuns(c, info, t, rank, run + runs, w)
  {
    RunFrame(c, info, s, t, Slots(info, tail), rank, run);
    RanksBelowSame(rank, pq, tail, run, runs);
    IsRunsJoin(c, info, t, rank, run, runs, w);
  }

  lemma PassParts<D, K>(c: Comparator<D, K>, info: seq<nat>, s: State<D, K>, nodes: seq<nat>, w: nat)
    requires InBlock(info, |s.data|, nodes) && w > 0 && nodes != []
    ensures var p, rest := Take(nodes, w), Drop(nodes, w);
            var q, tail := Take(rest, w), Drop(rest, w);
            var m := Merge(c, info, s, p, q);
            var r := Pass(c, info, m.0, tail, w);
            Pass(c, info, s, nodes, w) == (r.0, m.1 + r.1) && (q == [] ==> Pass(c, info, s, nodes, w) == (s, nodes))
  {
    var p, rest := Take(nodes, w), Drop(nodes, w);
    var q := Take(rest, w);
    if q == [] {
      assert rest == [] && p == nodes && p + [] == p;
    }
  }

  /** The first merge of a pass makes the first run of twice the length. */
  lemma MergeThenRuns<D(!new), K(!new)>(c: Comparator<D, K>, info: seq<nat>, s: State<D, K>, rank: nat -> int,
                                        p: seq<nat>, q: seq<nat>, tail: seq<nat>, w: nat)
    requires Lawful(c) && w > 0 && InBlock(info, |s.data|, p) && InBlock(info, |s.data|, q) && InBlock(info, |s.data|, tail)
    requires IsRun(c, info, s, rank, p) && IsRun(c, info, s, rank, q) && RanksBelow(rank, p, q) && RanksBelow(rank, p + q, tail)
    requires p != [] && |p + q| <= 2 * w && (tail != [] ==> |p + q| == 2 * w)
    requires IsRuns(c, info, s, rank, tail, w)
    requires var m := Merge(c, info, s, p, q);
             var r := Pass(c, info, m.0, tail, w); IsRuns(c, info, r.0, rank, r.1, 2 * w)
    ensures var m := Merge(c, info, s, p, q);
            var r := Pass(c, info, m.0, tail, w);
            InBlock(info, |s.data|, m.1 + r.1) && IsRuns(c, info, r.0, rank, m.1 + r.1, 2 * w)
  {
    hide IsRuns, IsRun, RanksBelow, Slots, Merge, Pass, Evolves, Lawful;
    var m := Merge(c, info, s, p, q);
    FirstMerge(c, info, s, rank, p, q, tail, w);
    var r := Pass(c, info, m.0, tail, w);
    PassEvolves(c, info, m.0, tail, w);
    PassMembers(c, info, m.0, tail, w);
    RunThenRuns(c, info, m.0, r.0, rank, p + q, tail, m.1, r.1, 2 * w);
  }

  lemma CutInBlock(info: seq<nat>, size: nat, nodes: seq<nat>, w: nat)
    requires InBlock(info, size, nodes) && w > 0 && nodes != []
    ensures var p, rest := Take(nodes, w), Drop(nodes, w);
            var q, tail := Take(rest, w), Drop(rest, w);
            && InBlock(info, size, p) && InBlock(info, size, rest) && InBlock(info, size, q) && InBlock(info, size, tail)
            && p != [] && |tail| < |nodes|
  {
  }

  /** A pass doubles the length of the runs. */
  lemma {:induction false} PassDoubles<D(!new), K(!new)>(c: Comparator<D, K>, info: seq<nat>, s: State<D, K>, rank: nat -> int,
                                                         nodes: seq<nat>, w: nat)
    requires Lawful(c) && InBlock(info, |s.data|, nodes) && w > 0
    requires IsRuns(c, info, s, rank, nodes, w)
    ensures var r := Pass(c, info, s, nodes, w); IsRuns(c, info, r.0, rank, r.1, 2 * w)
    decreases |nodes|
  {
    if nodes == [] {
    } else {
      hide IsRuns, IsRun, RanksBelow, Merge, Pass, Lawful, InBlock, Take, Drop;
      CutInBlock(info, |s.data|, nodes, w);
      var p, rest := Take(nodes, w), Drop(nodes, w);
      var q, tail := Take(rest, w), Drop(rest, w);
      IsRunsCut(c, info, s, rank, nodes, w);
      PassParts(c, info, s, nodes, w);
      var m := Merge(c, info, s, p, q);
      FirstMerge(c, info, s, rank, p, q, tail, w);
      PassDoubles(c, info, m.0, rank, tail, w);
      MergeThenRuns(c, info, s, rank, p, q, tail, w);
    }
  }

  lemma SlotsSame(info: seq<nat>, a: seq<nat>, b: seq<nat>)
    requires multiset(a) == multiset(b)
    ensures Slots(info, a) == Slots(info, b)
    ensures Distinct(a) ==> Distinct(b)
  {
    SameMembers(a, b);
    if Distinct(a) {
      DistinctCount(a);
      CountDistinct(b);
    }
  }

  lemma {:induction false} DistinctCount(a: seq<nat>)
    requires Distinct(a)
    ensures forall x :: multiset(a)[x] <= 1
  {
    if a != [] {
      var t := a[1..];
      assert a == [a[0]] + t;
      DistinctCount(t);
      assert a[0] !in t;
    }
  }

  lemma CountDistinct(a: seq<nat>)
    requires forall x :: multiset(a)[x] <= 1
    ensures Distinct(a)
  {
    forall i, j | 0 <= i < j < |a| ensures a[i] != a[j] {
      var x := a[i];
      assert a == a[..i] + [a[i]] + a[i + 1..j] + [a[j]] + a[j + 1..];
      assert multiset(a)[x] >= multiset([a[i]])[x] + multiset([a[j]])[x];
    }
  }

  lemma {:induction false} SortIsOrdered<D(!new), K(!new)>(c: Comparator<D, K>, info: seq<nat>, s: State<D, K>, rank: nat -> int,
                                                           nodes: seq<nat>, w: nat)
    requires Lawful(c) && InBlock(info, |s.data|, nodes) && w > 0
    requires IsRuns(c, info, s, rank, nodes, w)
    ensures var r := Sort(c, info, s, nodes, w);
            IsRun(c, info, r.0, rank, r.1) && Evolves(c, s, r.0, Slots(info, nodes))
    decreases |nodes| - w
  {
    var r := Pass(c, info, s, nodes, w);
    PassDoubles(c, info, s, rank, nodes, w);
    PassEvolves(c, info, s, nodes, w);
    PassMembers(c, info, s, nodes, w);
    if |nodes| <= 2 * w {
      assert Take(r.1, 2 * w) == r.1;
    } else {
      SlotsSame(info, nodes, r.1);
      SortIsOrdered(c, info, r.0, rank, r.1, 2 * w);
      var t := Sort(c, info, r.0, r.1, 2 * w).0;
      EvolvesTrans(c, s, r.0, t, Slots(info, nodes), Slots(info, r.1));
      EvolvesWider(c, s, t, Slots(info, nodes) + Slots(info, r.1), Slots(info, nodes));
    }
  }

  /** Position of x in the list, or the length if it is absent. */
  function Position(nodes: seq<nat>, x: nat): nat {
    if nodes == [] || nodes[0] == x then 0 else 1 + Position(nodes[1..], x)
  }

  lemma {:induction false} PositionOf(nodes: seq<nat>, i: nat)
    requires Distinct(nodes) && i < |nodes|
    ensures Position(nodes, nodes[i]) == i
  {
    if i > 0 {
      assert nodes[0] != nodes[i];
      PositionOf(nodes[1..], i - 1);
    }
  }

  function Rank(nodes: seq<nat>): nat -> int {
    (x: nat) => Position(nodes, x) as int
  }

  lemma {:induction false} SingletonRuns<D(!new), K(!new)>(c: Comparator<D, K>, info: seq<nat>, s: State<D, K>, rank: nat -> int, nodes: seq<nat>)
    requires InBlock(info, |s.data|, nodes)
    requires forall i, j | 0 <= i < j < |nodes| :: rank(nodes[i]) < rank(nodes[j])
    ensures IsRuns(c, info, s, rank, nodes, 1)
  {
    if nodes != [] {
      assert Take(nodes, 1) == [nodes[0]];
      assert Drop(nodes, 1) == nodes[1..];
      SingletonRuns(c, info, s, rank, nodes[1..]);
      forall y | y in nodes[1..] ensures rank(nodes[0]) < rank(y) {
        var j :| 0 <= j < |nodes[1..]| && nodes[1..][j] == y;
        assert nodes[j + 1] == y;
      }
    }
  }

  /** The sort, for every lawful comparator and every list, also one whose nodes share slots:
      the same nodes, in strict order of (final key, original position), all touched if
      there are at least two, with tags, touched items and foreign slots unchanged. */
  lemma MergeSortCorrect<D(!new), K(!new)>(c: Comparator<D, K>, info: seq<nat>, s: State<D, K>, nodes: seq<nat>)
    requires Lawful(c) && InBlock(info, |s.data|, nodes) && Distinct(nodes)
    ensures var (s', out) := MergeSort(c, info, s, nodes);
            && multiset(out) == multiset(nodes) && Distinct(out)
            && Ordered(c, info, s', Rank(nodes), out)
            && (|nodes| >= 2 ==> AllTouched(c, info, s', out))
            && Evolves(c, s, s', Slots(info, nodes))
  {
    var rank := Rank(nodes);
    forall i, j | 0 <= i < j < |nodes| ensures rank(nodes[i]) < rank(nodes[j]) {
      PositionOf(nodes, i);
      PositionOf(nodes, j);
    }
    SingletonRuns(c, info, s, rank, nodes);
    SortIsOrdered(c, info, s, rank, nodes, 1);
    var r := MergeSort(c, info, s, nodes);
    SlotsSame(info, nodes, r.1);
    SameMembers(nodes, r.1);
  }

  /** A list already in strict key order comes back as it was, if keys do not depend on the data. */
  lemma MergeSortRestores<D(!new), K(!new)>(c: Comparator<D, K>, info: seq<nat>, s: State<D, K>, nodes: seq<nat>, sorted: seq<nat>)
    requires Lawful(c) && InBlock(info, |s.data|, nodes) && Distinct(nodes)
    requires multiset(nodes) == multiset(sorted) && InBlock(info, |s.data|, sorted)
    requires forall i, d, d' :: c.key(i, d) == c.key(i, d')
    requires forall i, j | 0 <= i < j < |sorted| :: Key(c, info, s, sorted[i]) < Key(c, info, s, sorted[j])
    ensures MergeSort(c, info, s, nodes).1 == sorted
  {
    var (s', out) := MergeSort(c, info, s, nodes);
    MergeSortCorrect(c, info, s, nodes);
    var key := (x: nat) => if HasSlot(info, |s.data|, x) then Key(c, info, s, x) else 0;
    SameMembers(out, sorted);
    forall i, j | 0 <= i < j < |out| ensures key(out[i]) < key(out[j]) {
      assert Before(c, info, s', Rank(nodes), out[i], out[j]);
      assert Key(c, info, s, out[i]) == Key(c, info, s', out[i]);
      assert Key(c, info, s, out[j]) == Key(c, info, s', out[j]);
      StrictKeys(key, sorted, out[i], out[j]);
    }
    SortedUnique(key, out, sorted);
  }

  lemma StrictKeys(key: nat -> int, sorted: seq<nat>, x: nat, y: nat)
    requires forall i, j | 0 <= i < j < |sorted| :: key(sorted[i]) < key(sorted[j])
    requires x in sorted && y in sorted && x != y
    ensures key(x) != key(y)
  {
  }

  lemma SmallestFirst(key: nat -> int, a: seq<nat>, b: seq<nat>)
    requires multiset(a) == multiset(b) && a != []
    requires forall i, j | 0 <= i < j < |a| :: key(a[i]) < key(a[j])
    requires forall i, j | 0 <= i < j < |b| :: key(b[i]) < key(b[j])
    ensures b != [] && a[0] == b[0]
  {
    SameMembers(a, b);
    assert a[0] in b && b[0] in a;
  }

  lemma SameTails(a: seq<nat>, b: seq<nat>)
    requires multiset(a) == multiset(b) && a != [] && b != [] && a[0] == b[0]
    ensures multiset(a[1..]) == multiset(b[1..])
  {
    assert a == [a[0]] + a[1..] && b == [b[0]] + b[1..];
    assert multiset(a[1..]) == multiset(a) - multiset{a[0]};
    assert multiset(b[1..]) == multiset(b) - multiset{b[0]};
  }

  lemma {:induction false} SortedUnique(key: nat -> int, a: seq<nat>, b: seq<nat>)
    requires multiset(a) == multiset(b)
    requires forall i, j | 0 <= i < j < |a| :: key(a[i]) < key(a[j])
    requires forall i, j | 0 <= i < j < |b| :: key(b[i]) < key(b[j])
    ensures a == b
  {
    SameMembers(a, b);
    if a != [] {
      SmallestFirst(key, a, b);
      SameTails(a, b);
      SortedUnique(key, a[1..], b[1..]);
      assert a == [a[0]] + a[1..] && b == [b[0]] + b[1..];
    }
  }

  // ------------------------------------------------------------------
  // Two runs from related shared states
  // ------------------------------------------------------------------

  /** From related states a comparison does the same to the data and keeps the relation. */
  ghost predicate Respects<D(!new), K(!new)>(c: Comparator<D, K>, related: (K, K) -> bool) {
    forall d, k, k' | related(k, k') ::
      c.touch(d, k).0 == c.touch(d, k').0 && related(c.touch(d, k).1, c.touch(d, k').1)
  }

  ghost predicate Alike<D, K>(related: (K, K) -> bool, s: State<D, K>, t: State<D, K>) {
    s.data == t.data && related(s.k, t.k)
  }

  lemma {:induction false} MergeAlike<D(!new), K(!new)>(c: Comparator<D, K>, info: seq<nat>, related: (K, K) -> bool,
                                                        s: State<D, K>, t: State<D, K>, p: seq<nat>, q: seq<nat>)
    requires Respects(c, related) && Alike(related, s, t)
    requires InBlock(info, |s.data|, p) && InBlock(info, |s.data|, q)
    ensures var m, n := Merge(c, info, s, p, q), Merge(c, info, t, p, q);
            m.1 == n.1 && Alike(related, m.0, n.0)
    decreases |p| + |q|
  {
    if p != [] && q != [] {
      var s', t' := Compare(c, info, s, p[0], q[0]), Compare(c, info, t, p[0], q[0]);
      assert Alike(related, TouchSlot(c, s, info[p[0]]), TouchSlot(c, t, info[p[0]]));
      assert Alike(related, s', t');
      MergeAlike(c, info, related, s', t', p[1..], q);
      MergeAlike(c, info, related, s', t', p, q[1..]);
    }
  }

  lemma {:induction false} PassAlike<D(!new), K(!new)>(c: Comparator<D, K>, info: seq<nat>, related: (K, K) -> bool,
                                                       s: State<D, K>, t: State<D, K>, nodes: seq<nat>, w: nat)
    requires Respects(c, related) && Alike(related, s, t) && InBlock(info, |s.data|, nodes) && w > 0
    ensures var m, n := Pass(c, info, s, nodes, w), Pass(c, info, t, nodes, w);
            m.1 == n.1 && Alike(related, m.0, n.0)
    decreases |nodes|
  {
    if nodes != [] {
      var p, rest := Take(nodes, w), Drop(nodes, w);
      var q, tail := Take(rest, w), Drop(rest, w);
      MergeAlike(c, info, related, s, t, p, q);
      PassAlike(c, info, related, Merge(c, info, s, p, q).0, Merge(c, info, t, p, q).0, tail, w);
    }
  }

  lemma {:induction false} SortAlike<D(!new), K(!new)>(c: Comparator<D, K>, info: seq<nat>, related: (K, K) -> bool,
                                                       s: State<D, K>, t: State<D, K>, nodes: seq<nat>, w: nat)
    requires Respects(c, related) && Alike(related, s, t) && InBlock(info, |s.data|, nodes) && w > 0
    ensures var m, n := Sort(c, info, s, nodes, w), Sort(c, info, t, nodes, w);
            m.1 == n.1 && Alike(related, m.0, n.0)
    decreases |nodes| - w
  {
    PassAlike(c, info, related, s, t, nodes, w);
    if |nodes| > 2 * w {
      var r := Pass(c, info, s, nodes, w);
      SortAlike(c, info, related, r.0, Pass(c, info, t, nodes, w).0, r.1, 2 * w);
    }
  }
}
