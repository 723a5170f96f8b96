/** What the merge sort does besides sorting: whichever comparisons it makes, its side effect is that
    of touching every node once, in the order of the list it was given.
 */
module SortTouches {
  import opened ListSort
  import opened ListSortProof

  /** Each item in turn, once. */
  function TouchAll<D, K>(c: Comparator<D, K>, info: seq<nat>, s: State<D, K>, nodes: seq<nat>): (r: State<D, K>)
    requires InBlock(info, |s.data|, nodes)
    ensures |r.data| == |s.data|
    decreases |nodes|
  {
    if nodes == [] then s
    else
      assert HasSlot(info, |s.data|, nodes[0]);
      var i := info[nodes[0]];
      var (d, k) := c.touch(s.data[i], s.k);
      TouchAll(c, info, State(s.data[i := d], k), nodes[1..])
  }

  lemma TouchFirst<D, K>(c: Comparator<D, K>, info: seq<nat>, s: State<D, K>, nodes: seq<nat>)
    requires InBlock(info, |s.data|, nodes) && nodes != []
    ensures HasSlot(info, |s.data|, nodes[0])
    ensures TouchAll(c, info, s, nodes) == TouchAll(c, info, TouchSlot(c, s, info[nodes[0]]), nodes[1..])
  {
  }

  lemma {:induction false} TouchConcat<D, K>(c: Comparator<D, K>, info: seq<nat>, s: State<D, K>, p: seq<nat>, q: seq<nat>)
    requires InBlock(info, |s.data|, p) && InBlock(info, |s.data|, q)
    ensures InBlock(info, |s.data|, p + q)
    ensures TouchAll(c, info, s, p + q) == TouchAll(c, info, TouchAll(c, info, s, p), q)
    decreases |p|
  {
    if p == [] {
      assert p + q == q;
    } else {
      hide TouchAll;
      assert (p + q)[1..] == p[1..] + q;
      TouchFirst(c, info, s, p);
      TouchFirst(c, info, s, p + q);
      TouchConcat(c, info, TouchSlot(c, s, info[p[0]]), p[1..], q);
    }
  }

  lemma TouchedSlot<D(!new), K(!new)>(c: Comparator<D, K>, s: State<D, K>, i: nat)
    requires Lawful(c) && i < |s.data| && c.touched(s.data[i])
    ensures TouchSlot(c, s, i) == s
  {
  }

  lemma AllTouchedTail<D(!new), K(!new)>(c: Comparator<D, K>, info: seq<nat>, s: State<D, K>, nodes: seq<nat>)
    requires InBlock(info, |s.data|, nodes) && AllTouched(c, info, s, nodes) && nodes != []
    ensures HasSlot(info, |s.data|, nodes[0]) && c.touched(s.data[info[nodes[0]]]) && AllTouched(c, info, s, nodes[1..])
  {
  }

  lemma {:induction false} TouchedAlready<D(!new), K(!new)>(c: Comparator<D, K>, info: seq<nat>, s: State<D, K>, nodes: seq<nat>)
    requires Lawful(c) && InBlock(info, |s.data|, nodes) && AllTouched(c, info, s, nodes)
    ensures TouchAll(c, info, s, nodes) == s
    decreases |nodes|
  {
    if nodes != [] {
      hide AllTouched, Lawful;
      AllTouchedTail(c, info, s, nodes);
      TouchFirst(c, info, s, nodes);
      TouchedSlot(c, s, info[nodes[0]]);
      TouchedAlready(c, info, s, nodes[1..]);
    }
  }

  /** A merge of items that are all touched has no side effect. */
  lemma {:induction false} QuietMerge<D(!new), K(!new)>(c: Comparator<D, K>, info: seq<nat>, s: State<D, K>, p: seq<nat>, q: seq<nat>)
    requires Lawful(c) && InBlock(info, |s.data|, p) && InBlock(info, |s.data|, q)
    requires AllTouched(c, info, s, p) && AllTouched(c, info, s, q)
    ensures Merge(c, info, s, p, q).0 == s
    decreases |p| + |q|
  {
    if p != [] && q != [] {
      hide AllTouched, Lawful;
      AllTouchedTail(c, info, s, p);
      AllTouchedTail(c, info, s, q);
      TouchedSlot(c, s, info[p[0]]);
      TouchedSlot(c, s, info[q[0]]);
      QuietMerge(c, info, s, p[1..], q);
      QuietMerge(c, info, s, p, q[1..]);
    }
  }

  /** A run is all touched, or its one node is. */
  lemma RunTouch<D(!new), K(!new)>(c: Comparator<D, K>, info: seq<nat>, s: State<D, K>, rank: nat -> int, run: seq<nat>)
    requires Lawful(c) && InBlock(info, |s.data|, run) && IsRun(c, info, s, rank, run) && run != []
    ensures HasSlot(info, |s.data|, run[0])
    ensures TouchAll(c, info, s, run) == TouchSlot(c, s, info[run[0]])
  {
    hide Lawful, Ordered;
    TouchFirst(c, info, s, run);
    if |run| >= 2 {
      AllTouchedTail(c, info, s, run);
      TouchedSlot(c, s, info[run[0]]);
      TouchedAlready(c, info, s, run);
    }
  }

  /** The first comparison of a merge touches whatever is not touched yet. */
  lemma MergeTouches<D(!new), K(!new)>(c: Comparator<D, K>, info: seq<nat>, s: State<D, K>, rank: nat -> int,
                                       p: seq<nat>, q: seq<nat>)
    requires Lawful(c) && InBlock(info, |s.data|, p) && InBlock(info, |s.data|, q) && p != [] && q != []
    requires IsRun(c, info, s, rank, p) && IsRun(c, info, s, rank, q)
    ensures InBlock(info, |s.data|, p + q) && Merge(c, info, s, p, q).0 == TouchAll(c, info, s, p + q)
  {
    hide Lawful, IsRun, AllTouched, Evolves;
    var a, b := p[0], q[0];
    assert HasSlot(info, |s.data|, a) && HasSlot(info, |s.data|, b);
    var t, s' := TouchSlot(c, s, info[a]), Compare(c, info, s, a, b);
    TouchConcat(c, info, s, p, q);
    RunTouch(c, info, s, rank, p);
    TouchEvolves(c, s, info[a]);
    RunFrame(c, info, s, t, {info[a]}, rank, q);
    RunTouch(c, info, t, rank, q);
    CompareKeepsRun(c, info, s, rank, a, b, p);
    CompareKeepsRun(c, info, s, rank, a, b, q);
    AllTouchedTail(c, info, s', p);
    AllTouchedTail(c, info, s', q);
    QuietMerge(c, info, s', p[1..], q);
    QuietMerge(c, info, s', p, q[1..]);
  }

  /** A touched run in front adds nothing. */
  lemma TouchedPrefix<D(!new), K(!new)>(c: Comparator<D, K>, info: seq<nat>, s: State<D, K>, t: State<D, K>, slots: set<nat>,
                                        run: seq<nat>, rest: seq<nat>)
    requires Lawful(c) && InBlock(info, |s.data|, run) && InBlock(info, |t.data|, rest)
    requires AllTouched(c, info, s, run) && Evolves(c, s, t, slots)
    ensures InBlock(info, |t.data|, run + rest) && TouchAll(c, info, t, run + rest) == TouchAll(c, info, t, rest)
  {
    hide TouchAll, Lawful;
    AllTouchedStays(c, info, s, t, slots, run);
    TouchedAlready(c, info, t, run);
    TouchConcat(c, info, t, run, rest);
  }

  /** The first merge of a pass and what the rest of it does. */
  lemma MergeThenRest<D(!new), K(!new)>(c: Comparator<D, K>, info: seq<nat>, s: State<D, K>, rank: nat -> int,
                                        p: seq<nat>, q: seq<nat>, tail: seq<nat>, t: State<D, K>, rest: seq<nat>)
    requires Lawful(c) && InBlock(info, |s.data|, p) && InBlock(info, |s.data|, q) && InBlock(info, |s.data|, tail)
    requires IsRun(c, info, s, rank, p) && IsRun(c, info, s, rank, q) && RanksBelow(rank, p, q) && p != [] && q != []
    requires Evolves(c, Merge(c, info, s, p, q).0, t, Slots(info, tail)) && InBlock(info, |t.data|, rest)
    requires TouchAll(c, info, t, rest) == TouchAll(c, info, Merge(c, info, s, p, q).0, tail)
    ensures var run := Merge(c, info, s, p, q).1;
            && InBlock(info, |t.data|, run + rest) && InBlock(info, |s.data|, p + q + tail)
            && TouchAll(c, info, t, run + rest) == TouchAll(c, info, s, p + q + tail)
  {
    hide TouchAll, Lawful, IsRun, RanksBelow, Merge, Evolves, AllTouched, Slots;
    var m := Merge(c, info, s, p, q);
    MergeTouches(c, info, s, rank, p, q);
    MergeIsRun(c, info, s, rank, p, q);
    TouchedPrefix(c, info, m.0, t, Slots(info, tail), m.1, rest);
    TouchConcat(c, info, s, p + q, tail);
  }

  /** A pass touches in the order of the list; what it has not touched yet stays last. */
  lemma {:induction false} PassTouches<D(!new), K(!new)>(c: Comparator<D, K>, info: seq<nat>, s: State<D, K>, rank: nat -> int,
                                                         nodes: seq<nat>, w: nat)
    requires Lawful(c) && InBlock(info, |s.data|, nodes) && w > 0 && IsRuns(c, info, s, rank, nodes, w)
    ensures var r := Pass(c, info, s, nodes, w); TouchAll(c, info, r.0, r.1) == TouchAll(c, info, s, nodes)
    decreases |nodes|
  {
    if nodes != [] {
      hide IsRuns, IsRun, RanksBelow, Slots, Merge, Evolves, Lawful, AllTouched, TouchAll;
      var p, rest := Take(nodes, w), Drop(nodes, w);
      var q, tail := Take(rest, w), Drop(rest, w);
      IsRunsCut(c, info, s, rank, nodes, w);
      PassParts(c, info, s, nodes, w);
      if q != [] {
        var m := Merge(c, info, s, p, q);
        FirstMerge(c, info, s, rank, p, q, tail, w);
        PassTouches(c, info, m.0, rank, tail, w);
        PassEvolves(c, info, m.0, tail, w);
        var r := Pass(c, info, m.0, tail, w);
        MergeThenRest(c, info, s, rank, p, q, tail, r.0, r.1);
      }
    }
  }

  lemma OneRun<D(!new), K(!new)>(c: Comparator<D, K>, info: seq<nat>, s: State<D, K>, rank: nat -> int, nodes: seq<nat>, w: nat)
    requires InBlock(info, |s.data|, nodes) && w > 0 && IsRuns(c, info, s, rank, nodes, w) && 2 <= |nodes| <= w
    ensures AllTouched(c, info, s, nodes)
  {
    FirstRun(c, info, s, rank, nodes, w);
    assert Take(nodes, w) == nodes;
  }

  lemma {:induction false} RunsTouched<D(!new), K(!new)>(c: Comparator<D, K>, info: seq<nat>, s: State<D, K>, rank: nat -> int,
                                                         nodes: seq<nat>, w: nat)
    requires Lawful(c) && InBlock(info, |s.data|, nodes) && w > 0 && IsRuns(c, info, s, rank, nodes, w) && |nodes| >= 2
    ensures Sort(c, info, s, nodes, w).0 == TouchAll(c, info, s, nodes)
    decreases |nodes| - w
  {
    hide IsRuns, Lawful, AllTouched, TouchAll, Pass;
    var r := Pass(c, info, s, nodes, w);
    PassDoubles(c, info, s, rank, nodes, w);
    PassTouches(c, info, s, rank, nodes, w);
    if |nodes| <= 2 * w {
      OneRun(c, info, r.0, rank, r.1, 2 * w);
      TouchedAlready(c, info, r.0, r.1);
    } else {
      RunsTouched(c, info, r.0, rank, r.1, 2 * w);
    }
  }

  /** For every lawful comparator and every list of at least two nodes: the data and the shared state
      after the sort are those of touching each node of the list it was given once, in order. */
  lemma SortTouchesInOrder<D(!new), K(!new)>(c: Comparator<D, K>, info: seq<nat>, s: State<D, K>, nodes: seq<nat>)
    requires Lawful(c) && InBlock(info, |s.data|, nodes) && Distinct(nodes) && |nodes| >= 2
    ensures MergeSort(c, info, s, nodes).0 == TouchAll(c, info, s, nodes)
  {
    hide Lawful, TouchAll, Sort, IsRuns;
    var rank := Rank(nodes);
    forall i, j | 0 <= i < j < |nodes| ensures rank(nodes[i]) < rank(nodes[j]) {
      PositionOf(nodes, i);
      PositionOf(nodes, j);
    }
    SingletonRuns(c, info, s, rank, nodes);
    RunsTouched(c, info, s, rank, nodes, 1);
  }
}
