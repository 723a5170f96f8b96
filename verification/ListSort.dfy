/** The merge sort of core_list_join.c on abstract lists, for any comparator that
    rewrites the data it compares.

    A list is the sequence of its nodes; `info` maps a node to its data slot. The
    comparator's side effect on one item is `touch`: it may change the item's data
    and a state `K` that all comparisons share (the running CRC and the kernels'
    memory). Merge, Pass and Sort thread that state in the order of the C code.
 */
module ListSort {

  /** touch: what a comparison does to one item; key: what it orders items by;
      tag: the part of the data no comparison may change. */
  datatype Comparator<!D, !K> = Comparator(
    touch: (D, K) -> (D, K),
    touched: D -> bool,
    key: (nat, D) -> int,
    tag: D -> D)

  datatype State<D, K> = State(data: seq<D>, k: K)

  ghost predicate Lawful<D(!new), K(!new)>(c: Comparator<D, K>) {
    forall d, k {:trigger c.touch(d, k)} ::
      && c.touched(c.touch(d, k).0)
      && (c.touched(d) ==> c.touch(d, k) == (d, k))
      && c.tag(c.touch(d, k).0) == c.tag(d)
  }

  predicate HasSlot(info: seq<nat>, size: nat, n: nat) {
    n < |info| && info[n] < size
  }

  predicate InBlock(info: seq<nat>, size: nat, nodes: seq<nat>) {
    forall i | 0 <= i < |nodes| :: HasSlot(info, size, nodes[i])
  }

  predicate Distinct(nodes: seq<nat>) {
    forall i, j | 0 <= i < j < |nodes| :: nodes[i] != nodes[j]
  }

  function Take(s: seq<nat>, n: nat): seq<nat> { if n <= |s| then s[..n] else s }

  function Drop(s: seq<nat>, n: nat): seq<nat> { if n <= |s| then s[n..] else [] }

  function TouchSlot<D, K>(c: Comparator<D, K>, s: State<D, K>, i: nat): (r: State<D, K>)
    requires i < |s.data|
    ensures |r.data| == |s.data|
  {
    var (d, k) := c.touch(s.data[i], s.k);
    State(s.data[i := d], k)
  }

  /** The two items of a comparison are touched left to right. */
  function Compare<D, K>(c: Comparator<D, K>, info: seq<nat>, s: State<D, K>, a: nat, b: nat): (r: State<D, K>)
    requires HasSlot(info, |s.data|, a) && HasSlot(info, |s.data|, b)
    ensures |r.data| == |s.data|
  {
    TouchSlot(c, TouchSlot(c, s, info[a]), info[b])
  }

  function Key<D, K>(c: Comparator<D, K>, info: seq<nat>, s: State<D, K>, n: nat): int
    requires HasSlot(info, |s.data|, n)
  {
    c.key(info[n], s.data[info[n]])
  }

  function Merge<D, K>(c: Comparator<D, K>, info: seq<nat>, s: State<D, K>, p: seq<nat>, q: seq<nat>)
    : (r: (State<D, K>, seq<nat>))
    requires InBlock(info, |s.data|, p) && InBlock(info, |s.data|, q)
    ensures |r.0.data| == |s.data| && |r.1| == |p| + |q| && InBlock(info, |s.data|, r.1)
    decreases |p| + |q|
  {
    if p == [] then (s, q)
    else if q == [] then (s, p)
    else
      var a, b := p[0], q[0];
      var s' := Compare(c, info, s, a, b);
      if Key(c, info, s', a) <= Key(c, info, s', b) then
        var r := Merge(c, info, s', p[1..], q);
        (r.0, [a] + r.1)
      else
        var r := Merge(c, info, s', p, q[1..]);
        (r.0, [b] + r.1)
  }

  /** One pass: adjacent runs of w nodes are merged in pairs. */
  function Pass<D, K>(c: Comparator<D, K>, info: seq<nat>, s: State<D, K>, nodes: seq<nat>, w: nat)
    : (r: (State<D, K>, seq<nat>))
    requires InBlock(info, |s.data|, nodes) && w > 0
    ensures |r.0.data| == |s.data| && |r.1| == |nodes| && InBlock(info, |s.data|, r.1)
    decreases |nodes|
  {
    if nodes == [] then (s, [])
    else
      var p, rest := Take(nodes, w), Drop(nodes, w);
      var q, tail := Take(rest, w), Drop(rest, w);
      var m := Merge(c, info, s, p, q);
      var r := Pass(c, info, m.0, tail, w);
      (r.0, m.1 + r.1)
  }

  lemma {:induction false} MergeMembers<D, K>(c: Comparator<D, K>, info: seq<nat>, s: State<D, K>, p: seq<nat>, q: seq<nat>)
    requires InBlock(info, |s.data|, p) && InBlock(info, |s.data|, q)
    ensures multiset(Merge(c, info, s, p, q).1) == multiset(p) + multiset(q)
    decreases |p| + |q|
  {
    if p != [] && q != [] {
      var a, b := p[0], q[0];
      var s' := Compare(c, info, s, a, b);
      assert p == [a] + p[1..] && q == [b] + q[1..];
      if Key(c, info, s', a) <= Key(c, info, s', b) {
        MergeMembers(c, info, s', p[1..], q);
      } else {
        MergeMembers(c, info, s', p, q[1..]);
      }
    }
  }

  lemma Cut(s: seq<nat>, n: nat)
    ensures s == Take(s, n) + Drop(s, n)
    ensures multiset(s) == multiset(Take(s, n)) + multiset(Drop(s, n))
  {
    assert s == Take(s, n) + Drop(s, n);
  }

  lemma {:induction false} PassMembers<D, K>(c: Comparator<D, K>, info: seq<nat>, s: State<D, K>, nodes: seq<nat>, w: nat)
    requires InBlock(info, |s.data|, nodes) && w > 0
    ensures multiset(Pass(c, info, s, nodes, w).1) == multiset(nodes)
    decreases |nodes|
  {
    if nodes != [] {
      var p, rest := Take(nodes, w), Drop(nodes, w);
      var q, tail := Take(rest, w), Drop(rest, w);
      var m := Merge(c, info, s, p, q);
      MergeMembers(c, info, s, p, q);
      PassMembers(c, info, m.0, tail, w);
      Cut(nodes, w);
      Cut(rest, w);
    }
  }

  lemma SameMembers(a: seq<nat>, b: seq<nat>)
    requires multiset(a) == multiset(b)
    ensures |a| == |b|
    ensures forall n :: n in a <==> n in b
  {
    assert |multiset(a)| == |multiset(b)|;
    forall n ensures n in a <==> n in b {
      assert n in a <==> n in multiset(a);
      assert n in b <==> n in multiset(b);
    }
  }

  /** The whole sort, from runs of w nodes. The C loop ends after a pass that did
      at most one merge, that is when 2w nodes cover the list. */
  function Sort<D, K>(c: Comparator<D, K>, info: seq<nat>, s: State<D, K>, nodes: seq<nat>, w: nat)
    : (r: (State<D, K>, seq<nat>))
    requires InBlock(info, |s.data|, nodes) && w > 0
    ensures |r.0.data| == |s.data| && multiset(r.1) == multiset(nodes) && InBlock(info, |s.data|, r.1)
    decreases |nodes| - w
  {
    var r := Pass(c, info, s, nodes, w);
    PassMembers(c, info, s, nodes, w);
    if |nodes| <= 2 * w then r else Sort(c, info, r.0, r.1, 2 * w)
  }

  function MergeSort<D, K>(c: Comparator<D, K>, info: seq<nat>, s: State<D, K>, nodes: seq<nat>)
    : (r: (State<D, K>, seq<nat>))
    requires InBlock(info, |s.data|, nodes)
    ensures |r.0.data| == |s.data| && multiset(r.1) == multiset(nodes) && InBlock(info, |s.data|, r.1)
  {
    Sort(c, info, s, nodes, 1)
  }
}
