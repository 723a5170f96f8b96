/** iterate on a list whose first two nodes share an index: the first iteration loses a node, and
    the later ones repeat on the rest.
 */
module IterateExact {
  import opened CoreUtil
  import opened CoreMatrix
  import opened ListSort
  import opened ListSortProof
  import opened CoreList
  import opened CoreListProof
  import opened CoreListExact
  import opened CoreMain

  /** The list without its second node. */
  function Rest(nodes: seq<nat>): seq<nat>
    requires |nodes| >= 2
  {
    [nodes[0]] + nodes[2..]
  }

  function Swapped(nodes: seq<nat>): seq<nat>
    requires |nodes| >= 2
  {
    [nodes[1], nodes[0]] + nodes[2..]
  }

  /** Sorted, and only the first two share their index; low bytes are the backups, and none is 0. */
  ghost predicate HeadTied(info: seq<nat>, data: seq<bv16>, idx: seq<s16>, nodes: seq<nat>) {
    && WellFormed(info, data, idx, nodes) && |nodes| >= 4 && AllRebuilt(info, data, nodes) && NoLowZero(info, data, nodes)
    && idx[info[nodes[0]]] == idx[info[nodes[1]]]
    && forall i, j | 0 <= i < j < |nodes| && j >= 2 :: idx[info[nodes[i]]] < idx[info[nodes[j]]]
  }

  lemma SwappedMembers(nodes: seq<nat>)
    requires |nodes| >= 2
    ensures multiset(Swapped(nodes)) == multiset(nodes)
  {
    assert nodes == [nodes[0], nodes[1]] + nodes[2..];
  }

  lemma TiedIncreasing(info: seq<nat>, data: seq<bv16>, idx: seq<s16>, nodes: seq<nat>)
    requires HeadTied(info, data, idx, nodes)
    ensures WeaklyIncreasing(info, idx, nodes)
  {
  }

  lemma SwappedTied(info: seq<nat>, data: seq<bv16>, idx: seq<s16>, nodes: seq<nat>)
    requires HeadTied(info, data, idx, nodes)
    ensures InBlock(info, |idx|, Swapped(nodes)) && WeaklyIncreasing(info, idx, Swapped(nodes))
    ensures forall i, j | 0 <= i < j < |nodes| && j >= 2 :: idx[info[Swapped(nodes)[i]]] < idx[info[nodes[j]]]
  {
    var s := Swapped(nodes);
    forall i | 0 <= i < |s|
      ensures HasSlot(info, |idx|, s[i])
    {
      assert HasSlot(info, |idx|, nodes[0]) && HasSlot(info, |idx|, nodes[1]);
      assert i >= 2 ==> s[i] == nodes[i];
    }
  }

  lemma RestInitial(info: seq<nat>, data: seq<bv16>, idx: seq<s16>, nodes: seq<nat>)
    requires HeadTied(info, data, idx, nodes)
    ensures Initial(info, data, idx, Rest(nodes))
  {
    var r := Rest(nodes);
    forall i | 0 <= i < |r|
      ensures HasSlot(info, |data|, r[i]) && Rebuilt(data[info[r[i]]])
    {
      var j := if i == 0 then 0 else i + 1;
      assert r[i] == nodes[j] && HasSlot(info, |data|, nodes[j]);
    }
    assert forall i | 1 <= i < |r| :: r[i] == nodes[i + 1];
  }

  /** One call leaves such a list as it is or exchanges its first two nodes: what the order before
      the last sort says of them decides. */
  lemma BenchSwaps(cfg: Config, info: seq<nat>, data: seq<bv16>, idx: seq<s16>, nodes: seq<nat>, k: Kernel, finderIdx: s16)
    requires HeadTied(info, data, idx, nodes)
    ensures var r, shuffled := BenchList(cfg, info, data, idx, nodes, k, finderIdx), Shuffled(cfg, info, data, idx, nodes, k, finderIdx);
            && r.info == info && r.data == data
            && r.nodes == if Position(shuffled, nodes[0]) < Position(shuffled, nodes[1]) then nodes else Swapped(nodes)
  {
    hide BenchList, Shuffled, StableByIndex, AllRebuilt, NoLowZero;
    var r, shuffled := BenchList(cfg, info, data, idx, nodes, k, finderIdx), Shuffled(cfg, info, data, idx, nodes, k, finderIdx);
    BenchListOrders(cfg, info, data, idx, nodes, k, finderIdx);
    TiedIncreasing(info, data, idx, nodes);
    if Position(shuffled, nodes[0]) < Position(shuffled, nodes[1]) {
      StableOrder(info, idx, nodes, shuffled, r.nodes);
    } else {
      SwappedMembers(nodes);
      SwappedTied(info, data, idx, nodes);
      PositionsDiffer(shuffled, nodes);
      StableOrder(info, idx, Swapped(nodes), shuffled, r.nodes);
    }
  }

  lemma {:induction false} PositionIn(s: seq<nat>, x: nat)
    requires x in s
    ensures Position(s, x) < |s| && s[Position(s, x)] == x
  {
    if s[0] != x {
      PositionIn(s[1..], x);
    }
  }

  lemma PositionsDiffer(shuffled: seq<nat>, nodes: seq<nat>)
    requires multiset(shuffled) == multiset(nodes) && Distinct(nodes) && |nodes| >= 2
    ensures Position(shuffled, nodes[0]) != Position(shuffled, nodes[1])
  {
    SameMembers(nodes, shuffled);
    assert nodes[0] in shuffled && nodes[1] in shuffled;
    PositionIn(shuffled, nodes[0]);
    PositionIn(shuffled, nodes[1]);
  }

  lemma VisibleSwapped(nodes: seq<nat>)
    requires |nodes| >= 2 && Distinct(nodes)
    ensures Visible(nodes, nodes[0]) == nodes && Visible(Swapped(nodes), nodes[0]) == Rest(nodes)
  {
    var s := Swapped(nodes);
    assert s[0] != nodes[0] && s[1..] == Rest(nodes);
    assert Visible(s, nodes[0]) == Visible(s[1..], nodes[0]);
  }

  /** The call by index: all nodes are still there, or the second one is lost already. */
  lemma FirstCall(cfg: Config, idx: seq<s16>, m: Memory)
    requires HeadTied(m.info, m.data, idx, m.nodes)
    ensures Usable(idx, m)
    ensures var r := Measure(cfg, idx, m, 1);
            r.info == m.info && r.data == m.data && (r.nodes == m.nodes || r.nodes == Rest(m.nodes))
  {
    hide BenchList, Shuffled, AllRebuilt, NoLowZero;
    BenchSwaps(cfg, m.info, m.data, idx, m.nodes, m.k, 1);
    VisibleSwapped(m.nodes);
  }

  /** The call by data with a single search loses it. */
  lemma SecondCall(cfg: Config, idx: seq<s16>, m: Memory)
    requires HeadTied(m.info, m.data, idx, m.nodes) && cfg.seed3 == 1
    ensures Usable(idx, m)
    ensures var r := Measure(cfg, idx, m, -1);
            r.info == m.info && r.data == m.data && r.nodes == Rest(m.nodes)
  {
    hide BenchList, Shuffled, AllRebuilt, NoLowZero;
    BenchSwaps(cfg, m.info, m.data, idx, m.nodes, m.k, -1);
    OneMiss(cfg, m.info, m.data, idx, m.nodes, m.k);
    ReversePositions(m.nodes, 0, 1);
    VisibleSwapped(m.nodes);
  }

  /** With one search a call, an iteration ends with the list one node shorter, and the rest of it
      as core_list_init would have made it. */
  lemma TurnLosesNode(cfg: Config, idx: seq<s16>, m: Memory)
    requires HeadTied(m.info, m.data, idx, m.nodes) && cfg.seed3 == 1 && Steady(cfg, m.k.block)
    ensures |m.nodes| >= 4 && Turns(cfg, idx, m)
    ensures Unchanged(m.(nodes := Rest(m.nodes)), Turn(cfg, idx, m))
    ensures Initial(m.info, m.data, idx, Rest(m.nodes))
  {
    hide Measure, HeadTied, Initial, Steady;
    FirstCall(cfg, idx, m);
    var r := Measure(cfg, idx, m, 1);
    MeasureSame(cfg, idx, m, m.k, 1);
    RestInitial(m.info, m.data, idx, m.nodes);
    if r.nodes == m.nodes {
      SecondCall(cfg, idx, r);
    } else {
      InitialUsable(idx, r);
      MeasureRestores(cfg, idx, r, -1);
    }
    MeasureSame(cfg, idx, r, r.k, -1);
  }

  /** iterate, with one search a call, on a list of n nodes whose first two share their index: the
      first iteration works on n nodes and every later one on n - 1, so the final CRC is a round on
      the shorter list, applied iterations - 1 times to what the first iteration made. */
  lemma IterateLosesNode(cfg: Config, idx: seq<s16>, m: Memory, iterations: nat)
    requires HeadTied(m.info, m.data, idx, m.nodes) && cfg.seed3 == 1 && Steady(cfg, m.k.block) && iterations > 0
    ensures Lasts(cfg, idx, m, iterations)
    ensures var out, rest := IterateBench(cfg, idx, m, iterations), m.(nodes := Rest(m.nodes));
            && Unchanged(rest, out.memory)
            && out.crclist == Turning(cfg, idx)(Cleared(m)).k.crc
            && out.memory.k.crc == Iterate(Round(cfg, idx, rest), out.crclist, iterations - 1)
  {
    hide Turns, Turn, HeadTied, Initial, Steady;
    var m0, f := Cleared(m), Turning(cfg, idx);
    TurnLosesNode(cfg, idx, m0);
    var rest := m.(nodes := Rest(m.nodes));
    var m1 := f(m0);
    forall i: nat | i < iterations
      ensures Turns(cfg, idx, Iterate(f, m0, i))
    {
      if i > 0 {
        var mi := Iterate(f, m1, i - 1);
        TurnsAreRounds(cfg, idx, rest, m1, i - 1);
        UnchangedInitial(idx, rest, mi);
        TurnIsRound(cfg, idx, mi);
      }
    }
    TurnsAreRounds(cfg, idx, rest, m1, iterations - 1);
  }
}
