/** The find loop of core_bench_list, told by the orders the list goes through and the numbers its
    data words stand for: which node each turn finds, where the turn leaves the list, and what
    the sixteen-bit checksum is once all turns are over.
 */
module FindTrace {
  import opened CoreUtil
  import opened CoreMatrix
  import opened ListSort
  import opened CoreList
  import opened DataWord

  /** info.idx in turn i: it counts up until it passes 0x7fff, and a negative key stays. */
  function KeyIdx(finderIdx: s16, i: nat): s16 {
    if finderIdx < 0 then finderIdx else if finderIdx + i < 0x8000 then finderIdx + i else -0x8000
  }

  /** The item in this slot has the index looked for or, if that is negative, the low byte. */
  predicate Hit(data: seq<bv16>, idx: seq<s16>, slot: nat, key: s16, low: nat)
    requires slot < |data| && slot < |idx|
  {
    if key >= 0 then idx[slot] == key else Num(data[slot]) % 256 == low % 256
  }

  /** Node k of the list is the first that is hit; none is, if k is the length. */
  predicate FirstHit(info: seq<nat>, data: seq<bv16>, idx: seq<s16>, order: seq<nat>, key: s16, low: nat, k: nat)
    requires Fits(info, data, idx, order)
  {
    && k <= |order|
    && (k < |order| ==> Hit(data, idx, info[order[k]], key, low))
    && forall j | 0 <= j < k :: !Hit(data, idx, info[order[j]], key, low)
  }

  /** The list is reversed, and the node that was in front of the one found is now second. */
  predicate TurnedOver(before: seq<nat>, after: seq<nat>, k: nat) {
    |after| == |before| && forall j | 0 <= j < |before| :: TurnedAt(before, after, k, j)
  }

  predicate TurnedAt(before: seq<nat>, after: seq<nat>, k: nat, j: nat)
    requires j < |before| == |after|
  {
    var n := |before|;
    after[j] == if k == 0 || k >= n || j == 0 || j > n - k then before[n - 1 - j]
                else if j == 1 then before[k - 1] else before[n - j]
  }

  /** Turn i of the loop. */
  predicate OneTurn(info: seq<nat>, data: seq<bv16>, idx: seq<s16>, finderIdx: s16, i: nat,
                    before: seq<nat>, k: nat, after: seq<nat>)
    requires Fits(info, data, idx, before)
  {
    FirstHit(info, data, idx, before, KeyIdx(finderIdx, i), i, k) && TurnedOver(before, after, k)
  }

  /** What turn adds to the checksum when it finds node k of the list: 4 and, for an odd word, its
      bit 9; or, when it finds none, bit 8 of the word that comes second now, less one. */
  function Gain(info: seq<nat>, data: seq<bv16>, idx: seq<s16>, before: seq<nat>, k: nat): int
    requires Fits(info, data, idx, before) && |before| >= 2
  {
    if k < |before| then
      var word := Num(data[info[before[k]]]);
      4 + if word % 2 == 1 then (word / 512) % 2 else 0
    else (Num(data[info[before[|before| - 2]]]) / 256) % 2 - 1
  }

  /** The orders before each turn and after the last, and the places of what is found. */
  ghost predicate Trace(info: seq<nat>, data: seq<bv16>, idx: seq<s16>, finderIdx: s16, orders: seq<seq<nat>>, found: seq<nat>) {
    && |orders| == |found| + 1
    && (forall i | 0 <= i < |orders| :: Fits(info, data, idx, orders[i]) && |orders[i]| >= 2)
    && forall i | 0 <= i < |found| :: OneTurn(info, data, idx, finderIdx, i, orders[i], found[i], orders[i + 1])
  }

  function Total(info: seq<nat>, data: seq<bv16>, idx: seq<s16>, orders: seq<seq<nat>>, found: seq<nat>): int
    requires |orders| >= |found| && forall i | 0 <= i < |found| :: Fits(info, data, idx, orders[i]) && |orders[i]| >= 2
  {
    if found == [] then 0
    else
      var i := |found| - 1;
      Total(info, data, idx, orders, found[..i]) + Gain(info, data, idx, orders[i], found[i])
  }

  /** The loop with this many turns over a list leaves the list like this, with these values of
      info.idx and retval. */
  ghost predicate LoopLeaves(info: seq<nat>, data: seq<bv16>, idx: seq<s16>, nodes: seq<nat>, finderIdx: s16, turns: nat,
                             last: seq<nat>, key: s16, retval: bv16)
  {
    exists orders: seq<seq<nat>>, found: seq<nat> ::
      Standing(info, data, idx, nodes, finderIdx, turns, last, key, retval, orders, found)
  }

  ghost predicate Standing(info: seq<nat>, data: seq<bv16>, idx: seq<s16>, nodes: seq<nat>, finderIdx: s16, turns: nat,
                           last: seq<nat>, key: s16, retval: bv16, orders: seq<seq<nat>>, found: seq<nat>)
  {
    && Trace(info, data, idx, finderIdx, orders, found) && |found| == turns
    && orders[0] == nodes && orders[turns] == last && key == KeyIdx(finderIdx, turns)
    && Num(retval) == Total(info, data, idx, orders, found) % 0x1_0000
  }

  // ------------------------------------------------------------------
  // One turn
  // ------------------------------------------------------------------

  lemma KeyMoves(finderIdx: s16, i: nat)
    ensures NextIdx(KeyIdx(finderIdx, i)) == KeyIdx(finderIdx, i + 1)
  {
  }

  lemma SameWord(x: bv16, y: bv16)
    ensures x == y <==> Num(x) == Num(y)
  {
    assert x as int == y as int ==> (x as int) as bv16 == (y as int) as bv16;
  }

  lemma MatchesIs(data: seq<bv16>, idx: seq<s16>, slot: nat, key: s16, i: nat)
    requires slot < |data| && slot < |idx|
    ensures Matches(data, idx, slot, Wanted(key, Word(i % 0x100))) <==> Hit(data, idx, slot, key, i)
  {
    hide Num, Word, LowData, Backup;
    BytesAre(data[slot]);
    WordIs(i % 0x100);
    SameWord(LowData(data[slot]), Word(i % 0x100));
  }

  lemma FindIs(info: seq<nat>, data: seq<bv16>, idx: seq<s16>, order: seq<nat>, key: s16, i: nat)
    requires Fits(info, data, idx, order)
    ensures FirstHit(info, data, idx, order, key, i, Find(info, data, idx, order, Wanted(key, Word(i % 0x100))))
  {
    hide Find, Matches, Hit, Word;
    var w := Wanted(key, Word(i % 0x100));
    FindFirst(info, data, idx, order, w);
    forall j | 0 <= j < |order|
      ensures Matches(data, idx, info[order[j]], w) <==> Hit(data, idx, info[order[j]], key, i)
    {
      MatchesIs(data, idx, info[order[j]], key, i);
    }
  }

  lemma {:induction false} MissTurnsOver(before: seq<nat>)
    ensures TurnedOver(before, Reverse(before), |before|)
  {
    hide Reverse;
    forall j | 0 <= j < |before|
      ensures TurnedAt(before, Reverse(before), |before|, j)
    {
      ReverseAt(before, j);
    }
  }

  /** A reversed list with the node behind position m moved to the second place. */
  lemma {:induction false} PromotedAt(r: seq<nat>, m: nat, j: nat)
    requires m < |r| && j < |r|
    ensures Promote(r, m)[j] == if m + 1 == |r| || j == 0 || j > m + 1 then r[j] else if j == 1 then r[m + 1] else r[j - 1]
  {
  }

  lemma {:induction false} FoundAt(before: seq<nat>, r: seq<nat>, k: nat, j: nat)
    requires k < |before| && j < |before| && r == Reverse(before)
    ensures TurnedAt(before, Promote(r, |before| - 1 - k), k, j)
  {
    hide Reverse, Promote;
    var n := |before|;
    PromotedAt(r, n - 1 - k, j);
    if k == 0 || j == 0 || j > n - k {
      ReverseAt(before, j);
    } else if j == 1 {
      ReverseAt(before, n - k);
    } else {
      ReverseAt(before, j - 1);
    }
  }

  lemma {:induction false} FoundTurnsOver(before: seq<nat>, k: nat)
    requires k < |before|
    ensures TurnedOver(before, Promote(Reverse(before), Mirror(|before|, k)), k)
  {
    hide Reverse, Promote, TurnedAt;
    var after := Promote(Reverse(before), |before| - 1 - k);
    forall j | 0 <= j < |before|
      ensures TurnedAt(before, after, k, j)
    {
      FoundAt(before, Reverse(before), k, j);
    }
  }

  // ------------------------------------------------------------------
  // The checksum as a number
  // ------------------------------------------------------------------

  /** retval once found * 4 - missed is added. */
  function Balanced(retval: bv16, found: bv16, missed: bv16): bv16 { retval + (found * 4 - missed) }

  function Up(x: bv16): bv16 { x + 1 }

  function Down(x: bv16): bv16 { x - 1 }

  function UpFour(x: bv16): bv16 { x + 4 }

  lemma UpOrs(x: bv16)
    ensures Low8(x) != 0xff ==> IsByte(Sum(Low8(x), 1)) && Up(x) == Or(Upper(x), Sum(Low8(x), 1))
    ensures Low8(x) == 0xff && Up8(x) != 0xff ==> Low8(Up(x)) == 0 && Up8(Up(x)) == Sum(Up8(x), 1)
    ensures Low8(x) == 0xff && Up8(x) == 0xff ==> Up(x) == 0
    ensures IsByte(Low8(x)) && IsByte(Up8(x))
  {
  }

  lemma UpIs(x: bv16)
    ensures Num(Up(x)) == (Num(x) + 1) % 0x1_0000
  {
    hide Num, Low8, Up8, Upper, Or, Sum, Up;
    UpOrs(x);
    Cut8(x);
    Cut8(Up(x));
    ByteEnds();
    SameWord(Low8(x), 0xff);
    SameWord(Up8(x), 0xff);
    if Low8(x) != 0xff {
      ByteUp(Low8(x));
      OrIs(x, Sum(Low8(x), 1));
      UpperLimit(x);
    } else if Up8(x) != 0xff {
      ByteUp(Up8(x));
      UpperLimit(Up(x));
    }
  }

  lemma ByteEnds()
    ensures Num(0) == 0 && Num(0xff) == 0xff
  {
  }

  lemma UpperLimit(x: bv16)
    ensures Num(x) < 0x1_0000
  {
  }

  /** Every number below 2^16 is the value of a word. */
  lemma {:induction false} NumberOf(n: nat) returns (w: bv16)
    requires n < 0x1_0000
    ensures Num(w) == n
  {
    hide Num, Up;
    if n == 0 {
      w := 0;
      ByteEnds();
    } else {
      var v := NumberOf(n - 1);
      w := Up(v);
      UpIs(v);
    }
  }

  lemma WordIs(n: nat)
    requires n < 0x1_0000
    ensures Num(Word(n)) == n
  {
    hide Num;
    var w := NumberOf(n);
    WordOfNum(w);
  }

  lemma WordOfNum(w: bv16)
    ensures Num(w) < 0x1_0000 && Word(Num(w)) == w
  {
    assert (w as int) as bv16 == w;
  }

  lemma DownIs(x: bv16)
    ensures Num(Down(x)) == (Num(x) - 1) % 0x1_0000
  {
    hide Num, Up, Down;
    UpIs(Down(x));
    UpDown(x);
    UpperLimit(x);
    UpperLimit(Down(x));
  }

  lemma UpDown(x: bv16)
    ensures Up(Down(x)) == x
  {
  }

  // The sums are rewritten one named operation at a time; the sum between two of them stays as it
  // is written.

  lemma ScoreIs(s: Search)
    ensures Score(s) == Balanced(s.retval, s.found, s.missed)
  {
    hide Plus, Balance, Balanced;
    ScoreParts(s.retval, s.found, s.missed);
  }

  lemma ScoreParts(r: bv16, f: bv16, m: bv16)
    ensures Balance(f, m) == f * 4 - m && Plus(r, f * 4 - m) == Balanced(r, f, m)
  {
  }

  lemma OneMore(x: bv16)
    ensures Plus(x, 1) == x + 1 && Plus(x, 0) == x && Up(x) == x + 1
  {
  }

  lemma BalancedIs(r: bv16, f: bv16, m: bv16)
    ensures Balanced(r, f, m) == r + (f * 4 - m)
  {
  }

  lemma BalancedFound(r: bv16, f: bv16, m: bv16)
    ensures Balanced(r, f + 1, m) == UpFour(r + (f * 4 - m))
  {
  }

  lemma BalancedMore(r: bv16, f: bv16, m: bv16)
    ensures Balanced(r + 1, f, m) == Up(r + (f * 4 - m))
  {
  }

  lemma BalancedMissed(r: bv16, f: bv16, m: bv16)
    ensures Balanced(r, f, m + 1) == Down(r + (f * 4 - m))
  {
  }

  lemma BalancedEven(r: bv16, f: bv16, m: bv16)
    ensures Balanced(r + 1, f, m + 1) == r + (f * 4 - m)
  {
  }

  lemma MissBalance(retval: bv16, b: bv16, found: bv16, missed: bv16)
    requires b == 0 || b == 1
    ensures Balanced(Plus(retval, b), found, Plus(missed, 1))
            == if b == 1 then Balanced(retval, found, missed) else Down(Balanced(retval, found, missed))
  {
    hide Balanced, Plus, Up, Down, UpFour;
    OneMore(retval);
    OneMore(missed);
    BalancedIs(retval, found, missed);
    BalancedMissed(retval, found, missed);
    BalancedEven(retval, found, missed);
  }

  lemma FoundBalance(retval: bv16, found: bv16, missed: bv16)
    ensures Balanced(retval, Plus(found, 1), missed) == UpFour(Balanced(retval, found, missed))
  {
    hide Balanced, Plus, Up, Down, UpFour;
    OneMore(found);
    BalancedIs(retval, found, missed);
    BalancedFound(retval, found, missed);
  }

  lemma FoundOddBalance(retval: bv16, b: bv16, found: bv16, missed: bv16)
    requires b == 0 || b == 1
    ensures Balanced(Plus(retval, b), found, missed)
            == if b == 1 then Up(Balanced(retval, found, missed)) else Balanced(retval, found, missed)
  {
    hide Balanced, Plus, Up, Down, UpFour;
    OneMore(retval);
    BalancedIs(retval, found, missed);
    BalancedMore(retval, found, missed);
  }

  lemma UpFourParts(x: bv16)
    ensures Up(x) == x + 1 && Up(x + 1) == x + 2 && Up(x + 2) == x + 3 && Up(x + 3) == UpFour(x)
  {
  }

  lemma UpFourIs(x: bv16)
    ensures Num(UpFour(x)) == (Num(x) + 4) % 0x1_0000
  {
    hide Num, Up, UpFour;
    UpFourParts(x);
    UpIs(x);
    UpIs(Up(x));
    UpIs(Up(Up(x)));
    UpIs(Up(Up(Up(x))));
  }

  lemma BitIs(b: bv16)
    requires Num(b) < 2
    ensures (b == 0 || b == 1) && (b == 1 <==> Num(b) == 1)
  {
    SameWord(b, 0);
    SameWord(b, 1);
  }

  lemma PlusFour(v: nat)
    ensures ((v + 4) % 0x1_0000 + 1) % 0x1_0000 == (v + (4 + 1)) % 0x1_0000 && (v + 4) % 0x1_0000 == (v + (4 + 0)) % 0x1_0000
  {
  }

  lemma MissGain(retval: bv16, d: bv16, found: bv16, missed: bv16)
    ensures Num(Balanced(Plus(retval, Bit8(d)), found, Plus(missed, 1)))
            == (Num(Balanced(retval, found, missed)) + ((Num(d) / 256) % 2 - 1)) % 0x1_0000
  {
    hide Num, Bit8, Balanced, Plus, Down;
    Bit8Is(d);
    BitIs(Bit8(d));
    MissBalance(retval, Bit8(d), found, missed);
    DownIs(Balanced(retval, found, missed));
    UpperLimit(Balanced(retval, found, missed));
  }

  lemma FoundGain(retval: bv16, d: bv16, found: bv16, missed: bv16)
    ensures Num(Balanced(if Bit0(d) then Plus(retval, Bit9(d)) else retval, Plus(found, 1), missed))
            == (Num(Balanced(retval, found, missed)) + (4 + if Num(d) % 2 == 1 then (Num(d) / 512) % 2 else 0)) % 0x1_0000
  {
    hide Num, Bit0, Bit9, Balanced, Plus, Up, UpFour;
    Bit0Is(d);
    Bit9Is(d);
    BitIs(Bit9(d));
    FoundBalance(retval, found, missed);
    FoundOddBalance(retval, Bit9(d), Plus(found, 1), missed);
    UpFourIs(Balanced(retval, found, missed));
    UpIs(Balanced(retval, Plus(found, 1), missed));
    PlusFour(Num(Balanced(retval, found, missed)));
  }

  /** One step of the search is turn i. */
  lemma StepIsTurn(info: seq<nat>, data: seq<bv16>, idx: seq<s16>, finderIdx: s16, s: Search, i: nat) returns (k: nat)
    requires Fits(info, data, idx, s.nodes) && |s.nodes| >= 2 && s.wanted == KeyIdx(finderIdx, i)
    ensures var r := SearchStep(info, data, idx, s, i);
            && OneTurn(info, data, idx, finderIdx, i, s.nodes, k, r.nodes) && r.wanted == KeyIdx(finderIdx, i + 1)
            && Num(Score(r)) == (Num(Score(s)) + Gain(info, data, idx, s.nodes, k)) % 0x1_0000
  {
    hide Find, Num, Bit0, Bit8, Bit9, Plus, Score, Balanced, NextIdx, KeyIdx, Word, FirstHit, TurnedOver, Promote, Reverse, SearchStep, Mirror;
    var nodes := s.nodes;
    ScoreIs(s);
    ScoreIs(SearchStep(info, data, idx, s, i));
    k := Find(info, data, idx, nodes, Wanted(s.wanted, Word(i % 0x100)));
    FindIs(info, data, idx, nodes, s.wanted, i);
    KeyMoves(finderIdx, i);
    if k == |nodes| {
      SearchMissed(info, data, idx, s, i);
      MissTurnsOver(nodes);
      ReverseAt(nodes, 1);
      MissGain(s.retval, data[info[nodes[|nodes| - 2]]], s.found, s.missed);
    } else {
      SearchFound(info, data, idx, s, i);
      FoundTurnsOver(nodes, k);
      FoundGain(s.retval, data[info[nodes[k]]], s.found, s.missed);
    }
  }

  // ------------------------------------------------------------------
  // The whole loop
  // ------------------------------------------------------------------

  lemma NoTurnYet(info: seq<nat>, data: seq<bv16>, idx: seq<s16>, nodes: seq<nat>, finderIdx: s16)
    requires Fits(info, data, idx, nodes) && |nodes| >= 2
    ensures Standing(info, data, idx, nodes, finderIdx, 0, nodes, finderIdx, Score(Search(nodes, finderIdx, 0, 0, 0)), [nodes], [])
  {
    hide Num;
    assert Score(Search(nodes, finderIdx, 0, 0, 0)) == 0;
    ByteEnds();
  }

  /** The total does not depend on the orders behind the turns it counts. */
  lemma {:induction false} TotalPrefix(info: seq<nat>, data: seq<bv16>, idx: seq<s16>, orders: seq<seq<nat>>, found: seq<nat>, last: seq<nat>)
    requires |orders| >= |found| && forall i | 0 <= i < |found| :: Fits(info, data, idx, orders[i]) && |orders[i]| >= 2
    ensures Total(info, data, idx, orders + [last], found) == Total(info, data, idx, orders, found)
    decreases |found|
  {
    hide Fits, Gain;
    if found != [] {
      TotalPrefix(info, data, idx, orders, found[..|found| - 1], last);
    }
  }

  lemma TotalMore(info: seq<nat>, data: seq<bv16>, idx: seq<s16>, orders: seq<seq<nat>>, found: seq<nat>, k: nat, last: seq<nat>)
    requires |orders| == |found| + 1 && forall i | 0 <= i < |orders| :: Fits(info, data, idx, orders[i]) && |orders[i]| >= 2
    ensures Total(info, data, idx, orders + [last], found + [k])
            == Total(info, data, idx, orders, found) + Gain(info, data, idx, orders[|found|], k)
  {
    hide Fits, Gain;
    TotalPrefix(info, data, idx, orders, found, last);
    assert (found + [k])[..|found|] == found;
  }

  lemma ModMore(a: int, b: int, x: int, g: int)
    requires a == x % 0x1_0000 && b == (a + g) % 0x1_0000
    ensures b == (x + g) % 0x1_0000
  {
  }

  lemma OneTurnMore(info: seq<nat>, data: seq<bv16>, idx: seq<s16>, nodes: seq<nat>, finderIdx: s16, turns: nat,
                    s: Search, r: Search, orders: seq<seq<nat>>, found: seq<nat>, k: nat)
    requires Standing(info, data, idx, nodes, finderIdx, turns, s.nodes, s.wanted, Score(s), orders, found)
    requires Fits(info, data, idx, r.nodes) && |r.nodes| >= 2
    requires OneTurn(info, data, idx, finderIdx, turns, s.nodes, k, r.nodes) && r.wanted == KeyIdx(finderIdx, turns + 1)
    requires Num(Score(r)) == (Num(Score(s)) + Gain(info, data, idx, s.nodes, k)) % 0x1_0000
    ensures Standing(info, data, idx, nodes, finderIdx, turns + 1, r.nodes, r.wanted, Score(r), orders + [r.nodes], found + [k])
  {
    hide Num, Score, Fits, OneTurn, KeyIdx, Gain, Total;
    TotalMore(info, data, idx, orders, found, k, r.nodes);
    ModMore(Num(Score(s)), Num(Score(r)), Total(info, data, idx, orders, found), Gain(info, data, idx, s.nodes, k));
  }

  /** Where the loop stands after some turns says where it stands after all of them. */
  lemma {:induction false} LoopStands(info: seq<nat>, data: seq<bv16>, idx: seq<s16>, nodes: seq<nat>, finderIdx: s16,
                                      s: Search, i: nat, findNum: int, orders: seq<seq<nat>>, found: seq<nat>)
    requires Fits(info, data, idx, s.nodes) && |s.nodes| >= 2 && (i <= findNum || i == 0)
    requires Standing(info, data, idx, nodes, finderIdx, i, s.nodes, s.wanted, Score(s), orders, found)
    ensures var r := SearchLoop(info, data, idx, s, i, findNum);
            LoopLeaves(info, data, idx, nodes, finderIdx, if findNum > 0 then findNum else 0, r.nodes, r.wanted, Score(r))
    decreases findNum - i
  {
    hide Fits, Score, SearchStep, OneTurn, KeyIdx;
    if i < findNum {
      var r := SearchStep(info, data, idx, s, i);
      SearchStepMembers(info, data, idx, s, i);
      var k := StepIsTurn(info, data, idx, finderIdx, s, i);
      OneTurnMore(info, data, idx, nodes, finderIdx, i, s, r, orders, found, k);
      LoopStands(info, data, idx, nodes, finderIdx, r, i + 1, findNum, orders + [r.nodes], found + [k]);
    }
  }

  /** The find loop from the list nodes: each turn finds the first node that its key hits, in the
      order the turn before it has left, and leaves the list turned over with the node behind the
      found one second; retval is 4 for each turn that finds one, less 1 for each that does not,
      and the bits that the words found, or come second, add to it, modulo 2^16. */
  lemma FindLoopLeaves(info: seq<nat>, data: seq<bv16>, idx: seq<s16>, nodes: seq<nat>, finderIdx: s16, findNum: int)
    requires Fits(info, data, idx, nodes) && |nodes| >= 2
    ensures var r := SearchLoop(info, data, idx, Search(nodes, finderIdx, 0, 0, 0), 0, findNum);
            LoopLeaves(info, data, idx, nodes, finderIdx, if findNum > 0 then findNum else 0, r.nodes, r.wanted, Score(r))
  {
    NoTurnYet(info, data, idx, nodes, finderIdx);
    LoopStands(info, data, idx, nodes, finderIdx, Search(nodes, finderIdx, 0, 0, 0), 0, findNum, [nodes], []);
  }
}
