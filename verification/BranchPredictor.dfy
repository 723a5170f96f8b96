/** The branch predictor: the gshare table with its two lookups, and the circular return-address
    stack against the unbounded call stack of the program.
 */
module BranchPredictor {
  import opened Words

  const PHT_DEPTH := 128
  const RAS_DEPTH := 8

  type counter = x: int | 0 <= x < 4
  type slot = x: int | 0 <= x < 8
  type index = x: int | 0 <= x < 128

  /** bp_train_t: one resolved control-flow instruction. */
  datatype Train = Train(valid: bool, cond: bool, call: bool, ret: bool, taken: bool, phtIndex: index, pushPc: word)

  /** The kind bits are mutually exclusive. */
  predicate OneKind(t: Train) { !(t.call && t.ret) && !(t.cond && (t.call || t.ret)) }

  datatype Regs = Regs(pht: seq<counter>, ghr: bv7, ras: seq<word>, ptr: slot, cnt: nat)

  predicate Sized(r: Regs) { |r.pht| == PHT_DEPTH && |r.ras| == RAS_DEPTH && r.cnt <= RAS_DEPTH }

  /** Lines 219-224. */
  function SatUpdate(c: counter, t: bool): counter {
    if t then if c == 3 then 3 else c + 1 else if c == 0 then 0 else c - 1
  }

  function ShiftIn(ghr: bv7, t: bool): bv7 { (ghr << 1) | if t then 1 else 0 }

  /** The next slot, modulo the depth: 3-bit addition and subtraction. */
  function Up(p: slot): slot { (p + 1) % 8 }

  function Down(p: slot): slot { (p + 7) % 8 }

  /** The registers after a training clock edge. */
  function Trained(r: Regs, t: Train): (n: Regs)
    requires Sized(r)
    ensures Sized(n)
  {
    if !t.valid then r
    else
      var ghr := if t.cond then ShiftIn(r.ghr, t.taken) else r.ghr;
      var pht := if t.cond then r.pht[t.phtIndex := SatUpdate(r.pht[t.phtIndex], t.taken)] else r.pht;
      var ras := if t.call then r.ras[r.ptr := t.pushPc] else r.ras;
      var ptr := if t.ret then Down(r.ptr) else if t.call then Up(r.ptr) else r.ptr;
      var cnt := if t.ret then if r.cnt == 0 then 0 else r.cnt - 1
                 else if t.call then if r.cnt == RAS_DEPTH then r.cnt else r.cnt + 1
                 else r.cnt;
      Regs(pht, ghr, ras, ptr, cnt)
  }

  predicate RasValid(r: Regs) { r.cnt != 0 }

  function RasTop(r: Regs): word
    requires Sized(r)
  {
    r.ras[Down(r.ptr)]
  }

  // ------------------------------------------------------------------
  // The two lookups, on pc[7:1]
  // ------------------------------------------------------------------

  function GshareIndex(pc: bv7, ghr: bv7): bv7 { pc ^ ghr }

  predicate Predict(pht: seq<counter>, i: bv7)
    requires |pht| == PHT_DEPTH
  {
    pht[i as int] >= 2
  }

  /** lookup_rsp_o.pht_taken. */
  predicate PhtTaken(r: Regs, pc: bv7)
    requires Sized(r)
  {
    Predict(r.pht, GshareIndex(pc, r.ghr))
  }

  /** The aligned pair of entries for a pushed word: its upper index bits with a chosen last bit. */
  function PairIndex(pc: bv7, ghr: bv7, odd: bool): bv7 {
    (((pc >> 1) ^ (ghr >> 1)) << 1) | if odd then 1 else 0
  }

  predicate Newest(ghr: bv7) { ghr & 1 == 1 }

  /** push_rsp_o: the direction bits for the lower and upper halfword of a word. */
  function PushLookup(r: Regs, pc: bv7): (bool, bool)
    requires Sized(r)
  {
    var ctr0, ctr1 := Predict(r.pht, PairIndex(pc, r.ghr, false)), Predict(r.pht, PairIndex(pc, r.ghr, true));
    (if Newest(r.ghr) then ctr1 else ctr0, if Newest(r.ghr) then ctr0 else ctr1)
  }

  lemma PairCovers(pc: bv7, ghr: bv7)
    ensures PairIndex(pc, ghr, Newest(ghr)) == GshareIndex(pc & 0x7e, ghr)
    ensures PairIndex(pc, ghr, !Newest(ghr)) == GshareIndex(pc | 1, ghr)
  {
  }

  /** Reading at push time gives, for both halfwords, what the decode lookup reads with the same
      history. */
  lemma LookupsAgree(r: Regs, pc: bv7)
    requires Sized(r)
    ensures PushLookup(r, pc).0 == PhtTaken(r, pc & 0x7e) && PushLookup(r, pc).1 == PhtTaken(r, pc | 1)
  {
    hide PairIndex, GshareIndex, Predict, Newest;
    PairCovers(pc, r.ghr);
  }

  // ------------------------------------------------------------------
  // The registers
  // ------------------------------------------------------------------

  class Predictor {
    const pht_q: array<counter>
    const ras_q: array<word>
    var ghr_q: bv7
    var ras_ptr_q: slot
    var ras_cnt_q: nat

    ghost predicate Valid()
      reads this
    {
      pht_q.Length == PHT_DEPTH && ras_q.Length == RAS_DEPTH && ras_cnt_q <= RAS_DEPTH
    }

    ghost function State(): (r: Regs)
      requires Valid()
      reads this, pht_q, ras_q
      ensures Sized(r)
    {
      Regs(pht_q[..], ghr_q, ras_q[..], ras_ptr_q, ras_cnt_q)
    }

    /** Power-up and reset: weak not-taken everywhere; the stack's slots hold anything. */
    constructor (slots: array<word>)
      requires slots.Length == RAS_DEPTH
      ensures Valid() && fresh(pht_q) && ras_q == slots && Initial(State())
    {
      pht_q := new counter[PHT_DEPTH](_ => 1);
      ras_q := slots;
      ghr_q, ras_ptr_q, ras_cnt_q := 0, 0, 0;
    }

    /** One rising clock edge, lines 234-302. */
    method Clock(t: Train)
      requires Valid()
      modifies this, pht_q, ras_q
      ensures Valid() && State() == Trained(old(State()), t)
    {
      hide ShiftIn, SatUpdate;
      if t.valid {
        if t.cond {
          pht_q[t.phtIndex] := SatUpdate(pht_q[t.phtIndex], t.taken);
          ghr_q := ShiftIn(ghr_q, t.taken);
        }
        ClockStack(t);
      }
    }

    /** The stack's part. The nonblocking writes all read the registers of before the edge. */
    method ClockStack(t: Train)
      requires Valid() && t.valid
      modifies `ras_ptr_q, `ras_cnt_q, ras_q
      ensures Valid()
      ensures ras_q[..] == if t.call then old(ras_q[..])[old(ras_ptr_q) := t.pushPc] else old(ras_q[..])
      ensures ras_ptr_q == if t.ret then Down(old(ras_ptr_q)) else if t.call then Up(old(ras_ptr_q)) else old(ras_ptr_q)
      ensures ras_cnt_q == if t.ret then if old(ras_cnt_q) == 0 then 0 else old(ras_cnt_q) - 1
                           else if t.call then if old(ras_cnt_q) == RAS_DEPTH then old(ras_cnt_q) else old(ras_cnt_q) + 1
                           else old(ras_cnt_q)
    {
      var ras_ptr_d, ras_cnt_d := ras_ptr_q, ras_cnt_q;
      if t.call {
        ras_q[ras_ptr_q] := t.pushPc;
        ras_ptr_d := (ras_ptr_q + 1) % 8;
        ras_cnt_d := if ras_cnt_q == RAS_DEPTH then ras_cnt_q else ras_cnt_q + 1;
      }
      if t.ret {
        ras_ptr_d := (ras_ptr_q + 7) % 8;
        ras_cnt_d := if ras_cnt_q == 0 then 0 else ras_cnt_q - 1;
      }
      ras_ptr_q, ras_cnt_q := ras_ptr_d, ras_cnt_d;
    }
  }

  predicate Initial(r: Regs) {
    Sized(r) && r.pht == seq(PHT_DEPTH, _ => 1) && r.ghr == 0 && r.ptr == 0 && r.cnt == 0
  }

  function Run(r: Regs, ts: seq<Train>): (n: Regs)
    requires Sized(r)
    ensures Sized(n)
  {
    if ts == [] then r else Trained(Run(r, ts[..|ts| - 1]), ts[|ts| - 1])
  }

  // ------------------------------------------------------------------
  // The return-address stack
  // ------------------------------------------------------------------

  /** The program's own stack of return addresses, with no bound. */
  function CallStack(ts: seq<Train>): seq<word> {
    if ts == [] then [] else StackStep(CallStack(ts[..|ts| - 1]), ts[|ts| - 1])
  }

  function StackStep(s: seq<word>, t: Train): seq<word> {
    if t.valid && t.call then s + [t.pushPc]
    else if t.valid && t.ret && s != [] then s[..|s| - 1]
    else s
  }

  /** The entry i places below the top: i slots below the newest. */
  function Slot(r: Regs, i: nat): slot
    requires i < RAS_DEPTH
  {
    (r.ptr + 7 - i) % 8
  }

  /** The stack's cnt newest entries are the top of s. */
  predicate TopSegment(r: Regs, s: seq<word>)
    requires Sized(r)
  {
    r.cnt <= |s| && forall i :: 0 <= i < r.cnt ==> r.ras[Slot(r, i)] == s[|s| - 1 - i]
  }

  lemma SlotAfterUp(r: Regs, n: Regs, i: nat)
    requires n.ptr == Up(r.ptr) && i < 7
    ensures Slot(n, i + 1) == Slot(r, i) && Slot(r, i) != r.ptr
  {
  }

  lemma NewestAfterUp(r: Regs, n: Regs)
    requires n.ptr == Up(r.ptr)
    ensures Slot(n, 0) == r.ptr
  {
  }

  lemma SlotAfterDown(r: Regs, n: Regs, i: nat)
    requires n.ptr == Down(r.ptr) && i < 7
    ensures Slot(n, i) == Slot(r, i + 1)
  {
  }

  lemma TopSegmentStep(r: Regs, s: seq<word>, t: Train)
    requires Sized(r) && TopSegment(r, s) && OneKind(t)
    ensures TopSegment(Trained(r, t), StackStep(s, t))
    ensures r.cnt == |s| && |StackStep(s, t)| <= RAS_DEPTH ==> Trained(r, t).cnt == |StackStep(s, t)|
  {
    hide SatUpdate, ShiftIn, Slot;
    var n, u := Trained(r, t), StackStep(s, t);
    forall i | 0 <= i < n.cnt
      ensures n.ras[Slot(n, i)] == u[|u| - 1 - i]
    {
      if t.valid && t.call {
        if i > 0 {
          SlotAfterUp(r, n, i - 1);
          assert u[|u| - 1 - i] == s[|s| - 1 - (i - 1)];
        } else {
          NewestAfterUp(r, n);
        }
      } else if t.valid && t.ret {
        SlotAfterDown(r, n, i);
        assert u[|u| - 1 - i] == s[|s| - 1 - (i + 1)];
      } else {
        SlotSame(r, n, i);
      }
    }
  }

  lemma SlotSame(r: Regs, n: Regs, i: nat)
    requires n.ptr == r.ptr && i < RAS_DEPTH
    ensures Slot(n, i) == Slot(r, i)
  {
  }

  lemma {:induction false} AlwaysTopSegment(r: Regs, ts: seq<Train>)
    requires Initial(r) && forall t :: t in ts ==> OneKind(t)
    ensures TopSegment(Run(r, ts), CallStack(ts))
    decreases |ts|
  {
    hide Trained, StackStep, OneKind;
    if ts == [] {
    } else {
      AlwaysTopSegment(r, ts[..|ts| - 1]);
      TopSegmentStep(Run(r, ts[..|ts| - 1]), CallStack(ts[..|ts| - 1]), ts[|ts| - 1]);
    }
  }

  /** For every trace, with overflow past the depth and returns from an empty stack: whenever the
      top is offered it is the true return address. */
  lemma ReturnsTrue(r: Regs, ts: seq<Train>)
    requires Initial(r) && forall t :: t in ts ==> OneKind(t)
    requires RasValid(Run(r, ts))
    ensures CallStack(ts) != [] && RasTop(Run(r, ts)) == CallStack(ts)[|CallStack(ts)| - 1]
  {
    hide CallStack, Run;
    AlwaysTopSegment(r, ts);
    SlotOfTop(Run(r, ts));
  }

  lemma SlotOfTop(r: Regs)
    ensures Slot(r, 0) == Down(r.ptr)
  {
  }

  /** The call stack never grew past the hardware's depth. */
  predicate Shallow(ts: seq<Train>) {
    |CallStack(ts)| <= 8 && (ts == [] || Shallow(ts[..|ts| - 1]))
  }

  /** As long as it has not, nothing is lost: the top is offered exactly when there is one. */
  lemma {:induction false} ShallowIsExact(r: Regs, ts: seq<Train>)
    requires Initial(r) && (forall t :: t in ts ==> OneKind(t)) && Shallow(ts)
    ensures Run(r, ts).cnt == |CallStack(ts)| && (RasValid(Run(r, ts)) <==> CallStack(ts) != [])
    decreases |ts|
  {
    hide Trained, StackStep, OneKind, TopSegment;
    if ts == [] {
    } else {
      ShallowIsExact(r, ts[..|ts| - 1]);
      AlwaysTopSegment(r, ts[..|ts| - 1]);
      TopSegmentStep(Run(r, ts[..|ts| - 1]), CallStack(ts[..|ts| - 1]), ts[|ts| - 1]);
    }
  }

  // ------------------------------------------------------------------
  // History and counters
  // ------------------------------------------------------------------

  /** The resolved conditional branches of a trace, oldest first. */
  function Outcomes(ts: seq<Train>): seq<bool> {
    if ts == [] then []
    else
      var t := ts[|ts| - 1];
      Outcomes(ts[..|ts| - 1]) + if t.valid && t.cond then [t.taken] else []
  }

  predicate GhrBit(ghr: bv7, i: nat)
    requires i < 7
  {
    match i
    case 0 => ghr & 1 != 0
    case 1 => ghr & 2 != 0
    case 2 => ghr & 4 != 0
    case 3 => ghr & 8 != 0
    case 4 => ghr & 16 != 0
    case 5 => ghr & 32 != 0
    case _ => ghr & 64 != 0
  }

  lemma ShiftInBit(ghr: bv7, t: bool, i: nat)
    requires i < 7
    ensures GhrBit(ShiftIn(ghr, t), i) == if i == 0 then t else GhrBit(ghr, i - 1)
  {
  }

  /** Bit i of the history is the i-th last of the outcomes os, if there is one. */
  predicate Records(ghr: bv7, os: seq<bool>) {
    forall i :: 0 <= i < 7 ==> GhrBit(ghr, i) == (i < |os| && os[|os| - 1 - i])
  }

  lemma RecordsShift(ghr: bv7, os: seq<bool>, t: bool)
    requires Records(ghr, os)
    ensures Records(ShiftIn(ghr, t), os + [t])
  {
    hide GhrBit, ShiftIn;
    var now := os + [t];
    forall i | 0 <= i < 7
      ensures GhrBit(ShiftIn(ghr, t), i) == (i < |now| && now[|now| - 1 - i])
    {
      ShiftInBit(ghr, t, i);
      if i > 0 {
        assert GhrBit(ghr, i - 1) == (i - 1 < |os| && os[|os| - 1 - (i - 1)]);
      }
    }
  }

  lemma {:induction false} HistoryIsOutcomes(r: Regs, ts: seq<Train>)
    requires Initial(r)
    ensures Records(Run(r, ts).ghr, Outcomes(ts))
    decreases |ts|
  {
    hide Records, ShiftIn, SatUpdate;
    if ts == [] {
      ZeroRecords();
    } else {
      hide Initial;
      var t, before := ts[|ts| - 1], ts[..|ts| - 1];
      HistoryIsOutcomes(r, before);
      RecordsShift(Run(r, before).ghr, Outcomes(before), t.taken);
      assert Outcomes(before) + [] == Outcomes(before);
    }
  }

  lemma ZeroRecords()
    ensures Records(0, [])
  {
  }

  /** The outcomes trained into entry i. */
  function OutcomesAt(ts: seq<Train>, i: index): seq<bool> {
    if ts == [] then []
    else
      var t := ts[|ts| - 1];
      OutcomesAt(ts[..|ts| - 1], i) + if t.valid && t.cond && t.phtIndex == i then [t.taken] else []
  }

  /** A count of the outcomes, up and down, that stops at 0 and 3. */
  function Count(c: counter, os: seq<bool>): counter {
    if os == [] then c
    else
      var n: int := Count(c, os[..|os| - 1]) + if os[|os| - 1] then 1 else -1;
      if n < 0 then 0 else if n > 3 then 3 else n
  }

  lemma CountsOn(c: counter, os: seq<bool>, t: bool)
    ensures Count(c, os + [t]) == SatUpdate(Count(c, os), t)
  {
    assert (os + [t])[..|os|] == os;
  }

  /** Each entry is its own saturating counter, moved only by the branches predicted from it. */
  lemma {:induction false} EntriesAreCounters(r: Regs, ts: seq<Train>, i: index)
    requires Initial(r)
    ensures Run(r, ts).pht[i] == Count(1, OutcomesAt(ts, i))
    decreases |ts|
  {
    hide SatUpdate, ShiftIn;
    if ts == [] {
    } else {
      hide Initial;
      var t, before := ts[|ts| - 1], OutcomesAt(ts[..|ts| - 1], i);
      EntriesAreCounters(r, ts[..|ts| - 1], i);
      if t.valid && t.cond && t.phtIndex == i {
        CountsOn(1, before, t.taken);
      } else {
        assert OutcomesAt(ts, i) == before;
      }
    }
  }

  lemma XorAt(x: bv7, y: bv7, mask: bv7)
    requires mask in {1, 2, 4, 8, 16, 32, 64}
    ensures (x ^ y) & mask != 0 <==> (x & mask != 0) != (y & mask != 0)
  {
  }

  lemma IndexBits(pc: bv7, ghr: bv7, k: nat)
    requires k < 7
    ensures GhrBit(GshareIndex(pc, ghr), k) == (GhrBit(pc, k) != GhrBit(ghr, k))
  {
    XorAt(pc, ghr, if k == 0 then 1 else if k == 1 then 2 else if k == 2 then 4 else if k == 3 then 8
                   else if k == 4 then 16 else if k == 5 then 32 else 64);
  }

  lemma SameBits(i: bv7, j: bv7)
    requires forall k :: 0 <= k < 7 ==> GhrBit(i, k) == GhrBit(j, k)
    ensures i == j
  {
    assert GhrBit(i, 0) == GhrBit(j, 0) && GhrBit(i, 1) == GhrBit(j, 1) && GhrBit(i, 2) == GhrBit(j, 2);
    assert GhrBit(i, 3) == GhrBit(j, 3) && GhrBit(i, 4) == GhrBit(j, 4) && GhrBit(i, 5) == GhrBit(j, 5);
    assert GhrBit(i, 6) == GhrBit(j, 6);
  }

  /** Bit k of the index is bit k of the halfword address, inverted if the k-th last conditional branch
      was taken. */
  predicate IndexFor(i: bv7, pc: bv7, os: seq<bool>) {
    forall k :: 0 <= k < 7 ==> GhrBit(i, k) == (GhrBit(pc, k) != (k < |os| && os[|os| - 1 - k]))
  }

  lemma IndexIs(i: bv7, pc: bv7, ghr: bv7, os: seq<bool>)
    requires Records(ghr, os) && IndexFor(i, pc, os)
    ensures i == GshareIndex(pc, ghr)
  {
    hide GhrBit, GshareIndex;
    forall k | 0 <= k < 7
      ensures GhrBit(i, k) == GhrBit(GshareIndex(pc, ghr), k)
    {
      IndexBits(pc, ghr, k);
    }
    SameBits(i, GshareIndex(pc, ghr));
  }

  /** The lookup over every trace: a branch is predicted taken exactly when the upper bit of the count
      at its index is set. */
  lemma LookupReads(r: Regs, ts: seq<Train>, pc: bv7, i: bv7)
    requires Initial(r) && IndexFor(i, pc, Outcomes(ts))
    ensures PhtTaken(Run(r, ts), pc) <==> Count(1, OutcomesAt(ts, i as int)) / 2 == 1
  {
    hide IndexFor, Records, PhtTaken, SatUpdate, ShiftIn, Outcomes, OutcomesAt, Count, GshareIndex, Run;
    HistoryIsOutcomes(r, ts);
    IndexIs(i, pc, Run(r, ts).ghr, Outcomes(ts));
    EntriesAreCounters(r, ts, i as int);
    TakenIs(Run(r, ts), pc);
  }

  lemma TakenIs(r: Regs, pc: bv7)
    requires Sized(r)
    ensures PhtTaken(r, pc) <==> r.pht[GshareIndex(pc, r.ghr) as int] / 2 == 1
  {
    hide GshareIndex;
  }

  /** Two equal outcomes in a row settle a counter on that direction, and after a third one
      opposite outcome does not unsettle it. */
  lemma TwoSettle(c: counter, os: seq<bool>, t: bool)
    ensures Count(c, os + [t, t]) >= 2 <==> t
    ensures Count(c, os + [t, t, t, !t]) >= 2 <==> t
  {
    var one, two, three, four := os + [t], os + [t, t], os + [t, t, t], os + [t, t, t, !t];
    assert one[..|os|] == os && two[..|one|] == one && three[..|two|] == two && four[..|three|] == three;
  }
}
