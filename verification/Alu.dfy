/** The ALU's arithmetic: the shared adder and its compares, the two multiplier structures, and
    the 32-iteration restoring divider with its one sign flop.

    Words are integers below 2^32; every slice, truncation and sign bit of the source is written
    out as a quotient or remainder by a power of two.
 */
module Alu {
  import opened Arithmetic
  import opened Words

  const W31 := 0x8000_0000
  const W32 := 0x1_0000_0000
  const W64 := 0x1_0000_0000_0000_0000

  type u5 = x: int | 0 <= x < 32

  /** The arithmetic members of alu_op_t. */
  datatype Op = ADD | SUB | LX | SLT | SLTU | MUL | MULH | MULHSU | MULHU | DIV | DIVU | REM | REMU

  /** The value of a word read as two's complement. */
  function Signed(x: word): (v: int)
    ensures -W31 <= v < W31 && v % W32 == x
  {
    if x >= W31 then x - W32 else x
  }

  predicate SignBit(x: word) { x >= W31 }

  /** Unary minus on 32 bits. */
  function Negate(x: word): word { (W32 - x) % W32 }

  // ------------------------------------------------------------------
  // The one adder and the compares read off it
  // ------------------------------------------------------------------

  predicate IsSub(op: Op) { op == SUB || op == SLT || op == SLTU }

  function ShiftFactor(shamt: nat): nat
    requires shamt < 4
  {
    if shamt == 0 then 1 else if shamt == 1 then 2 else if shamt == 2 then 4 else 8
  }

  function AddendB(op: Op, b: word, shamt: nat): word
    requires shamt < 4
  {
    if IsSub(op) then W32 - 1 - b else if op == LX then (b * ShiftFactor(shamt)) % W32 else b
  }

  /** 33 bits: bit 32 is the carry out. */
  function AdderSum(op: Op, a: word, b: word, shamt: nat): (s: nat)
    requires shamt < 4
    ensures s < 2 * W32
  {
    a + AddendB(op, b, shamt) + (if IsSub(op) then 1 else 0)
  }

  predicate CmpLt(op: Op, a: word, b: word)
    requires op == SLT || op == SLTU
  {
    var s := AdderSum(op, a, b, 0);
    if op == SLTU then s / W32 == 0
    else if SignBit(a) != SignBit(b) then SignBit(a)
    else (s / W31) % 2 == 1
  }

  /** The carry and sign bits of a + ~b + 1 decide both compares. */
  lemma CompareCorrect(op: Op, a: word, b: word)
    requires op == SLT || op == SLTU
    ensures CmpLt(op, a, b) <==> (if op == SLT then Signed(a) < Signed(b) else a < b)
  {
  }

  lemma FactorIs(shamt: nat)
    requires shamt < 4
    ensures ShiftFactor(shamt) == Pow2(shamt)
  {
    assert Pow2(0) == 1 && Pow2(1) == 2 && Pow2(2) == 4 && Pow2(3) == 8;
  }

  lemma WrappedAddend(a: nat, y: nat)
    ensures (a + y % W32) % W32 == (a + y) % W32
  {
    var q, r := y / W32, (a + y % W32) % W32;
    var k := (a + y % W32) / W32;
    assert y == W32 * q + y % W32 && a + y % W32 == W32 * k + r;
    DivModUnique(a + y, W32, q + k, r);
  }

  /** SUB wraps; the Zilx address is base plus scaled index, modulo 2^32. */
  lemma AdderCorrect(op: Op, a: word, b: word, shamt: nat)
    requires shamt < 4 && op in {ADD, SUB, LX}
    ensures AdderSum(op, a, b, shamt) % W32
            == (if op == ADD then a + b else if op == SUB then a - b else a + b * Pow2(shamt)) % W32
  {
    hide Pow2, ShiftFactor;
    if op == LX {
      FactorIs(shamt);
      WrappedAddend(a, b * Pow2(shamt));
    }
  }

  // ------------------------------------------------------------------
  // The two multipliers
  // ------------------------------------------------------------------

  predicate IsMul(op: Op) { op in {MUL, MULH, MULHSU, MULHU} }

  /** The 64-bit product the operation asks for: section 7.1 of the RISC-V Unprivileged ISA
      20191213. */
  function FullProduct(op: Op, a: word, b: word): int
    requires IsMul(op)
  {
    if op == MULHU then a * b else if op == MULHSU then Signed(a) * b else Signed(a) * Signed(b)
  }

  function RiscvMul(op: Op, a: word, b: word): word
    requires IsMul(op)
  {
    if op == MUL then FullProduct(op, a, b) % W32 else (FullProduct(op, a, b) / W32) % W32
  }

  /** The low n bits of a two's complement number, as a vector of that width. */
  function Vector(v: int, size: nat): (r: nat)
    requires size > 0
  {
    v % size
  }

  /** MUL_SHARED_DSP = 0: three products of 64 bits, then a choice. */
  function MulThree(op: Op, a: word, b: word): word {
    var ss, uu, su := Vector(Signed(a) * Signed(b), W64), Vector(a * b, W64), Vector(Signed(a) * b, W64);
    match op
    case MUL => ss % W32
    case MULH => (ss / W32) % W32
    case MULHSU => (su / W32) % W32
    case MULHU => (uu / W32) % W32
    case _ => 0
  }

  /** An operand extended to 33 bits by the sign bit the operation wants, as a signed number. */
  function Extended(x: word, signed: bool): (v: int)
    ensures -W31 <= v < W32
  {
    if signed && SignBit(x) then x - W32 else x
  }

  /** MUL_SHARED_DSP = 1: one signed product of 66 bits. */
  function MulShared(op: Op, a: word, b: word): word
    requires IsMul(op)
  {
    var prod := Vector(Extended(a, op != MULHU) * Extended(b, op == MUL || op == MULH), 4 * W64);
    if op != MUL then (prod / W32) % W32 else prod % W32
  }

  /** Cutting a product to n words and then taking word 1 (or 0) is taking it from the product. */
  lemma WordOfVector(v: int, k: nat)
    requires k > 0
    ensures (Vector(v, W32 * (W32 * k)) / W32) % W32 == (v / W32) % W32
    ensures Vector(v, W32 * (W32 * k)) % W32 == v % W32
  {
    var n := W32 * k;
    var r := v % (W32 * n);
    var q := v / (W32 * n);
    assert v == (W32 * n) * q + r;
    assert (W32 * n) * q == W32 * (n * q);
    assert v == W32 * (n * q + r / W32) + r % W32;
    DivModUnique(v, W32, n * q + r / W32, r % W32);
    assert n * q == W32 * (k * q);
    assert v / W32 == W32 * (k * q) + r / W32;
    assert v / W32 == W32 * (k * q + (r / W32) / W32) + (r / W32) % W32;
    DivModUnique(v / W32, W32, k * q + (r / W32) / W32, (r / W32) % W32);
  }

  /** Both structures compute the operation of the ISA, so they agree, for all operands. */
  lemma MultipliersCorrect(op: Op, a: word, b: word)
    requires IsMul(op)
    ensures MulThree(op, a, b) == RiscvMul(op, a, b)
    ensures MulShared(op, a, b) == RiscvMul(op, a, b)
  {
    hide Vector;
    assert W64 == W32 * (W32 * 1) && 4 * W64 == W32 * (W32 * 4);
    WordOfVector(FullProduct(op, a, b), 1);
    if op == MUL {
      WordOfVector(FullProduct(op, a, b), 4);
    } else {
      WordOfVector(Extended(a, op != MULHU) * Extended(b, op == MULH), 4);
    }
  }

  lemma Magnitude(x: int, y: int, m: int, n: int)
    requires 0 <= m && 0 <= n && -m <= x <= m && -n <= y <= n
    ensures -(m * n) <= x * y <= m * n
  {
    if x >= 0 {
      ProductMonotone(x, -n, y);
      ProductMonotone(x, y, n);
    } else {
      ProductMonotone(-x, -n, y);
      ProductMonotone(-x, y, n);
    }
    var u := if x >= 0 then x else -x;
    ProductMonotone(n, u, m);
  }

  /** No product overflows the signed width its structure gives it: 66 bits for the shared one,
      64 for the two signed ones (the unsigned one has 64 bits and needs them). */
  lemma ProductFits(a: word, b: word, op: Op)
    requires IsMul(op)
    ensures -2 * W64 <= Extended(a, op != MULHU) * Extended(b, op == MUL || op == MULH) < 2 * W64
    ensures op != MULHU ==> -W64 / 2 <= FullProduct(op, a, b) < W64 / 2
    ensures op == MULHU ==> 0 <= FullProduct(op, a, b) < W64
  {
    Magnitude(Extended(a, op != MULHU), Extended(b, op == MUL || op == MULH), W32, W32 - 1);
    if op == MULHU {
      ProductMonotone(a, 0, b);
    } else {
      Magnitude(Signed(a), if op == MULHSU then b else Signed(b), W31, W32 - 1);
    }
  }

  // ------------------------------------------------------------------
  // The divider
  // ------------------------------------------------------------------

  predicate IsDiv(op: Op) { op in {DIV, DIVU, REM, REMU} }

  predicate SignedDiv(op: Op) { op == DIV || op == REM }


  datatype DivState = IDLE | RUN | DONE

  /** The divider's registers; rem is {remainder, quotient}. */
  datatype DivRegs = DivRegs(state: DivState, cnt: u5, a: word, neg: bool, bz: bool, rem: dword, divisor: word)

  /** What the divider sees in one cycle. */
  datatype DivIn = DivIn(start: bool, op: Op, a: word, b: word)

  const DIV_RESET := DivRegs(IDLE, 0, 0, false, false, 0, 0)

  function Abs(op: Op, x: word): word { if SignedDiv(op) && SignBit(x) then Negate(x) else x }

  /** The sign to put back: DIV's term is off for a zero divisor, whose answer is all ones. */
  predicate NegAt(i: DivIn) {
    (i.op == DIV && SignBit(i.a) != SignBit(i.b) && i.b != 0) || (i.op == REM && SignBit(i.a))
  }

  function Shifted(rem: dword): dword { (rem * 2) % W64 }

  function RemPart(rem: dword): word { Shifted(rem) / W32 }

  /** One shift-subtract. */
  function ShiftSubtract(rem: dword, divisor: word): dword {
    if RemPart(rem) >= divisor then (RemPart(rem) - divisor) * W32 + (Shifted(rem) % W32) / 2 * 2 + 1
    else Shifted(rem)
  }

  predicate Launch(r: DivRegs, i: DivIn) { r.state == IDLE && i.start && IsDiv(i.op) }

  function DivNext(r: DivRegs, i: DivIn): DivRegs {
    match r.state
    case IDLE =>
      if Launch(r, i) then DivRegs(RUN, 0, Abs(i.op, i.a), NegAt(i), i.b == 0, Abs(i.op, i.a), Abs(i.op, i.b)) else r
    case RUN =>
      r.(rem := ShiftSubtract(r.rem, r.divisor), state := if r.cnt == 31 then DONE else RUN,
         cnt := if r.cnt == 31 then r.cnt else (r.cnt + 1) % 32)
    case DONE => r.(state := IDLE)
  }

  function DivMagnitude(r: DivRegs, op: Op): word {
    var takeRem := op == REM || op == REMU;
    if r.bz then (if takeRem then r.a else W32 - 1) else if takeRem then r.rem / W32 else r.rem % W32
  }

  function DivResult(r: DivRegs, op: Op): word {
    if r.neg then Negate(DivMagnitude(r, op)) else DivMagnitude(r, op)
  }

  class Divider {
    var div_state_q: DivState
    var div_cnt_q: u5
    var div_a_q: word
    var div_neg_q: bool
    var div_bz_q: bool
    var div_rem_q: dword
    var div_divisor_q: word

    ghost function Regs(): DivRegs
      reads this
    {
      DivRegs(div_state_q, div_cnt_q, div_a_q, div_neg_q, div_bz_q, div_rem_q, div_divisor_q)
    }

    constructor ()
      ensures Regs() == DIV_RESET
    {
      div_state_q, div_cnt_q, div_a_q, div_neg_q := IDLE, 0, 0, false;
      div_bz_q, div_rem_q, div_divisor_q := false, 0, 0;
    }

    /** One rising clock edge out of reset, lines 361-410 of alu.sv. */
    method Clock(i: DivIn)
      modifies this
      ensures Regs() == DivNext(old(Regs()), i)
    {
      var launch := div_state_q == IDLE && i.start && IsDiv(i.op);
      var shifted := (div_rem_q * 2) % W64;
      var rem_part := shifted / W32;
      var div_state_d, div_cnt_d := div_state_q, div_cnt_q;
      match div_state_q {
        case IDLE =>
          if launch {
            div_state_d, div_cnt_d := RUN, 0;
          }
        case RUN =>
          if div_cnt_q == 31 {
            div_state_d := DONE;
          } else {
            div_cnt_d := (div_cnt_q + 1) % 32;
          }
        case DONE => div_state_d := IDLE;
      }
      if launch {
        div_a_q := Abs(i.op, i.a);
        div_divisor_q := Abs(i.op, i.b);
        div_neg_q := NegAt(i);
        div_bz_q := i.b == 0;
        div_rem_q := Abs(i.op, i.a);
      } else if div_state_q == RUN {
        if rem_part >= div_divisor_q {
          div_rem_q := (rem_part - div_divisor_q) * W32 + (shifted % W32) / 2 * 2 + 1;
        } else {
          div_rem_q := shifted;
        }
      }
      div_state_q, div_cnt_q := div_state_d, div_cnt_d;
    }

    /** result_valid_o and result_o for a divide, lines 439-472. */
    method Output(op: Op) returns (valid: bool, result: word)
      requires IsDiv(op)
      ensures valid == (Regs().state == DONE) && result == DivResult(Regs(), op)
    {
      var take_rem := op == REM || op == REMU;
      var div_mag: word;
      if div_bz_q {
        div_mag := if take_rem then div_a_q else W32 - 1;
      } else {
        div_mag := if take_rem then div_rem_q / W32 else div_rem_q % W32;
      }
      result := if div_neg_q then Negate(div_mag) else div_mag;
      valid := div_state_q == DONE;
    }
  }

  // ------------------------------------------------------------------
  // The result mux, lines 448-472 of alu.sv
  // ------------------------------------------------------------------

  function EffectiveAddress(op: Op, a: word, b: word, shamt: nat): word
    requires shamt < 4
  {
    AdderSum(op, a, b, shamt) % W32
  }

  /** result_o; shared is the MUL_SHARED_DSP parameter. */
  function ResultOut(op: Op, a: word, b: word, shamt: nat, r: DivRegs, shared: bool): word
    requires shamt < 4
  {
    if IsMul(op) then if shared then MulShared(op, a, b) else MulThree(op, a, b)
    else if op == ADD || op == SUB || op == LX then AdderSum(op, a, b, shamt) % W32
    else if IsDiv(op) then DivResult(r, op)
    else if CmpLt(op, a, b) then 1 else 0
  }

  predicate ResultValid(op: Op, r: DivRegs) { IsDiv(op) ==> r.state == DONE }
}
