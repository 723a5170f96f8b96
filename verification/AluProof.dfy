/** The divider computes what the ISA asks for: each of the 32 steps keeps the restoring
    invariant, and the one sign flop and the zero flag finish every case.
 */
module AluProof {
  import opened Arithmetic
  import opened Alu
  import opened Words

  lemma {:induction false} Pow2Split(j: nat, k: nat)
    ensures Pow2(j) * Pow2(k) == Pow2(j + k)
  {
    if j == 0 {
    } else {
      Pow2Split(j - 1, k);
      assert 2 * Pow2(j - 1) * Pow2(k) == 2 * (Pow2(j - 1) * Pow2(k));
    }
  }

  lemma Pow2Width()
    ensures Pow2(31) == W31 && Pow2(32) == W32
  {
    Pow2Split(8, 8);
    Pow2Split(16, 16);
    assert Pow2(8) == 256;
    assert Pow2(32) == 2 * Pow2(31);
  }

  /** After k steps on dividend a with divisor d the register holds remainder and quotient of the
      dividend's top k bits, and the bits still to come above the quotient. */
  predicate DivInv(a: word, d: word, k: nat, q: nat, rem: dword)
    requires k <= 32
  {
    && q < Pow2(k) && rem / W32 < Pow2(k)
    && rem % W32 == (a % Pow2(32 - k)) * Pow2(k) + q
    && a / Pow2(32 - k) == q * d + rem / W32
    && (d != 0 ==> rem / W32 < d)
  }

  /** One more bit of the dividend. */
  lemma SplitDividend(a: nat, m: nat)
    requires m > 0
    ensures a / m == 2 * (a / (2 * m)) + (a / m) % 2
    ensures a % (2 * m) == ((a / m) % 2) * m + a % m
  {
    var h, r := a / (2 * m), a % (2 * m);
    assert a == (2 * m) * h + r;
    var b := if r >= m then 1 else 0;
    assert (2 * m) * h == m * (2 * h);
    assert m * (2 * h + b) == m * (2 * h) + m * b;
    DivModUnique(a, m, 2 * h + b, r - m * b);
  }

  /** The shift moves the dividend's next bit into the remainder half; nothing falls off the top
      as long as the remainder is below 2^31. */
  lemma ShiftedParts(rem: dword, b: nat, l: nat)
    requires rem / W32 < W31 && b < 2 && l < W31 && rem % W32 == b * W31 + l
    ensures rem * 2 < W64 && RemPart(rem) == 2 * (rem / W32) + b && Shifted(rem) % W32 == 2 * l
  {
  }

  /** The two halves after a step, whichever way the comparison goes. */
  lemma StepParts(rem: dword, d: word, b: nat, l: nat)
    requires rem / W32 < W31 && b < 2 && l < W31 && rem % W32 == b * W31 + l
    ensures var part, next := 2 * (rem / W32) + b, ShiftSubtract(rem, d);
            && next / W32 == (if part >= d then part - d else part)
            && next % W32 == 2 * l + (if part >= d then 1 else 0)
  {
    ShiftedParts(rem, b, l);
  }

  lemma Distribute(b: int, m: int, r: int, p: int)
    ensures (b * m + r) * p == b * (m * p) + r * p
    ensures r * (2 * p) == 2 * (r * p)
  {
  }

  lemma BelowProduct(r: nat, m: nat, p: nat, q: nat)
    requires r < m && q < p
    ensures r * p + q < m * p
  {
    MultipleGap(p, r, m);
    assert p * m == m * p && p * r == r * p;
  }

  /** The bits that are still to come, one step further; m and p are the powers of two above and
      below the place reached. */
  lemma LowHalf(a: nat, m: nat, p: nat, q: nat, b: nat, r: nat)
    requires m > 0 && m * p == W31 && q < p && b == (a / m) % 2 && r == a % m
    ensures r * p + q < W31
    ensures (a % (2 * m)) * p + q == b * W31 + (r * p + q)
    ensures 2 * (r * p + q) == r * (2 * p) + 2 * q
  {
    SplitDividend(a, m);
    BelowProduct(r, m, p, q);
    Distribute(b, m, r, p);
  }

  lemma Powers(k: nat)
    requires k < 32
    ensures Pow2(31 - k) * Pow2(k) == W31 && Pow2(32 - k) == 2 * Pow2(31 - k) && Pow2(k + 1) == 2 * Pow2(k)
  {
    Pow2Split(31 - k, k);
    Pow2Width();
  }

  lemma RemainderSmall(rem: dword, m: nat, p: nat)
    requires m > 0 && m * p == W31 && rem / W32 < p
    ensures rem / W32 < W31
  {
    ProductMonotone(p, 1, m);
    assert p * m == m * p;
  }

  /** One step in terms of the two powers: m above the place reached, p below it. */
  lemma StepArith(a: word, d: word, m: nat, p: nat, q: nat, rem: dword) returns (q': nat)
    requires m > 0 && m * p == W31 && q < p && rem / W32 < p
    requires rem % W32 == (a % (2 * m)) * p + q && a / (2 * m) == q * d + rem / W32
    requires d != 0 ==> rem / W32 < d
    ensures rem / W32 < W31
    ensures var next := ShiftSubtract(rem, d);
            && q' < 2 * p && next / W32 < 2 * p && next % W32 == (a % m) * (2 * p) + q'
            && a / m == q' * d + next / W32 && (d != 0 ==> next / W32 < d)
  {
    hide ShiftSubtract;
    var b, r := (a / m) % 2, a % m;
    RemainderSmall(rem, m, p);
    LowHalf(a, m, p, q, b, r);
    StepParts(rem, d, b, r * p + q);
    SplitDividend(a, m);
    q' := NextQuotient(q, d, rem / W32, b);
  }

  lemma NextQuotient(q: nat, d: nat, hi: nat, b: nat) returns (q': nat)
    ensures q' == if 2 * hi + b >= d then 2 * q + 1 else 2 * q
    ensures 2 * (q * d + hi) + b == q' * d + (if 2 * hi + b >= d then 2 * hi + b - d else 2 * hi + b)
  {
    q' := if 2 * hi + b >= d then 2 * q + 1 else 2 * q;
    assert (2 * q) * d == 2 * (q * d) && (2 * q + 1) * d == 2 * (q * d) + d;
  }

  lemma DivStep(a: word, d: word, k: nat, q: nat, rem: dword) returns (q': nat)
    requires k < 32 && DivInv(a, d, k, q, rem)
    ensures rem / W32 < W31
    ensures DivInv(a, d, k + 1, q', ShiftSubtract(rem, d))
  {
    hide ShiftSubtract, Pow2;
    Powers(k);
    q' := StepArith(a, d, Pow2(31 - k), Pow2(k), q, rem);
    assert 32 - (k + 1) == 31 - k;
  }

  // ------------------------------------------------------------------
  // Whole divisions
  // ------------------------------------------------------------------

  function DivRun(r: DivRegs, ins: seq<DivIn>): DivRegs {
    if ins == [] then r else DivNext(DivRun(r, ins[..|ins| - 1]), ins[|ins| - 1])
  }

  function AbsInt(x: int): nat { if x < 0 then -x else x }

  /** Division rounding toward zero. */
  function TruncDiv(x: int, y: int): int
    requires y != 0
  {
    if (x < 0) == (y < 0) then AbsInt(x) / AbsInt(y) else -(AbsInt(x) / AbsInt(y))
  }

  predicate Overflow(a: word, b: word) { Signed(a) == -W31 && Signed(b) == -1 }

  /** Section 7.2 of the RISC-V Unprivileged ISA 20191213. */
  function RiscvDiv(op: Op, a: word, b: word): word
    requires IsDiv(op)
  {
    if op == DIV then
      if b == 0 then W32 - 1 else if Overflow(a, b) then W31 else TruncDiv(Signed(a), Signed(b)) % W32
    else if op == REM then
      if b == 0 then a else if Overflow(a, b) then 0
      else (Signed(a) - TruncDiv(Signed(a), Signed(b)) * Signed(b)) % W32
    else if op == DIVU then if b == 0 then W32 - 1 else a / b
    else if b == 0 then a else a % b
  }

  /** Cycle k of a division: the launch's choices are still there, and the invariant holds. */
  predicate Dividing(r: DivRegs, first: DivIn, k: nat, q: nat)
    requires k <= 32
  {
    && r.state == (if k == 32 then DONE else RUN) && r.cnt == (if k == 32 then 31 else k)
    && r.a == Abs(first.op, first.a) && r.divisor == Abs(first.op, first.b)
    && r.neg == NegAt(first) && r.bz == (first.b == 0)
    && DivInv(r.a, r.divisor, k, q, r.rem)
  }

  lemma LaunchInv(r: DivRegs, first: DivIn)
    requires Launch(r, first)
    ensures Dividing(DivNext(r, first), first, 0, 0)
  {
    Pow2Width();
  }

  lemma DividingStep(r: DivRegs, first: DivIn, k: nat, q: nat, i: DivIn) returns (q': nat)
    requires k < 32 && Dividing(r, first, k, q)
    ensures Dividing(DivNext(r, i), first, k + 1, q')
  {
    hide DivInv, ShiftSubtract, Abs, NegAt;
    q' := DivStep(r.a, r.divisor, k, q, r.rem);
  }

  lemma {:induction false} Divides(r: DivRegs, first: DivIn, ins: seq<DivIn>) returns (q: nat)
    requires Launch(r, first) && |ins| <= 32
    ensures Dividing(DivRun(DivNext(r, first), ins), first, |ins|, q)
    decreases |ins|
  {
    hide Dividing, DivNext, Launch;
    if ins == [] {
      LaunchInv(r, first);
      q := 0;
    } else {
      var p := Divides(r, first, ins[..|ins| - 1]);
      q := DividingStep(DivRun(DivNext(r, first), ins[..|ins| - 1]), first, |ins| - 1, p, ins[|ins| - 1]);
    }
  }

  /** At the end the register holds quotient and remainder of the magnitudes. */
  lemma DivEnd(a: word, d: word, q: nat, rem: dword)
    requires DivInv(a, d, 32, q, rem) && d != 0
    ensures rem % W32 == a / d && rem / W32 == a % d
  {
    assert a % Pow2(0) == 0 && a / Pow2(0) == a;
    assert (a % Pow2(0)) * Pow2(32) == 0;
    assert q * d == d * q;
    DivModUnique(a, d, q, rem / W32);
  }

  /** The remainder of a division that rounds toward zero has the dividend's sign. */
  lemma TruncRem(x: int, y: int)
    requires y != 0
    ensures x - TruncDiv(x, y) * y == if x < 0 then -(AbsInt(x) % AbsInt(y)) else AbsInt(x) % AbsInt(y)
  {
    var m, n := AbsInt(x), AbsInt(y);
    var q := m / n;
    assert m == n * q + m % n;
    assert (-q) * y == -(q * y) && q * (-n) == -(q * n) && q * n == n * q;
  }

  lemma NegateIsModulo(q: int)
    requires 0 <= q < W32
    ensures (-q) % W32 == Negate(q) && q % W32 == q
  {
  }

  lemma AbsIsAbs(op: Op, x: word)
    requires SignedDiv(op)
    ensures Abs(op, x) == AbsInt(Signed(x)) && (x == 0 <==> Signed(x) == 0) && SignBit(x) == (Signed(x) < 0)
  {
  }

  lemma DivSign(a: word, b: word, q: int)
    requires b != 0 && 0 <= q < W32 && q == AbsInt(Signed(a)) / AbsInt(Signed(b))
    ensures (if SignBit(a) != SignBit(b) then Negate(q) else q) == RiscvDiv(DIV, a, b)
  {
    var x, y := Signed(a), Signed(b);
    AbsIsAbs(DIV, a);
    AbsIsAbs(DIV, b);
    NegateIsModulo(q);
    if Overflow(a, b) {
      assert AbsInt(x) == W31 && AbsInt(y) == 1;
    } else {
      hide Overflow, Signed, AbsInt, Negate;
      assert TruncDiv(x, y) == if SignBit(a) == SignBit(b) then q else -q;
    }
  }

  lemma RemSign(a: word, b: word, m: word)
    requires b != 0 && m == AbsInt(Signed(a)) % AbsInt(Signed(b))
    ensures (if SignBit(a) then Negate(m) else m) == RiscvDiv(REM, a, b)
  {
    var x, y := Signed(a), Signed(b);
    AbsIsAbs(REM, a);
    AbsIsAbs(REM, b);
    NegateIsModulo(m);
    if Overflow(a, b) {
      assert AbsInt(x) == W31 && AbsInt(y) == 1;
    } else {
      hide Overflow, Signed, AbsInt, Negate, TruncDiv;
      TruncRem(x, y);
    }
  }

  /** A zero divisor: all ones with no sign, or the dividend with its own sign. */
  lemma ZeroDivisor(op: Op, a: word)
    requires IsDiv(op)
    ensures RiscvDiv(op, a, 0)
            == if op == REM || op == REMU then (if op == REM && SignBit(a) then Negate(Abs(op, a)) else Abs(op, a))
               else W32 - 1
  {
  }

  /** One conditional negation finishes every case: the ordinary ones, a zero divisor, and the
      one overflow. */
  lemma SignsCorrect(r: DivRegs, i: DivIn)
    requires IsDiv(i.op) && r.neg == NegAt(i) && r.bz == (i.b == 0) && r.a == Abs(i.op, i.a)
    requires i.b != 0 ==> (r.rem % W32 == Abs(i.op, i.a) / Abs(i.op, i.b)
                           && r.rem / W32 == Abs(i.op, i.a) % Abs(i.op, i.b))
    ensures DivResult(r, i.op) == RiscvDiv(i.op, i.a, i.b)
  {
    if i.b == 0 {
      hide RiscvDiv, Negate;
      ZeroDivisor(i.op, i.a);
    } else if SignedDiv(i.op) {
      hide RiscvDiv, Negate, AbsInt, Abs, SignBit;
      AbsIsAbs(i.op, i.a);
      AbsIsAbs(i.op, i.b);
      if i.op == DIV {
        DivSign(i.a, i.b, r.rem % W32);
      } else {
        RemSign(i.a, i.b, r.rem / W32);
      }
    }
  }

  /** From any launch, with anything on the inputs meanwhile: 32 steps in RUN and no fewer, then
      one cycle in DONE that shows the value of the ISA, then IDLE. */
  lemma DividerCorrect(r: DivRegs, first: DivIn, ins: seq<DivIn>, next: DivIn)
    requires r.state == IDLE && first.start && first.op in {DIV, DIVU, REM, REMU} && |ins| == 32
    ensures forall k :: 0 <= k < 32 ==> DivRun(DivNext(r, first), ins[..k]).state == RUN
    ensures var done := DivRun(DivNext(r, first), ins);
            && done.state == DONE && DivResult(done, first.op) == RiscvDiv(first.op, first.a, first.b)
            && DivNext(done, next).state == IDLE
  {
    hide DivInv, Abs, NegAt, DivResult, RiscvDiv, DivRun;
    forall k | 0 <= k < 32
      ensures DivRun(DivNext(r, first), ins[..k]).state == RUN
    {
      var q := Divides(r, first, ins[..k]);
    }
    var done := DivRun(DivNext(r, first), ins);
    var q := Divides(r, first, ins);
    if first.b != 0 {
      AbsZero(first.op, first.b);
      DivEnd(done.a, done.divisor, q, done.rem);
    }
    SignsCorrect(done, first);
  }

  lemma AbsZero(op: Op, x: word)
    ensures Abs(op, x) == 0 <==> x == 0
  {
  }

  /** In every state a run from reset can reach, whatever its inputs, the partial remainder is
      below 2^31 when a step begins: the bit the 32-bit rem_part drops is always 0. */
  predicate Sound(r: DivRegs, q: nat) { r.state == RUN ==> DivInv(r.a, r.divisor, r.cnt, q, r.rem) }

  lemma SoundStep(r: DivRegs, q: nat, i: DivIn) returns (q': nat)
    requires Sound(r, q)
    ensures Sound(DivNext(r, i), q')
  {
    hide DivInv, ShiftSubtract, Abs, NegAt;
    q' := 0;
    if r.state == RUN {
      q' := DivStep(r.a, r.divisor, r.cnt, q, r.rem);
    } else if Launch(r, i) {
      LaunchInv(r, i);
    }
  }

  lemma {:induction false} AlwaysSound(ins: seq<DivIn>) returns (q: nat)
    ensures Sound(DivRun(DIV_RESET, ins), q)
    decreases |ins|
  {
    hide DivInv, DivNext;
    if ins == [] {
      q := 0;
    } else {
      q := AlwaysSound(ins[..|ins| - 1]);
      q := SoundStep(DivRun(DIV_RESET, ins[..|ins| - 1]), q, ins[|ins| - 1]);
    }
  }

  lemma NoBitDropped(ins: seq<DivIn>)
    ensures var r := DivRun(DIV_RESET, ins); r.state == RUN ==> r.rem / W32 < W31 && r.rem * 2 < W64
  {
    hide DivInv, ShiftSubtract, DivRun;
    var r := DivRun(DIV_RESET, ins);
    var q := AlwaysSound(ins);
    if r.state == RUN {
      q := DivStep(r.a, r.divisor, r.cnt, q, r.rem);
    }
  }

  // ------------------------------------------------------------------
  // The result mux
  // ------------------------------------------------------------------

  /** The value each operation stands for in the ISA; LX is the indexed load's address. */
  function RiscvResult(op: Op, a: word, b: word, shamt: nat): word
    requires shamt < 4
  {
    match op
    case ADD => (a + b) % W32
    case SUB => (a - b) % W32
    case LX => (a + b * Pow2(shamt)) % W32
    case SLT => if Signed(a) < Signed(b) then 1 else 0
    case SLTU => if a < b then 1 else 0
    case MUL | MULH | MULHSU | MULHU => RiscvMul(op, a, b)
    case DIV | DIVU | REM | REMU => RiscvDiv(op, a, b)
  }

  /** Everything but a divide answers in its own cycle, whatever the divider is doing and
      whichever multiplier was built; the address tap agrees with the result for ADD and LX. */
  lemma ResultCorrect(op: Op, a: word, b: word, shamt: nat, r: DivRegs, shared: bool)
    requires shamt < 4 && op !in {DIV, DIVU, REM, REMU}
    ensures ResultValid(op, r) && ResultOut(op, a, b, shamt, r, shared) == RiscvResult(op, a, b, shamt)
    ensures op == ADD || op == LX ==> EffectiveAddress(op, a, b, shamt) == RiscvResult(op, a, b, shamt)
  {
    hide MulThree, MulShared, RiscvMul, DivResult, RiscvDiv, AdderSum, CmpLt, Pow2;
    if IsMul(op) {
      MultipliersCorrect(op, a, b);
    } else if op == SLT || op == SLTU {
      CompareCorrect(op, a, b);
    } else {
      AdderCorrect(op, a, b, shamt);
    }
  }

  /** A divide answers only in the one DONE cycle after its 32 steps, with the ISA's value. */
  lemma DivideAnswers(r: DivRegs, first: DivIn, ins: seq<DivIn>, shamt: nat, shared: bool)
    requires shamt < 4 && r.state == IDLE && first.start && first.op in {DIV, DIVU, REM, REMU} && |ins| <= 32
    ensures var s := DivRun(DivNext(r, first), ins);
            && ResultValid(first.op, s) == (|ins| == 32)
            && (|ins| == 32 ==> ResultOut(first.op, first.a, first.b, shamt, s, shared)
                                == RiscvResult(first.op, first.a, first.b, shamt))
  {
    hide DivResult, RiscvDiv, DivRun, DivInv;
    if |ins| == 32 {
      DividerCorrect(r, first, ins, first);
    } else {
      var q := Divides(r, first, ins);
    }
  }
}
