/** The instruction encoders of the two gen_hex.py scripts, and what a decoder reads back.

    A field is masked with v % 2^n (Python's & on a negative number is that remainder) and the
    fields, which do not overlap, are added instead of or-ed.
 */
module Encoding {
  import opened Arithmetic
  import opened Words

  const T5 := 0x20
  const T7 := 0x80
  const T8 := 0x100
  const T12 := 0x1000
  const T15 := 0x8000
  const T20 := 0x10_0000
  const T21 := 0x20_0000
  const T25 := 0x200_0000
  const T31 := 0x8000_0000
  const T32 := 0x1_0000_0000

  function RType(f7: int, rs2: int, rs1: int, f3: int, rd: int, op: int): word {
    (f7 % T7) * T25 + (rs2 % T5) * T20 + (rs1 % T5) * T15 + (f3 % 8) * T12 + (rd % T5) * T7 + op % T7
  }

  function IType(imm: int, rs1: int, f3: int, rd: int, op: int): word {
    (imm % T12) * T20 + (rs1 % T5) * T15 + (f3 % 8) * T12 + (rd % T5) * T7 + op % T7
  }

  function SType(imm: int, rs2: int, rs1: int, f3: int, op: int): word {
    ((imm / T5) % T7) * T25 + (rs2 % T5) * T20 + (rs1 % T5) * T15 + (f3 % 8) * T12 + (imm % T5) * T7 + op % T7
  }

  function BType(imm: int, rs2: int, rs1: int, f3: int, op: int): word {
    ((imm / T12) % 2) * T31 + ((imm / T5) % 0x40) * T25 + (rs2 % T5) * T20 + (rs1 % T5) * T15 + (f3 % 8) * T12
    + ((imm / 2) % 0x10) * T8 + ((imm / 0x800) % 2) * T7 + op % T7
  }

  function JType(imm: int, rd: int, op: int): word {
    ((imm / T20) % 2) * T31 + ((imm / 2) % 0x400) * T21 + ((imm / 0x800) % 2) * T20 + ((imm / T12) % T8) * T12
    + (rd % T5) * T7 + op % T7
  }

  function Lui(rd: int, imm20: int): word { (imm20 % T20) * T12 + (rd % T5) * T7 + 0x37 }

  function Addi(rd: int, rs1: int, imm: int): word { IType(imm, rs1, 0, rd, 0x13) }

  /** Lines 102-107: two words, whatever the constant. */
  function Li(rd: int, imm: int): seq<word> {
    var v := imm % T32;
    var hi := (v + 0x800) / T12;
    var lo := v - (hi % T20) * T12;
    [Lui(rd, hi), Addi(rd, rd, (lo + 0x800) % T12 - 0x800)]
  }


  /** c.li: the assertion at its head is its precondition. */
  function CLi(rd: int, imm: int): half
    requires rd != 0 && -32 <= imm < 32
  {
    2 * 0x2000 + ((imm / T5) % 2) * T12 + (rd % T5) * T7 + (imm % T5) * 4 + 1
  }

  // ------------------------------------------------------------------
  // Decoding: section 2.3 of the RISC-V Unprivileged ISA 20191213
  // ------------------------------------------------------------------

  /** The size-valued field that starts at bit value place. */
  function Field(w: nat, place: nat, size: nat): nat
    requires place > 0 && size > 0
  {
    w / place % size
  }

  function DecodeB(w: word): int {
    2 * Field(w, T8, 0x10) + 0x20 * Field(w, T25, 0x40) + 0x800 * Field(w, T7, 2) - T12 * Field(w, T31, 2)
  }

  function DecodeJ(w: word): int {
    2 * Field(w, T21, 0x400) + 0x800 * Field(w, T20, 2) + T12 * Field(w, T12, T8) - T20 * Field(w, T31, 2)
  }

  /** The 12-bit immediate of an I-type word, sign-extended. */
  function DecodeI(w: word): int { Field(w, T20, 0x800) - 0x800 * Field(w, T31, 2) }

  function DecodeS(w: word): int { Field(w, T7, T5) + T5 * Field(w, T25, 0x40) - 0x800 * Field(w, T31, 2) }

  /** What LUI writes. */
  function DecodeU(w: word): word { w / T12 * T12 }

  function DecodeCLi(h: half): int { Field(h, 4, T5) - T5 * Field(h, T12, 2) }

  lemma Extract(w: nat, above: nat, field: nat, below: nat, place: nat, size: nat)
    requires place > 0 && size > 0 && field < size && below < place
    requires w == (above * size + field) * place + below
    ensures Field(w, place, size) == field
  {
    assert w == place * (above * size + field) + below;
    DivModUnique(w, place, above * size + field, below);
    assert above * size + field == size * above + field;
    DivModUnique(above * size + field, size, above, field);
  }

  /** A B-type word with its six fields already cut. */
  lemma BFields(b12: nat, h: nat, rs2: nat, rs1: nat, f3: nat, l: nat, b11: nat, op: nat)
    requires b12 < 2 && h < 0x40 && rs2 < T5 && rs1 < T5 && f3 < 8 && l < 0x10 && b11 < 2 && op < T7
    ensures var w := b12 * T31 + h * T25 + rs2 * T20 + rs1 * T15 + f3 * T12 + l * T8 + b11 * T7 + op;
            && w < T32 && Field(w, T31, 2) == b12 && Field(w, T25, 0x40) == h && Field(w, T20, T5) == rs2
            && Field(w, T15, T5) == rs1 && Field(w, T12, 8) == f3 && Field(w, T8, 0x10) == l && Field(w, T7, 2) == b11
            && Field(w, 1, T7) == op
  {
    hide Field;
    var w := b12 * T31 + h * T25 + rs2 * T20 + rs1 * T15 + f3 * T12 + l * T8 + b11 * T7 + op;
    var u4 := op + b11 * T7;
    var u3 := u4 + l * T8;
    var u2 := u3 + f3 * T12;
    var u1 := u2 + rs1 * T15;
    var u0 := u1 + rs2 * T20;
    var a0 := b12 * 0x40 + h;
    var a1 := a0 * T5 + rs2;
    var a2 := a1 * T5 + rs1;
    var a3 := a2 * 8 + f3;
    var a4 := a3 * 0x10 + l;
    Extract(w, 0, b12, u0 + h * T25, T31, 2);
    Extract(w, b12, h, u0, T25, 0x40);
    Extract(w, a0, rs2, u1, T20, T5);
    Extract(w, a1, rs1, u2, T15, T5);
    Extract(w, a2, f3, u3, T12, 8);
    Extract(w, a3, l, u4, T8, 0x10);
    Extract(w, a4, b11, op, T7, 2);
    Extract(w, a4 * 2 + b11, op, 0, 1, T7);
  }

  lemma BPieces(imm: int)
    ensures var v := 2 * ((imm / 2) % 0x10) + 0x20 * ((imm / 0x20) % 0x40) + 0x800 * ((imm / 0x800) % 2) - 0x1000 * ((imm / 0x1000) % 2);
            v == imm <==> -0x1000 <= imm < 0x1000 && imm % 2 == 0
  {
    var a := imm / 2;
    var b := a / 0x10;
    var c := b / 0x40;
    var d := c / 2;
    Nested(imm, 2, 0x10);
    Nested(imm, 0x20, 0x40);
    Nested(imm, 0x800, 2);
    var l, h, m := a % 0x10, b % 0x40, c % 2;
    BSum(imm, imm % 2, l, h, m, d % 2, d, d / 2);
  }

  lemma BSum(imm: int, r: nat, l: nat, h: nat, m: nat, top: nat, d: int, f: int)
    requires imm == r + 2 * l + 0x20 * h + 0x800 * m + 0x1000 * d && d == 2 * f + top
    requires r < 2 && l < 0x10 && h < 0x40 && m < 2 && top < 2
    ensures 2 * l + 0x20 * h + 0x800 * m - 0x1000 * top == imm <==> -0x1000 <= imm < 0x1000 && r == 0
  {
  }

  lemma BTypeIs(imm: int, rs2: nat, rs1: nat, f3: nat, op: nat)
    requires rs2 < T5 && rs1 < T5 && f3 < 8 && op < T7
    ensures BType(imm, rs2, rs1, f3, op)
            == ((imm / T12) % 2) * T31 + ((imm / T5) % 0x40) * T25 + rs2 * T20 + rs1 * T15 + f3 * T12
               + ((imm / 2) % 0x10) * T8 + ((imm / 0x800) % 2) * T7 + op
  {
  }

  /** A branch offset reads back exactly when it is even and fits in 13 bits. */
  lemma BranchOffset(imm: int, rs2: nat, rs1: nat, f3: nat, op: nat)
    requires rs2 < T5 && rs1 < T5 && f3 < 8 && op < T7
    ensures DecodeB(BType(imm, rs2, rs1, f3, op)) == imm <==> -0x1000 <= imm < 0x1000 && imm % 2 == 0
    ensures var w := BType(imm, rs2, rs1, f3, op);
            Field(w, T20, T5) == rs2 && Field(w, T15, T5) == rs1 && Field(w, T12, 8) == f3 && Field(w, 1, T7) == op
  {
    hide Field, BType;
    BTypeIs(imm, rs2, rs1, f3, op);
    BPieces(imm);
    BFields((imm / T12) % 2, (imm / T5) % 0x40, rs2, rs1, f3, (imm / 2) % 0x10, (imm / 0x800) % 2, op);
  }

  lemma JFields(b20: nat, l: nat, b11: nat, h: nat, rd: nat, op: nat)
    requires b20 < 2 && l < 0x400 && b11 < 2 && h < T8 && rd < T5 && op < T7
    ensures var w := b20 * T31 + l * T21 + b11 * T20 + h * T12 + rd * T7 + op;
            && w < T32 && Field(w, T31, 2) == b20 && Field(w, T21, 0x400) == l && Field(w, T20, 2) == b11
            && Field(w, T12, T8) == h && Field(w, T7, T5) == rd && Field(w, 1, T7) == op
  {
    hide Field;
    var w := b20 * T31 + l * T21 + b11 * T20 + h * T12 + rd * T7 + op;
    var u2 := op + rd * T7;
    var u1 := u2 + h * T12;
    var u0 := u1 + b11 * T20;
    var a0 := b20 * 0x400 + l;
    var a1 := a0 * 2 + b11;
    var a2 := a1 * T8 + h;
    Extract(w, 0, b20, u0 + l * T21, T31, 2);
    Extract(w, b20, l, u0, T21, 0x400);
    Extract(w, a0, b11, u1, T20, 2);
    Extract(w, a1, h, u2, T12, T8);
    Extract(w, a2, rd, op, T7, T5);
    Extract(w, a2 * T5 + rd, op, 0, 1, T7);
  }

  lemma JPieces(imm: int)
    ensures var v := 2 * ((imm / 2) % 0x400) + 0x800 * ((imm / 0x800) % 2) + 0x1000 * ((imm / 0x1000) % 0x100)
                     - 0x10_0000 * ((imm / 0x10_0000) % 2);
            v == imm <==> -0x10_0000 <= imm < 0x10_0000 && imm % 2 == 0
  {
    var a := imm / 2;
    var b := a / 0x400;
    var c := b / 2;
    var d := c / 0x100;
    Nested(imm, 2, 0x400);
    Nested(imm, 0x800, 2);
    Nested(imm, 0x1000, 0x100);
    JSum(imm, imm % 2, a % 0x400, b % 2, c % 0x100, d % 2, d, d / 2);
  }

  lemma JSum(imm: int, r: nat, l: nat, m: nat, h: nat, top: nat, d: int, f: int)
    requires imm == r + 2 * l + 0x800 * m + 0x1000 * h + 0x10_0000 * d && d == 2 * f + top
    requires r < 2 && l < 0x400 && m < 2 && h < 0x100 && top < 2
    ensures 2 * l + 0x800 * m + 0x1000 * h - 0x10_0000 * top == imm <==> -0x10_0000 <= imm < 0x10_0000 && r == 0
  {
  }

  /** A jump offset reads back exactly when it is even and fits in 21 bits. */
  lemma JumpOffset(imm: int, rd: nat, op: nat)
    requires rd < T5 && op < T7
    ensures DecodeJ(JType(imm, rd, op)) == imm <==> -0x10_0000 <= imm < 0x10_0000 && imm % 2 == 0
    ensures Field(JType(imm, rd, op), T7, T5) == rd && Field(JType(imm, rd, op), 1, T7) == op
  {
    hide Field;
    JPieces(imm);
    JFields((imm / T20) % 2, (imm / 2) % 0x400, (imm / 0x800) % 2, (imm / T12) % T8, rd, op);
  }

  lemma IFields(imm: nat, rs1: nat, f3: nat, rd: nat, op: nat)
    requires imm < T12 && rs1 < T5 && f3 < 8 && rd < T5 && op < T7
    ensures var w := imm * T20 + rs1 * T15 + f3 * T12 + rd * T7 + op;
            && w < T32 && Field(w, T20, T12) == imm && Field(w, T20, 0x800) == imm % 0x800
            && Field(w, T31, 2) == imm / 0x800 && Field(w, T15, T5) == rs1 && Field(w, T12, 8) == f3
            && Field(w, T7, T5) == rd && Field(w, 1, T7) == op
  {
    hide Field;
    var w := imm * T20 + rs1 * T15 + f3 * T12 + rd * T7 + op;
    var u2 := op + rd * T7;
    var u1 := u2 + f3 * T12;
    var u0 := u1 + rs1 * T15;
    var a1 := imm * T5 + rs1;
    var a2 := a1 * 8 + f3;
    Extract(w, 0, imm, u0, T20, T12);
    Extract(w, imm / 0x800, imm % 0x800, u0, T20, 0x800);
    Extract(w, 0, imm / 0x800, u0 + imm % 0x800 * T20, T31, 2);
    Extract(w, imm, rs1, u1, T15, T5);
    Extract(w, a1, f3, u2, T12, 8);
    Extract(w, a2, rd, op, T7, T5);
    Extract(w, a2 * T5 + rd, op, 0, 1, T7);
  }

  /** A 12-bit immediate reads back exactly when it fits; its registers and codes always do. The
      CSR instructions put an unsigned 12-bit number in the same field. */
  lemma Immediate(imm: int, rs1: nat, f3: nat, rd: nat, op: nat)
    requires rs1 < T5 && f3 < 8 && rd < T5 && op < T7
    ensures var w := IType(imm, rs1, f3, rd, op);
            && (DecodeI(w) == imm <==> -0x800 <= imm < 0x800) && (Field(w, T20, T12) == imm <==> 0 <= imm < T12)
            && Field(w, T15, T5) == rs1 && Field(w, T12, 8) == f3 && Field(w, T7, T5) == rd && Field(w, 1, T7) == op
  {
    hide Field;
    IFields(imm % T12, rs1, f3, rd, op);
  }

  lemma RFields(f7: nat, rs2: nat, rs1: nat, f3: nat, rd: nat, op: nat)
    requires f7 < T7 && rs2 < T5 && rs1 < T5 && f3 < 8 && rd < T5 && op < T7
    ensures var w := f7 * T25 + rs2 * T20 + rs1 * T15 + f3 * T12 + rd * T7 + op;
            && Field(w, T25, T7) == f7 && Field(w, T20, T5) == rs2 && Field(w, T15, T5) == rs1
            && Field(w, T12, 8) == f3 && Field(w, T7, T5) == rd && Field(w, 1, T7) == op
  {
    hide Field;
    var w := f7 * T25 + rs2 * T20 + rs1 * T15 + f3 * T12 + rd * T7 + op;
    var u3 := op + rd * T7;
    var u2 := u3 + f3 * T12;
    var u1 := u2 + rs1 * T15;
    var a0 := f7 * T5 + rs2;
    var a1 := a0 * T5 + rs1;
    var a2 := a1 * 8 + f3;
    Extract(w, 0, f7, u1 + rs2 * T20, T25, T7);
    Extract(w, f7, rs2, u1, T20, T5);
    Extract(w, a0, rs1, u2, T15, T5);
    Extract(w, a1, f3, u3, T12, 8);
    Extract(w, a2, rd, op, T7, T5);
    Extract(w, a2 * T5 + rd, op, 0, 1, T7);
  }

  lemma RTypeIs(f7: nat, rs2: nat, rs1: nat, f3: nat, rd: nat, op: nat)
    requires f7 < T7 && rs2 < T5 && rs1 < T5 && f3 < 8 && rd < T5 && op < T7
    ensures RType(f7, rs2, rs1, f3, rd, op) == f7 * T25 + rs2 * T20 + rs1 * T15 + f3 * T12 + rd * T7 + op
  {
  }

  /** An R-type word: all six fields read back. */
  lemma RegisterFields(f7: nat, rs2: nat, rs1: nat, f3: nat, rd: nat, op: nat)
    requires f7 < T7 && rs2 < T5 && rs1 < T5 && f3 < 8 && rd < T5 && op < T7
    ensures var w := RType(f7, rs2, rs1, f3, rd, op);
            && Field(w, T25, T7) == f7 && Field(w, T20, T5) == rs2 && Field(w, T15, T5) == rs1
            && Field(w, T12, 8) == f3 && Field(w, T7, T5) == rd && Field(w, 1, T7) == op
  {
    hide Field, RType;
    RTypeIs(f7, rs2, rs1, f3, rd, op);
    RFields(f7, rs2, rs1, f3, rd, op);
  }

  lemma SFields(h: nat, rs2: nat, rs1: nat, f3: nat, l: nat, op: nat)
    requires h < T7 && rs2 < T5 && rs1 < T5 && f3 < 8 && l < T5 && op < T7
    ensures var w := h * T25 + rs2 * T20 + rs1 * T15 + f3 * T12 + l * T7 + op;
            && w < T32 && Field(w, T25, 0x40) == h % 0x40 && Field(w, T31, 2) == h / 0x40 && Field(w, T20, T5) == rs2
            && Field(w, T15, T5) == rs1 && Field(w, T12, 8) == f3 && Field(w, T7, T5) == l && Field(w, 1, T7) == op
  {
    hide Field;
    var w := h * T25 + rs2 * T20 + rs1 * T15 + f3 * T12 + l * T7 + op;
    var u3 := op + l * T7;
    var u2 := u3 + f3 * T12;
    var u1 := u2 + rs1 * T15;
    var u0 := u1 + rs2 * T20;
    var a1 := h * T5 + rs2;
    var a2 := a1 * T5 + rs1;
    var a3 := a2 * 8 + f3;
    Extract(w, h / 0x40, h % 0x40, u0, T25, 0x40);
    Extract(w, 0, h / 0x40, u0 + h % 0x40 * T25, T31, 2);
    Extract(w, h, rs2, u1, T20, T5);
    Extract(w, a1, rs1, u2, T15, T5);
    Extract(w, a2, f3, u3, T12, 8);
    Extract(w, a3, l, op, T7, T5);
    Extract(w, a3 * T5 + l, op, 0, 1, T7);
  }

  lemma SPieces(imm: int)
    ensures var h, l := (imm / 0x20) % 0x80, imm % 0x20;
            l + 0x20 * (h % 0x40) - 0x800 * (h / 0x40) == imm <==> -0x800 <= imm < 0x800
  {
    var q := imm / 0x20;
    var h := q % 0x80;
    assert imm == 0x20 * q + imm % 0x20 && q == 0x80 * (q / 0x80) + h && h == 0x40 * (h / 0x40) + h % 0x40;
  }

  /** A store offset reads back exactly when it fits in 12 bits. */
  lemma StoreOffset(imm: int, rs2: nat, rs1: nat, f3: nat, op: nat)
    requires rs2 < T5 && rs1 < T5 && f3 < 8 && op < T7
    ensures var w := SType(imm, rs2, rs1, f3, op);
            && (DecodeS(w) == imm <==> -0x800 <= imm < 0x800)
            && Field(w, T20, T5) == rs2 && Field(w, T15, T5) == rs1 && Field(w, T12, 8) == f3 && Field(w, 1, T7) == op
  {
    hide Field, DecodeS, SType;
    var h, l := (imm / T5) % T7, imm % T5;
    SFields(h, rs2, rs1, f3, l, op);
    SPieces(imm);
    STypeIs(imm, rs2, rs1, f3, op);
    DecodeSIs(SType(imm, rs2, rs1, f3, op));
  }

  lemma STypeIs(imm: int, rs2: nat, rs1: nat, f3: nat, op: nat)
    requires rs2 < T5 && rs1 < T5 && f3 < 8 && op < T7
    ensures SType(imm, rs2, rs1, f3, op)
            == ((imm / T5) % T7) * T25 + rs2 * T20 + rs1 * T15 + f3 * T12 + (imm % T5) * T7 + op
  {
  }

  lemma DecodeSIs(w: word)
    ensures DecodeS(w) == Field(w, T7, T5) + T5 * Field(w, T25, 0x40) - 0x800 * Field(w, T31, 2)
  {
    hide Field;
  }

  /** Running the two words: the first leaves its upper 20 bits in rd, the second adds its
      sign-extended immediate to the same register. The register ends at the constant. */
  lemma LiLoads(rd: nat, imm: int)
    requires rd < T5
    ensures var ws := Li(rd, imm);
            && |ws| == 2 && (DecodeU(ws[0]) + DecodeI(ws[1])) % T32 == imm % T32
            && Field(ws[0], T7, T5) == rd && Field(ws[1], T7, T5) == rd && Field(ws[1], T15, T5) == rd
            && Field(ws[0], 1, T7) == 0x37 && Field(ws[1], 1, T7) == 0x13
  {
    hide Field;
    var v := imm % T32;
    var hi := (v + 0x800) / T12;
    var lo := v - (hi % T20) * T12;
    var low := (lo + 0x800) % T12 - 0x800;
    LuiFields(hi % T20, rd);
    Immediate(low, rd, 0, rd, 0x13);
    assert v + 0x800 == T12 * hi + (v + 0x800) % T12;
    LowPart(v);
  }

  lemma LowPart(v: nat)
    requires v < T32
    ensures var hi := (v + 0x800) / T12;
            var lo := v - (hi % T20) * T12;
            ((hi % T20) * T12 + ((lo + 0x800) % T12 - 0x800)) % T32 == v
  {
    var hi := (v + 0x800) / T12;
    var r := (v + 0x800) % T12;
    assert v + 0x800 == T12 * hi + r;
    if hi < T20 {
      assert hi % T20 == hi && v - hi * T12 + 0x800 == r;
    } else {
      assert hi == T20 && hi % T20 == 0;
      assert (v + 0x800) % T12 == r;
    }
  }

  lemma LuiFields(imm20: nat, rd: nat)
    requires imm20 < T20 && rd < T5
    ensures var w := Lui(rd, imm20);
            DecodeU(w) == imm20 * T12 && Field(w, T7, T5) == rd && Field(w, 1, T7) == 0x37
  {
    hide Field;
    var w := imm20 * T12 + rd * T7 + 0x37;
    DivModUnique(w, T12, imm20, rd * T7 + 0x37);
    Extract(w, imm20, rd, 0x37, T7, T5);
    Extract(w, imm20 * T5 + rd, 0x37, 0, 1, T7);
  }

  /** c.li: funct3 010, quadrant 01, register and immediate read back. */
  lemma CLiReads(rd: nat, imm: int)
    requires 0 < rd < T5 && -32 <= imm < 32
    ensures var h := CLi(rd, imm);
            && DecodeCLi(h) == imm && Field(h, T7, T5) == rd && Field(h, 0x2000, 8) == 2 && Field(h, 1, 4) == 1
  {
    hide Field;
    var b, l := (imm / T5) % 2, imm % T5;
    var h := 2 * 0x2000 + b * T12 + rd * T7 + l * 4 + 1;
    Extract(h, 0, 2, b * T12 + rd * T7 + l * 4 + 1, 0x2000, 8);
    Extract(h, 2, b, rd * T7 + l * 4 + 1, T12, 2);
    Extract(h, 2 * 2 + b, rd, l * 4 + 1, T7, T5);
    Extract(h, (2 * 2 + b) * T5 + rd, l, 1, 4, T5);
    Extract(h, ((2 * 2 + b) * T5 + rd) * T5 + l, 1, 0, 1, 4);
  }
}
