/** The two-pass assembler of the gen_hex.py scripts and the packing of its words into lines of
    64 bits. Register and CSR names are taken as their numbers.
 */
module Assembler {
  import opened Encoding
  import opened Words

  datatype Operand = Number(v: int) | Address(name: string)

  datatype Instr =
    | LoadImm(rd: nat, value: Operand)
    | Raw(w: word)
    | Wfi
    | Mret
    | Store(rs2: nat, off: int, rs1: nat)
    | Load(rd: nat, off: int, rs1: nat)
    | AddImm(rd: nat, rs1: nat, imm: int)
    | AndImm(rd: nat, rs1: nat, imm: int)
    | And(rd: nat, rs1: nat, rs2: nat)
    | Div(rd: nat, rs1: nat, rs2: nat)
    | BranchNe(rs1: nat, rs2: nat, target: string)
    | Jump(target: string)
    | JumpTo(address: int)
    | CsrWrite(csr: nat, rs: nat)
    | CsrSet(csr: nat, rs: nat)
    | CsrRead(rd: nat, csr: nat)
    | Unknown(mnemonic: string)

  /** A row of the program table; an empty label is no label. */
  datatype Entry = Entry(name: string, instr: Instr)

  type Program = seq<Entry>
  type Labels = map<string, nat>

  /** Either image, or what stops the script: a KeyError or an unknown mnemonic. */
  datatype Outcome = Image(labels: Labels, words: seq<word>) | Stopped(name: string)

  // ------------------------------------------------------------------
  // The sizing pass
  // ------------------------------------------------------------------

  function Size(i: Instr): nat { if i.LoadImm? then 2 else 1 }

  /** The words that come before entry k. */
  function Start(p: Program, k: nat): nat
    requires k <= |p|
  {
    if k == 0 then 0 else Start(p, k - 1) + Size(p[k - 1].instr)
  }

  /** The labels of the first k entries; a label given twice keeps its last place. */
  function LabelsTo(p: Program, k: nat): Labels
    requires k <= |p|
  {
    if k == 0 then map[]
    else if p[k - 1].name == "" then LabelsTo(p, k - 1)
    else LabelsTo(p, k - 1)[p[k - 1].name := 4 * Start(p, k - 1)]
  }

  function LabelsOf(p: Program): Labels { LabelsTo(p, |p|) }

  // ------------------------------------------------------------------
  // The emitting pass
  // ------------------------------------------------------------------

  predicate Resolves(i: Instr, labels: Labels) {
    match i
    case LoadImm(_, Address(l)) => l in labels
    case BranchNe(_, _, l) => l in labels
    case Jump(l) => l in labels
    case Unknown(_) => false
    case _ => true
  }

  /** The name in the error when an entry does not resolve. */
  function Culprit(i: Instr): string {
    match i
    case LoadImm(_, Address(l)) => l
    case BranchNe(_, _, l) => l
    case Jump(l) => l
    case Unknown(m) => m
    case _ => ""
  }

  function Value(v: Operand, labels: Labels): int
    requires v.Address? ==> v.name in labels
  {
    if v.Address? then labels[v.name] else v.v
  }

  function Encode(i: Instr, labels: Labels, pc: nat): seq<word>
    requires Resolves(i, labels)
  {
    match i
    case LoadImm(rd, v) => Li(rd, Value(v, labels))
    case Raw(w) => [w]
    case Wfi => [0x1050_0073]
    case Mret => [0x3020_0073]
    case Store(rs2, off, rs1) => [SType(off, rs2, rs1, 2, 0x23)]
    case Load(rd, off, rs1) => [IType(off, rs1, 2, rd, 0x03)]
    case AddImm(rd, rs1, imm) => [Addi(rd, rs1, imm)]
    case AndImm(rd, rs1, imm) => [IType(imm, rs1, 7, rd, 0x13)]
    case And(rd, rs1, rs2) => [RType(0, rs2, rs1, 7, rd, 0x33)]
    case Div(rd, rs1, rs2) => [RType(1, rs2, rs1, 4, rd, 0x33)]
    case BranchNe(rs1, rs2, l) => [BType(labels[l] - pc, rs2, rs1, 1, 0x63)]
    case Jump(l) => [JType(labels[l] - pc, 0, 0x6f)]
    case JumpTo(a) => [JType(a - pc, 0, 0x6f)]
    case CsrWrite(csr, rs) => [IType(csr, rs, 1, 0, 0x73)]
    case CsrSet(csr, rs) => [IType(csr, rs, 2, 0, 0x73)]
    case CsrRead(rd, csr) => [IType(csr, 0, 2, rd, 0x73)]
  }

  lemma EncodeSize(i: Instr, labels: Labels, pc: nat)
    requires Resolves(i, labels)
    ensures |Encode(i, labels, pc)| == Size(i)
  {
    hide RType, IType, SType, BType, JType, Lui, Addi;
  }

  predicate AllResolve(p: Program, labels: Labels, k: nat)
    requires k <= |p|
  {
    forall j :: 0 <= j < k ==> Resolves(p[j].instr, labels)
  }

  /** The words of the first k entries. */
  function WordsTo(p: Program, labels: Labels, k: nat): seq<word>
    requires k <= |p| && AllResolve(p, labels, k)
  {
    if k == 0 then [] else WordsTo(p, labels, k - 1) + Encode(p[k - 1].instr, labels, 4 * Start(p, k - 1))
  }

  lemma {:induction false} WordsLength(p: Program, labels: Labels, k: nat)
    requires k <= |p| && AllResolve(p, labels, k)
    ensures |WordsTo(p, labels, k)| == Start(p, k)
    decreases k
  {
    hide Encode, Size;
    if k == 0 {
    } else {
      WordsLength(p, labels, k - 1);
      EncodeSize(p[k - 1].instr, labels, 4 * Start(p, k - 1));
    }
  }

  /** The script's whole result. */
  ghost predicate IsOutcome(p: Program, r: Outcome) {
    var labels := LabelsOf(p);
    if AllResolve(p, labels, |p|) then r == Image(labels, WordsTo(p, labels, |p|))
    else exists k :: 0 <= k < |p| && AllResolve(p, labels, k) && !Resolves(p[k].instr, labels)
                     && r == Stopped(Culprit(p[k].instr))
  }

  /** Lines 175-219. */
  method Assemble(p: Program) returns (r: Outcome)
    ensures IsOutcome(p, r)
  {
    hide Encode, Size;
    var labels: Labels, pc := map[], 0;
    for k := 0 to |p|
      invariant labels == LabelsTo(p, k) && pc == 4 * Start(p, k)
    {
      if p[k].name != "" {
        labels := labels[p[k].name := pc];
      }
      pc := pc + 4 * Size(p[k].instr);
    }
    var words: seq<word> := [];
    pc := 0;
    for k := 0 to |p|
      invariant AllResolve(p, labels, k) && words == WordsTo(p, labels, k) && pc == 4 * Start(p, k)
    {
      if !Resolves(p[k].instr, labels) {
        return Stopped(Culprit(p[k].instr));
      }
      var out := Encode(p[k].instr, labels, pc);
      EncodeSize(p[k].instr, labels, pc);
      words := words + out;
      pc := pc + 4 * |out|;
    }
    r := Image(labels, words);
  }

  // ------------------------------------------------------------------
  // What the two passes agree on
  // ------------------------------------------------------------------

  /** The entry a label stands for: the last one that carries it. */
  predicate Carries(p: Program, k: nat, l: string) {
    k < |p| && l != "" && p[k].name == l && forall j :: k < j < |p| ==> p[j].name != l
  }

  lemma {:induction false} LabelsToAddress(p: Program, k: nat, n: nat, l: string)
    requires Carries(p, k, l) && k < n <= |p|
    ensures l in LabelsTo(p, n) && LabelsTo(p, n)[l] == 4 * Start(p, k)
    decreases n
  {
    hide Start;
    if n == k + 1 {
    } else {
      LabelsToAddress(p, k, n - 1, l);
    }
  }

  /** The sizing pass gives each label 4 times the index of its entry's first emitted word. */
  lemma LabelIsPlace(p: Program, k: nat, l: string)
    requires Carries(p, k, l) && AllResolve(p, LabelsOf(p), |p|)
    ensures l in LabelsOf(p) && LabelsOf(p)[l] == 4 * |WordsTo(p, LabelsOf(p), k)|
  {
    LabelsToAddress(p, k, |p|, l);
    WordsLength(p, LabelsOf(p), k);
  }

  /** Conversely every label it knows is carried by some entry. */
  lemma {:induction false} LabelIsCarried(p: Program, n: nat, l: string) returns (k: nat)
    requires n <= |p| && l in LabelsTo(p, n)
    ensures k < n && l != "" && p[k].name == l && (forall j :: k < j < n ==> p[j].name != l)
    decreases n
  {
    if p[n - 1].name == l && l != "" {
      k := n - 1;
    } else {
      k := LabelIsCarried(p, n - 1, l);
    }
  }

  lemma {:induction false} WordsPrefix(p: Program, labels: Labels, k: nat, n: nat)
    requires k <= n <= |p| && AllResolve(p, labels, n)
    ensures WordsTo(p, labels, k) <= WordsTo(p, labels, n)
    decreases n
  {
    hide Encode, Start;
    if k < n {
      WordsPrefix(p, labels, k, n - 1);
    }
  }

  /** The words of entry k follow those of the entries before it, at its place. */
  lemma EntryWords(p: Program, labels: Labels, k: nat, n: nat)
    requires k < n <= |p| && AllResolve(p, labels, n)
    ensures |WordsTo(p, labels, k)| == Start(p, k)
    ensures WordsTo(p, labels, k) + Encode(p[k].instr, labels, 4 * Start(p, k)) <= WordsTo(p, labels, n)
  {
    hide Encode, Size, Start, Resolves;
    WordsLength(p, labels, k);
    WordsPrefix(p, labels, k + 1, n);
  }

  /** The word at entry k's place, for an entry of one word. */
  lemma EntryWord(p: Program, labels: Labels, k: nat, w: word)
    requires k < |p| && AllResolve(p, labels, |p|)
    requires Encode(p[k].instr, labels, 4 * Start(p, k)) == [w]
    ensures Start(p, k) < |WordsTo(p, labels, |p|)| && WordsTo(p, labels, |p|)[Start(p, k)] == w
  {
    hide Encode, WordsTo, Start, Resolves;
    EntryWords(p, labels, k, |p|);
    assert (WordsTo(p, labels, k) + [w])[Start(p, k)] == w;
  }

  lemma {:induction false} LabelsAligned(p: Program, n: nat, l: string)
    requires n <= |p| && l in LabelsTo(p, n)
    ensures LabelsTo(p, n)[l] % 4 == 0
    decreases n
  {
    if p[n - 1].name != l || l == "" {
      LabelsAligned(p, n - 1, l);
    }
  }

  lemma Even(x: int, half: int)
    requires x == 2 * half
    ensures x % 2 == 0
  {
  }

  lemma EvenOffset(target: nat, k: nat)
    requires target % 4 == 0
    ensures (target - 4 * k) % 2 == 0
  {
    Even(target - 4 * k, 2 * (target / 4) - 2 * k);
  }

  /** A branch in the image, decoded at its own address, goes to its label exactly when the label
      is within reach. */
  lemma BranchReaches(p: Program, k: nat)
    requires k < |p| && AllResolve(p, LabelsOf(p), |p|) && p[k].instr.BranchNe?
    requires p[k].instr.rs1 < T5 && p[k].instr.rs2 < T5
    ensures var pc, target := 4 * Start(p, k), LabelsOf(p)[p[k].instr.target];
            && Start(p, k) < |WordsTo(p, LabelsOf(p), |p|)|
            && (pc + DecodeB(WordsTo(p, LabelsOf(p), |p|)[Start(p, k)]) == target <==> -0x1000 <= target - pc < 0x1000)
  {
    hide BType, DecodeB, LabelsTo, WordsTo, Start;
    var pc, i := 4 * Start(p, k), p[k].instr;
    var offset := LabelsOf(p)[i.target] - pc;
    EntryWord(p, LabelsOf(p), k, BType(offset, i.rs2, i.rs1, 1, 0x63));
    LabelsAligned(p, |p|, i.target);
    EvenOffset(LabelsOf(p)[i.target], Start(p, k));
    BranchOffset(offset, i.rs2, i.rs1, 1, 0x63);
  }

  /** The same for a jump. */
  lemma JumpReaches(p: Program, k: nat)
    requires k < |p| && AllResolve(p, LabelsOf(p), |p|) && p[k].instr.Jump?
    ensures var pc, target := 4 * Start(p, k), LabelsOf(p)[p[k].instr.target];
            && Start(p, k) < |WordsTo(p, LabelsOf(p), |p|)|
            && (pc + DecodeJ(WordsTo(p, LabelsOf(p), |p|)[Start(p, k)]) == target
                <==> -0x10_0000 <= target - pc < 0x10_0000)
  {
    hide JType, DecodeJ, LabelsTo, WordsTo, Start;
    var pc, i := 4 * Start(p, k), p[k].instr;
    var offset := LabelsOf(p)[i.target] - pc;
    EntryWord(p, LabelsOf(p), k, JType(offset, 0, 0x6f));
    LabelsAligned(p, |p|, i.target);
    EvenOffset(LabelsOf(p)[i.target], Start(p, k));
    JumpOffset(offset, 0, 0x6f);
  }

  /** A jump to a number reaches it exactly when it is even and within reach. */
  lemma JumpToReaches(p: Program, k: nat)
    requires k < |p| && AllResolve(p, LabelsOf(p), |p|) && p[k].instr.JumpTo?
    ensures var pc, target := 4 * Start(p, k), p[k].instr.address;
            && Start(p, k) < |WordsTo(p, LabelsOf(p), |p|)|
            && (pc + DecodeJ(WordsTo(p, LabelsOf(p), |p|)[Start(p, k)]) == target
                <==> -0x10_0000 <= target - pc < 0x10_0000 && target % 2 == 0)
  {
    hide JType, DecodeJ, LabelsTo, WordsTo, Start;
    var pc, i := 4 * Start(p, k), p[k].instr;
    EntryWord(p, LabelsOf(p), k, JType(i.address - pc, 0, 0x6f));
    EvenTarget(i.address, Start(p, k));
    JumpOffset(i.address - pc, 0, 0x6f);
  }

  lemma EvenTarget(target: int, k: nat)
    ensures (target - 4 * k) % 2 == target % 2
  {
    if target % 2 == 0 {
      Even(target - 4 * k, target / 2 - 2 * k);
    } else {
      Even(target - 4 * k - 1, target / 2 - 2 * k);
    }
  }

  /** An li in the image loads its constant, or the address of its label. */
  lemma LiInImage(p: Program, k: nat)
    requires k < |p| && AllResolve(p, LabelsOf(p), |p|) && p[k].instr.LoadImm? && p[k].instr.rd < T5
    ensures var s, ws := Start(p, k), WordsTo(p, LabelsOf(p), |p|);
            && s + 1 < |ws|
            && (DecodeU(ws[s]) + DecodeI(ws[s + 1])) % T32 == Value(p[k].instr.value, LabelsOf(p)) % T32
  {
    hide Li, DecodeU, DecodeI, LabelsTo, WordsTo, Start;
    var i, s, ws := p[k].instr, Start(p, k), WordsTo(p, LabelsOf(p), |p|);
    EntryWords(p, LabelsOf(p), k, |p|);
    LiLoads(i.rd, Value(i.value, LabelsOf(p)));
    var before, out := WordsTo(p, LabelsOf(p), k), Li(i.rd, Value(i.value, LabelsOf(p)));
    assert (before + out)[s] == out[0] && (before + out)[s + 1] == out[1];
  }

  // ------------------------------------------------------------------
  // What the words are
  // ------------------------------------------------------------------

  predicate Codes(w: word, opcode: nat, funct3: nat) { Field(w, 1, T7) == opcode && Field(w, T12, 8) == funct3 }

  predicate Registers(w: word, rd: nat, rs1: nat) { Field(w, T7, T5) == rd && Field(w, T15, T5) == rs1 }

  /** The word is this instruction: its codes in the listings of chapter 24 of the RISC-V Unprivileged
      ISA 20191213 (WFI and MRET: section 3.3 of the Privileged ISA 20211203), its registers and its
      immediate. A branch or jump goes to its target from pc. An li is two words: see LiLoads. */
  predicate Reads(w: word, i: Instr, labels: Labels, pc: nat)
    requires Resolves(i, labels)
  {
    match i
    case LoadImm(_, _) => false
    case Raw(x) => w == x
    case Wfi => Codes(w, 0x73, 0) && Registers(w, 0, 0) && Field(w, T20, T12) == 0x105
    case Mret => Codes(w, 0x73, 0) && Registers(w, 0, 0) && Field(w, T20, T12) == 0x302
    case Store(rs2, off, rs1) =>
      Codes(w, 0x23, 2) && Field(w, T20, T5) == rs2 && Field(w, T15, T5) == rs1 && DecodeS(w) == off
    case Load(rd, off, rs1) => Codes(w, 0x03, 2) && Registers(w, rd, rs1) && DecodeI(w) == off
    case AddImm(rd, rs1, imm) => Codes(w, 0x13, 0) && Registers(w, rd, rs1) && DecodeI(w) == imm
    case AndImm(rd, rs1, imm) => Codes(w, 0x13, 7) && Registers(w, rd, rs1) && DecodeI(w) == imm
    case And(rd, rs1, rs2) =>
      Codes(w, 0x33, 7) && Registers(w, rd, rs1) && Field(w, T20, T5) == rs2 && Field(w, T25, T7) == 0
    case Div(rd, rs1, rs2) =>
      Codes(w, 0x33, 4) && Registers(w, rd, rs1) && Field(w, T20, T5) == rs2 && Field(w, T25, T7) == 1
    case BranchNe(rs1, rs2, l) =>
      Codes(w, 0x63, 1) && Field(w, T15, T5) == rs1 && Field(w, T20, T5) == rs2 && pc + DecodeB(w) == labels[l]
    case Jump(l) => Field(w, 1, T7) == 0x6f && Field(w, T7, T5) == 0 && pc + DecodeJ(w) == labels[l]
    case JumpTo(a) => Field(w, 1, T7) == 0x6f && Field(w, T7, T5) == 0 && pc + DecodeJ(w) == a
    case CsrWrite(csr, rs) => Codes(w, 0x73, 1) && Registers(w, 0, rs) && Field(w, T20, T12) == csr
    case CsrSet(csr, rs) => Codes(w, 0x73, 2) && Registers(w, 0, rs) && Field(w, T20, T12) == csr
    case CsrRead(rd, csr) => Codes(w, 0x73, 2) && Registers(w, rd, 0) && Field(w, T20, T12) == csr
  }

  predicate Signed12(imm: int) { -0x800 <= imm < 0x800 }

  predicate Near(offset: int, reach: int) { -reach <= offset < reach && offset % 2 == 0 }

  /** The operands fit their fields. */
  predicate Encodable(i: Instr, labels: Labels, pc: nat)
    requires Resolves(i, labels)
  {
    match i
    case LoadImm(rd, _) => rd < T5
    case Store(rs2, off, rs1) => rs2 < T5 && rs1 < T5 && Signed12(off)
    case Load(rd, off, rs1) => rd < T5 && rs1 < T5 && Signed12(off)
    case AddImm(rd, rs1, imm) => rd < T5 && rs1 < T5 && Signed12(imm)
    case AndImm(rd, rs1, imm) => rd < T5 && rs1 < T5 && Signed12(imm)
    case And(rd, rs1, rs2) => rd < T5 && rs1 < T5 && rs2 < T5
    case Div(rd, rs1, rs2) => rd < T5 && rs1 < T5 && rs2 < T5
    case BranchNe(rs1, rs2, l) => rs1 < T5 && rs2 < T5 && Near(labels[l] - pc, 0x1000)
    case Jump(l) => Near(labels[l] - pc, 0x10_0000)
    case JumpTo(a) => Near(a - pc, 0x10_0000)
    case CsrWrite(csr, rs) => csr < T12 && rs < T5
    case CsrSet(csr, rs) => csr < T12 && rs < T5
    case CsrRead(rd, csr) => csr < T12 && rd < T5
    case _ => true
  }

  /** Every instruction of one word is emitted as the word that is this instruction. */
  lemma EncodeReads(i: Instr, labels: Labels, pc: nat)
    requires Resolves(i, labels) && Encodable(i, labels, pc) && !i.LoadImm?
    ensures |Encode(i, labels, pc)| == 1 && Reads(Encode(i, labels, pc)[0], i, labels, pc)
  {
    hide Field, RType, IType, SType, BType, JType, DecodeI, DecodeS, DecodeB, DecodeJ;
    EncodeSize(i, labels, pc);
    match i
    case Store(rs2, off, rs1) => StoreOffset(off, rs2, rs1, 2, 0x23);
    case Load(rd, off, rs1) => Immediate(off, rs1, 2, rd, 0x03);
    case AddImm(rd, rs1, imm) => Immediate(imm, rs1, 0, rd, 0x13);
    case AndImm(rd, rs1, imm) => Immediate(imm, rs1, 7, rd, 0x13);
    case And(rd, rs1, rs2) => RegisterFields(0, rs2, rs1, 7, rd, 0x33);
    case Div(rd, rs1, rs2) => RegisterFields(1, rs2, rs1, 4, rd, 0x33);
    case BranchNe(rs1, rs2, l) => BranchOffset(labels[l] - pc, rs2, rs1, 1, 0x63);
    case Jump(l) => JumpOffset(labels[l] - pc, 0, 0x6f);
    case JumpTo(a) => JumpOffset(a - pc, 0, 0x6f);
    case CsrWrite(csr, rs) => Immediate(csr, rs, 1, 0, 0x73);
    case CsrSet(csr, rs) => Immediate(csr, rs, 2, 0, 0x73);
    case CsrRead(rd, csr) => Immediate(csr, 0, 2, rd, 0x73);
    case Wfi => SystemFields(0x105);
    case Mret => SystemFields(0x302);
    case Raw(_) =>
  }

  lemma SystemFields(funct12: nat)
    requires funct12 < T12
    ensures var w := funct12 * T20 + 0x73;
            w < T32 && Codes(w, 0x73, 0) && Registers(w, 0, 0) && Field(w, T20, T12) == funct12
  {
    hide Field;
    IFields(funct12, 0, 0, 0, 0x73);
  }

  // ------------------------------------------------------------------
  // Lines of 64 bits
  // ------------------------------------------------------------------


  function Padded(ws: seq<word>): seq<word> { if |ws| % 2 == 1 then ws + [0] else ws }

  function Line(lo: word, hi: word): dword { hi * T32 + lo }

  function Pairs(ws: seq<word>): seq<dword>
    requires |ws| % 2 == 0
  {
    if ws == [] then [] else Pairs(ws[..|ws| - 2]) + [Line(ws[|ws| - 2], ws[|ws| - 1])]
  }

  /** Lines 237-239. */
  method Pack(words: seq<word>) returns (lines: seq<dword>)
    ensures lines == Pairs(Padded(words))
  {
    var padded := if |words| % 2 == 1 then words + [0] else words;
    lines := [];
    var i := 0;
    while i < |padded|
      invariant 0 <= i <= |padded| && i % 2 == 0 && lines == Pairs(padded[..i])
    {
      assert padded[..i + 2][..i] == padded[..i];
      lines := lines + [Line(padded[i], padded[i + 1])];
      i := i + 2;
    }
    assert padded[..i] == padded;
  }

  /** The words as the fetch port finds them: the low half of a line is the lower address. */
  function Unpack(lines: seq<dword>): seq<word> {
    if lines == [] then [] else
      Unpack(lines[..|lines| - 1]) + [lines[|lines| - 1] % T32, lines[|lines| - 1] / T32]
  }

  lemma LineParts(lo: word, hi: word)
    ensures Line(lo, hi) % T32 == lo && Line(lo, hi) / T32 == hi
  {
  }

  lemma UnpackMore(lines: seq<dword>, lo: word, hi: word)
    ensures Unpack(lines + [Line(lo, hi)]) == Unpack(lines) + [lo, hi]
  {
    hide Line;
    LineParts(lo, hi);
    assert (lines + [Line(lo, hi)])[..|lines|] == lines;
  }

  lemma PairsMore(ws: seq<word>, lo: word, hi: word)
    requires |ws| % 2 == 0
    ensures Pairs(ws + [lo, hi]) == Pairs(ws) + [Line(lo, hi)]
  {
    hide Line;
    assert (ws + [lo, hi])[..|ws|] == ws;
  }

  lemma {:induction false} PackRoundTrip(ws: seq<word>)
    requires |ws| % 2 == 0
    ensures Unpack(Pairs(ws)) == ws && 2 * |Pairs(ws)| == |ws|
    decreases |ws|
  {
    if ws == [] {
    } else {
      var before, lo, hi := ws[..|ws| - 2], ws[|ws| - 2], ws[|ws| - 1];
      PackRoundTrip(before);
      hide Line, Unpack, Pairs;
      PairsMore(before, lo, hi);
      UnpackMore(Pairs(before), lo, hi);
      assert ws == before + [lo, hi];
    }
  }

  /** Every word of the image is read back at its own index. */
  lemma WordsInLines(ws: seq<word>)
    ensures |ws| <= |Unpack(Pairs(Padded(ws)))| <= |ws| + 1 && Unpack(Pairs(Padded(ws)))[..|ws|] == ws
  {
    PackRoundTrip(Padded(ws));
  }

  // ------------------------------------------------------------------
  // The edge block of ifault_hold/gen_hex.py
  // ------------------------------------------------------------------

  const IMEM_BYTES := 0x4000
  const EDGE := 0x3ff8

  /** Lines 222-224: four compressed instructions, lowest address first. */
  function EdgeLine(h0: half, h1: half, h2: half, h3: half): dword { Line(h1 * 0x1_0000 + h0, h3 * 0x1_0000 + h2) }

  lemma EdgeReads(h0: half, h1: half, h2: half, h3: half)
    ensures var e := EdgeLine(h0, h1, h2, h3);
            && e % 0x1_0000 == h0 && (e / 0x1_0000) % 0x1_0000 == h1
            && (e / T32) % 0x1_0000 == h2 && e / T32 / 0x1_0000 == h3
  {
    var w0, w1 := h1 * 0x1_0000 + h0, h3 * 0x1_0000 + h2;
    var e := EdgeLine(h0, h1, h2, h3);
    assert e / T32 == w1;
    assert e == 0x1_0000 * (w1 * 0x1_0000 + h1) + h0;
    assert e / 0x1_0000 == w1 * 0x1_0000 + h1;
  }

  /** The check at line 200 keeps the head of the image off the edge block, which is the last
      line of the memory. */
  lemma HeadBelowEdge(words: seq<word>)
    ensures 4 * |words| <= EDGE <==> |Pairs(Padded(words))| <= EDGE / 8
    ensures EDGE / 8 + 1 == IMEM_BYTES / 8
  {
    PackRoundTrip(Padded(words));
  }
}
