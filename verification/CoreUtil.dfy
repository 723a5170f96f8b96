/** The 16-bit CRC service of core_util.c.

    Reference: division by the reflected polynomial 0xA001, one bit at a time.
    The C code instead keeps the message bits and the register apart and rebuilds
    bit 15 from a carry flag; Crcu8 shows the two agree.
 */
module CoreUtil {

  /** ee_u8, kept in a 16-bit word. */
  type u8 = b: bv16 | b <= 0xff

  function Xor(x: bv16, y: bv16): bv16 { x ^ y }

  function Half(x: bv16): bv16 { x >> 1 }

  predicate Odd(x: bv16) { x & 1 == 1 }

  const POLYNOMIAL: bv16 := 0xA001

  /** One step of division by x^16 + x^15 + x^2 + 1, bits reflected. */
  function Reduce(x: bv16): bv16 {
    if Odd(x) then Xor(Half(x), POLYNOMIAL) else Half(x)
  }

  function Iterate<T>(f: T -> T, x: T, n: nat): T
    decreases n, [x]
  {
    if n == 0 then x else Iterate(f, f(x), n - 1)
  }

  function ReduceN(x: bv16, n: nat): bv16 {
    Iterate(Reduce, x, n)
  }

  const BYTE_BITS: nat := 8

  /** CRC of one byte: fold it into the register, then eight division steps. */
  function CrcU8(data: u8, crc: bv16): bv16 {
    ReduceN(Xor(crc, data), BYTE_BITS)
  }

  function CrcBytes(bytes: seq<u8>, crc: bv16): bv16 {
    if bytes == [] then crc else CrcBytes(bytes[1..], CrcU8(bytes[0], crc))
  }

  function LowByte(v: bv16): u8 { v & 0xff }

  function HighByte(v: bv16): u8 { v >> 8 }

  function CrcU16(newval: bv16, crc: bv16): bv16 {
    CrcU8(HighByte(newval), CrcU8(LowByte(newval), crc))
  }

  /** Conversion of an unsigned integer to 16 bits. */
  function Word(n: nat): bv16 { (n % 0x1_0000) as bv16 }

  function CrcU32(newval: nat, crc: bv16): bv16 {
    CrcU16(Word(newval / 0x1_0000), CrcU16(Word(newval), crc))
  }

  // ------------------------------------------------------------------
  // The loop of crcu8
  // ------------------------------------------------------------------

  /** The register after one turn of the loop; odd is the flag x16. */
  function ShiftIn(odd: bool, crc: bv16): bv16 {
    if odd then ((crc ^ 0x4002) >> 1) | 0x8000 else (crc >> 1) & 0x7fff
  }

  lemma CarryIsFeedback(odd: bool, crc: bv16)
    ensures ShiftIn(odd, crc) == if odd then Xor(Half(crc), POLYNOMIAL) else Half(crc)
  {
  }

  lemma XorHalves(x: bv16, y: bv16)
    ensures Half(Xor(x, y)) == Xor(Half(x), Half(y))
  {
  }

  lemma XorParity(x: bv16, y: bv16)
    ensures Odd(Xor(x, y)) == (Odd(x) != Odd(y))
  {
  }

  lemma XorSwap(x: bv16, y: bv16, z: bv16)
    ensures Xor(Xor(x, z), y) == Xor(Xor(x, y), z)
  {
  }

  /** The carry flag's `| 0x8000` restores the top bit of the reflected polynomial. */
  lemma ShiftInReduces(data: u8, crc: bv16, odd: bool)
    requires odd == Odd(Xor(crc, data))
    ensures Xor(ShiftIn(odd, crc), Half(data)) == Reduce(Xor(crc, data))
  {
    XorHalves(crc, data);
    CarryIsFeedback(odd, crc);
    XorSwap(Half(crc), Half(data), POLYNOMIAL);
  }

  lemma Mismatch(data: u8, crc: bv16, x16: bv16)
    requires x16 == (data & 1) ^ (crc & 1)
    ensures (x16 == 1) == Odd(Xor(crc, data))
  {
    XorParity(crc, data);
  }

  /** The largest byte left after i right shifts. */
  function ShiftLimit(i: nat): u8 {
    match i
    case 0 => 255 case 1 => 127 case 2 => 63 case 3 => 31 case 4 => 15
    case 5 => 7 case 6 => 3 case 7 => 1 case _ => 0
  }

  lemma HalvedLimit(data: u8, i: nat)
    requires i < BYTE_BITS && data <= ShiftLimit(i)
    ensures Half(data) <= ShiftLimit(i + 1)
  {
  }

  lemma Unroll<T>(f: T -> T, x: T, y: T, n: nat)
    requires n > 0 && f(x) == y
    ensures Iterate(f, x, n) == Iterate(f, y, n - 1)
  {
  }

  /** Lines 174-185 of core_util.c. */
  method ShiftTurn(odd: bool, crc0: bv16) returns (crc: bv16)
    ensures crc == ShiftIn(odd, crc0)
  {
    crc := crc0;
    var carry;
    if odd {
      crc := crc ^ 0x4002;
      carry := true;
    } else {
      carry := false;
    }
    crc := crc >> 1;
    if carry {
      crc := crc | 0x8000;
    } else {
      crc := crc & 0x7fff;
    }
  }

  /** crcu8, lines 164-188 of core_util.c. */
  method Crcu8(data0: u8, crc0: bv16) returns (crc: bv16)
    ensures crc == CrcU8(data0, crc0)
  {
    var data, i := data0, 0;
    crc := crc0;
    ghost var x, goal := Xor(crc, data), CrcU8(data, crc);
    while i < BYTE_BITS
      invariant 0 <= i <= BYTE_BITS
      invariant x == Xor(crc, data)
      invariant data <= ShiftLimit(i)
      invariant ReduceN(x, BYTE_BITS - i) == goal
    {
      var x16 := (data & 1) ^ (crc & 1);
      Mismatch(data, crc, x16);
      ShiftInReduces(data, crc, x16 == 1);
      HalvedLimit(data, i);
      Unroll(Reduce, x, Reduce(x), BYTE_BITS - i);
      x := Reduce(x);
      data := Half(data);
      crc := ShiftTurn(x16 == 1, crc);
      i := i + 1;
    }
    assert x == crc;
  }

  // ------------------------------------------------------------------
  // Theory, for any step function f that is additive for a sum op
  // ------------------------------------------------------------------

  lemma {:induction false} IterateHomomorphism<T(!new)>(f: T -> T, op: (T, T) -> T, x: T, y: T, n: nat)
    requires forall a, b :: f(op(a, b)) == op(f(a), f(b))
    ensures Iterate(f, op(x, y), n) == op(Iterate(f, x, n), Iterate(f, y, n))
    decreases n
  {
    if n > 0 {
      IterateHomomorphism(f, op, f(x), f(y), n - 1);
    }
  }

  lemma {:induction false} IterateInjective<T(!new)>(f: T -> T, x: T, y: T, n: nat)
    requires forall a, b :: f(a) == f(b) ==> a == b
    requires Iterate(f, x, n) == Iterate(f, y, n)
    ensures x == y
    decreases n
  {
    if n > 0 {
      IterateInjective(f, f(x), f(y), n - 1);
    }
  }

  lemma {:induction false} IterateFixed<T>(f: T -> T, x: T, n: nat)
    requires f(x) == x
    ensures Iterate(f, x, n) == x
    decreases n
  {
    if n > 0 {
      IterateFixed(f, x, n - 1);
    }
  }

  lemma {:induction false} IterateAdd<T>(f: T -> T, x: T, m: nat, n: nat)
    ensures Iterate(f, Iterate(f, x, m), n) == Iterate(f, x, m + n)
    decreases m
  {
    if m > 0 {
      IterateAdd(f, f(x), m - 1, n);
    }
  }

  /** Every step of f is, seen through `view`, a step of g, as long as `inv` holds. */
  ghost predicate Simulates<A(!new), B>(f: A -> A, g: B -> B, view: A -> B, inv: A -> bool) {
    forall x | inv(x) :: inv(f(x)) && view(f(x)) == g(view(x))
  }

  lemma {:induction false} IterateSimulates<A(!new), B>(f: A -> A, g: B -> B, view: A -> B, inv: A -> bool, a: A, n: nat)
    requires inv(a) && Simulates(f, g, view, inv)
    ensures inv(Iterate(f, a, n)) && view(Iterate(f, a, n)) == Iterate(g, view(a), n)
    decreases n
  {
    if n > 0 {
      IterateSimulates(f, g, view, inv, f(a), n - 1);
    }
  }

  /** Dividing c + lo + hi in one go, or adding the high part after m steps. */
  lemma TwoStages<T(!new)>(f: T -> T, op: (T, T) -> T, c: T, lo: T, hi: T, m: nat, n: nat)
    requires forall a, b :: f(op(a, b)) == op(f(a), f(b))
    requires op(c, op(lo, hi)) == op(op(c, lo), hi)
    ensures Iterate(f, op(c, op(lo, hi)), m + n)
         == Iterate(f, op(Iterate(f, op(c, lo), m), Iterate(f, hi, m)), n)
  {
    IterateHomomorphism(f, op, op(c, lo), hi, m);
    IterateAdd(f, op(c, op(lo, hi)), m, n);
  }

  lemma XorAssociative(x: bv16, y: bv16, z: bv16)
    ensures Xor(x, Xor(y, z)) == Xor(Xor(x, y), z)
  {
  }

  lemma XorUndo(x: bv16, y: bv16)
    ensures Xor(Xor(x, y), y) == x
  {
  }

  lemma XorZero(x: bv16)
    ensures Xor(0, x) == x
  {
  }

  lemma XorSelf(x: bv16)
    ensures Xor(x, x) == 0
  {
  }

  lemma XorCancels(x: bv16, y: bv16)
    ensures Xor(x, y) == 0 <==> x == y
  {
    hide Xor;
    XorUndo(x, y);
    XorZero(y);
    XorSelf(x);
  }

  lemma ReduceLinear(x: bv16, y: bv16)
    ensures Reduce(Xor(x, y)) == Xor(Reduce(x), Reduce(y))
  {
    var u, v, p := Half(x), Half(y), POLYNOMIAL;
    XorHalves(x, y);
    XorParity(x, y);
    if Odd(x) && Odd(y) {
      XorPairCancels(u, v, p);
    } else if Odd(x) {
      XorSwap(u, v, p);
    } else if Odd(y) {
      XorAssociative(u, v, p);
    }
  }

  lemma XorPairCancels(x: bv16, y: bv16, z: bv16)
    ensures Xor(Xor(x, z), Xor(y, z)) == Xor(x, y)
  {
  }

  lemma ReduceInjective(x: bv16, y: bv16)
    requires Reduce(x) == Reduce(y)
    ensures x == y
  {
  }

  ghost predicate Additive(f: bv16 -> bv16, op: (bv16, bv16) -> bv16) {
    forall a, b :: f(op(a, b)) == op(f(a), f(b))
  }

  lemma ReduceIsAdditive()
    ensures Additive(Reduce, Xor)
  {
    forall a, b ensures Reduce(Xor(a, b)) == Xor(Reduce(a), Reduce(b)) {
      ReduceLinear(a, b);
    }
  }

  lemma ReduceNLinear(x: bv16, y: bv16, n: nat)
    ensures ReduceN(Xor(x, y), n) == Xor(ReduceN(x, n), ReduceN(y, n))
  {
    ReduceIsAdditive();
    IterateHomomorphism(Reduce, Xor, x, y, n);
  }

  lemma ReduceTwoStages(c: bv16, lo: bv16, hi: bv16, v: bv16, top: bv16, m: nat, n: nat)
    requires v == Xor(lo, hi) && ReduceN(hi, m) == top
    ensures ReduceN(Xor(c, v), m + n) == ReduceN(Xor(ReduceN(Xor(c, lo), m), top), n)
  {
    ReduceIsAdditive();
    XorAssociative(c, lo, hi);
    TwoStages(Reduce, Xor, c, lo, hi, m, n);
  }

  lemma ReduceNInjective(x: bv16, y: bv16, n: nat)
    requires ReduceN(x, n) == ReduceN(y, n)
    ensures x == y
  {
    forall a, b | Reduce(a) == Reduce(b) ensures a == b {
      ReduceInjective(a, b);
    }
    IterateInjective(Reduce, x, y, n);
  }

  // ------------------------------------------------------------------
  // Properties
  // ------------------------------------------------------------------

  function XorU8(d1: u8, d2: u8): u8 { d1 ^ d2 }

  lemma XorRegroup(c1: bv16, d1: u8, c2: bv16, d2: u8)
    ensures Xor(Xor(c1, c2), XorU8(d1, d2)) == Xor(Xor(c1, d1), Xor(c2, d2))
  {
  }

  /** crcu8 is GF(2)-linear in the pair (data, crc). */
  lemma CrcU8Linear(d1: u8, c1: bv16, d2: u8, c2: bv16)
    ensures CrcU8(XorU8(d1, d2), Xor(c1, c2)) == Xor(CrcU8(d1, c1), CrcU8(d2, c2))
  {
    XorRegroup(c1, d1, c2, d2);
    ReduceNLinear(Xor(c1, d1), Xor(c2, d2), BYTE_BITS);
  }

  lemma ShiftSteps(h: bv16)
    requires h & 0xff == 0
    ensures Reduce(h) == h >> 1 && Reduce(h >> 1) == h >> 2 && Reduce(h >> 2) == h >> 3
    ensures Reduce(h >> 3) == h >> 4 && Reduce(h >> 4) == h >> 5 && Reduce(h >> 5) == h >> 6
    ensures Reduce(h >> 6) == h >> 7 && Reduce(h >> 7) == h >> 8
  {
  }

  /** Eight shifts of a word with a clear low byte never feed back. */
  lemma ReduceHigh(h: bv16, n: nat)
    requires h & 0xff == 0 && n == 8
    ensures ReduceN(h, n) == h >> 8
  {
    var h1, h2, h3, h4, h5, h6, h7 := h >> 1, h >> 2, h >> 3, h >> 4, h >> 5, h >> 6, h >> 7;
    ShiftSteps(h);
    Unroll(Reduce, h, h1, n);
    Unroll(Reduce, h1, h2, n - 1);
    Unroll(Reduce, h2, h3, n - 2);
    Unroll(Reduce, h3, h4, n - 3);
    Unroll(Reduce, h4, h5, n - 4);
    Unroll(Reduce, h5, h6, n - 5);
    Unroll(Reduce, h6, h7, n - 6);
    Unroll(Reduce, h7, h >> 8, n - 7);
  }

  lemma SplitBytes(v: bv16)
    ensures Xor(LowByte(v), v & 0xff00) == v
    ensures (v & 0xff00) & 0xff == 0
    ensures (v & 0xff00) >> 8 == HighByte(v)
  {
  }

  lemma Stages(c: bv16, v: bv16, lo: bv16, hi: bv16, top: bv16, mid: bv16, n: nat)
    requires v == Xor(lo, hi) && ReduceN(hi, n) == top && mid == ReduceN(Xor(c, lo), n)
    ensures ReduceN(Xor(c, v), n + n) == ReduceN(Xor(mid, top), n)
  {
    ReduceTwoStages(c, lo, hi, v, top, n, n);
  }

  /** Byte by byte, low byte first, is one 16-bit division. */
  lemma CrcU16IsDivision(v: bv16, c: bv16)
    ensures CrcU16(v, c) == ReduceN(Xor(c, v), 16)
  {
    SplitBytes(v);
    ReduceHigh(v & 0xff00, BYTE_BITS);
    Stages(c, v, LowByte(v), v & 0xff00, HighByte(v), CrcU8(LowByte(v), c), BYTE_BITS);
  }

  lemma DivisionCancels(x: bv16, n: nat)
    ensures ReduceN(x, n) == 0 <==> x == 0
  {
    assert Reduce(0) == 0;
    IterateFixed(Reduce, 0, n);
    if ReduceN(x, n) == 0 {
      ReduceNInjective(x, 0, n);
    }
  }

  /** A word appended to itself as register cancels, and nothing else does. */
  lemma CrcU16Cancels(v: bv16, c: bv16)
    ensures CrcU16(v, c) == 0 <==> v == c
  {
    CrcU16IsDivision(v, c);
    DivisionCancels(Xor(c, v), BYTE_BITS + BYTE_BITS);
    XorCancels(c, v);
  }

  lemma FoldTwo(b0: u8, b1: u8, rest: seq<u8>, c: bv16)
    ensures CrcBytes([b0, b1] + rest, c) == CrcBytes(rest, CrcU8(b1, CrcU8(b0, c)))
  {
    var s := [b0, b1] + rest;
    assert s[1..] == [b1] + rest;
    assert s[1..][1..] == rest;
  }

  /** crcu32 is the byte-wise fold over its four bytes, low byte first. */
  lemma CrcU32IsFold(n: nat, c: bv16)
    ensures var lo, hi := Word(n), Word(n / 0x1_0000);
            CrcU32(n, c) == CrcBytes([LowByte(lo), HighByte(lo), LowByte(hi), HighByte(hi)], c)
  {
    var lo, hi := Word(n), Word(n / 0x1_0000);
    var a, b, x, y := LowByte(lo), HighByte(lo), LowByte(hi), HighByte(hi);
    FoldTwo(a, b, [x, y], c);
    FoldTwo(x, y, [], CrcU16(lo, c));
    assert [a, b, x, y] == [a, b] + [x, y];
    assert [x, y] == [x, y] + [];
  }

  /** crcu32 of the number that two words stand for: the low word first. */
  lemma CrcU32Words(n: nat, lo: bv16, hi: bv16, c: bv16)
    requires n % 0x1_0000 == lo as int && (n / 0x1_0000) % 0x1_0000 == hi as int
    ensures CrcU32(n, c) == CrcU16(hi, CrcU16(lo, c))
  {
    hide CrcU16, Word;
    WordAt(n, lo);
    WordAt(n / 0x1_0000, hi);
  }

  lemma WordAt(n: nat, w: bv16)
    requires n % 0x1_0000 == w as int
    ensures Word(n) == w
  {
    assert (w as int) as bv16 == w;
  }
}
