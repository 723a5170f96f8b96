/** SHA-256: the specification (FIPS 180-4) and its constants.

    Bytes are integers below 256; words are 32-bit vectors, so that addition wraps by itself.
 */
module Sha256Spec {
  import opened PrimeTable
  import opened Words

  const TWO32 := 0x1_0000_0000

  // ------------------------------------------------------------------
  // Constants
  // ------------------------------------------------------------------

  /** The table of lines 69-86 of sha256.c. */
  function K(t: nat): word
    requires t < 64
  {
    if t < 16 then K0(t) else if t < 32 then K1(t - 16) else if t < 48 then K2(t - 32) else K3(t - 48)
  }

  function K0(t: nat): word
    requires t < 16
  {
    match t
    case 0 => 0x428a_2f98
    case 1 => 0x7137_4491
    case 2 => 0xb5c0_fbcf
    case 3 => 0xe9b5_dba5
    case 4 => 0x3956_c25b
    case 5 => 0x59f1_11f1
    case 6 => 0x923f_82a4
    case 7 => 0xab1c_5ed5
    case 8 => 0xd807_aa98
    case 9 => 0x1283_5b01
    case 10 => 0x2431_85be
    case 11 => 0x550c_7dc3
    case 12 => 0x72be_5d74
    case 13 => 0x80de_b1fe
    case 14 => 0x9bdc_06a7
    case _ => 0xc19b_f174
  }

  function K1(t: nat): word
    requires t < 16
  {
    match t
    case 0 => 0xe49b_69c1
    case 1 => 0xefbe_4786
    case 2 => 0x0fc1_9dc6
    case 3 => 0x240c_a1cc
    case 4 => 0x2de9_2c6f
    case 5 => 0x4a74_84aa
    case 6 => 0x5cb0_a9dc
    case 7 => 0x76f9_88da
    case 8 => 0x983e_5152
    case 9 => 0xa831_c66d
    case 10 => 0xb003_27c8
    case 11 => 0xbf59_7fc7
    case 12 => 0xc6e0_0bf3
    case 13 => 0xd5a7_9147
    case 14 => 0x06ca_6351
    case _ => 0x1429_2967
  }

  function K2(t: nat): word
    requires t < 16
  {
    match t
    case 0 => 0x27b7_0a85
    case 1 => 0x2e1b_2138
    case 2 => 0x4d2c_6dfc
    case 3 => 0x5338_0d13
    case 4 => 0x650a_7354
    case 5 => 0x766a_0abb
    case 6 => 0x81c2_c92e
    case 7 => 0x9272_2c85
    case 8 => 0xa2bf_e8a1
    case 9 => 0xa81a_664b
    case 10 => 0xc24b_8b70
    case 11 => 0xc76c_51a3
    case 12 => 0xd192_e819
    case 13 => 0xd699_0624
    case 14 => 0xf40e_3585
    case _ => 0x106a_a070
  }

  function K3(t: nat): word
    requires t < 16
  {
    match t
    case 0 => 0x19a4_c116
    case 1 => 0x1e37_6c08
    case 2 => 0x2748_774c
    case 3 => 0x34b0_bcb5
    case 4 => 0x391c_0cb3
    case 5 => 0x4ed8_aa4a
    case 6 => 0x5b9c_ca4f
    case 7 => 0x682e_6ff3
    case 8 => 0x748f_82ee
    case 9 => 0x78a5_636f
    case 10 => 0x84c8_7814
    case 11 => 0x8cc7_0208
    case 12 => 0x90be_fffa
    case 13 => 0xa450_6ceb
    case 14 => 0xbef9_a3f7
    case _ => 0xc671_78f2
  }

  /** The table of lines 92-101. */
  function HInit(i: nat): word
    requires i < 8
  {
    match i
    case 0 => 0x6a09_e667
    case 1 => 0xbb67_ae85
    case 2 => 0x3c6e_f372
    case 3 => 0xa54f_f53a
    case 4 => 0x510e_527f
    case 5 => 0x9b05_688c
    case 6 => 0x1f83_d9ab
    case _ => 0x5be0_cd19
  }

  /** k is the first 32 bits of the fractional part of the square root of p. */
  predicate RootFraction(k: nat, p: nat, whole: nat) {
    var v := whole * TWO32 + k;
    k < TWO32 && v * v <= p * TWO32 * TWO32 < (v + 1) * (v + 1)
  }

  /** k is the first 32 bits of the fractional part of the cube root of p. */
  predicate CubeRootFraction(k: nat, p: nat, whole: nat) {
    var v := whole * TWO32 + k;
    k < TWO32 && v * v * v <= p * TWO32 * TWO32 * TWO32 < (v + 1) * (v + 1) * (v + 1)
  }

  function CubeWhole(i: nat): nat {
    if i < 4 then 1 else if i < 9 then 2 else if i < 18 then 3 else if i < 30 then 4 else if i < 47 then 5 else 6
  }

  function RootWhole(i: nat): nat { if i < 2 then 1 else if i < 4 then 2 else if i < 6 then 3 else 4 }

  predicate CubeRange(lo: nat, n: nat)
    requires lo + n <= 64
  {
    n == 0 || (CubeRootFraction(K(lo + n - 1), Prime(lo + n - 1), CubeWhole(lo + n - 1)) && CubeRange(lo, n - 1))
  }

  predicate RootRange(n: nat)
    requires n <= 8
  {
    n == 0 || (RootFraction(HInit(n - 1), Prime(n - 1), RootWhole(n - 1)) && RootRange(n - 1))
  }

  lemma CubeRoots0()
    ensures CubeRange(0, 8)
  {
  }

  lemma CubeRoots1()
    ensures CubeRange(8, 8)
  {
  }

  lemma CubeRoots2()
    ensures CubeRange(16, 8)
  {
  }

  lemma CubeRoots3()
    ensures CubeRange(24, 8)
  {
  }

  lemma CubeRoots4()
    ensures CubeRange(32, 8)
  {
  }

  lemma CubeRoots5()
    ensures CubeRange(40, 8)
  {
  }

  lemma CubeRoots6()
    ensures CubeRange(48, 8)
  {
  }

  lemma CubeRoots7()
    ensures CubeRange(56, 8)
  {
  }

  lemma {:induction false} CubeInRange(lo: nat, n: nat, i: nat)
    requires lo + n <= 64 && lo <= i < lo + n && CubeRange(lo, n)
    ensures CubeRootFraction(K(i), Prime(i), CubeWhole(i))
  {
    hide CubeRootFraction, K, Prime, CubeWhole;
    if i < lo + n - 1 {
      CubeInRange(lo, n - 1, i);
    }
  }

  lemma {:induction false} RootInRange(n: nat, i: nat)
    requires i < n <= 8 && RootRange(n)
    ensures RootFraction(HInit(i), Prime(i), RootWhole(i))
  {
    hide RootFraction, HInit, Prime, RootWhole;
    if i < n - 1 {
      RootInRange(n - 1, i);
    }
  }

  /** Section 4.2.2 of FIPS 180-4: the round constants are the cube roots of the first 64 primes
      (PrimeTable.TableIsPrimes says that they are). */
  lemma RoundConstants(i: nat)
    requires i < 64
    ensures CubeRootFraction(K(i), Prime(i), CubeWhole(i))
  {
    hide CubeRootFraction, K, Prime, CubeWhole, CubeRange;
    CubeRoots0();
    CubeRoots1();
    CubeRoots2();
    CubeRoots3();
    CubeRoots4();
    CubeRoots5();
    CubeRoots6();
    CubeRoots7();
    CubeInRange(i / 8 * 8, 8, i);
  }

  /** Section 5.3.3: the initial hash value is the square roots of the first eight primes. */
  lemma InitialHash(i: nat)
    requires i < 8
    ensures RootFraction(HInit(i), Prime(i), RootWhole(i))
  {
    assert RootRange(8);
    RootInRange(8, i);
  }

  // ------------------------------------------------------------------
  // Functions of section 4.1.2
  // ------------------------------------------------------------------

  function Ch(x: bv32, y: bv32, z: bv32): bv32 { (x & y) ^ (!x & z) }

  function Maj(x: bv32, y: bv32, z: bv32): bv32 { (x & y) ^ (x & z) ^ (y & z) }

  /** Ch chooses, bit by bit: where x has ones it is y, where x has zeros it is z. */
  lemma ChChooses(x: bv32, y: bv32, z: bv32, mask: bv32)
    ensures x & mask == mask ==> Ch(x, y, z) & mask == y & mask
    ensures x & mask == 0 ==> Ch(x, y, z) & mask == z & mask
  {
  }

  /** Maj is the majority, bit by bit: where two of its operands agree it is what they are. */
  lemma MajAgrees(x: bv32, y: bv32, z: bv32, mask: bv32)
    ensures x & mask == y & mask || x & mask == z & mask ==> Maj(x, y, z) & mask == x & mask
    ensures y & mask == z & mask ==> Maj(x, y, z) & mask == y & mask
  {
  }

  /** Addition modulo 2^32. */
  function Plus(x: bv32, y: bv32): bv32 { x + y }

  function Xor3(x: bv32, y: bv32, z: bv32): bv32 { x ^ y ^ z }

  function BigSigma0(x: bv32): bv32 { Xor3(x.RotateRight(2), x.RotateRight(13), x.RotateRight(22)) }

  function BigSigma1(x: bv32): bv32 { Xor3(x.RotateRight(6), x.RotateRight(11), x.RotateRight(25)) }

  function SmallSigma0(x: bv32): bv32 { Xor3(x.RotateRight(7), x.RotateRight(18), (x >> 3)) }

  function SmallSigma1(x: bv32): bv32 { Xor3(x.RotateRight(17), x.RotateRight(19), (x >> 10)) }

  // ------------------------------------------------------------------
  // Padding: section 5.1.1, in bytes
  // ------------------------------------------------------------------

  function Zeros(n: nat): (z: seq<byte>)
    ensures |z| == n
  {
    seq(n, _ => 0)
  }

  /** How many zero bytes bring length + 1 + k to 56 modulo 64. */
  function PadZeros(length: nat): nat { (119 - length % 64) % 64 }

  lemma PadZerosLeast(length: nat, j: nat)
    ensures (length + 1 + PadZeros(length)) % 64 == 56
    ensures j < PadZeros(length) ==> (length + 1 + j) % 64 != 56
  {
    var q, r := length / 64, length % 64;
    assert PadZeros(length) == if r < 56 then 55 - r else 119 - r;
    if r < 56 {
      Remainder64(length + 1 + PadZeros(length), q, 56);
      if j < PadZeros(length) {
        Remainder64(length + 1 + j, q, r + 1 + j);
      }
    } else {
      Remainder64(length + 1 + PadZeros(length), q + 1, 56);
      if r + 1 + j < 64 {
        Remainder64(length + 1 + j, q, r + 1 + j);
      } else if j < PadZeros(length) {
        Remainder64(length + 1 + j, q + 1, r + j - 63);
      }
    }
  }

  lemma Remainder64(n: nat, q: nat, r: nat)
    requires n == 64 * q + r && r < 64
    ensures n % 64 == r
  {
  }

  /** The value of bytes, most significant first. */
  function Value(s: seq<byte>): nat { if s == [] then 0 else 256 * Value(s[..|s| - 1]) + s[|s| - 1] }

  function Power256(n: nat): (p: nat)
    ensures p > 0
  {
    if n == 0 then 1 else 256 * Power256(n - 1)
  }

  /** A number as n bytes, most significant first. */
  function BigEndian(v: nat, n: nat): (s: seq<byte>)
    ensures |s| == n
  {
    if n == 0 then [] else BigEndian(v / 256, n - 1) + [v % 256]
  }

  /** The length field holds the length, as long as it fits. */
  lemma {:induction false} BigEndianValue(v: nat, n: nat)
    requires v < Power256(n)
    ensures Value(BigEndian(v, n)) == v
  {
    if n == 0 {
    } else {
      BigEndianValue(v / 256, n - 1);
      assert BigEndian(v, n)[..n - 1] == BigEndian(v / 256, n - 1);
    }
  }

  function Pad(m: seq<byte>): seq<byte> {
    m + [0x80] + Zeros(PadZeros(|m|)) + BigEndian(8 * |m|, 8)
  }

  lemma LengthField(m: seq<byte>)
    requires |m| < 0x2000_0000_0000_0000
    ensures |Pad(m)| >= 8 && Value(Pad(m)[|Pad(m)| - 8..]) == 8 * |m|
  {
    hide BigEndian;
    assert Power256(8) == 0x1_0000_0000_0000_0000;
    BigEndianValue(8 * |m|, 8);
    assert Pad(m)[|Pad(m)| - 8..] == BigEndian(8 * |m|, 8);
  }

  /** Different messages never pad to the same blocks. */
  lemma PadInjective(m: seq<byte>, n: seq<byte>)
    requires |m| < 0x2000_0000_0000_0000 && |n| < 0x2000_0000_0000_0000 && Pad(m) == Pad(n)
    ensures m == n
  {
    LengthField(m);
    LengthField(n);
    assert m == Pad(m)[..|m|] && n == Pad(n)[..|n|];
  }

  // ------------------------------------------------------------------
  // Hash computation: section 6.2.2
  // ------------------------------------------------------------------

  /** Four bytes as a word, most significant first. */
  function Word(b0: byte, b1: byte, b2: byte, b3: byte): bv32 {
    ((b0 as bv32) << 24) | ((b1 as bv32) << 16) | ((b2 as bv32) << 8) | (b3 as bv32)
  }

  type Block = b: seq<byte> | |b| == 64 witness seq(64, _ => 0)

  function Schedule(w2: bv32, w7: bv32, w15: bv32, w16: bv32): bv32 {
    Plus(Plus(Plus(SmallSigma1(w2), w7), SmallSigma0(w15)), w16)
  }

  function W(block: Block, t: nat): bv32 {
    if t < 16 then Word(block[4 * t], block[4 * t + 1], block[4 * t + 2], block[4 * t + 3])
    else Schedule(W(block, t - 2), W(block, t - 7), W(block, t - 15), W(block, t - 16))
  }

  /** The eight working variables, or the eight words of a hash value. */
  datatype Vars = Vars(a: bv32, b: bv32, c: bv32, d: bv32, e: bv32, f: bv32, g: bv32, h: bv32)

  function Round(v: Vars, k: bv32, w: bv32): Vars {
    var t1 := Plus(Plus(Plus(Plus(v.h, BigSigma1(v.e)), Ch(v.e, v.f, v.g)), k), w);
    var t2 := Plus(BigSigma0(v.a), Maj(v.a, v.b, v.c));
    Vars(Plus(t1, t2), v.a, v.b, v.c, Plus(v.d, t1), v.e, v.f, v.g)
  }

  function RoundConstant(t: nat): bv32
    requires t < 64
  {
    K(t) as bv32
  }

  function Rounds(v: Vars, block: Block, t: nat): Vars
    requires t <= 64
  {
    if t == 0 then v else Round(Rounds(v, block, t - 1), RoundConstant(t - 1), W(block, t - 1))
  }

  function Compress(h: Vars, block: Block): Vars {
    var v := Rounds(h, block, 64);
    Vars(Plus(h.a, v.a), Plus(h.b, v.b), Plus(h.c, v.c), Plus(h.d, v.d),
         Plus(h.e, v.e), Plus(h.f, v.f), Plus(h.g, v.g), Plus(h.h, v.h))
  }

  function InitialWord(i: nat): bv32
    requires i < 8
  {
    HInit(i) as bv32
  }

  function Initial(): Vars {
    Vars(InitialWord(0), InitialWord(1), InitialWord(2), InitialWord(3),
         InitialWord(4), InitialWord(5), InitialWord(6), InitialWord(7))
  }

  function HashBlocks(h: Vars, m: seq<byte>): Vars
    requires |m| % 64 == 0
  {
    if m == [] then h else Compress(HashBlocks(h, m[..|m| - 64]), m[|m| - 64..])
  }

  lemma PadLength(m: seq<byte>)
    ensures |Pad(m)| % 64 == 0
  {
    hide BigEndian, Zeros, PadZeros;
    var n := |m| + 1 + PadZeros(|m|);
    assert |Pad(m)| == n + 8;
    PadZerosLeast(|m|, 0);
    Remainder64(n + 8, n / 64 + 1, 0);
  }

  function Digest(m: seq<byte>): Vars {
    PadLength(m);
    HashBlocks(Initial(), Pad(m))
  }
}
