/** The SHA-256 monitor's code, lines 22-270 of sha256.c: the sigma functions built from shifts,
    the block transform on its 64-word array, and the loop over a message with its padding.
 */
module Sha256 {
  import Spec = Sha256Spec
  import opened Words

  // ------------------------------------------------------------------
  // Lines 22-63
  // ------------------------------------------------------------------

  function Rotr32(x: bv32, n: bv32): bv32
    requires n <= 32
  {
    (x >> n) | (x << (32 - n))
  }

  function BigSigma0(x: bv32): bv32 { Spec.Xor3(Rotr32(x, 2), Rotr32(x, 13), Rotr32(x, 22)) }

  function BigSigma1(x: bv32): bv32 { Spec.Xor3(Rotr32(x, 6), Rotr32(x, 11), Rotr32(x, 25)) }

  function SmallSigma0(x: bv32): bv32 { Spec.Xor3(Rotr32(x, 7), Rotr32(x, 18), (x >> 3)) }

  function SmallSigma1(x: bv32): bv32 { Spec.Xor3(Rotr32(x, 17), Rotr32(x, 19), (x >> 10)) }

  lemma Rotates2(x: bv32)
    ensures Rotr32(x, 2) == x.RotateRight(2)
  {
  }

  lemma Rotates6(x: bv32)
    ensures Rotr32(x, 6) == x.RotateRight(6)
  {
  }

  lemma Rotates7(x: bv32)
    ensures Rotr32(x, 7) == x.RotateRight(7)
  {
  }

  lemma Rotates11(x: bv32)
    ensures Rotr32(x, 11) == x.RotateRight(11)
  {
  }

  lemma Rotates13(x: bv32)
    ensures Rotr32(x, 13) == x.RotateRight(13)
  {
  }

  lemma Rotates17(x: bv32)
    ensures Rotr32(x, 17) == x.RotateRight(17)
  {
  }

  lemma Rotates18(x: bv32)
    ensures Rotr32(x, 18) == x.RotateRight(18)
  {
  }

  lemma Rotates19(x: bv32)
    ensures Rotr32(x, 19) == x.RotateRight(19)
  {
  }

  lemma Rotates22(x: bv32)
    ensures Rotr32(x, 22) == x.RotateRight(22)
  {
  }

  lemma Rotates25(x: bv32)
    ensures Rotr32(x, 25) == x.RotateRight(25)
  {
  }

  /** The shift pairs are the rotations of section 4.1.2 of FIPS 180-4. */
  lemma BigSigma0Rotates(x: bv32)
    ensures BigSigma0(x) == Spec.BigSigma0(x)
  {
    hide Rotr32, Spec.Xor3;
    Rotates2(x);
    Rotates13(x);
    Rotates22(x);
  }

  lemma BigSigma1Rotates(x: bv32)
    ensures BigSigma1(x) == Spec.BigSigma1(x)
  {
    hide Rotr32, Spec.Xor3;
    Rotates6(x);
    Rotates11(x);
    Rotates25(x);
  }

  lemma SmallSigma0Rotates(x: bv32)
    ensures SmallSigma0(x) == Spec.SmallSigma0(x)
  {
    hide Rotr32, Spec.Xor3;
    Rotates7(x);
    Rotates18(x);
  }

  lemma SmallSigma1Rotates(x: bv32)
    ensures SmallSigma1(x) == Spec.SmallSigma1(x)
  {
    hide Rotr32, Spec.Xor3;
    Rotates17(x);
    Rotates19(x);
  }

  // ------------------------------------------------------------------
  // Lines 107-186
  // ------------------------------------------------------------------

  ghost function Hash(h: array<bv32>): Spec.Vars
    requires h.Length == 8
    reads h
  {
    Spec.Vars(h[0], h[1], h[2], h[3], h[4], h[5], h[6], h[7])
  }

  /** The first n words of the schedule are in place. */
  ghost predicate Scheduled(w: seq<bv32>, block: Spec.Block, n: nat) {
    |w| == 64 && n <= 64 && forall t :: 0 <= t < n ==> w[t] == Spec.W(block, t)
  }

  /** The right-hand side of lines 133-137. */
  function NextWord(w: seq<bv32>, t: nat): bv32
    requires 16 <= t < 64 == |w|
  {
    Spec.Plus(Spec.Plus(Spec.Plus(SmallSigma1(w[t - 2]), w[t - 7]), SmallSigma0(w[t - 15])), w[t - 16])
  }

  lemma ScheduleStep(w: seq<bv32>, block: Spec.Block, t: nat)
    requires 16 <= t < 64 && Scheduled(w, block, t)
    ensures NextWord(w, t) == Spec.W(block, t)
  {
    hide SmallSigma0, SmallSigma1, Spec.SmallSigma0, Spec.SmallSigma1, Spec.Plus;
    SmallSigma1Rotates(w[t - 2]);
    SmallSigma0Rotates(w[t - 15]);
  }

  /** Lines 118-138: the message schedule of a block. */
  method Schedule(block: array<byte>, off: nat) returns (w: array<bv32>)
    requires off + 64 <= block.Length
    ensures fresh(w) && Scheduled(w[..], block[off..off + 64], 64)
  {
    hide NextWord, Spec.Schedule, Spec.Word;
    ghost var b: Spec.Block := block[off..off + 64];
    w := new bv32[64](_ => 0);
    for i := 0 to 16
      invariant Scheduled(w[..], b, i)
    {
      w[i] := Spec.Word(block[off + i * 4], block[off + i * 4 + 1], block[off + i * 4 + 2], block[off + i * 4 + 3]);
      assert w[i] == Spec.W(b, i);
    }
    for i := 16 to 64
      invariant Scheduled(w[..], b, i)
    {
      ScheduleStep(w[..], b, i);
      w[i] := NextWord(w[..], i);
    }
  }

  lemma RoundStep(v: Spec.Vars, k: bv32, w: bv32)
    ensures var t1 := Spec.Plus(Spec.Plus(Spec.Plus(Spec.Plus(v.h, BigSigma1(v.e)), Spec.Ch(v.e, v.f, v.g)), k), w);
            var t2 := Spec.Plus(BigSigma0(v.a), Spec.Maj(v.a, v.b, v.c));
            Spec.Round(v, k, w) == Spec.Vars(Spec.Plus(t1, t2), v.a, v.b, v.c, Spec.Plus(v.d, t1), v.e, v.f, v.g)
  {
    hide BigSigma0, BigSigma1, Spec.BigSigma0, Spec.BigSigma1, Spec.Ch, Spec.Maj, Spec.Plus;
    BigSigma1Rotates(v.e);
    BigSigma0Rotates(v.a);
  }

  /** Lines 140-175: the 64 rounds on eight local variables. */
  method Rounds(h0: Spec.Vars, w: array<bv32>, ghost block: Spec.Block) returns (r: Spec.Vars)
    requires Scheduled(w[..], block, 64)
    ensures r == Spec.Rounds(h0, block, 64)
  {
    hide BigSigma0, BigSigma1, Spec.BigSigma0, Spec.BigSigma1, Spec.Ch, Spec.Maj, Spec.RoundConstant, Spec.W, Spec.Plus, Spec.Round;
    var a, b, c, d := h0.a, h0.b, h0.c, h0.d;
    var e, f, g, h := h0.e, h0.f, h0.g, h0.h;
    for i := 0 to 64
      invariant Spec.Vars(a, b, c, d, e, f, g, h) == Spec.Rounds(h0, block, i)
    {
      RoundStep(Spec.Vars(a, b, c, d, e, f, g, h), Spec.RoundConstant(i), w[i]);
      assert w[i] == w[..][i] == Spec.W(block, i);
      var t1 := Spec.Plus(Spec.Plus(Spec.Plus(Spec.Plus(h, BigSigma1(e)), Spec.Ch(e, f, g)), Spec.RoundConstant(i)), w[i]);
      var t2 := Spec.Plus(BigSigma0(a), Spec.Maj(a, b, c));
      h := g;
      g := f;
      f := e;
      e := Spec.Plus(d, t1);
      d := c;
      c := b;
      b := a;
      a := Spec.Plus(t1, t2);
    }
    r := Spec.Vars(a, b, c, d, e, f, g, h);
  }

  /** sha256_transform: h takes in the 64 bytes at off. */
  method Transform(h: array<bv32>, block: array<byte>, off: nat)
    requires h.Length == 8 && off + 64 <= block.Length
    modifies h
    ensures Hash(h) == Spec.Compress(old(Hash(h)), block[off..off + 64])
  {
    hide Spec.Rounds, Spec.W, Scheduled, Spec.Plus;
    ghost var b: Spec.Block := block[off..off + 64];
    var w := Schedule(block, off);
    var v := Rounds(Spec.Vars(h[0], h[1], h[2], h[3], h[4], h[5], h[6], h[7]), w, b);
    h[0] := Spec.Plus(h[0], v.a);
    h[1] := Spec.Plus(h[1], v.b);
    h[2] := Spec.Plus(h[2], v.c);
    h[3] := Spec.Plus(h[3], v.d);
    h[4] := Spec.Plus(h[4], v.e);
    h[5] := Spec.Plus(h[5], v.f);
    h[6] := Spec.Plus(h[6], v.g);
    h[7] := Spec.Plus(h[7], v.h);
  }

  // ------------------------------------------------------------------
  // Lines 195-270
  // ------------------------------------------------------------------

  /** The last block when the length fits in it. */
  function OneBlock(rest: seq<byte>, length: nat): (b: Spec.Block)
    requires |rest| < 56
  {
    rest + [0x80] + Spec.Zeros(55 - |rest|) + Spec.BigEndian(8 * length, 8)
  }

  /** The last block but one when it does not. */
  function FirstOfTwo(rest: seq<byte>): (b: Spec.Block)
    requires |rest| < 64
  {
    rest + [0x80] + Spec.Zeros(63 - |rest|)
  }

  function SecondOfTwo(length: nat): (b: Spec.Block) { Spec.Zeros(56) + Spec.BigEndian(8 * length, 8) }

  /** The padded message in blocks: the whole ones, then the last one or two. */
  lemma PadBlocks(m: seq<byte>, whole: seq<byte>, rest: seq<byte>)
    requires m == whole + rest && |whole| % 64 == 0 && |rest| < 64
    ensures Spec.Pad(m) == if |rest| < 56 then whole + OneBlock(rest, |m|)
                           else whole + FirstOfTwo(rest) + SecondOfTwo(|m|)
  {
    hide Spec.BigEndian;
    var r := |rest|;
    assert |m| % 64 == r;
    if r < 56 {
      assert Spec.PadZeros(|m|) == 55 - r;
      assert Spec.Pad(m) == whole + OneBlock(rest, |m|);
    } else {
      assert Spec.PadZeros(|m|) == 119 - r;
      assert Spec.Zeros(119 - r) == Spec.Zeros(63 - r) + Spec.Zeros(56);
      assert Spec.Pad(m) == whole + FirstOfTwo(rest) + SecondOfTwo(|m|);
    }
  }

  lemma HashAppend(h: Spec.Vars, m: seq<byte>, block: Spec.Block)
    requires |m| % 64 == 0
    ensures Spec.HashBlocks(h, m + block) == Spec.Compress(Spec.HashBlocks(h, m), block)
  {
    hide Spec.Compress;
    assert (m + block)[..|m + block| - 64] == m && (m + block)[|m + block| - 64..] == block;
  }

  /** Lines 210-211. */
  method InitialHash() returns (h: array<bv32>)
    ensures fresh(h) && h.Length == 8 && Hash(h) == Spec.Initial()
  {
    hide Spec.InitialWord;
    h := new bv32[8](_ => 0);
    for i := 0 to 8
      invariant forall k :: 0 <= k < i ==> h[k] == Spec.InitialWord(k)
    {
      h[i] := Spec.InitialWord(i);
    }
  }

  lemma HashNext(h: Spec.Vars, d: seq<byte>, n: nat)
    requires n % 64 == 0 && n + 64 <= |d|
    ensures Spec.HashBlocks(h, d[..n + 64]) == Spec.Compress(Spec.HashBlocks(h, d[..n]), d[n..n + 64])
  {
    hide Spec.Compress;
    HashAppend(h, d[..n], d[n..n + 64]);
    assert d[..n] + d[n..n + 64] == d[..n + 64];
  }

  /** Lines 216-219: the whole blocks. */
  method WholeBlocks(data: array<byte>, len: nat, h: array<bv32>)
    requires len <= data.Length && h.Length == 8
    modifies h
    ensures Hash(h) == Spec.HashBlocks(old(Hash(h)), data[..len / 64 * 64])
  {
    hide Spec.Compress, Hash;
    ghost var h0, d := Hash(h), data[..];
    var full := len / 64;
    assert Hash(h) == Spec.HashBlocks(h0, d[..0]);
    hide Spec.HashBlocks;
    for i := 0 to full
      invariant data[..] == d
      invariant Hash(h) == Spec.HashBlocks(h0, d[..64 * i])
    {
      Transform(h, data, 64 * i);
      assert data[64 * i..64 * i + 64] == d[64 * i..64 * i + 64];
      HashNext(h0, d, 64 * i);
    }
  }

  /** Lines 226-235: the remaining bytes, 0x80, and zeros. */
  method LastBytes(data: array<byte>, len: nat) returns (block: array<byte>)
    requires len <= data.Length
    ensures fresh(block) && block.Length == 64
    ensures block[..] == data[len / 64 * 64..len] + [0x80] + Spec.Zeros(63 - len % 64)
  {
    var from, r := len / 64 * 64, len % 64;
    block := new byte[64](_ => 0);
    for j := 0 to r
      invariant block[..] == data[from..from + j] + Spec.Zeros(64 - j)
    {
      block[j] := data[from + j];
      assert block[..] == data[from..from + j] + [data[from + j]] + Spec.Zeros(63 - j);
    }
    block[r] := 0x80;
  }

  /** Lines 252-264: the length in bits, most significant byte first. */
  method StoreLength(block: array<byte>, len: nat)
    requires block.Length == 64 && len < 0x1_0000_0000
    modifies block
    ensures block[..] == old(block[..])[..56] + Spec.BigEndian(8 * len, 8)
  {
    var bits := 8 * len;
    LengthBytes(bits);
    block[56] := bits / 0x100_0000_0000_0000 % 256;
    block[57] := bits / 0x1_0000_0000_0000 % 256;
    block[58] := bits / 0x100_0000_0000 % 256;
    block[59] := bits / 0x1_0000_0000 % 256;
    block[60] := bits / 0x100_0000 % 256;
    block[61] := bits / 0x1_0000 % 256;
    block[62] := bits / 0x100 % 256;
    block[63] := bits % 256;
  }

  lemma LengthBytes(v: nat)
    ensures Spec.BigEndian(v, 8)
            == [v / 0x100_0000_0000_0000 % 256, v / 0x1_0000_0000_0000 % 256, v / 0x100_0000_0000 % 256,
                v / 0x1_0000_0000 % 256, v / 0x100_0000 % 256, v / 0x1_0000 % 256, v / 0x100 % 256, v % 256]
  {
    FourBytes(v, 8);
    FourBytes(v / 0x1_0000_0000, 4);
    var u := v / 0x1_0000_0000;
    assert u / 0x100_0000 == v / 0x100_0000_0000_0000 && u / 0x1_0000 == v / 0x1_0000_0000_0000;
    assert u / 0x100 == v / 0x100_0000_0000;
  }

  lemma FourBytes(v: nat, n: nat)
    requires n >= 4
    ensures Spec.BigEndian(v, n) == Spec.BigEndian(v / 0x1_0000_0000, n - 4)
                                    + [v / 0x100_0000 % 256, v / 0x1_0000 % 256, v / 0x100 % 256, v % 256]
  {
    var v1, v2, v3 := v / 0x100, v / 0x1_0000, v / 0x100_0000;
    assert v1 / 256 == v2 && v2 / 256 == v3 && v3 / 256 == v / 0x1_0000_0000;
    assert Spec.BigEndian(v, n) == Spec.BigEndian(v1, n - 1) + [v % 256];
    assert Spec.BigEndian(v1, n - 1) == Spec.BigEndian(v2, n - 2) + [v1 % 256];
    assert Spec.BigEndian(v2, n - 2) == Spec.BigEndian(v3, n - 3) + [v2 % 256];
    assert Spec.BigEndian(v3, n - 3) == Spec.BigEndian(v3 / 256, n - 4) + [v3 % 256];
  }

  /** Lines 241-247: no room for the length, so this block goes first and zeros follow. */
  method FlushBlock(h: array<bv32>, block: array<byte>)
    requires h.Length == 8 && block.Length == 64
    modifies h, block
    ensures Hash(h) == Spec.Compress(old(Hash(h)), old(block[..])) && block[..] == Spec.Zeros(64)
  {
    hide Spec.Compress, Hash;
    ghost var b := block[..];
    assert block[0..64] == b;
    Transform(h, block, 0);
    assert block[0..64] == block[..] == b;
    ghost var v := Hash(h);
    for j := 0 to 64
      invariant forall k :: 0 <= k < j ==> block[k] == 0
      invariant Hash(h) == v
    {
      block[j] := 0;
    }
    assert block[..] == Spec.Zeros(64);
  }

  /** The last block or two. */
  method Finish(h: array<bv32>, block: array<byte>, len: nat, ghost whole: seq<byte>, ghost rest: seq<byte>)
    requires h.Length == 8 && block.Length == 64 && len == |whole| + |rest| < 0x1_0000_0000
    requires |whole| % 64 == 0 && |rest| < 64 && block[..] == FirstOfTwo(rest)
    requires Hash(h) == Spec.HashBlocks(Spec.Initial(), whole)
    modifies h, block
    ensures Hash(h) == Spec.Digest(whole + rest)
  {
    hide Spec.Compress, Spec.BigEndian, Spec.HashBlocks, Spec.Initial, Hash;
    PadBlocks(whole + rest, whole, rest);
    ghost var done := whole;
    if len % 64 >= 56 {
      FlushBlock(h, block);
      HashAppend(Spec.Initial(), whole, FirstOfTwo(rest));
      done := whole + FirstOfTwo(rest);
    }
    StoreLength(block, len);
    assert block[0..64] == block[..] == if |rest| < 56 then OneBlock(rest, len) else SecondOfTwo(len);
    Transform(h, block, 0);
    HashAppend(Spec.Initial(), done, block[..]);
  }

  /** Lines 268-269. */
  method CopyHash(h: array<bv32>, digest: array<bv32>)
    requires h.Length == 8 && digest.Length == 8 && h != digest
    modifies digest
    ensures Hash(digest) == old(Hash(h))
  {
    for i := 0 to 8
      invariant forall k :: 0 <= k < i ==> digest[k] == h[k]
      invariant forall k :: 0 <= k < 8 ==> h[k] == old(h[k])
    {
      digest[i] := h[i];
    }
    assert Hash(h) == old(Hash(h));
    assert digest[0] == h[0] && digest[1] == h[1] && digest[2] == h[2] && digest[3] == h[3];
    assert digest[4] == h[4] && digest[5] == h[5] && digest[6] == h[6] && digest[7] == h[7];
  }

  /** sha256, for every message and every 32-bit length. */
  method Digest(data: array<byte>, len: nat, digest: array<bv32>)
    requires len <= data.Length && len < 0x1_0000_0000 && digest.Length == 8
    modifies digest
    ensures Hash(digest) == Spec.Digest(old(data[..len]))
  {
    hide Spec.Digest, Spec.Initial, Spec.HashBlocks, Hash;
    ghost var m := data[..len];
    var h := InitialHash();
    WholeBlocks(data, len, h);
    var block := LastBytes(data, len);
    ghost var whole, rest := data[..len / 64 * 64], data[len / 64 * 64..len];
    Finish(h, block, len, whole, rest);
    assert whole + rest == m;
    CopyHash(h, digest);
  }
}
