/** strcpy of the Dhrystone port: bytes up to a word boundary, then whole words until the one
    that holds the terminator, then bytes again.

    Memory is little-endian and byte-addressed. Every access goes through four methods; the two
    word accesses demand an aligned address, since the core traps on any other. Ghost fields
    record what has been read by words and what has been written.
 */
module Strcpy {

  type byte = x: bv32 | x <= 0xff

  // ------------------------------------------------------------------
  // Words and their bytes
  // ------------------------------------------------------------------

  function Byte0(w: bv32): (b: byte) { w & 0xff }
  function Byte1(w: bv32): (b: byte) { (w >> 8) & 0xff }
  function Byte2(w: bv32): (b: byte) { (w >> 16) & 0xff }
  function Byte3(w: bv32): (b: byte) { (w >> 24) & 0xff }

  /** The word whose bytes, lowest address first, are b0 to b3. */
  function Join(b0: byte, b1: byte, b2: byte, b3: byte): bv32 { b0 | (b1 << 8) | (b2 << 16) | (b3 << 24) }

  lemma JoinBytes(b0: byte, b1: byte, b2: byte, b3: byte)
    ensures Byte0(Join(b0, b1, b2, b3)) == b0 && Byte1(Join(b0, b1, b2, b3)) == b1
    ensures Byte2(Join(b0, b1, b2, b3)) == b2 && Byte3(Join(b0, b1, b2, b3)) == b3
  {
  }

  /** HAS_ZERO_BYTE, line 136. */
  function HasZeroByte(w: bv32): bv32 { (w - 0x0101_0101) & !w & 0x8080_8080 }

  predicate SomeByteZero(w: bv32) { Byte0(w) == 0 || Byte1(w) == 0 || Byte2(w) == 0 || Byte3(w) == 0 }

  lemma ZeroByteTest(w: bv32)
    ensures HasZeroByte(w) != 0 <==> SomeByteZero(w)
  {
  }

  /** (unsigned)a & 3 */
  function LowBits(a: nat): bv2 { (a % 4) as bv2 }

  lemma SameLowBits(x: nat, y: nat)
    requires x < 4 && y < 4
    ensures x as bv2 == y as bv2 <==> x == y
  {
  }

  /** The tests of lines 142 and 145: the low bits of the two pointers' xor, and of one pointer. */
  lemma PhaseTest(d: nat, s: nat)
    ensures LowBits(d) ^ LowBits(s) == 0 <==> d % 4 == s % 4
    ensures LowBits(s) == 0 <==> s % 4 == 0
  {
    SameLowBits(d % 4, s % 4);
    SameLowBits(s % 4, 0);
  }

  // ------------------------------------------------------------------
  // Memory
  // ------------------------------------------------------------------

  class Memory {
    var bytes: array<byte>
    /** The addresses that word loads have touched, and the addresses written. */
    ghost var wordReads: set<nat>
    ghost var writes: set<nat>

    ghost predicate Valid()
      reads this
    {
      bytes.Length % 4 == 0 && bytes.Length <= 0x1_0000_0000
    }

    constructor (size: nat)
      requires size % 4 == 0 && size <= 0x1_0000_0000
      ensures Valid() && fresh(bytes) && bytes.Length == size && wordReads == {} && writes == {}
    {
      bytes := new byte[size](_ => 0);
      wordReads, writes := {}, {};
    }

    method LoadByte(a: nat) returns (b: byte)
      requires Valid() && a < bytes.Length
      ensures b == bytes[a]
    {
      b := bytes[a];
    }

    method StoreByte(a: nat, b: byte)
      requires Valid() && a < bytes.Length
      modifies `writes, bytes
      ensures bytes[..] == old(bytes[..])[a := b]
      ensures writes == old(writes) + {a}
    {
      bytes[a] := b;
      writes := writes + {a};
    }

    method LoadWord(a: nat) returns (w: bv32)
      requires Valid() && a < bytes.Length && a % 4 == 0
      modifies `wordReads
      ensures w == Join(bytes[a], bytes[a + 1], bytes[a + 2], bytes[a + 3])
      ensures wordReads == old(wordReads) + {a, a + 1, a + 2, a + 3}
    {
      hide Join;
      w := Join(bytes[a], bytes[a + 1], bytes[a + 2], bytes[a + 3]);
      wordReads := wordReads + {a, a + 1, a + 2, a + 3};
    }

    method StoreWord(a: nat, w: bv32)
      requires Valid() && a < bytes.Length && a % 4 == 0
      modifies `writes, bytes
      ensures bytes[..] == old(bytes[..])[..a] + [Byte0(w), Byte1(w), Byte2(w), Byte3(w)] + old(bytes[..])[a + 4..]
      ensures writes == old(writes) + {a, a + 1, a + 2, a + 3}
    {
      hide Byte0, Byte1, Byte2, Byte3;
      bytes[a], bytes[a + 1], bytes[a + 2], bytes[a + 3] := Byte0(w), Byte1(w), Byte2(w), Byte3(w);
      writes := writes + {a, a + 1, a + 2, a + 3};
    }
  }

  // ------------------------------------------------------------------
  // What strcpy is for
  // ------------------------------------------------------------------

  /** The n bytes from p are not NUL and the one after them is. */
  predicate IsString(m: seq<byte>, p: nat, n: nat) {
    p + n < |m| && m[p + n] == 0 && forall i :: p <= i < p + n ==> m[i] != 0
  }

  predicate Disjoint(dst: nat, src: nat, size: nat) { dst + size <= src || src + size <= dst }

  /** The first i bytes from src copied to dst, everything else as it was. */
  function Copied(m: seq<byte>, dst: nat, src: nat, i: nat): (c: seq<byte>)
    requires dst + i <= |m| && src + i <= |m|
    ensures |c| == |m|
  {
    m[..dst] + m[src..src + i] + m[dst + i..]
  }

  lemma CopiedSource(m: seq<byte>, dst: nat, src: nat, i: nat, size: nat, k: nat)
    requires dst + size <= |m| && src + size <= |m| && i <= size && Disjoint(dst, src, size) && k < size
    ensures Copied(m, dst, src, i)[src + k] == m[src + k]
  {
  }

  lemma CopyByte(m: seq<byte>, dst: nat, src: nat, i: nat)
    requires dst + i < |m| && src + i < |m|
    ensures Copied(m, dst, src, i)[dst + i := m[src + i]] == Copied(m, dst, src, i + 1)
  {
  }

  lemma CopyWord(m: seq<byte>, dst: nat, src: nat, i: nat)
    requires dst + i + 4 <= |m| && src + i + 4 <= |m|
    ensures var c := Copied(m, dst, src, i);
            c[..dst + i] + [m[src + i], m[src + i + 1], m[src + i + 2], m[src + i + 3]] + c[dst + i + 4..]
            == Copied(m, dst, src, i + 4)
  {
    var c := Copied(m, dst, src, i);
    assert c[..dst + i] == m[..dst] + m[src..src + i];
    assert c[dst + i + 4..] == m[dst + i + 4..];
    assert m[src..src + i + 4] == m[src..src + i] + [m[src + i], m[src + i + 1], m[src + i + 2], m[src + i + 3]];
  }

  /** strcpy(dst, src) is under way on memory m0: the first i bytes have been copied. */
  ghost predicate Copying(mem: Memory, m0: seq<byte>, dst: nat, src: nat, n: nat, i: nat)
    reads mem, mem.bytes
  {
    && mem.Valid() && |m0| == mem.bytes.Length
    && IsString(m0, src, n) && src + n < |m0| && dst + n < |m0| && Disjoint(dst, src, n + 1)
    && i <= n + 1 && mem.bytes[..] == Copied(m0, dst, src, i)
  }

  /** Nothing was written outside the n + 1 bytes from dst. */
  predicate WritesWithin(now: set<nat>, before: set<nat>, dst: nat, n: nat) {
    forall a :: a in now ==> a in before || dst <= a <= dst + n
  }

  /** No word was read beyond the aligned word that holds the byte at address last. */
  predicate ReadsUpTo(now: set<nat>, before: set<nat>, src: nat, last: nat) {
    forall a :: a in now ==> a in before || (src <= a && a / 4 <= last / 4)
  }

  /** *d++ = *src++ */
  method CopyOne(mem: Memory, d: nat, s: nat, ghost m0: seq<byte>, ghost dst: nat, ghost src: nat, ghost n: nat, ghost i: nat)
      returns (b: byte)
    requires Copying(mem, m0, dst, src, n, i) && i <= n && d == dst + i && s == src + i
    modifies mem`writes, mem.bytes
    ensures mem.bytes == old(mem.bytes) && Copying(mem, m0, dst, src, n, i + 1)
    ensures b == m0[src + i] && mem.writes == old(mem.writes) + {d}
  {
    hide IsString;
    CopiedSource(m0, dst, src, i, n + 1, i);
    CopyByte(m0, dst, src, i);
    b := mem.LoadByte(s);
    mem.StoreByte(d, b);
  }

  /** Lines 145-147: bytes up to the first word boundary. */
  method ToBoundary(mem: Memory, dst: nat, src: nat, ghost n: nat) returns (d: nat, s: nat, done: bool)
    requires Copying(mem, mem.bytes[..], dst, src, n, 0)
    modifies mem`writes, mem.bytes
    ensures mem.bytes == old(mem.bytes)
    ensures src <= s && d == dst + (s - src) && Copying(mem, old(mem.bytes[..]), dst, src, n, s - src)
    ensures if done then s == src + n + 1 else s % 4 == 0 && s <= src + n
    ensures WritesWithin(mem.writes, old(mem.writes), dst, n)
  {
    hide Copied, Disjoint, LowBits;
    ghost var m0 := mem.bytes[..];
    d, s, done := dst, src, false;
    PhaseTest(d, s);
    while LowBits(s) != 0
      invariant mem.bytes == old(mem.bytes)
      invariant src <= s <= src + n && d == dst + (s - src) && Copying(mem, m0, dst, src, n, s - src)
      invariant WritesWithin(mem.writes, old(mem.writes), dst, n) && (LowBits(s) == 0 <==> s % 4 == 0)
      decreases src + n - s
    {
      var b := CopyOne(mem, d, s, m0, dst, src, n, s - src);
      d, s := d + 1, s + 1;
      if b == 0 {
        done := true;
        return;
      }
      PhaseTest(d, s);
    }
  }

  /** Four bytes of the source as memory holds them while the copy is under way, with NUL at n. */
  lemma SourceBytes(m: seq<byte>, dst: nat, src: nat, i: nat, n: nat)
    requires IsString(m, src, n) && dst + n < |m| && Disjoint(dst, src, n + 1) && i <= n
    requires src + i + 3 < |m|
    ensures var c, a := Copied(m, dst, src, i), src + i;
            if i + 4 <= n
            then c[a] == m[a] && c[a + 1] == m[a + 1] && c[a + 2] == m[a + 2] && c[a + 3] == m[a + 3]
                 && m[a] != 0 && m[a + 1] != 0 && m[a + 2] != 0 && m[a + 3] != 0
            else c[a] == 0 || c[a + 1] == 0 || c[a + 2] == 0 || c[a + 3] == 0
  {
    hide Copied;
    if i + 4 <= n {
      CopiedSource(m, dst, src, i, n + 1, i);
      CopiedSource(m, dst, src, i, n + 1, i + 1);
      CopiedSource(m, dst, src, i, n + 1, i + 2);
      CopiedSource(m, dst, src, i, n + 1, i + 3);
    } else {
      CopiedSource(m, dst, src, i, n + 1, n);
    }
  }

  lemma Aligned(a: nat, last: nat, size: nat)
    requires a % 4 == 0 && a <= last < size && size % 4 == 0
    ensures a + 3 < size && (a + 3) / 4 <= last / 4
  {
  }

  /** One turn of the loop at line 155: stop is the break, which happens exactly when the word
      holds the terminator. */
  method CopyWordOrStop(mem: Memory, d: nat, s: nat, ghost m0: seq<byte>, ghost dst: nat, ghost src: nat, ghost n: nat,
                        ghost i: nat) returns (stop: bool)
    requires Copying(mem, m0, dst, src, n, i) && i <= n && d == dst + i && s == src + i
    requires s % 4 == 0 && d % 4 == 0
    modifies mem`writes, mem`wordReads, mem.bytes
    ensures mem.bytes == old(mem.bytes)
    ensures stop == (n < i + 4)
    ensures Copying(mem, m0, dst, src, n, if stop then i else i + 4)
    ensures mem.wordReads == old(mem.wordReads) + {s, s + 1, s + 2, s + 3}
    ensures mem.writes == old(mem.writes) + if stop then {} else {d, d + 1, d + 2, d + 3}
  {
    hide HasZeroByte, Join, Byte0, Byte1, Byte2, Byte3, Copied, Disjoint, IsString;
    Aligned(s, src + n, mem.bytes.Length);
    SourceBytes(m0, dst, src, i, n);
    assert mem.bytes[s] == mem.bytes[..][s] && mem.bytes[s + 1] == mem.bytes[..][s + 1];
    assert mem.bytes[s + 2] == mem.bytes[..][s + 2] && mem.bytes[s + 3] == mem.bytes[..][s + 3];
    var w := mem.LoadWord(s);
    JoinBytes(mem.bytes[s], mem.bytes[s + 1], mem.bytes[s + 2], mem.bytes[s + 3]);
    ZeroByteTest(w);
    stop := HasZeroByte(w) != 0;
    if !stop {
      CopyWord(m0, dst, src, i);
      mem.StoreWord(d, w);
    }
  }

  lemma WrittenWord(before: set<nat>, dst: nat, n: nat, now: set<nat>, d: nat)
    requires WritesWithin(now, before, dst, n) && dst <= d && d + 3 <= dst + n
    ensures WritesWithin(now + {d, d + 1, d + 2, d + 3}, before, dst, n)
  {
  }

  lemma ReadWord(before: set<nat>, src: nat, last: nat, now: set<nat>, s: nat)
    requires ReadsUpTo(now, before, src, last) && src <= s <= last && s % 4 == 0
    ensures ReadsUpTo(now + {s, s + 1, s + 2, s + 3}, before, src, last)
  {
  }

  lemma NoneWritten(before: set<nat>, dst: nat, n: nat)
    ensures WritesWithin(before, before, dst, n)
  {
  }

  lemma NoneRead(before: set<nat>, src: nat, last: nat)
    ensures ReadsUpTo(before, before, src, last)
  {
  }

  lemma WrittenTwice(a: set<nat>, b: set<nat>, c: set<nat>, dst: nat, n: nat)
    requires WritesWithin(b, a, dst, n) && WritesWithin(c, b, dst, n)
    ensures WritesWithin(c, a, dst, n)
  {
  }

  /** Lines 149-163: whole words up to the one that holds the terminator. */
  method Words(mem: Memory, d0: nat, s0: nat, ghost m0: seq<byte>, ghost dst: nat, ghost src: nat, ghost n: nat)
      returns (d: nat, s: nat)
    requires src <= s0 <= src + n && d0 == dst + (s0 - src) && Copying(mem, m0, dst, src, n, s0 - src)
    requires s0 % 4 == 0 && d0 % 4 == 0
    modifies mem`writes, mem`wordReads, mem.bytes
    ensures mem.bytes == old(mem.bytes)
    ensures s0 <= s <= src + n && d == dst + (s - src) && Copying(mem, m0, dst, src, n, s - src)
    ensures WritesWithin(mem.writes, old(mem.writes), dst, n)
    ensures ReadsUpTo(mem.wordReads, old(mem.wordReads), src, src + n)
  {
    hide Copying, WritesWithin, ReadsUpTo;
    d, s := d0, s0;
    NoneWritten(mem.writes, dst, n);
    NoneRead(mem.wordReads, src, src + n);
    while true
      invariant mem.bytes == old(mem.bytes)
      invariant s0 <= s <= src + n && d == dst + (s - src) && Copying(mem, m0, dst, src, n, s - src)
      invariant s % 4 == 0 && d % 4 == 0
      invariant WritesWithin(mem.writes, old(mem.writes), dst, n)
      invariant ReadsUpTo(mem.wordReads, old(mem.wordReads), src, src + n)
      decreases src + n - s
    {
      ReadWord(old(mem.wordReads), src, src + n, mem.wordReads, s);
      ghost var writes := mem.writes;
      var stop := CopyWordOrStop(mem, d, s, m0, dst, src, n, s - src);
      if stop {
        assert mem.writes == writes;
        break;
      }
      WrittenWord(old(mem.writes), dst, n, writes, d);
      d, s := d + 4, s + 4;
    }
  }

  /** Lines 167-168: bytes up to and including the terminator. */
  method Tail(mem: Memory, d0: nat, s0: nat, ghost m0: seq<byte>, ghost dst: nat, ghost src: nat, ghost n: nat)
    requires src <= s0 <= src + n && d0 == dst + (s0 - src) && Copying(mem, m0, dst, src, n, s0 - src)
    modifies mem`writes, mem.bytes
    ensures mem.bytes == old(mem.bytes) && Copying(mem, m0, dst, src, n, n + 1)
    ensures WritesWithin(mem.writes, old(mem.writes), dst, n)
  {
    hide Copied, Disjoint;
    var d, s := d0, s0;
    var b: byte := 1;
    while b != 0
      invariant mem.bytes == old(mem.bytes)
      invariant src <= s <= src + n + 1 && d == dst + (s - src) && Copying(mem, m0, dst, src, n, s - src)
      invariant s == src + n + 1 <==> b == 0
      invariant WritesWithin(mem.writes, old(mem.writes), dst, n)
      decreases src + n + 1 - s
    {
      b := CopyOne(mem, d, s, m0, dst, src, n, s - src);
      d, s := d + 1, s + 1;
    }
  }

  /** Lines 142-164: what is done before the byte loop, when the pointers share their phase. */
  method SamePhase(mem: Memory, dst: nat, src: nat, ghost m0: seq<byte>, ghost n: nat) returns (d: nat, s: nat, done: bool)
    requires m0 == mem.bytes[..] && Copying(mem, m0, dst, src, n, 0) && dst % 4 == src % 4
    modifies mem`writes, mem`wordReads, mem.bytes
    ensures mem.bytes == old(mem.bytes) && src <= s && d == dst + (s - src) && Copying(mem, m0, dst, src, n, s - src)
    ensures if done then s == src + n + 1 else s <= src + n
    ensures WritesWithin(mem.writes, old(mem.writes), dst, n)
    ensures ReadsUpTo(mem.wordReads, old(mem.wordReads), src, src + n)
  {
    hide Copying, WritesWithin, ReadsUpTo;
    NoneRead(mem.wordReads, src, src + n);
    d, s, done := ToBoundary(mem, dst, src, n);
    if !done {
      ghost var writes := mem.writes;
      d, s := Words(mem, d, s, m0, dst, src, n);
      WrittenTwice(old(mem.writes), writes, mem.writes, dst, n);
    }
  }

  lemma StartCopying(mem: Memory, dst: nat, src: nat, n: nat)
    requires mem.Valid() && IsString(mem.bytes[..], src, n)
    requires dst + n < mem.bytes.Length && Disjoint(dst, src, n + 1)
    ensures Copying(mem, mem.bytes[..], dst, src, n, 0)
  {
    assert Copied(mem.bytes[..], dst, src, 0) == mem.bytes[..];
  }

  /** strcpy, for every string, every pair of alignments and buffers that do not overlap: the
      string and its terminator are copied and no other byte changes or is written at all; the
      word loads stop at the aligned word that holds the terminator. That every word access is
      aligned is what LoadWord and StoreWord demand of their callers. */
  method StringCopy(mem: Memory, dst: nat, src: nat, ghost n: nat) returns (r: nat)
    requires mem.Valid() && IsString(mem.bytes[..], src, n)
    requires dst + n < mem.bytes.Length && Disjoint(dst, src, n + 1)
    modifies mem`writes, mem`wordReads, mem.bytes
    ensures r == dst && mem.Valid() && mem.bytes == old(mem.bytes)
    ensures mem.bytes[..] == Copied(old(mem.bytes[..]), dst, src, n + 1)
    ensures WritesWithin(mem.writes, old(mem.writes), dst, n)
    ensures ReadsUpTo(mem.wordReads, old(mem.wordReads), src, src + n)
  {
    hide IsString, Disjoint, Copied, WritesWithin, ReadsUpTo, LowBits;
    ghost var m0 := mem.bytes[..];
    StartCopying(mem, dst, src, n);
    NoneWritten(mem.writes, dst, n);
    NoneRead(mem.wordReads, src, src + n);
    var d, s, done := dst, src, false;
    PhaseTest(d, s);
    if LowBits(d) ^ LowBits(s) == 0 {
      d, s, done := SamePhase(mem, d, s, m0, n);
    }
    if !done {
      ghost var writes := mem.writes;
      Tail(mem, d, s, m0, dst, src, n);
      WrittenTwice(old(mem.writes), writes, mem.writes, dst, n);
    }
    r := dst;
  }
}
