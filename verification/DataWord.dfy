/** 16-bit data words as numbers: what the masks and shifts of core_list_join.c pick out of them.
    The operations have names here so that each proof deals either with bits or with numbers.
 */
module DataWord {
  import opened CoreUtil
  import opened CoreState
  import opened CoreMatrix
  import opened CoreList

  function Num(d: bv16): nat { d as int }

  function Low1(d: bv16): bv16 { d & 1 }
  function Low3(d: bv16): bv16 { d & 7 }
  function Low7(d: bv16): bv16 { d & 0x7f }
  function Low8(d: bv16): bv16 { d & 0xff }
  function Low9(d: bv16): bv16 { d & 0x1ff }
  function Up1(d: bv16): bv16 { d >> 1 }
  function Up3(d: bv16): bv16 { d >> 3 }
  function Up7(d: bv16): bv16 { d >> 7 }
  function Up8(d: bv16): bv16 { d >> 8 }
  function Up9(d: bv16): bv16 { d >> 9 }
  function Twice(x: bv16): bv16 { x | (x << 4) }
  function Upper(d: bv16): bv16 { d & 0xff00 }
  function Or(x: bv16, y: bv16): bv16 { x | y }
  function Sum(x: bv16, y: bv16): bv16 { x + y }
  predicate Small(x: bv16) { x <= 0x1ff }
  predicate IsByte(x: bv16) { x <= 0xff }
  predicate IsNibble(x: bv16) { x <= 0xf }

  // ------------------------------------------------------------------
  // Cutting a word in two
  // ------------------------------------------------------------------

  lemma Cut7(d: bv16)
    ensures Num(d) == 128 * Num(Up7(d)) + Num(Low7(d)) && Num(Low7(d)) < 128
  {
    assert d == (d & 0xff80) | (d & 0x7f);
    assert (d & 0xff80) as int == 128 * ((d >> 7) as int);
  }

  lemma Cut8(d: bv16)
    ensures Num(d) == 256 * Num(Up8(d)) + Num(Low8(d)) && Num(Low8(d)) < 256
    ensures Num(Upper(d)) == 256 * Num(Up8(d))
  {
    assert d == (d & 0xff00) | (d & 0xff);
  }

  lemma Cut9(d: bv16)
    ensures Num(d) == 512 * Num(Up9(d)) + Num(Low9(d)) && Num(Low9(d)) < 512
  {
    assert d == (d & 0xfe00) | (d & 0x1ff);
    assert (d & 0xfe00) as int == 512 * ((d >> 9) as int);
  }

  lemma Cut3(x: bv16)
    requires Small(x)
    ensures Num(x) == 8 * Num(Up3(x)) + Num(Low3(x)) && Num(Low3(x)) < 8
  {
  }

  lemma Cut1(x: bv16)
    requires Small(x)
    ensures Num(x) == 2 * Num(Up1(x)) + Num(Low1(x)) && Num(Low1(x)) < 2
  {
  }

  // ------------------------------------------------------------------
  // The same on numbers
  // ------------------------------------------------------------------

  lemma MiddleNibble(n: nat, u: nat, x: nat, l: nat)
    requires n == 128 * u + (8 * x + l) && x < 16 && l < 8
    ensures (n / 8) % 16 == x
  {
    assert n / 8 == 16 * u + x;
  }

  lemma MiddleBit(n: nat, u: nat, b: nat, l: nat)
    requires n == 256 * u + (128 * b + l) && b < 2 && l < 128
    ensures (n / 128) % 2 == b
  {
    assert n / 128 == 2 * u + b;
  }

  lemma LowPart(n: nat, u: nat, l: nat)
    requires n == 128 * u + l && l < 128
    ensures n % 128 == l
  {
  }

  lemma HighPart(n: nat, u: nat, l: nat)
    requires n == 256 * u + l && l < 256
    ensures n / 256 == u && n % 256 == l
  {
  }

  // ------------------------------------------------------------------
  // The fields of calc_func
  // ------------------------------------------------------------------

  lemma ValueIs(d: bv16)
    ensures Value(d) == Num(d) % 128
  {
    hide Num, Low7, Up7;
    Cut7(d);
    ValueBits(d);
  }

  lemma ValueBits(d: bv16)
    ensures Value(d) == Num(Low7(d))
  {
  }

  lemma BytesAre(d: bv16)
    ensures Num(LowData(d)) == Num(d) % 256 && Num(Backup(d)) == Num(d) / 256
  {
    hide Num, Low8, Up8, Upper, LowData, Backup;
    Cut8(d);
    ByteBits(d);
  }

  lemma ByteBits(d: bv16)
    ensures LowData(d) == Low8(d) && Backup(d) == Up8(d)
  {
  }

  lemma FlagIs(d: bv16)
    ensures Num(Flag(d)) == Num(d) % 8
  {
    hide Num, Low7, Up7, Low3, Up3, Flag, Small;
    Cut7(d);
    FlagBits(d);
    Cut3(Low7(d));
    assert Num(d) == 8 * (16 * Num(Up7(d)) + Num(Up3(Low7(d)))) + Num(Flag(d));
  }

  lemma FlagBits(d: bv16)
    ensures Small(Low7(d)) && Flag(d) == Low3(Low7(d))
  {
  }

  lemma CachedIs(d: bv16)
    ensures Cached(d) <==> (Num(d) / 128) % 2 == 1
  {
    hide Num, Low7, Up7, Low1, Up1, Low9, Up9, Cached, Small;
    Cut7(d);
    Cut9(d);
    CachedBits(d);
    Cut7(Low9(d));
    Cut1(Up7(Low9(d)));
    MiddleBit(Num(d), 2 * Num(Up9(d)) + Num(Up1(Up7(Low9(d)))), Num(Low1(Up7(Low9(d)))), Num(Low7(Low9(d))));
  }

  lemma CachedBits(d: bv16)
    ensures Small(Up7(Low9(d))) && (Cached(d) <==> Num(Low1(Up7(Low9(d)))) == 1)
  {
  }

  lemma TwiceIs(x: bv16)
    requires IsNibble(x)
    ensures Num(Twice(x)) == 17 * Num(x) && Num(x) < 16
  {
  }

  /** Bits 3-6 are written into both halves of a byte. */
  lemma DTypeIs(d: bv16)
    ensures DTypeInt(d) == 17 * ((Num(d) / 8) % 16)
  {
    hide Num, Low7, Up7, Low3, Up3, Small, IsNibble, Twice, DType, DTypeInt;
    var x := Up3(Low7(d));
    Cut7(d);
    DTypeBits(d);
    Cut3(Low7(d));
    TwiceIs(x);
    MiddleNibble(Num(d), Num(Up7(d)), Num(x), Num(Low3(Low7(d))));
  }

  lemma DTypeBits(d: bv16)
    ensures Small(Low7(d)) && IsNibble(Up3(Low7(d))) && DTypeInt(d) == Num(Twice(Up3(Low7(d))))
  {
    assert DType(d) == Twice(Up3(Low7(d)));
  }

  /** The step of the state kernel: the replicated byte, but at least 34. */
  lemma StepIs(d: bv16)
    ensures var dtype := 17 * ((Num(d) / 8) % 16); Step(d) == if dtype < 34 then 34 else dtype
  {
    hide DTypeInt, Num;
    DTypeIs(d);
  }

  lemma OrIs(d: bv16, x: bv16)
    requires IsByte(x)
    ensures Num(Or(Upper(d), x)) == Num(Upper(d)) + Num(x)
  {
    hide Num, Or, Upper;
    OrOfBytes(d, x);
    OrRaw(d, x);
  }

  lemma OrRaw(d: bv16, x: bv16)
    ensures Num(Or(Upper(d), x)) == ((d & 0xff00) | x) as int && Num(Upper(d)) == (d & 0xff00) as int && Num(x) == x as int
  {
  }

  lemma OrOfBytes(d: bv16, x: bv16)
    requires x <= 0xff
    ensures ((d & 0xff00) | x) as int == (d & 0xff00) as int + x as int
  {
  }

  lemma MarkIs(x: bv16)
    ensures IsByte(Or(0x80, Low7(x))) && Num(Or(0x80, Low7(x))) == 128 + Num(Low7(x))
  {
  }

  /** A cached result takes the low seven bits and sets bit 7; the upper byte stays. */
  lemma StoreIs(d: bv16, r: bv16)
    ensures Num(Store(d, r)) == 256 * (Num(d) / 256) + 128 + Num(r) % 128
  {
    hide Num, Low7, Up7, Low8, Up8, Upper, Or, Store, IsByte;
    Cut8(d);
    Cut7(r);
    StoreBits(d, r);
    MarkIs(r);
    OrIs(d, Or(0x80, Low7(r)));
    HighPart(Num(d), Num(Up8(d)), Num(Low8(d)));
    LowPart(Num(r), Num(Up7(r)), Num(Low7(r)));
  }

  lemma StoreBits(d: bv16, r: bv16)
    ensures Store(d, r) == Or(Upper(d), Or(0x80, Low7(r)))
  {
  }

  /** Rebuilding copies the upper byte into the lower. */
  lemma RebuildIs(d: bv16)
    ensures Num(Rebuild(d)) == 257 * (Num(d) / 256)
  {
    hide Num, Low8, Up8, Upper, Or, Rebuild, IsByte;
    Cut8(d);
    RebuildBits(d);
    OrIs(d, Up8(d));
  }

  lemma RebuildBits(d: bv16)
    ensures IsByte(Up8(d)) && Rebuild(d) == Or(Upper(d), Up8(d))
  {
  }

  // ------------------------------------------------------------------
  // The bits core_bench_list looks at
  // ------------------------------------------------------------------

  lemma Bit0Is(d: bv16)
    ensures Bit0(d) <==> Num(d) % 2 == 1
  {
    hide Num, Low7, Up7, Low1, Up1, Bit0, Small;
    Cut7(d);
    Bit0Bits(d);
    Cut1(Low7(d));
    assert Num(d) == 2 * (64 * Num(Up7(d)) + Num(Up1(Low7(d)))) + Num(Low1(Low7(d)));
  }

  lemma Bit0Bits(d: bv16)
    ensures Small(Low7(d)) && (Bit0(d) <==> Num(Low1(Low7(d))) == 1)
  {
  }

  lemma Bit8Is(d: bv16)
    ensures Num(Bit8(d)) == (Num(d) / 256) % 2
  {
    hide Num, Low8, Up8, Low1, Up1, Bit8, Small, Upper;
    Cut8(d);
    Bit8Bits(d);
    Cut1(Up8(d));
    assert Num(d) == 256 * (2 * Num(Up1(Up8(d))) + Num(Bit8(d))) + Num(Low8(d));
  }

  lemma Bit8Bits(d: bv16)
    ensures Small(Up8(d)) && Bit8(d) == Low1(Up8(d))
  {
  }

  lemma Bit9Is(d: bv16)
    ensures Num(Bit9(d)) == (Num(d) / 512) % 2
  {
    hide Num, Low9, Up9, Low1, Up1, Bit9, Small;
    Cut9(d);
    Bit9Bits(d);
    Cut1(Up9(d));
    assert Num(d) == 512 * (2 * Num(Up1(Up9(d))) + Num(Bit9(d))) + Num(Low9(d));
  }

  lemma Bit9Bits(d: bv16)
    ensures Small(Up9(d)) && Bit9(d) == Low1(Up9(d))
  {
  }

  // ------------------------------------------------------------------
  // Sums that wrap
  // ------------------------------------------------------------------

  lemma ByteUp(x: bv16)
    requires IsByte(x)
    ensures Num(Sum(x, 1)) == Num(x) + 1
  {
  }

  // ------------------------------------------------------------------
  // calc_func in these numbers
  // ------------------------------------------------------------------

  /** Bits 3-6 of a word, written into both halves of a byte. */
  function Replicated(n: nat): (r: nat)
    ensures r <= 255
  {
    17 * ((n / 8) % 16)
  }

  /** What the state kernel gives back for the word n, and the block it leaves: its step is bits 3-6
      replicated, but at least 34. */
  function StateResult(cfg: Config, n: nat, k: Kernel): (bv16, seq<bv8>) {
    BenchState(cfg.size, k.block, SeedByte(cfg.seed1), SeedByte(cfg.seed2),
               if Replicated(n) < 34 then 34 else Replicated(n), k.crc)
  }

  /** What the matrix kernel gives back for the word n. */
  function MatrixResult(cfg: Config, n: nat, k: Kernel): bv16
    requires Square(cfg.n, |k.a|) && Square(cfg.n, |cfg.b|)
  {
    BenchMatrix(cfg.n, k.a, cfg.b, Replicated(n), k.crc)
  }

  lemma StateCallIs(cfg: Config, d: bv16, k: Kernel)
    ensures var r := StateResult(cfg, Num(d), k);
            StateCall(cfg, d, k) == (r.0, Kernel(k.crc, if k.crcstate == 0 then r.0 else k.crcstate, k.crcmatrix, r.1, k.a))
  {
    hide BenchState, Num, Step, SeedByte;
    StepIs(d);
  }

  lemma MatrixCallIs(cfg: Config, d: bv16, k: Kernel)
    requires Square(cfg.n, |k.a|) && Square(cfg.n, |cfg.b|)
    ensures var r := MatrixResult(cfg, Num(d), k);
            MatrixCall(cfg, d, k) == (r, Kernel(k.crc, k.crcstate, if k.crcmatrix == 0 then r else k.crcmatrix, k.block, k.a))
  {
    hide BenchMatrix, Num, DTypeInt;
    DTypeIs(d);
    assert AsS16(DTypeInt(d)) == DTypeInt(d);
  }

  lemma FlagEquals(d: bv16)
    ensures Flag(d) == 0 <==> Num(d) % 8 == 0
    ensures Flag(d) == 1 <==> Num(d) % 8 == 1
  {
    hide Num, Flag;
    FlagIs(d);
    NumEquals(Flag(d));
  }

  lemma NumEquals(x: bv16)
    ensures x == 0 <==> Num(x) == 0
    ensures x == 1 <==> Num(x) == 1
  {
    assert x as int == 0 ==> (x as int) as bv16 == 0;
    assert x as int == 1 ==> (x as int) as bv16 == 1;
  }

  /** calc_func on any word: a cached one stays; else the three lowest bits choose the kernel, its
      result enters res->crc, and its seven lowest bits and bit 7 replace the word's low byte. */
  lemma CalcIs(cfg: Config, d: bv16, k: Kernel)
    requires Square(cfg.n, |k.a|) && Square(cfg.n, |cfg.b|)
    ensures var n, r := Num(d), Calc(cfg, d, k);
            if (n / 128) % 2 == 1 then r == (d, k)
            else
              var (retval, k') := if n % 8 == 0 then StateCall(cfg, d, k)
                                  else if n % 8 == 1 then MatrixCall(cfg, d, k) else (d, k);
              Num(r.0) == 256 * (n / 256) + 128 + Num(retval) % 128 && r.1 == k'.(crc := CrcU16(retval, k'.crc))
  {
    hide StateCall, MatrixCall, CrcU16, Num, Flag, Cached, Store;
    CachedIs(d);
    FlagEquals(d);
    StoreIs(d, CallKernel(cfg, d, k).0);
  }
}
