/** What matrix_test computes, told by exact sums and by bits: the four products, their sums, and the
    order in which these enter the CRC.
 */
module CoreMatrixProof {
  import opened Arithmetic
  import opened CoreUtil
  import opened CoreMatrix

  // ------------------------------------------------------------------
  // The C types
  // ------------------------------------------------------------------

  /** A value that leaves its type keeps its residue. */
  lemma WrapIs(x: int)
    ensures (Wrap16(x) - x) % 0x1_0000 == 0 && (Wrap32(x) - x) % 0x1_0000_0000 == 0
  {
  }

  /** crc16 of a signed value is the CRC of the word that stands for it. */
  lemma Crc16Is(x: int, w: bv16, crc: bv16)
    requires w as int == x % 0x1_0000
    ensures Crc16(x, crc) == CrcU16(w, crc)
  {
    hide CrcU16;
    assert (w as int) as bv16 == w;
  }

  /** 0xf000 | val: the upper four bits are ones, the others those of val. */
  lemma BigIs(val: s16)
    ensures Big(val) % 0x1000 == val % 0x1000 && (Big(val) % 0x1_0000) / 0x1000 == 0xf
  {
  }

  /** bit_extract(x, from, width): so many bits of x, from bit `from` up. */
  function Bits(x: int, from: nat, width: nat): nat
    decreases width
  {
    if width == 0 then 0 else (x / Pow2(from)) % 2 + 2 * Bits(x, from + 1, width - 1)
  }

  lemma BitsSplit(y: int, m: nat)
    requires m > 0
    ensures y % (2 * m) == y % 2 + 2 * ((y / 2) % m)
  {
    var h, r := (y / 2) / m, (y / 2) % m;
    assert y / 2 == m * h + r;
    assert (2 * m) * h == 2 * (m * h);
    DivModUnique(y, 2 * m, h, y % 2 + 2 * r);
  }

  lemma Halve(x: int, p: nat)
    requires p > 0
    ensures x / (2 * p) == (x / p) / 2
  {
    var y, r := x / p, x % p;
    var h, b := y / 2, y % 2;
    assert x == p * y + r && y == 2 * h + b;
    assert p * (2 * h + b) == (2 * p) * h + p * b;
    ProductMonotone(p, b, 1);
    DivModUnique(x, 2 * p, h, p * b + r);
  }

  lemma {:induction false} BitsAre(x: int, from: nat, width: nat)
    ensures Bits(x, from, width) == (x / Pow2(from)) % Pow2(width)
    decreases width
  {
    if width > 0 {
      BitsAre(x, from + 1, width - 1);
      Halve(x, Pow2(from));
      BitsSplit(x / Pow2(from), Pow2(width - 1));
    }
  }

  lemma BitExtractIs(x: int)
    ensures BitExtract(x) == Bits(x, 2, 4) * Bits(x, 5, 7)
  {
    hide Bits;
    BitsAre(x, 2, 4);
    BitsAre(x, 5, 7);
    assert Pow2(2) == 4 && Pow2(4) == 16 && Pow2(5) == 32 && Pow2(7) == 128;
  }

  // ------------------------------------------------------------------
  // Products
  // ------------------------------------------------------------------

  /** What an inner product adds up: entry k of row i of A times entry k of the vector, or of column
      j of B; with extract, the bits of that product. */
  function Summand(n: nat, a: seq<s16>, b: seq<s16>, i: nat, j: nat, k: nat, kind: Kind): int
    requires |a| == n * n && |b| == n * n && i < n && j < n && k < n
  {
    InMatrix(n, i, k);
    InMatrix(n, k, j);
    InMatrix(n, 0, k);
    match kind
    case OfVector => (a[i * n + k] as int) * b[k]
    case OfMatrix => (a[i * n + k] as int) * b[k * n + j]
    case OfBits => Bits((a[i * n + k] as int) * b[k * n + j], 2, 4) * Bits((a[i * n + k] as int) * b[k * n + j], 5, 7)
  }

  datatype Kind = OfVector | OfMatrix | OfBits

  lemma InMatrix(n: nat, i: nat, j: nat)
    requires i < n && j < n
    ensures i * n + j < n * n
  {
    MultipleGap(n, i, n);
    assert n * i == i * n;
  }

  function InnerSum(n: nat, a: seq<s16>, b: seq<s16>, i: nat, j: nat, m: nat, kind: Kind): int
    requires |a| == n * n && |b| == n * n && i < n && j < n && m <= n
  {
    if m == 0 then 0 else InnerSum(n, a, b, i, j, m - 1, kind) + Summand(n, a, b, i, j, m - 1, kind)
  }

  function ProductOf(i: nat, j: nat, kind: Kind): Product {
    match kind
    case OfVector => Vector(i)
    case OfMatrix => Matrix(i, j)
    case OfBits => Extract(i, j)
  }

  lemma SummandIs(n: nat, a: seq<s16>, b: seq<s16>, i: nat, j: nat, k: nat, kind: Kind)
    requires |a| == n * n && |b| == n * n && i < n && j < n && k < n
    ensures Square(n, |a|) && Square(n, |b|) && Term(n, a, b, ProductOf(i, j, kind), k) == Summand(n, a, b, i, j, k, kind)
  {
    hide BitExtract, Bits;
    RowIsProduct(n, n);
    RowIsProduct(n, i);
    RowIsProduct(n, k);
    RowIsProduct(n, 0);
    if kind == OfBits {
      BitExtractIs((At(n, a, i, k) as int) * At(n, b, k, j));
    }
  }

  lemma {:induction false} InnerSumIs(n: nat, a: seq<s16>, b: seq<s16>, i: nat, j: nat, m: nat, kind: Kind)
    requires |a| == n * n && |b| == n * n && i < n && j < n && m <= n
    ensures Square(n, |a|) && Square(n, |b|) && ExactDot(n, a, b, ProductOf(i, j, kind), m) == InnerSum(n, a, b, i, j, m, kind)
    decreases m
  {
    hide Term, Summand;
    RowIsProduct(n, n);
    if m > 0 {
      InnerSumIs(n, a, b, i, j, m - 1, kind);
      SummandIs(n, a, b, i, j, m - 1, kind);
    }
  }

  /** Entry (i, j) of the result of matrix_mul_matrix, and of its bit-extracted form. */
  lemma EntryIs(n: nat, a: seq<s16>, b: seq<s16>, i: nat, j: nat, extract: bool)
    requires |a| == n * n && |b| == n * n && i < n && j < n
    ensures Square(n, |a|) && Square(n, |b|) && i * n + j < |MulMatrix(n, a, b, extract)|
    ensures MulMatrix(n, a, b, extract)[i * n + j]
            == Wrap32(InnerSum(n, a, b, i, j, n, if extract then OfBits else OfMatrix))
  {
    hide Dot, Wrap32, Place, InnerSum, ExactDot;
    InMatrix(n, i, j);
    RowIsProduct(n, n);
    RowIsProduct(n, i);
    PlaceOf(n, i, j);
    var kind := if extract then OfBits else OfMatrix;
    DotIsExact(n, a, b, ProductOf(i, j, kind), n);
    InnerSumIs(n, a, b, i, j, n, kind);
  }

  /** Entry i of the result of matrix_mul_vect; what is behind the first n stays. */
  lemma VectorEntryIs(n: nat, c: seq<s32>, a: seq<s16>, b: seq<s16>, i: nat)
    requires |a| == n * n && |b| == n * n && |c| == n * n && i < n * n
    ensures Square(n, |a|) && Square(n, |b|) && Square(n, |c|)
    ensures MulVect(n, c, a, b)[i] == if i < n then Wrap32(InnerSum(n, a, b, i, 0, n, OfVector)) else c[i]
  {
    hide Dot, Wrap32, InnerSum, ExactDot;
    RowIsProduct(n, n);
    if i < n {
      DotIsExact(n, a, b, Vector(i), n);
      InnerSumIs(n, a, b, i, 0, n, OfVector);
    }
  }

  // ------------------------------------------------------------------
  // matrix_sum
  // ------------------------------------------------------------------

  /** The sum of the entries before place i since the last that took it over the clip value. */
  function Since(c: seq<s32>, clip: s16, i: nat): s32
    requires i <= |c|
    decreases i, 0
  {
    if i == 0 || Over(c, clip, i - 1) then 0 else Wrap32(Since(c, clip, i - 1) + c[i - 1])
  }

  /** Entry i takes it over. */
  predicate Over(c: seq<s32>, clip: s16, i: nat)
    requires i < |c|
    decreases i, 1
  {
    Wrap32(Since(c, clip, i) + c[i]) > clip
  }

  /** Entry i is larger than the one before it, or than 0 if it is the first. */
  predicate Rises(c: seq<s32>, i: nat)
    requires i < |c|
  {
    c[i] > if i == 0 then 0 else c[i - 1]
  }

  /** Ten for each entry that takes the sum over, one for each other that rises. */
  function Points(c: seq<s32>, clip: s16, i: nat): nat
    requires i <= |c|
  {
    if i == 0 then 0
    else Points(c, clip, i - 1) + if Over(c, clip, i - 1) then 10 else if Rises(c, i - 1) then 1 else 0
  }

  predicate Congruent(x: int, y: int) { (x - y) % 0x1_0000 == 0 }

  lemma CongruentStep(x: s16, y: int, g: int)
    requires Congruent(x, y)
    ensures Congruent(Wrap16(x + g), y + g)
  {
  }

  lemma SumStepIs(s: Summary, cur: s32, clip: s16)
    ensures SumStep(s, cur, clip)
            == if Wrap32(s.tmp + cur) > clip then Summary(0, cur, Wrap16(s.ret + 10))
               else Summary(Wrap32(s.tmp + cur), cur, if cur > s.prev then Wrap16(s.ret + 1) else s.ret)
  {
  }

  /** The summary of the entries before place i. */
  predicate SummaryAt(c: seq<s32>, clip: s16, i: nat, s: Summary)
    requires i <= |c|
  {
    && s.tmp == Since(c, clip, i) && s.prev == (if i == 0 then 0 else c[i - 1])
    && Congruent(s.ret, Points(c, clip, i))
  }

  lemma {:induction false} SummaryNext(c: seq<s32>, clip: s16, i: nat, s: Summary)
    requires i < |c| && SummaryAt(c, clip, i, s)
    ensures SummaryAt(c, clip, i + 1, SumStep(s, c[i], clip))
  {
    hide Wrap16, Wrap32, SumStep, Congruent;
    SumStepIs(s, c[i], clip);
    assert Over(c, clip, i) <==> Wrap32(s.tmp + c[i]) > clip;
    assert Since(c, clip, i + 1) == if Over(c, clip, i) then 0 else Wrap32(Since(c, clip, i) + c[i]);
    assert Points(c, clip, i + 1) == Points(c, clip, i) + if Over(c, clip, i) then 10 else if Rises(c, i) then 1 else 0;
    CongruentStep(s.ret, Points(c, clip, i), 10);
    CongruentStep(s.ret, Points(c, clip, i), 1);
  }

  lemma {:induction false} SumFromIs(c: seq<s32>, clip: s16, i: nat, s: Summary)
    requires i <= |c| && SummaryAt(c, clip, i, s)
    ensures Congruent(SumFrom(c[i..], s, clip), Points(c, clip, |c|))
    decreases |c| - i
  {
    if i < |c| {
      hide SummaryAt, SumStep, Congruent, Points;
      assert c[i..][0] == c[i] && c[i..][1..] == c[i + 1..];
      SummaryNext(c, clip, i, s);
      SumFromIs(c, clip, i + 1, SumStep(s, c[i], clip));
    }
  }

  lemma SummaryStart(c: seq<s32>, clip: s16)
    ensures SummaryAt(c, clip, 0, Summary(0, 0, 0))
  {
  }

  /** matrix_sum on any matrix, modulo 2^16. */
  lemma MatrixSumIs(c: seq<s32>, clip: s16)
    ensures Congruent(MatrixSum(c, clip), Points(c, clip, |c|))
  {
    hide SumFrom, SummaryAt, Points, Congruent;
    SummaryStart(c, clip);
    SumFromIs(c, clip, 0, Summary(0, 0, 0));
    assert c[0..] == c;
  }

  // ------------------------------------------------------------------
  // matrix_test
  // ------------------------------------------------------------------

  predicate IsEntry(n: nat, a: seq<s16>, b: seq<s16>, c: seq<s32>, i: nat, j: nat, kind: Kind)
    requires |a| == n * n && |b| == n * n && |c| == n * n && i < n && j < n
  {
    InMatrix(n, i, j);
    c[i * n + j] == Wrap32(InnerSum(n, a, b, i, j, n, kind))
  }

  predicate Plus(a0: s16, val: s16, a: s16) { (a0 + val - a) % 0x1_0000 == 0 }

  /** The matrices that matrix_test goes through: A with val added, then C as each product leaves it. */
  ghost predicate Stages(n: nat, a0: seq<s16>, b: seq<s16>, val: s16,
                         a: seq<s16>, c1: seq<s32>, c2: seq<s32>, c3: seq<s32>, c4: seq<s32>)
  {
    && |a0| == |b| == |a| == |c1| == |c2| == |c3| == |c4| == n * n
    && (forall k | 0 <= k < n * n :: Plus(a0[k], val, a[k]) && c1[k] == (a[k] as int) * val)
    && (forall k | 0 <= k < n * n :: c2[k] == if k < n then Wrap32(InnerSum(n, a, b, k, 0, n, OfVector)) else c1[k])
    && (forall i, j | 0 <= i < n && 0 <= j < n :: IsEntry(n, a, b, c3, i, j, OfMatrix) && IsEntry(n, a, b, c4, i, j, OfBits))
  }

  lemma PlusIs(a0: seq<s16>, val: s16, k: nat)
    requires k < |a0|
    ensures Plus(a0[k], val, AddConst(a0, val)[k])
  {
    WrapIs(a0[k] + val);
  }

  /** A product of two 16-bit values fits. */
  lemma ScaledIs(a: seq<s16>, val: s16, k: nat)
    requires k < |a|
    ensures MulConst(a, val)[k] == (a[k] as int) * val
  {
    ProductBound(a[k], val);
  }

  lemma ProductBound(x: s16, y: s16)
    ensures -0x4000_0000 <= (x as int) * y <= 0x4000_0000
  {
    var v: int := x;
    var m: nat := if v < 0 then -v else v;
    ProductMonotone(m, -0x8000, y);
    ProductMonotone(m, y, 0x8000);
    assert (x as int) * y == (if x < 0 then -(m * y) else m * y);
  }

  /** matrix_test: the sums of the four products, in this order, enter a CRC that starts at 0. */
  lemma MatrixTestIs(n: nat, a0: seq<s16>, b: seq<s16>, val: s16)
    returns (a: seq<s16>, c1: seq<s32>, c2: seq<s32>, c3: seq<s32>, c4: seq<s32>)
    requires |a0| == n * n && |b| == n * n
    ensures Square(n, |a0|) && Square(n, |b|) && Stages(n, a0, b, val, a, c1, c2, c3, c4)
    ensures var clip := Big(val);
            var crc1 := Crc16(MatrixSum(c1, clip), 0);
            var crc2 := Crc16(MatrixSum(c2, clip), crc1);
            var crc3 := Crc16(MatrixSum(c3, clip), crc2);
            MatrixTest(n, a0, b, val) == Crc16(MatrixSum(c4, clip), crc3)
  {
    hide Wrap16, Wrap32, InnerSum, MulVect, MulMatrix, MulConst, AddConst, MatrixSum, Crc16, Row, Plus;
    RowIsProduct(n, n);
    a := AddConst(a0, val);
    c1 := MulConst(a, val);
    c2, c3, c4 := MulVect(n, c1, a, b), MulMatrix(n, a, b, false), MulMatrix(n, a, b, true);
    forall k | 0 <= k < n * n
      ensures Plus(a0[k], val, a[k]) && c1[k] == (a[k] as int) * val
      ensures c2[k] == if k < n then Wrap32(InnerSum(n, a, b, k, 0, n, OfVector)) else c1[k]
    {
      PlusIs(a0, val, k);
      ScaledIs(a, val, k);
      VectorEntryIs(n, c1, a, b, k);
    }
    forall i, j | 0 <= i < n && 0 <= j < n
      ensures IsEntry(n, a, b, c3, i, j, OfMatrix) && IsEntry(n, a, b, c4, i, j, OfBits)
    {
      EntryIs(n, a, b, i, j, false);
      EntryIs(n, a, b, i, j, true);
    }
  }
}
