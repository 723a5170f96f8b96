/** The matrix benchmark, core_matrix.c.

    MATDAT is 16 bits and MATRES 32; sums that leave their type wrap, as they do on
    the two's-complement target. Matrices are stored row by row.
 */
module CoreMatrix {
  import opened CoreUtil

  type s16 = x: int | -0x8000 <= x < 0x8000
  type s32 = x: int | -0x8000_0000 <= x < 0x8000_0000

  function Wrap16(x: int): s16 { (x + 0x8000) % 0x1_0000 - 0x8000 }

  function Wrap32(x: int): s32 { (x + 0x8000_0000) % 0x1_0000_0000 - 0x8000_0000 }

  /** crc16 of a signed value. */
  function Crc16(newval: int, crc: bv16): bv16 { CrcU16(Word(newval % 0x1_0000), crc) }

  /** matrix_big: 0xf000 | val, as a MATDAT. */
  function Big(val: s16): s16 { val % 0x1000 - 0x1000 }

  /** Where row i of a matrix with n columns starts: i * n, see RowIsProduct. */
  function Row(n: nat, i: nat): nat { if i == 0 then 0 else Row(n, i - 1) + n }

  lemma {:induction false} RowIsProduct(n: nat, i: nat)
    ensures Row(n, i) == i * n
  {
    if i > 0 {
      RowIsProduct(n, i - 1);
      assert i * n == (i - 1) * n + n;
    }
  }

  predicate Square(n: nat, s: nat) { s == Row(n, n) }

  function AddConst(a: seq<s16>, val: s16): (r: seq<s16>)
    ensures |r| == |a|
  {
    seq(|a|, (k: nat) requires k < |a| => Wrap16(a[k] + val))
  }

  function MulConst(a: seq<s16>, val: s16): (r: seq<s32>)
    ensures |r| == |a|
  {
    seq(|a|, (k: nat) requires k < |a| => Wrap32((a[k] as int) * val))
  }

  lemma {:induction false} InRow(n: nat, i: nat, rows: nat)
    requires i < rows
    ensures Row(n, i) + n == Row(n, i + 1) <= Row(n, rows)
    decreases rows
  {
    if i + 1 < rows {
      InRow(n, i, rows - 1);
    }
  }

  /** Entry (i, j) of a matrix. */
  function At<T>(n: nat, a: seq<T>, i: nat, j: nat): T
    requires Square(n, |a|) && i < n && j < n
  {
    InRow(n, i, n);
    a[Row(n, i) + j]
  }

  /** The term an inner loop adds for index k, for each of the three products. */
  datatype Product = Vector(row: nat) | Matrix(row: nat, column: nat) | Extract(row: nat, column: nat)

  predicate InRange(n: nat, p: Product) {
    p.row < n && (!p.Vector? ==> p.column < n)
  }

  /** bit_extract(x, 2, 4) * bit_extract(x, 5, 7). */
  function BitExtract(x: int): nat {
    ((x / 4) % 16) * ((x / 32) % 128)
  }

  /** The two factors of the term: from row i of A, and from B. */
  function Factors(n: nat, a: seq<s16>, b: seq<s16>, p: Product, k: nat): (s16, s16)
    requires Square(n, |a|) && Square(n, |b|) && InRange(n, p) && k < n
  {
    (At(n, a, p.row, k), if p.Vector? then At(n, b, 0, k) else At(n, b, k, p.column))
  }

  function Term(n: nat, a: seq<s16>, b: seq<s16>, p: Product, k: nat): int
    requires Square(n, |a|) && Square(n, |b|) && InRange(n, p) && k < n
  {
    var (x, y) := Factors(n, a, b, p, k);
    if p.Extract? then BitExtract((x as int) * y) else (x as int) * y
  }

  /** The first m terms, accumulated in 32 bits. */
  function Dot(n: nat, a: seq<s16>, b: seq<s16>, p: Product, m: nat): s32
    requires Square(n, |a|) && Square(n, |b|) && InRange(n, p) && m <= n
  {
    if m == 0 then 0 else Wrap32(Dot(n, a, b, p, m - 1) + Term(n, a, b, p, m - 1))
  }

  /** Only the first n entries of C are written. */
  function MulVect(n: nat, c: seq<s32>, a: seq<s16>, b: seq<s16>): (r: seq<s32>)
    requires Square(n, |a|) && Square(n, |b|) && Square(n, |c|)
    ensures |r| == |c|
  {
    seq(|c|, (k: nat) requires k < |c| => if k < n then Dot(n, a, b, Vector(k), n) else c[k])
  }

  /** Row and column of the k-th entry. */
  function Place(n: nat, k: nat): (nat, nat)
    requires n > 0
  {
    if k < n then (0, k) else var (i, j) := Place(n, k - n); (i + 1, j)
  }

  lemma {:induction false} PlaceInRange(n: nat, k: nat, rows: nat)
    requires k < Row(n, rows) && n > 0
    ensures Place(n, k).0 < rows && Place(n, k).1 < n
    decreases rows
  {
    if k >= n {
      PlaceInRange(n, k - n, rows - 1);
    }
  }

  lemma {:induction false} PlaceOf(n: nat, i: nat, j: nat)
    requires j < n
    ensures Place(n, Row(n, i) + j) == (i, j)
  {
    if i > 0 {
      PlaceOf(n, i - 1, j);
    }
  }

  /** The product that makes entry k of the result. */
  function Cell(n: nat, extract: bool, k: nat): Product
    requires n > 0
  {
    var p := Place(n, k);
    if extract then Extract(p.0, p.1) else Matrix(p.0, p.1)
  }

  function Entry(n: nat, a: seq<s16>, b: seq<s16>, extract: bool, k: nat): s32
    requires Square(n, |a|) && Square(n, |b|) && k < Row(n, n)
  {
    PlaceInRange(n, k, n);
    Dot(n, a, b, Cell(n, extract, k), n)
  }

  function MulMatrix(n: nat, a: seq<s16>, b: seq<s16>, extract: bool): (r: seq<s32>)
    requires Square(n, |a|) && Square(n, |b|)
    ensures |r| == Row(n, n)
  {
    seq(Row(n, n), (k: nat) requires k < Row(n, n) => Entry(n, a, b, extract, k))
  }

  datatype Summary = Summary(tmp: s32, prev: s32, ret: s16)

  function SumStep(s: Summary, cur: s32, clip: s16): Summary {
    var tmp := Wrap32(s.tmp + cur);
    if tmp > clip then Summary(0, cur, Wrap16(s.ret + 10))
    else Summary(tmp, cur, Wrap16(s.ret + if cur > s.prev then 1 else 0))
  }

  function SumFrom(c: seq<s32>, s: Summary, clip: s16): s16 {
    if c == [] then s.ret else SumFrom(c[1..], SumStep(s, c[0], clip), clip)
  }

  function MatrixSum(c: seq<s32>, clip: s16): s16 {
    SumFrom(c, Summary(0, 0, 0), clip)
  }

  /** The CRC matrix_test computes. The old contents of C play no part. */
  function MatrixTest(n: nat, a0: seq<s16>, b: seq<s16>, val: s16): bv16
    requires Square(n, |a0|) && Square(n, |b|)
  {
    var clip, a := Big(val), AddConst(a0, val);
    var c1 := MulConst(a, val);
    var crc1 := Crc16(MatrixSum(c1, clip), 0);
    var crc2 := Crc16(MatrixSum(MulVect(n, c1, a, b), clip), crc1);
    var crc3 := Crc16(MatrixSum(MulMatrix(n, a, b, false), clip), crc2);
    Crc16(MatrixSum(MulMatrix(n, a, b, true), clip), crc3)
  }

  function BenchMatrix(n: nat, a: seq<s16>, b: seq<s16>, seed: s16, crc: bv16): bv16
    requires Square(n, |a|) && Square(n, |b|)
  {
    CrcU16(MatrixTest(n, a, b, seed), crc)
  }

  // ------------------------------------------------------------------
  // The code
  // ------------------------------------------------------------------

  /** Entries before t already come from `done`, the others still from `before`. */
  ghost function Splice<T>(done: seq<T>, before: seq<T>, t: nat): (r: seq<T>)
    requires |done| == |before| && t <= |done|
    ensures |r| == |done|
  {
    done[..t] + before[t..]
  }

  lemma SpliceStep<T>(done: seq<T>, before: seq<T>, t: nat)
    requires |done| == |before| && t < |done|
    ensures Splice(done, before, t)[t] == before[t]
    ensures Splice(done, before, t)[t := done[t]] == Splice(done, before, t + 1)
  {
  }

  method MatrixAddConst(n: nat, a: array<s16>, val: s16)
    requires Square(n, a.Length)
    modifies a
    ensures a[..] == AddConst(old(a[..]), val)
  {
    ghost var a0, sum := a[..], AddConst(a[..], val);
    for i := 0 to n
      invariant Row(n, i) <= Row(n, n)
      invariant forall k | 0 <= k < a.Length :: a[k] == if k < Row(n, i) then sum[k] else a0[k]
    {
      InRow(n, i, n);
      for j := 0 to n
        invariant forall k | 0 <= k < a.Length :: a[k] == if k < Row(n, i) + j then sum[k] else a0[k]
      {
        a[Row(n, i) + j] := Wrap16(a[Row(n, i) + j] + val);
      }
    }
  }

  method MatrixMulConst(n: nat, c: array<s32>, a: array<s16>, val: s16)
    requires Square(n, a.Length) && Square(n, c.Length) && c as object != a
    modifies c
    ensures c[..] == MulConst(a[..], val)
  {
    ghost var A, prod := a[..], MulConst(a[..], val);
    for i := 0 to n
      invariant A == a[..] && Row(n, i) <= Row(n, n)
      invariant forall k | 0 <= k < Row(n, i) :: c[k] == prod[k]
    {
      InRow(n, i, n);
      for j := 0 to n
        invariant A == a[..]
        invariant forall k | 0 <= k < Row(n, i) + j :: c[k] == prod[k]
      {
        assert A[Row(n, i) + j] == a[Row(n, i) + j];
        c[Row(n, i) + j] := Wrap32((a[Row(n, i) + j] as int) * val);
      }
    }
    assert c[..] == prod;
  }

  lemma FirstRow(n: nat)
    ensures n > 0 ==> n <= Row(n, n)
  {
    if n > 0 {
      InRow(n, 0, n);
    }
  }

  /** The inner loop of matrix_mul_vect. */
  method VectorProduct(n: nat, c: array<s32>, a: array<s16>, b: array<s16>, i: nat)
    requires Square(n, a.Length) && Square(n, b.Length) && Square(n, c.Length)
    requires c as object != a && c as object != b && i < n
    modifies c
    ensures n <= Row(n, n)
    ensures c[..] == old(c[..])[i := Dot(n, a[..], b[..], Vector(i), n)]
  {
    ghost var c0, A, B := c[..], a[..], b[..];
    FirstRow(n);
    InRow(n, i, n);
    c[i] := 0;
    for j := 0 to n
      invariant A == a[..] && B == b[..]
      invariant c[..] == c0[i := Dot(n, A, B, Vector(i), j)]
    {
      assert A[Row(n, i) + j] == a[Row(n, i) + j] && B[j] == b[j];
      c[i] := Wrap32(c[i] + (a[Row(n, i) + j] as int) * b[j]);
    }
  }

  lemma MulVectAt(n: nat, c: seq<s32>, a: seq<s16>, b: seq<s16>, i: nat)
    requires Square(n, |a|) && Square(n, |b|) && Square(n, |c|) && i < n
    ensures |MulVect(n, c, a, b)| == |c| && i < |c|
    ensures MulVect(n, c, a, b)[i] == Dot(n, a, b, Vector(i), n)
  {
    hide Dot;
    FirstRow(n);
  }

  method MatrixMulVect(n: nat, c: array<s32>, a: array<s16>, b: array<s16>)
    requires Square(n, a.Length) && Square(n, b.Length) && Square(n, c.Length)
    requires c as object != a && c as object != b
    modifies c
    ensures c[..] == MulVect(n, old(c[..]), a[..], b[..])
  {
    hide Dot;
    ghost var c0, A, B := c[..], a[..], b[..];
    ghost var prod := MulVect(n, c0, A, B);
    FirstRow(n);
    assert n < |prod| ==> prod[n..] == c0[n..];
    hide MulVect;
    for i := 0 to n
      invariant A == a[..] && B == b[..]
      invariant c[..] == Splice(prod, c0, i)
    {
      SpliceStep(prod, c0, i);
      MulVectAt(n, c0, A, B, i);
      VectorProduct(n, c, a, b, i);
    }
  }

  /** The product of the two elements an inner loop reads is its term. */
  lemma TermIs(n: nat, a: seq<s16>, b: seq<s16>, extract: bool, i: nat, j: nat, k: nat)
    requires Square(n, |a|) && Square(n, |b|) && i < n && j < n && k < n
    ensures Row(n, i) + k < |a| && Row(n, k) + j < |b|
    ensures var tmp := (a[Row(n, i) + k] as int) * b[Row(n, k) + j];
            Term(n, a, b, if extract then Extract(i, j) else Matrix(i, j), k) == if extract then BitExtract(tmp) else tmp
  {
    hide BitExtract;
    InRow(n, i, n);
    InRow(n, k, n);
  }

  /** The innermost loop of the two matrix products. */
  method InnerProduct(n: nat, c: array<s32>, a: array<s16>, b: array<s16>, i: nat, j: nat, extract: bool)
    requires Square(n, a.Length) && Square(n, b.Length) && Square(n, c.Length)
    requires c as object != a && c as object != b && i < n && j < n && Row(n, i) + j < c.Length
    modifies c
    ensures Row(n, i) + j < Row(n, n)
    ensures c[..] == old(c[..])[Row(n, i) + j := Entry(n, a[..], b[..], extract, Row(n, i) + j)]
  {
    hide BitExtract, Term, Place, Row;
    ghost var t := Row(n, i) + j;
    ghost var c0, A, B, p := c[..], a[..], b[..], Cell(n, extract, t);
    PlaceOf(n, i, j);
    InRow(n, i, n);
    assert p == if extract then Extract(i, j) else Matrix(i, j);
    c[Row(n, i) + j] := 0;
    for k := 0 to n
      invariant A == a[..] && B == b[..]
      invariant c[..] == c0[t := Dot(n, A, B, p, k)]
    {
      TermIs(n, A, B, extract, i, j, k);
      assert A[Row(n, i) + k] == a[Row(n, i) + k] && B[Row(n, k) + j] == b[Row(n, k) + j];
      var tmp := (a[Row(n, i) + k] as int) * b[Row(n, k) + j];
      c[Row(n, i) + j] := Wrap32(c[Row(n, i) + j] + if extract then BitExtract(tmp) else tmp);
    }
  }

  /** matrix_mul_matrix and, with extract, matrix_mul_matrix_bitextract. */
  method MatrixMulMatrix(n: nat, c: array<s32>, a: array<s16>, b: array<s16>, extract: bool)
    requires Square(n, a.Length) && Square(n, b.Length) && Square(n, c.Length)
    requires c as object != a && c as object != b
    modifies c
    ensures c[..] == MulMatrix(n, a[..], b[..], extract)
  {
    ghost var A, B := a[..], b[..];
    ghost var prod := MulMatrix(n, A, B, extract);
    for i := 0 to n
      invariant A == a[..] && B == b[..]
      invariant Row(n, i) <= Row(n, n)
      invariant forall k | 0 <= k < Row(n, i) :: c[k] == prod[k]
    {
      InRow(n, i, n);
      for j := 0 to n
        invariant A == a[..] && B == b[..]
        invariant forall k | 0 <= k < Row(n, i) + j :: c[k] == prod[k]
      {
        ghost var before := c[..];
        InnerProduct(n, c, a, b, i, j, extract);
        assert forall k | 0 <= k < c.Length && k != Row(n, i) + j :: c[k] == c[..][k] == before[k];
        assert c[..][Row(n, i) + j] == prod[Row(n, i) + j];
      }
    }
    assert c[..] == prod;
  }

  method ComputeMatrixSum(n: nat, c: array<s32>, clip: s16) returns (ret: s16)
    requires Square(n, c.Length)
    ensures ret == MatrixSum(c[..], clip)
  {
    var tmp: s32, prev: s32, cur: s32 := 0, 0, 0;
    ret := 0;
    ghost var goal := MatrixSum(c[..], clip);
    assert c[0..] == c[..];
    for i := 0 to n
      invariant Row(n, i) <= Row(n, n) && SumFrom(c[Row(n, i)..], Summary(tmp, prev, ret), clip) == goal
    {
      InRow(n, i, n);
      for j := 0 to n
        invariant SumFrom(c[Row(n, i) + j..], Summary(tmp, prev, ret), clip) == goal
      {
        assert c[Row(n, i) + j..][1..] == c[Row(n, i) + j + 1..];
        cur := c[Row(n, i) + j];
        tmp := Wrap32(tmp + cur);
        if tmp > clip {
          ret := Wrap16(ret + 10);
          tmp := 0;
        } else {
          ret := Wrap16(ret + if cur > prev then 1 else 0);
        }
        prev := cur;
      }
    }
  }

  /** matrix_test, lines 129-162 of core_matrix.c. */
  method ComputeMatrixTest(n: nat, c: array<s32>, a: array<s16>, b: array<s16>, val: s16) returns (crc: bv16)
    requires Square(n, a.Length) && Square(n, b.Length) && Square(n, c.Length)
    requires c as object != a && c as object != b && a != b
    modifies a, c
    ensures a[..] == old(a[..])
    ensures crc == MatrixTest(n, old(a[..]), b[..], val)
  {
    ghost var a0, b0 := a[..], b[..];
    var clip := Big(val);
    MatrixAddConst(n, a, val);
    ghost var a1 := a[..];
    MatrixMulConst(n, c, a, val);
    ghost var c1 := c[..];
    var sum := ComputeMatrixSum(n, c, clip);
    crc := Crc16(sum, 0);
    assert a[..] == a1 && b[..] == b0;
    MatrixMulVect(n, c, a, b);
    sum := ComputeMatrixSum(n, c, clip);
    crc := Crc16(sum, crc);
    assert a[..] == a1 && b[..] == b0;
    MatrixMulMatrix(n, c, a, b, false);
    sum := ComputeMatrixSum(n, c, clip);
    crc := Crc16(sum, crc);
    assert a[..] == a1 && b[..] == b0;
    MatrixMulMatrix(n, c, a, b, true);
    sum := ComputeMatrixSum(n, c, clip);
    crc := Crc16(sum, crc);
    assert a[..] == a1 && b[..] == b0;
    MatrixAddConst(n, a, Negated(val));
    AddConstRestores(a0, val);
  }

  /** core_bench_matrix, lines 91-103 of core_matrix.c. */
  method CoreBenchMatrix(n: nat, c: array<s32>, a: array<s16>, b: array<s16>, seed: s16, crc0: bv16) returns (crc: bv16)
    requires Square(n, a.Length) && Square(n, b.Length) && Square(n, c.Length)
    requires c as object != a && c as object != b && a != b
    modifies a, c
    ensures a[..] == old(a[..])
    ensures crc == BenchMatrix(n, old(a[..]), b[..], seed, crc0)
  {
    var r := ComputeMatrixTest(n, c, a, b, seed);
    crc := CrcU16(r, crc0);
  }

  // ------------------------------------------------------------------
  // Properties
  // ------------------------------------------------------------------

  /** -val as a MATDAT. */
  function Negated(val: s16): s16 { Wrap16(0 - (val as int)) }

  lemma WrapBack(x: s16, val: s16)
    ensures Wrap16(Wrap16(x + val) + Negated(val)) == x
  {
  }

  /** Adding val and then -val gives every matrix back, for every val. */
  lemma AddConstRestores(a: seq<s16>, val: s16)
    ensures AddConst(AddConst(a, val), Negated(val)) == a
  {
    hide Wrap16, Negated;
    forall k | 0 <= k < |a| ensures AddConst(AddConst(a, val), Negated(val))[k] == a[k] {
      WrapBack(a[k], val);
    }
  }

  /** The sum of the first m terms, unbounded. */
  function ExactDot(n: nat, a: seq<s16>, b: seq<s16>, p: Product, m: nat): int
    requires Square(n, |a|) && Square(n, |b|) && InRange(n, p) && m <= n
  {
    if m == 0 then 0 else ExactDot(n, a, b, p, m - 1) + Term(n, a, b, p, m - 1)
  }

  lemma WrapOnce(x: int, y: int)
    ensures Wrap32(Wrap32(x) + y) == Wrap32(x + y)
  {
  }

  /** Wrapping at every step of an inner product is wrapping once at the end. */
  lemma {:induction false} DotIsExact(n: nat, a: seq<s16>, b: seq<s16>, p: Product, m: nat)
    requires Square(n, |a|) && Square(n, |b|) && InRange(n, p) && m <= n
    ensures Dot(n, a, b, p, m) == Wrap32(ExactDot(n, a, b, p, m))
  {
    if m > 0 {
      DotIsExact(n, a, b, p, m - 1);
      WrapOnce(ExactDot(n, a, b, p, m - 1), Term(n, a, b, p, m - 1));
    }
  }
}
