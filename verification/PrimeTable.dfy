/** The first 64 primes, and the proof that they are. */
module PrimeTable {
  import opened Arithmetic

  function Prime(t: nat): nat
    requires t < 64
  {
    if t < 16 then Prime0(t) else if t < 32 then Prime1(t - 16) else if t < 48 then Prime2(t - 32) else Prime3(t - 48)
  }

  function Prime0(t: nat): nat
    requires t < 16
  {
    match t
    case 0 => 2
    case 1 => 3
    case 2 => 5
    case 3 => 7
    case 4 => 11
    case 5 => 13
    case 6 => 17
    case 7 => 19
    case 8 => 23
    case 9 => 29
    case 10 => 31
    case 11 => 37
    case 12 => 41
    case 13 => 43
    case 14 => 47
    case _ => 53
  }

  function Prime1(t: nat): nat
    requires t < 16
  {
    match t
    case 0 => 59
    case 1 => 61
    case 2 => 67
    case 3 => 71
    case 4 => 73
    case 5 => 79
    case 6 => 83
    case 7 => 89
    case 8 => 97
    case 9 => 101
    case 10 => 103
    case 11 => 107
    case 12 => 109
    case 13 => 113
    case 14 => 127
    case _ => 131
  }

  function Prime2(t: nat): nat
    requires t < 16
  {
    match t
    case 0 => 137
    case 1 => 139
    case 2 => 149
    case 3 => 151
    case 4 => 157
    case 5 => 163
    case 6 => 167
    case 7 => 173
    case 8 => 179
    case 9 => 181
    case 10 => 191
    case 11 => 193
    case 12 => 197
    case 13 => 199
    case 14 => 211
    case _ => 223
  }

  function Prime3(t: nat): nat
    requires t < 16
  {
    match t
    case 0 => 227
    case 1 => 229
    case 2 => 233
    case 3 => 239
    case 4 => 241
    case 5 => 251
    case 6 => 257
    case 7 => 263
    case 8 => 269
    case 9 => 271
    case 10 => 277
    case 11 => 281
    case 12 => 283
    case 13 => 293
    case 14 => 307
    case _ => 311
  }

  predicate Divides(d: nat, n: nat) { d > 0 && n % d == 0 }

  predicate IsPrime(n: nat) { n >= 2 && forall d | 2 <= d < n :: !Divides(d, n) }

  /** No prime up to 17 divides n, unless it is n. */
  predicate Sieved(n: nat) {
    && (n % 2 != 0 || n == 2) && (n % 3 != 0 || n == 3) && (n % 5 != 0 || n == 5) && (n % 7 != 0 || n == 7)
    && (n % 11 != 0 || n == 11) && (n % 13 != 0 || n == 13) && (n % 17 != 0 || n == 17)
  }

  lemma DividesTrans(p: nat, m: nat, n: nat)
    requires Divides(p, m) && Divides(m, n)
    ensures Divides(p, n)
  {
    var f, e := m / p, n / m;
    assert m == p * f && n == m * e;
    assert n == p * (f * e) + 0;
    DivModUnique(n, p, f * e, 0);
  }

  /** Every number from 2 to 18 has a factor up to 17. */
  lemma SmallFactor(m: nat) returns (p: nat)
    requires 2 <= m <= 18
    ensures p in {2, 3, 5, 7, 11, 13, 17} && Divides(p, m)
  {
    p := if m % 2 == 0 then 2 else if m % 3 == 0 then 3 else if m % 5 == 0 then 5 else if m % 7 == 0 then 7
         else if m % 11 == 0 then 11 else if m % 13 == 0 then 13 else 17;
  }

  /** Of two factors of a number below 19 * 19, one is at most 18. */
  lemma SmallerFactor(n: nat, d: nat) returns (m: nat)
    requires Divides(d, n) && 2 <= d < n < 361
    ensures 2 <= m <= 18 && m < n && Divides(m, n)
  {
    var e := n / d;
    assert n == d * e && e >= 2;
    if d <= 18 {
      m := d;
    } else {
      m := e;
      if e >= 19 {
        ProductMonotone(d, 19, e);
      }
      assert n == e * d + 0;
      DivModUnique(n, e, d, 0);
      MultipleGap(e, 1, d);
    }
  }

  lemma SieveDecides(n: nat)
    requires 2 <= n < 361
    ensures IsPrime(n) <==> Sieved(n)
  {
    if Sieved(n) {
      forall d | 2 <= d < n
        ensures !Divides(d, n)
      {
        if Divides(d, n) {
          var m := SmallerFactor(n, d);
          var p := SmallFactor(m);
          DividesTrans(p, m, n);
        }
      }
    }
    if IsPrime(n) {
      assert forall d | 2 <= d < n :: !Divides(d, n);
      assert !Divides(2, n) || n <= 2;
      assert !Divides(3, n) || n <= 3;
      assert !Divides(5, n) || n <= 5;
      assert !Divides(7, n) || n <= 7;
      assert !Divides(11, n) || n <= 11;
      assert !Divides(13, n) || n <= 13;
      assert !Divides(17, n) || n <= 17;
    }
  }

  // ------------------------------------------------------------------
  // The table against the sieve
  // ------------------------------------------------------------------

  lemma Sieve0(n: nat)
    requires 2 <= n < 11
    ensures Sieved(n) <==> n == 2 || n == 3 || n == 5 || n == 7
  {
  }

  lemma Sieve1(n: nat)
    requires 11 <= n < 23
    ensures Sieved(n) <==> n == 11 || n == 13 || n == 17 || n == 19
  {
  }

  lemma Sieve2(n: nat)
    requires 23 <= n < 41
    ensures Sieved(n) <==> n == 23 || n == 29 || n == 31 || n == 37
  {
  }

  lemma Sieve3(n: nat)
    requires 41 <= n < 59
    ensures Sieved(n) <==> n == 41 || n == 43 || n == 47 || n == 53
  {
  }

  lemma Sieve4(n: nat)
    requires 59 <= n < 73
    ensures Sieved(n) <==> n == 59 || n == 61 || n == 67 || n == 71
  {
  }

  lemma Sieve5(n: nat)
    requires 73 <= n < 97
    ensures Sieved(n) <==> n == 73 || n == 79 || n == 83 || n == 89
  {
  }

  lemma Sieve6(n: nat)
    requires 97 <= n < 109
    ensures Sieved(n) <==> n == 97 || n == 101 || n == 103 || n == 107
  {
  }

  lemma Sieve7(n: nat)
    requires 109 <= n < 137
    ensures Sieved(n) <==> n == 109 || n == 113 || n == 127 || n == 131
  {
  }

  lemma Sieve8(n: nat)
    requires 137 <= n < 157
    ensures Sieved(n) <==> n == 137 || n == 139 || n == 149 || n == 151
  {
  }

  lemma Sieve9(n: nat)
    requires 157 <= n < 179
    ensures Sieved(n) <==> n == 157 || n == 163 || n == 167 || n == 173
  {
  }

  lemma Sieve10(n: nat)
    requires 179 <= n < 197
    ensures Sieved(n) <==> n == 179 || n == 181 || n == 191 || n == 193
  {
  }

  lemma Sieve11(n: nat)
    requires 197 <= n < 227
    ensures Sieved(n) <==> n == 197 || n == 199 || n == 211 || n == 223
  {
  }

  lemma Sieve12(n: nat)
    requires 227 <= n < 241
    ensures Sieved(n) <==> n == 227 || n == 229 || n == 233 || n == 239
  {
  }

  lemma Sieve13(n: nat)
    requires 241 <= n < 269
    ensures Sieved(n) <==> n == 241 || n == 251 || n == 257 || n == 263
  {
  }

  lemma Sieve14(n: nat)
    requires 269 <= n < 283
    ensures Sieved(n) <==> n == 269 || n == 271 || n == 277 || n == 281
  {
  }

  lemma Sieve15(n: nat)
    requires 283 <= n < 312
    ensures Sieved(n) <==> n == 283 || n == 293 || n == 307 || n == 311
  {
  }

  lemma Entries0()
    ensures Prime(0) == 2 && Prime(1) == 3 && Prime(2) == 5 && Prime(3) == 7
    ensures Prime(4) == 11 && Prime(5) == 13 && Prime(6) == 17 && Prime(7) == 19
    ensures Prime(8) == 23 && Prime(9) == 29 && Prime(10) == 31 && Prime(11) == 37
    ensures Prime(12) == 41 && Prime(13) == 43 && Prime(14) == 47 && Prime(15) == 53
  {
  }

  lemma Entries1()
    ensures Prime(16) == 59 && Prime(17) == 61 && Prime(18) == 67 && Prime(19) == 71
    ensures Prime(20) == 73 && Prime(21) == 79 && Prime(22) == 83 && Prime(23) == 89
    ensures Prime(24) == 97 && Prime(25) == 101 && Prime(26) == 103 && Prime(27) == 107
    ensures Prime(28) == 109 && Prime(29) == 113 && Prime(30) == 127 && Prime(31) == 131
  {
  }

  lemma Entries2()
    ensures Prime(32) == 137 && Prime(33) == 139 && Prime(34) == 149 && Prime(35) == 151
    ensures Prime(36) == 157 && Prime(37) == 163 && Prime(38) == 167 && Prime(39) == 173
    ensures Prime(40) == 179 && Prime(41) == 181 && Prime(42) == 191 && Prime(43) == 193
    ensures Prime(44) == 197 && Prime(45) == 199 && Prime(46) == 211 && Prime(47) == 223
  {
  }

  lemma Entries3()
    ensures Prime(48) == 227 && Prime(49) == 229 && Prime(50) == 233 && Prime(51) == 239
    ensures Prime(52) == 241 && Prime(53) == 251 && Prime(54) == 257 && Prime(55) == 263
    ensures Prime(56) == 269 && Prime(57) == 271 && Prime(58) == 277 && Prime(59) == 281
    ensures Prime(60) == 283 && Prime(61) == 293 && Prime(62) == 307 && Prime(63) == 311
  {
  }

  /** The sieve leaves exactly the entries. */
  predicate Listed(n: nat) { exists i: nat :: i < 64 && Prime(i) == n }

  lemma SieveLists(n: nat)
    requires 2 <= n < 312
    ensures Sieved(n) <==> Listed(n)
  {
    Entries0();
    Entries1();
    Entries2();
    Entries3();
    hide Prime, Sieved;
    if n < 11 {
      Sieve0(n);
    } else if n < 23 {
      Sieve1(n);
    } else if n < 41 {
      Sieve2(n);
    } else if n < 59 {
      Sieve3(n);
    } else if n < 73 {
      Sieve4(n);
    } else if n < 97 {
      Sieve5(n);
    } else if n < 109 {
      Sieve6(n);
    } else if n < 137 {
      Sieve7(n);
    } else if n < 157 {
      Sieve8(n);
    } else if n < 179 {
      Sieve9(n);
    } else if n < 197 {
      Sieve10(n);
    } else if n < 227 {
      Sieve11(n);
    } else if n < 241 {
      Sieve12(n);
    } else if n < 269 {
      Sieve13(n);
    } else if n < 283 {
      Sieve14(n);
    } else {
      Sieve15(n);
    }
  }

  /** Every entry is smaller than the next. */
  lemma Increasing(i: nat)
    requires i < 64
    ensures 2 <= Prime(i) < 312 && (i < 63 ==> Prime(i) < Prime(i + 1))
  {
    Entries0();
    Entries1();
    Entries2();
    Entries3();
    hide Prime;
  }

  /** The table lists the primes up to 311 and nothing else, in order. */
  lemma TableIsPrimes(n: nat)
    requires n <= 311
    ensures IsPrime(n) <==> Listed(n)
    ensures forall i: nat :: i < 63 ==> Prime(i) < Prime(i + 1)
  {
    hide Prime, Sieved;
    forall i: nat | i < 64
      ensures 2 <= Prime(i) < 312 && (i < 63 ==> Prime(i) < Prime(i + 1))
    {
      Increasing(i);
    }
    if n >= 2 {
      hide Listed;
      SieveDecides(n);
      SieveLists(n);
    }
  }
}
