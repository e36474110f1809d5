/** Where the constants of FIPS 180-4 come from (sections 4.2.2 and 5.3.3): the roots of the first 64 primes. */
module FipsConstants {
  import opened Fips180

  // ---------- The first primes ----------

  /** Not a product of two larger factors than one. */
  ghost predicate IsPrime(n: nat) { n >= 2 && forall d: nat, e: nat :: d >= 2 && e >= 2 ==> d * e != n }

  /** The prime number t, counted from 0. */
  function Prime(t: nat): nat
    requires t < 64
  {
    match t
    case 0 => 2 case 1 => 3 case 2 => 5 case 3 => 7 case 4 => 11 case 5 => 13 case 6 => 17
    case 7 => 19 case 8 => 23 case 9 => 29 case 10 => 31 case 11 => 37 case 12 => 41 case 13 => 43
    case 14 => 47 case 15 => 53 case 16 => 59 case 17 => 61 case 18 => 67 case 19 => 71 case 20 => 73
    case 21 => 79 case 22 => 83 case 23 => 89 case 24 => 97 case 25 => 101 case 26 => 103 case 27 => 107
    case 28 => 109 case 29 => 113 case 30 => 127 case 31 => 131 case 32 => 137 case 33 => 139 case 34 => 149
    case 35 => 151 case 36 => 157 case 37 => 163 case 38 => 167 case 39 => 173 case 40 => 179 case 41 => 181
    case 42 => 191 case 43 => 193 case 44 => 197 case 45 => 199 case 46 => 211 case 47 => 223 case 48 => 227
    case 49 => 229 case 50 => 233 case 51 => 239 case 52 => 241 case 53 => 251 case 54 => 257 case 55 => 263
    case 56 => 269 case 57 => 271 case 58 => 277 case 59 => 281 case 60 => 283 case 61 => 293 case 62 => 307
    case _ => 311
  }

  predicate Sieved(n: nat) {
    n % 2 != 0 && n % 3 != 0 && n % 5 != 0 && n % 7 != 0 && n % 11 != 0 && n % 13 != 0 && n % 17 != 0
  }

  lemma PrimeIsSieved(n: nat)
    requires n > 17 && IsPrime(n)
    ensures Sieved(n)
  {
    assert 2 * (n / 2) != n && 3 * (n / 3) != n && 5 * (n / 5) != n && 7 * (n / 7) != n && 11 * (n / 11) != n;
    assert 13 * (n / 13) != n && 17 * (n / 17) != n;
  }

  lemma MultiplesDivide(m: nat)
    ensures (2 * m) % 2 == 0 && (3 * m) % 3 == 0 && (5 * m) % 5 == 0 && (7 * m) % 7 == 0 && (11 * m) % 11 == 0
    ensures (13 * m) % 13 == 0 && (17 * m) % 17 == 0
  {}

  lemma Sifted(n: nat)
    requires n % 2 == 0 || n % 3 == 0 || n % 5 == 0 || n % 7 == 0 || n % 11 == 0 || n % 13 == 0 || n % 17 == 0
    ensures !Sieved(n)
  {}

  lemma Regrouped(p: nat, h: nat, e: nat)
    ensures (p * h) * e == p * (h * e)
  {}

  lemma SmallFactorIsSifted(d: nat, e: nat)
    requires 2 <= d < 18
    ensures !Sieved(d * e)
  {
    hide Sieved;
    MultiplesDivide(e);
    Regrouped(2, d / 2, e);
    Regrouped(3, d / 3, e);
    MultiplesDivide((d / 2) * e);
    MultiplesDivide((d / 3) * e);
    assert d % 2 == 0 || d % 3 == 0 || d == 5 || d == 7 || d == 11 || d == 13 || d == 17;
    if d % 2 == 0 { assert d == 2 * (d / 2); }
    if d % 3 == 0 { assert d == 3 * (d / 3); }
    Sifted(d * e);
  }

  lemma LargeFactors(d: nat, e: nat)
    ensures d >= 18 && e >= 18 ==> d * e >= 18 * 18
  {}

  /** Below 18 times 18 the sieve is exact. */
  lemma SievedIsPrime(n: nat)
    requires 17 < n < 324 && Sieved(n)
    ensures IsPrime(n)
  {
    hide Sieved;
    forall d: nat, e: nat | d >= 2 && e >= 2 ensures d * e != n {
      LargeFactors(d, e);
      if d < 18 { SmallFactorIsSifted(d, e); }
      if e < 18 { SmallFactorIsSifted(e, d); assert e * d == d * e; }
    }
  }

  lemma SievedUpTo47(n: nat)
    requires 18 <= n < 48
    ensures Sieved(n) <==>
              n == 19 || n == 23 || n == 29 || n == 31 || n == 37 || n == 41 || n == 43 || n == 47
  {
    match n / 4
    case 4 => case 5 => case 6 => case 7 => case 8 => case 9 => case 10 => case _ =>
  }

  lemma SievedUpTo79(n: nat)
    requires 48 <= n < 80
    ensures Sieved(n) <==>
              n == 53 || n == 59 || n == 61 || n == 67 || n == 71 || n == 73 || n == 79
  {
    match n / 4
    case 12 => case 13 => case 14 => case 15 => case 16 => case 17 => case 18 => case _ =>
  }

  lemma SievedUpTo111(n: nat)
    requires 80 <= n < 112
    ensures Sieved(n) <==>
              n == 83 || n == 89 || n == 97 || n == 101 || n == 103 || n == 107 || n == 109
  {
    match n / 4
    case 20 => case 21 => case 22 => case 23 => case 24 => case 25 => case 26 => case _ =>
  }

  lemma SievedUpTo143(n: nat)
    requires 112 <= n < 144
    ensures Sieved(n) <==>
              n == 113 || n == 127 || n == 131 || n == 137 || n == 139
  {
    match n / 4
    case 28 => case 29 => case 30 => case 31 => case 32 => case 33 => case 34 => case _ =>
  }

  lemma SievedUpTo175(n: nat)
    requires 144 <= n < 176
    ensures Sieved(n) <==>
              n == 149 || n == 151 || n == 157 || n == 163 || n == 167 || n == 173
  {
    match n / 4
    case 36 => case 37 => case 38 => case 39 => case 40 => case 41 => case 42 => case _ =>
  }

  lemma SievedUpTo207(n: nat)
    requires 176 <= n < 208
    ensures Sieved(n) <==>
              n == 179 || n == 181 || n == 191 || n == 193 || n == 197 || n == 199
  {
    match n / 4
    case 44 => case 45 => case 46 => case 47 => case 48 => case 49 => case 50 => case _ =>
  }

  lemma SievedUpTo239(n: nat)
    requires 208 <= n < 240
    ensures Sieved(n) <==>
              n == 211 || n == 223 || n == 227 || n == 229 || n == 233 || n == 239
  {
    match n / 4
    case 52 => case 53 => case 54 => case 55 => case 56 => case 57 => case 58 => case _ =>
  }

  lemma SievedUpTo271(n: nat)
    requires 240 <= n < 272
    ensures Sieved(n) <==>
              n == 241 || n == 251 || n == 257 || n == 263 || n == 269 || n == 271
  {
    match n / 4
    case 60 => case 61 => case 62 => case 63 => case 64 => case 65 => case 66 => case _ =>
  }

  lemma SievedUpTo311(n: nat)
    requires 272 <= n < 312
    ensures Sieved(n) <==>
              n == 277 || n == 281 || n == 283 || n == 293 || n == 307 || n == 311
  {
    match n / 4
    case 68 => case 69 => case 70 => case 71 => case 72 => case 73 => case 74 => case 75 => case 76 => case _ =>
  }

  /** Sieving the numbers up to the last of them leaves exactly these primes. */
  lemma SievedIsListed(t: nat, n: nat)
    requires t < 63 && Prime(t) < n <= Prime(t + 1) && n >= 18
    ensures Sieved(n) <==> n == Prime(t + 1)
  {
    if n < 48 { SievedUpTo47(n); }
    else if n < 80 { SievedUpTo79(n); }
    else if n < 112 { SievedUpTo111(n); }
    else if n < 144 { SievedUpTo143(n); }
    else if n < 176 { SievedUpTo175(n); }
    else if n < 208 { SievedUpTo207(n); }
    else if n < 240 { SievedUpTo239(n); }
    else if n < 272 { SievedUpTo271(n); }
    else { SievedUpTo311(n); }
    hide Sieved;
  }

  lemma SmallIsPrime(n: nat)
    requires n == 2 || n == 3 || (3 < n < 25 && n % 2 != 0 && n % 3 != 0)
    ensures IsPrime(n)
  {
    forall d: nat, e: nat | d >= 2 && e >= 2 ensures d * e != n {
      if d >= 5 && e >= 5 { assert d * e >= 5 * e; }
      if d < 5 { match d case 2 => case 3 => case _ => }
      if e < 5 { match e case 2 => case 3 => case _ => }
    }
  }

  lemma SmallPrimes(t: nat, n: nat)
    requires t < 6 && Prime(t) < n <= Prime(t + 1)
    ensures IsPrime(n) <==> n == Prime(t + 1)
  {
    if n % 2 == 0 && n > 2 { assert 2 * (n / 2) == n; }
    else if n % 3 == 0 && n > 3 { assert 3 * (n / 3) == n; }
    else { SmallIsPrime(n); }
  }

  /** They are the first 64 primes: two is one, and from each to the next no prime is left out. */
  lemma PrimesInOrder(t: nat, n: nat)
    requires t < 63 && Prime(t) < n <= Prime(t + 1)
    ensures Prime(0) == 2 && (IsPrime(n) <==> n == Prime(t + 1))
  {
    if t < 6 {
      SmallPrimes(t, n);
    } else {
      assert Prime(6) == 17 && Prime(63) == 311;
      PrimesAscend(6, t);
      PrimesAscend(t + 1, 63);
      hide IsPrime, Sieved, Prime;
      SievedIsListed(t, n);
      if IsPrime(n) { PrimeIsSieved(n); }
      if Sieved(n) { SievedIsPrime(n); }
    }
  }

  lemma {:induction false} PrimesAscend(s: nat, t: nat)
    requires s <= t < 64
    ensures Prime(s) <= Prime(t)
  {
    if s < t { PrimesAscend(s, t - 1); }
  }

  // ---------- Roots ----------

  /** h is made of the first 32 binary places of the square root of n. */
  ghost predicate IsSquareRootFraction(h: nat, n: nat) {
    h < 0x1_0000_0000 && exists q: nat {:trigger q * 0x1_0000_0000} ::
      var r := q * 0x1_0000_0000 + h;
      r * r <= n * 0x1_0000_0000_0000_0000 < (r + 1) * (r + 1)
  }

  lemma SquareRoot(q: nat, h: nat, n: nat)
    requires h < 0x1_0000_0000
    requires var r := q * 0x1_0000_0000 + h; r * r <= n * 0x1_0000_0000_0000_0000 < (r + 1) * (r + 1)
    ensures IsSquareRootFraction(h, n)
  {
    assert q * 0x1_0000_0000 >= 0;
  }

  /** The initial hash value: the square roots of the first eight primes. */
  lemma InitialValueIsRoots()
    ensures var h := H0();
            IsSquareRootFraction(h.a as nat, Prime(0)) && IsSquareRootFraction(h.b as nat, Prime(1)) &&
            IsSquareRootFraction(h.c as nat, Prime(2)) && IsSquareRootFraction(h.d as nat, Prime(3)) &&
            IsSquareRootFraction(h.e as nat, Prime(4)) && IsSquareRootFraction(h.f as nat, Prime(5)) &&
            IsSquareRootFraction(h.g as nat, Prime(6)) && IsSquareRootFraction(h.h as nat, Prime(7))
  {
    SquareRoot(1, 0x6a09e667, 2);
    SquareRoot(1, 0xbb67ae85, 3);
    SquareRoot(2, 0x3c6ef372, 5);
    SquareRoot(2, 0xa54ff53a, 7);
    SquareRoot(3, 0x510e527f, 11);
    SquareRoot(3, 0x9b05688c, 13);
    SquareRoot(4, 0x1f83d9ab, 17);
    SquareRoot(4, 0x5be0cd19, 19);
    hide IsSquareRootFraction;
  }

  /** h is made of the first 32 binary places of the cube root of n. */
  ghost predicate IsCubeRootFraction(h: nat, n: nat) {
    h < 0x1_0000_0000 && exists q: nat {:trigger q * 0x1_0000_0000} ::
      var r := q * 0x1_0000_0000 + h;
      r * r * r <= n * 0x1_0000_0000_0000_0000_0000_0000 < (r + 1) * (r + 1) * (r + 1)
  }

  function WholeCubeRoot(n: nat): nat {
    if n < 8 then 1 else if n < 27 then 2 else if n < 64 then 3 else if n < 125 then 4 else if n < 216 then 5 else 6
  }

  lemma CubeRoot(q: nat, h: nat, n: nat)
    requires h < 0x1_0000_0000
    requires var r := q * 0x1_0000_0000 + h;
             r * r * r <= n * 0x1_0000_0000_0000_0000_0000_0000 < (r + 1) * (r + 1) * (r + 1)
    ensures IsCubeRootFraction(h, n)
  {
    assert q * 0x1_0000_0000 >= 0;
  }

  lemma FirstRow(t: nat)
    requires 0 <= t < 8
    ensures IsCubeRootFraction(K(t) as nat, Prime(t))
  {
    CubeRoot(WholeCubeRoot(Prime(t)), K(t) as nat, Prime(t));
  }

  lemma SecondRow(t: nat)
    requires 8 <= t < 16
    ensures IsCubeRootFraction(K(t) as nat, Prime(t))
  {
    CubeRoot(WholeCubeRoot(Prime(t)), K(t) as nat, Prime(t));
  }

  lemma ThirdRow(t: nat)
    requires 16 <= t < 24
    ensures IsCubeRootFraction(K(t) as nat, Prime(t))
  {
    CubeRoot(WholeCubeRoot(Prime(t)), K(t) as nat, Prime(t));
  }

  lemma FourthRow(t: nat)
    requires 24 <= t < 32
    ensures IsCubeRootFraction(K(t) as nat, Prime(t))
  {
    CubeRoot(WholeCubeRoot(Prime(t)), K(t) as nat, Prime(t));
  }

  lemma FifthRow(t: nat)
    requires 32 <= t < 40
    ensures IsCubeRootFraction(K(t) as nat, Prime(t))
  {
    CubeRoot(WholeCubeRoot(Prime(t)), K(t) as nat, Prime(t));
  }

  lemma SixthRow(t: nat)
    requires 40 <= t < 48
    ensures IsCubeRootFraction(K(t) as nat, Prime(t))
  {
    CubeRoot(WholeCubeRoot(Prime(t)), K(t) as nat, Prime(t));
  }

  lemma SeventhRow(t: nat)
    requires 48 <= t < 56
    ensures IsCubeRootFraction(K(t) as nat, Prime(t))
  {
    CubeRoot(WholeCubeRoot(Prime(t)), K(t) as nat, Prime(t));
  }

  lemma EighthRow(t: nat)
    requires 56 <= t < 64
    ensures IsCubeRootFraction(K(t) as nat, Prime(t))
  {
    CubeRoot(WholeCubeRoot(Prime(t)), K(t) as nat, Prime(t));
  }

  /** The round constants: the cube roots of the first 64 primes. */
  lemma RoundConstantsAreRoots(t: nat)
    requires t < 64
    ensures IsCubeRootFraction(K(t) as nat, Prime(t))
  {
    hide IsCubeRootFraction;
    if t < 8 { FirstRow(t); }
    else if t < 16 { SecondRow(t); }
    else if t < 24 { ThirdRow(t); }
    else if t < 32 { FourthRow(t); }
    else if t < 40 { FifthRow(t); }
    else if t < 48 { SixthRow(t); }
    else if t < 56 { SeventhRow(t); }
    else { EighthRow(t); }
  }
}
