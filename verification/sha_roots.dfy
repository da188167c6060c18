// Where the constants of the two hash functions come from: sections 4.2.2, 4.2.3, 5.3.3 and 5.3.5 of FIPS 180-4.
module ShaRoots {
  import opened Words
  import Sha512
  import Sha256

  // --- The first eighty primes ---

  predicate IsPrime(n: nat) {
    n >= 2 && forall d :: 2 <= d < n ==> n % d != 0
  }

  predicate Divides(d: nat, n: nat)
    requires d > 0
  {
    n % d == 0 && n != d
  }

  // Trial division by the primes below 23
  predicate Survives(n: nat) {
    && !Divides(2, n) && !Divides(3, n) && !Divides(5, n) && !Divides(7, n)
    && !Divides(11, n) && !Divides(13, n) && !Divides(17, n) && !Divides(19, n)
  }

  // decides below the square of 23.
  lemma TrialDivision(n: nat)
    requires 2 <= n < 529
    ensures Survives(n) <==> IsPrime(n)
  {
    if Survives(n) {
      forall d | 2 <= d < n
        ensures n % d != 0
      {
        if n % d == 0 {
          NoFactor(n, d, n / d);
        }
      }
    }
  }

  // Of two factors of a number below 529 one is below 23, and then one of the eight primes divides it.
  lemma NoFactor(n: nat, d: nat, e: nat)
    requires n < 529 && 2 <= d && 2 <= e && n == d * e
    ensures !Survives(n)
  {
    if d >= 23 && e >= 23 {
      MulNonNegative(d - 23, e - 23);
    } else {
      SmallFactor(n, if d < 23 then d else e, if d < 23 then e else d);
    }
  }

  lemma SmallFactor(n: nat, d: nat, e: nat)
    requires 2 <= d < 23 && 2 <= e && n == d * e
    ensures !Survives(n)
  {
    hide Survives;
    var p := PrimeFactor(d);
    Multiple(n, d, e, p);
    Struck(n, p);
  }

  lemma Multiple(n: nat, d: nat, e: nat, p: nat)
    requires n == d * e && d > 0 && e >= 2 && 0 < p <= d && d % p == 0
    ensures n % p == 0 && n > p
  {
    var k := d / p;
    MulNonNegative(d, e - 2);
    assert n == (k * e) * p by {
      assert d == k * p;
      assert (k * p) * e == (k * e) * p;
    }
    ModUnique(n, k * e, 0, p);
  }

  lemma Struck(n: nat, p: nat)
    requires p in {2, 3, 5, 7, 11, 13, 17, 19} && n % p == 0 && n != p
    ensures !Survives(n)
  {
  }

  lemma PrimeFactor(d: nat) returns (p: nat)
    requires 2 <= d < 23
    ensures p in {2, 3, 5, 7, 11, 13, 17, 19} && d % p == 0 && p <= d
  {
    p := if d % 2 == 0 then 2 else if d % 3 == 0 then 3 else d;
  }

  // The first survivor of n, n + 2, n + 4, ...
  function Next(n: nat): nat
    decreases if n < 529 then 529 - n else 0
  {
    if n >= 529 || Survives(n) then n else Next(n + 2)
  }

  lemma Even(n: nat)
    requires n > 2 && n % 2 == 0
    ensures !IsPrime(n)
  {
  }

  lemma {:induction false} NextIsLeast(n: nat)
    requires n > 2 && n % 2 == 1 && Next(n) < 529
    ensures n <= Next(n) && Next(n) % 2 == 1 && IsPrime(Next(n)) && forall m :: n <= m < Next(n) ==> !IsPrime(m)
    decreases if n < 529 then 529 - n else 0
  {
    hide Survives, IsPrime;
    TrialDivision(n);
    if !Survives(n) {
      NextIsLeast(n + 2);
      Even(n + 1);
    }
  }

  // The primes in order, from 2
  function PrimeAt(t: nat): nat {
    if t == 0 then 2 else if t == 1 then 3 else Next(PrimeAt(t - 1) + 2)
  }

  // --- Roots ---

  predicate CubeRoot(n: nat, x: nat) {
    n * n * n <= x < (n + 1) * (n + 1) * (n + 1)
  }

  predicate SquareRoot(n: nat, x: nat) {
    n * n <= x < (n + 1) * (n + 1)
  }

  // The first bits, as many as unit counts, of the fractional part of the cube root of p, and of its square root
  ghost predicate CubeBits(k: nat, p: nat, unit: nat)
    requires unit > 0
  {
    exists n: nat :: CubeRoot(n, p * (unit * unit * unit)) && k == n % unit
  }

  ghost predicate SquareBits(k: nat, p: nat, unit: nat)
    requires unit > 0
  {
    exists n: nat :: SquareRoot(n, p * (unit * unit)) && k == n % unit
  }

  const TWO64: nat := 0x1_0000_0000_0000_0000

  // Sixty-four bits of a root begin with its first thirty-two.
  lemma ShorterCube(n: nat, p: nat)
    requires CubeRoot(n, p * (TWO64 * TWO64 * TWO64))
    ensures CubeRoot(n / B32, p * (B32 * B32 * B32))
  {
    var m := n / B32;
    CubeMono(m * B32, n);
    CubeMono(n + 1, (m + 1) * B32);
    CubeScale(m);
    CubeScale(m + 1);
  }

  lemma CubeMono(a: nat, b: nat)
    requires a <= b
    ensures a * a * a <= b * b * b
  {
    assert b * b >= a * a by {
      MulNonNegative(b - a, b + a);
    }
    MulNonNegative(b * b - a * a, b);
    MulNonNegative(b - a, a * a);
  }

  lemma CubeScale(m: nat)
    ensures (m * B32) * (m * B32) * (m * B32) == (m * m * m) * (B32 * B32 * B32)
  {
  }

  lemma ShorterSquare(n: nat, p: nat)
    requires SquareRoot(n, p * (TWO64 * TWO64))
    ensures SquareRoot(n / B32, p * (B32 * B32))
  {
    var m := n / B32;
    MulNonNegative(n - m * B32, n + m * B32);
    MulNonNegative((m + 1) * B32 - (n + 1), (m + 1) * B32 + (n + 1));
  }

  // Word t of the round constants of both functions
  ghost predicate Derived(t: nat)
    requires t < 80
  {
    CubeBits(Sha512.K[t], PrimeAt(t), TWO64) && (t < 64 ==> CubeBits(Sha256.K[t], PrimeAt(t), B32))
  }

  // The odd numbers between p and q do not survive.
  predicate Gap(p: nat, q: nat) {
    && p < q <= p + 14 && q < 529 && (q - p) % 2 == 0 && Survives(q)
    && (p + 2 < q ==> !Survives(p + 2)) && (p + 4 < q ==> !Survives(p + 4)) && (p + 6 < q ==> !Survives(p + 6))
    && (p + 8 < q ==> !Survives(p + 8)) && (p + 10 < q ==> !Survives(p + 10)) && (p + 12 < q ==> !Survives(p + 12))
  }

  lemma NextPrime(t: nat, p: nat, q: nat)
    requires t > 1 && PrimeAt(t - 1) == p && Gap(p, q)
    ensures PrimeAt(t) == q
  {
    hide Survives;
    NextOver(p, q);
  }

  lemma NextOver(p: nat, q: nat)
    requires Gap(p, q)
    ensures Next(p + 2) == q
  {
    hide Survives;
    assert Next(q) == q;
    assert q > p + 2 ==> Next(p + 2) == Next(p + 4);
    assert q > p + 4 ==> Next(p + 4) == Next(p + 6);
    assert q > p + 6 ==> Next(p + 6) == Next(p + 8);
    assert q > p + 8 ==> Next(p + 8) == Next(p + 10);
    assert q > p + 10 ==> Next(p + 10) == Next(p + 12);
    assert q > p + 12 ==> Next(p + 12) == Next(p + 14);
  }

  // Word t of each table is the bits of this root.
  lemma Cube(t: nat, p: nat, n: nat)
    requires t < 80 && p == PrimeAt(t)
    requires CubeRoot(n, p * 0x1_0000_0000_0000_0000_0000_0000_0000_0000_0000_0000_0000_0000)
    requires Sha512.K[t] == n % TWO64 && (t < 64 ==> Sha256.K[t] == n / B32 % B32)
    ensures CubeBits(Sha512.K[t], PrimeAt(t), TWO64) && (t < 64 ==> CubeBits(Sha256.K[t], PrimeAt(t), B32))
  {
    hide CubeRoot, PrimeAt;
    assert p * 0x1_0000_0000_0000_0000_0000_0000_0000_0000_0000_0000_0000_0000 == p * (TWO64 * TWO64 * TWO64);
    ShorterCube(n, p);
  }

  lemma Square(t: nat, p: nat, n: nat)
    requires t < 8 && p == PrimeAt(t)
    requires SquareRoot(n, p * 0x1_0000_0000_0000_0000_0000_0000_0000_0000)
    requires Sha512.IV[t] == n % TWO64 && Sha256.IV[t] == n / B32 % B32
    ensures SquareBits(Sha512.IV[t], PrimeAt(t), TWO64) && SquareBits(Sha256.IV[t], PrimeAt(t), B32)
  {
    hide SquareRoot, PrimeAt;
    assert p * 0x1_0000_0000_0000_0000_0000_0000_0000_0000 == p * (TWO64 * TWO64);
    ShorterSquare(n, p);
  }

  lemma Primes0()
    ensures PrimeAt(0) == 2 && PrimeAt(1) == 3 && PrimeAt(2) == 5 && PrimeAt(3) == 7
    ensures PrimeAt(4) == 11 && PrimeAt(5) == 13 && PrimeAt(6) == 17 && PrimeAt(7) == 19
  {
    NextPrime(2, 3, 5);
    NextPrime(3, 5, 7);
    NextPrime(4, 7, 11);
    NextPrime(5, 11, 13);
    NextPrime(6, 13, 17);
    NextPrime(7, 17, 19);
  }

  lemma Cubes0()
    ensures forall t :: 0 <= t < 4 ==> Derived(t)
  {
    hide PrimeAt, CubeBits;
    Primes0();
    Cube(0, 2, 0x1_428a2f98d728ae22);
    Cube(1, 3, 0x1_7137449123ef65cd);
    Cube(2, 5, 0x1_b5c0fbcfec4d3b2f);
    Cube(3, 7, 0x1_e9b5dba58189dbbc);
  }

  lemma Cubes4()
    ensures forall t :: 4 <= t < 8 ==> Derived(t)
  {
    hide PrimeAt, CubeBits;
    Primes0();
    Cube(4, 11, 0x2_3956c25bf348b538);
    Cube(5, 13, 0x2_59f111f1b605d019);
    Cube(6, 17, 0x2_923f82a4af194f9b);
    Cube(7, 19, 0x2_ab1c5ed5da6d8118);
  }

  lemma Primes1()
    ensures PrimeAt(8) == 23 && PrimeAt(9) == 29 && PrimeAt(10) == 31 && PrimeAt(11) == 37
    ensures PrimeAt(12) == 41 && PrimeAt(13) == 43 && PrimeAt(14) == 47 && PrimeAt(15) == 53
  {
    hide PrimeAt;
    Primes0();
    NextPrime(8, 19, 23);
    NextPrime(9, 23, 29);
    NextPrime(10, 29, 31);
    NextPrime(11, 31, 37);
    NextPrime(12, 37, 41);
    NextPrime(13, 41, 43);
    NextPrime(14, 43, 47);
    NextPrime(15, 47, 53);
  }

  lemma Cubes8()
    ensures forall t :: 8 <= t < 12 ==> Derived(t)
  {
    hide PrimeAt, CubeBits;
    Primes1();
    Cube(8, 23, 0x2_d807aa98a3030242);
    Cube(9, 29, 0x3_12835b0145706fbe);
    Cube(10, 31, 0x3_243185be4ee4b28c);
    Cube(11, 37, 0x3_550c7dc3d5ffb4e2);
  }

  lemma Cubes12()
    ensures forall t :: 12 <= t < 16 ==> Derived(t)
  {
    hide PrimeAt, CubeBits;
    Primes1();
    Cube(12, 41, 0x3_72be5d74f27b896f);
    Cube(13, 43, 0x3_80deb1fe3b1696b1);
    Cube(14, 47, 0x3_9bdc06a725c71235);
    Cube(15, 53, 0x3_c19bf174cf692694);
  }

  lemma Primes2()
    ensures PrimeAt(16) == 59 && PrimeAt(17) == 61 && PrimeAt(18) == 67 && PrimeAt(19) == 71
    ensures PrimeAt(20) == 73 && PrimeAt(21) == 79 && PrimeAt(22) == 83 && PrimeAt(23) == 89
  {
    hide PrimeAt;
    Primes1();
    NextPrime(16, 53, 59);
    NextPrime(17, 59, 61);
    NextPrime(18, 61, 67);
    NextPrime(19, 67, 71);
    NextPrime(20, 71, 73);
    NextPrime(21, 73, 79);
    NextPrime(22, 79, 83);
    NextPrime(23, 83, 89);
  }

  lemma Cubes16()
    ensures forall t :: 16 <= t < 20 ==> Derived(t)
  {
    hide PrimeAt, CubeBits;
    Primes2();
    Cube(16, 59, 0x3_e49b69c19ef14ad2);
    Cube(17, 61, 0x3_efbe4786384f25e3);
    Cube(18, 67, 0x4_0fc19dc68b8cd5b5);
    Cube(19, 71, 0x4_240ca1cc77ac9c65);
  }

  lemma Cubes20()
    ensures forall t :: 20 <= t < 24 ==> Derived(t)
  {
    hide PrimeAt, CubeBits;
    Primes2();
    Cube(20, 73, 0x4_2de92c6f592b0275);
    Cube(21, 79, 0x4_4a7484aa6ea6e483);
    Cube(22, 83, 0x4_5cb0a9dcbd41fbd4);
    Cube(23, 89, 0x4_76f988da831153b5);
  }

  lemma Primes3()
    ensures PrimeAt(24) == 97 && PrimeAt(25) == 101 && PrimeAt(26) == 103 && PrimeAt(27) == 107
    ensures PrimeAt(28) == 109 && PrimeAt(29) == 113 && PrimeAt(30) == 127 && PrimeAt(31) == 131
  {
    hide PrimeAt;
    Primes2();
    NextPrime(24, 89, 97);
    NextPrime(25, 97, 101);
    NextPrime(26, 101, 103);
    NextPrime(27, 103, 107);
    NextPrime(28, 107, 109);
    NextPrime(29, 109, 113);
    NextPrime(30, 113, 127);
    NextPrime(31, 127, 131);
  }

  lemma Cubes24()
    ensures forall t :: 24 <= t < 28 ==> Derived(t)
  {
    hide PrimeAt, CubeBits;
    Primes3();
    Cube(24, 97, 0x4_983e5152ee66dfab);
    Cube(25, 101, 0x4_a831c66d2db43210);
    Cube(26, 103, 0x4_b00327c898fb213f);
    Cube(27, 107, 0x4_bf597fc7beef0ee4);
  }

  lemma Cubes28()
    ensures forall t :: 28 <= t < 32 ==> Derived(t)
  {
    hide PrimeAt, CubeBits;
    Primes3();
    Cube(28, 109, 0x4_c6e00bf33da88fc2);
    Cube(29, 113, 0x4_d5a79147930aa725);
    Cube(30, 127, 0x5_06ca6351e003826f);
    Cube(31, 131, 0x5_142929670a0e6e70);
  }

  lemma Primes4()
    ensures PrimeAt(32) == 137 && PrimeAt(33) == 139 && PrimeAt(34) == 149 && PrimeAt(35) == 151
    ensures PrimeAt(36) == 157 && PrimeAt(37) == 163 && PrimeAt(38) == 167 && PrimeAt(39) == 173
  {
    hide PrimeAt;
    Primes3();
    NextPrime(32, 131, 137);
    NextPrime(33, 137, 139);
    NextPrime(34, 139, 149);
    NextPrime(35, 149, 151);
    NextPrime(36, 151, 157);
    NextPrime(37, 157, 163);
    NextPrime(38, 163, 167);
    NextPrime(39, 167, 173);
  }

  lemma Cubes32()
    ensures forall t :: 32 <= t < 36 ==> Derived(t)
  {
    hide PrimeAt, CubeBits;
    Primes4();
    Cube(32, 137, 0x5_27b70a8546d22ffc);
    Cube(33, 139, 0x5_2e1b21385c26c926);
    Cube(34, 149, 0x5_4d2c6dfc5ac42aed);
    Cube(35, 151, 0x5_53380d139d95b3df);
  }

  lemma Cubes36()
    ensures forall t :: 36 <= t < 40 ==> Derived(t)
  {
    hide PrimeAt, CubeBits;
    Primes4();
    Cube(36, 157, 0x5_650a73548baf63de);
    Cube(37, 163, 0x5_766a0abb3c77b2a8);
    Cube(38, 167, 0x5_81c2c92e47edaee6);
    Cube(39, 173, 0x5_92722c851482353b);
  }

  lemma Primes5()
    ensures PrimeAt(40) == 179 && PrimeAt(41) == 181 && PrimeAt(42) == 191 && PrimeAt(43) == 193
    ensures PrimeAt(44) == 197 && PrimeAt(45) == 199 && PrimeAt(46) == 211 && PrimeAt(47) == 223
  {
    hide PrimeAt;
    Primes4();
    NextPrime(40, 173, 179);
    NextPrime(41, 179, 181);
    NextPrime(42, 181, 191);
    NextPrime(43, 191, 193);
    NextPrime(44, 193, 197);
    NextPrime(45, 197, 199);
    NextPrime(46, 199, 211);
    NextPrime(47, 211, 223);
  }

  lemma Cubes40()
    ensures forall t :: 40 <= t < 44 ==> Derived(t)
  {
    hide PrimeAt, CubeBits;
    Primes5();
    Cube(40, 179, 0x5_a2bfe8a14cf10364);
    Cube(41, 181, 0x5_a81a664bbc423001);
    Cube(42, 191, 0x5_c24b8b70d0f89791);
    Cube(43, 193, 0x5_c76c51a30654be30);
  }

  lemma Cubes44()
    ensures forall t :: 44 <= t < 48 ==> Derived(t)
  {
    hide PrimeAt, CubeBits;
    Primes5();
    Cube(44, 197, 0x5_d192e819d6ef5218);
    Cube(45, 199, 0x5_d69906245565a910);
    Cube(46, 211, 0x5_f40e35855771202a);
    Cube(47, 223, 0x6_106aa07032bbd1b8);
  }

  lemma Primes6()
    ensures PrimeAt(48) == 227 && PrimeAt(49) == 229 && PrimeAt(50) == 233 && PrimeAt(51) == 239
    ensures PrimeAt(52) == 241 && PrimeAt(53) == 251 && PrimeAt(54) == 257 && PrimeAt(55) == 263
  {
    hide PrimeAt;
    Primes5();
    NextPrime(48, 223, 227);
    NextPrime(49, 227, 229);
    NextPrime(50, 229, 233);
    NextPrime(51, 233, 239);
    NextPrime(52, 239, 241);
    NextPrime(53, 241, 251);
    NextPrime(54, 251, 257);
    NextPrime(55, 257, 263);
  }

  lemma Cubes48()
    ensures forall t :: 48 <= t < 52 ==> Derived(t)
  {
    hide PrimeAt, CubeBits;
    Primes6();
    Cube(48, 227, 0x6_19a4c116b8d2d0c8);
    Cube(49, 229, 0x6_1e376c085141ab53);
    Cube(50, 233, 0x6_2748774cdf8eeb99);
    Cube(51, 239, 0x6_34b0bcb5e19b48a8);
  }

  lemma Cubes52()
    ensures forall t :: 52 <= t < 56 ==> Derived(t)
  {
    hide PrimeAt, CubeBits;
    Primes6();
    Cube(52, 241, 0x6_391c0cb3c5c95a63);
    Cube(53, 251, 0x6_4ed8aa4ae3418acb);
    Cube(54, 257, 0x6_5b9cca4f7763e373);
    Cube(55, 263, 0x6_682e6ff3d6b2b8a3);
  }

  lemma Primes7()
    ensures PrimeAt(56) == 269 && PrimeAt(57) == 271 && PrimeAt(58) == 277 && PrimeAt(59) == 281
    ensures PrimeAt(60) == 283 && PrimeAt(61) == 293 && PrimeAt(62) == 307 && PrimeAt(63) == 311
  {
    hide PrimeAt;
    Primes6();
    NextPrime(56, 263, 269);
    NextPrime(57, 269, 271);
    NextPrime(58, 271, 277);
    NextPrime(59, 277, 281);
    NextPrime(60, 281, 283);
    NextPrime(61, 283, 293);
    NextPrime(62, 293, 307);
    NextPrime(63, 307, 311);
  }

  lemma Cubes56()
    ensures forall t :: 56 <= t < 60 ==> Derived(t)
  {
    hide PrimeAt, CubeBits;
    Primes7();
    Cube(56, 269, 0x6_748f82ee5defb2fc);
    Cube(57, 271, 0x6_78a5636f43172f60);
    Cube(58, 277, 0x6_84c87814a1f0ab72);
    Cube(59, 281, 0x6_8cc702081a6439ec);
  }

  lemma Cubes60()
    ensures forall t :: 60 <= t < 64 ==> Derived(t)
  {
    hide PrimeAt, CubeBits;
    Primes7();
    Cube(60, 283, 0x6_90befffa23631e28);
    Cube(61, 293, 0x6_a4506cebde82bde9);
    Cube(62, 307, 0x6_bef9a3f7b2c67915);
    Cube(63, 311, 0x6_c67178f2e372532b);
  }

  lemma Primes8()
    ensures PrimeAt(64) == 313 && PrimeAt(65) == 317 && PrimeAt(66) == 331 && PrimeAt(67) == 337
    ensures PrimeAt(68) == 347 && PrimeAt(69) == 349 && PrimeAt(70) == 353 && PrimeAt(71) == 359
  {
    hide PrimeAt;
    Primes7();
    NextPrime(64, 311, 313);
    NextPrime(65, 313, 317);
    NextPrime(66, 317, 331);
    NextPrime(67, 331, 337);
    NextPrime(68, 337, 347);
    NextPrime(69, 347, 349);
    NextPrime(70, 349, 353);
    NextPrime(71, 353, 359);
  }

  lemma Cubes64()
    ensures forall t :: 64 <= t < 68 ==> Derived(t)
  {
    hide PrimeAt, CubeBits;
    Primes8();
    Cube(64, 313, 0x6_ca273eceea26619c);
    Cube(65, 317, 0x6_d186b8c721c0c207);
    Cube(66, 331, 0x6_eada7dd6cde0eb1e);
    Cube(67, 337, 0x6_f57d4f7fee6ed178);
  }

  lemma Cubes68()
    ensures forall t :: 68 <= t < 72 ==> Derived(t)
  {
    hide PrimeAt, CubeBits;
    Primes8();
    Cube(68, 347, 0x7_06f067aa72176fba);
    Cube(69, 349, 0x7_0a637dc5a2c898a6);
    Cube(70, 353, 0x7_113f9804bef90dae);
    Cube(71, 359, 0x7_1b710b35131c471b);
  }

  lemma Primes9()
    ensures PrimeAt(72) == 367 && PrimeAt(73) == 373 && PrimeAt(74) == 379 && PrimeAt(75) == 383
    ensures PrimeAt(76) == 389 && PrimeAt(77) == 397 && PrimeAt(78) == 401 && PrimeAt(79) == 409
  {
    hide PrimeAt;
    Primes8();
    NextPrime(72, 359, 367);
    NextPrime(73, 367, 373);
    NextPrime(74, 373, 379);
    NextPrime(75, 379, 383);
    NextPrime(76, 383, 389);
    NextPrime(77, 389, 397);
    NextPrime(78, 397, 401);
    NextPrime(79, 401, 409);
  }

  lemma Cubes72()
    ensures forall t :: 72 <= t < 76 ==> Derived(t)
  {
    hide PrimeAt, CubeBits;
    Primes9();
    Cube(72, 367, 0x7_28db77f523047d84);
    Cube(73, 373, 0x7_32caab7b40c72493);
    Cube(74, 379, 0x7_3c9ebe0a15c9bebc);
    Cube(75, 383, 0x7_431d67c49c100d4c);
  }

  lemma Cubes76()
    ensures forall t :: 76 <= t < 80 ==> Derived(t)
  {
    hide PrimeAt, CubeBits;
    Primes9();
    Cube(76, 389, 0x7_4cc5d4becb3e42b6);
    Cube(77, 397, 0x7_597f299cfc657e2a);
    Cube(78, 401, 0x7_5fcb6fab3ad6faec);
    Cube(79, 409, 0x7_6c44198c4a475817);
  }

  lemma AllDerived(t: nat)
    requires t < 80
    ensures Derived(t)
  {
    hide Derived;
    Cubes0();
    Cubes4();
    Cubes8();
    Cubes12();
    Cubes16();
    Cubes20();
    Cubes24();
    Cubes28();
    Cubes32();
    Cubes36();
    Cubes40();
    Cubes44();
    Cubes48();
    Cubes52();
    Cubes56();
    Cubes60();
    Cubes64();
    Cubes68();
    Cubes72();
    Cubes76();
  }

  // The round constants are the first bits of the fractional parts of the cube roots of the first eighty primes, sixty-four
  // of them, or of the first sixty-four, thirty-two of them.
  lemma RoundConstants(t: nat)
    requires t < 80
    ensures CubeBits(Sha512.K[t], PrimeAt(t), TWO64) && (t < 64 ==> CubeBits(Sha256.K[t], PrimeAt(t), B32))
  {
    hide CubeBits, PrimeAt;
    AllDerived(t);
  }

  // The initial states come from the square roots of the first eight in the same way.
  lemma InitialStates(t: nat)
    requires t < 8
    ensures SquareBits(Sha512.IV[t], PrimeAt(t), TWO64) && SquareBits(Sha256.IV[t], PrimeAt(t), B32)
  {
    hide SquareBits, PrimeAt;
    Primes0();
    Square(0, 2, 0x1_6a09e667f3bcc908);
    Square(1, 3, 0x1_bb67ae8584caa73b);
    Square(2, 5, 0x2_3c6ef372fe94f82b);
    Square(3, 7, 0x2_a54ff53a5f1d36f1);
    Square(4, 11, 0x3_510e527fade682d1);
    Square(5, 13, 0x3_9b05688c2b3e6c1f);
    Square(6, 17, 0x4_1f83d9abfb41bd6b);
    Square(7, 19, 0x4_5be0cd19137e2179);
  }

  lemma {:induction false} NextGrows(n: nat)
    ensures n <= Next(n)
    decreases if n < 529 then 529 - n else 0
  {
    hide Survives;
    if n < 529 && !Survives(n) {
      NextGrows(n + 2);
    }
  }

  lemma {:induction false} UpTo409(t: nat)
    requires t < 80
    ensures PrimeAt(t) <= 409
    decreases 80 - t
  {
    hide PrimeAt;
    if t == 79 {
      Primes9();
    } else {
      UpTo409(t + 1);
      Ascends(t + 1);
    }
  }

  lemma Ascends(t: nat)
    requires t > 0
    ensures PrimeAt(t - 1) < PrimeAt(t)
  {
    if t > 1 {
      NextGrows(PrimeAt(t - 1) + 2);
    }
  }

  // And these are the primes in order.
  lemma {:induction false} PrimesInOrder(t: nat)
    requires t < 80
    ensures IsPrime(PrimeAt(t)) && (t == 0 ==> PrimeAt(t) == 2) && (t > 0 ==> PrimeAt(t) % 2 == 1)
    ensures t > 0 ==> PrimeAt(t - 1) < PrimeAt(t) && forall m :: PrimeAt(t - 1) < m < PrimeAt(t) ==> !IsPrime(m)
  {
    hide Next;
    if t > 1 {
      var p := PrimeAt(t - 1);
      PrimesInOrder(t - 1);
      UpTo409(t);
      Ascends(t);
      NextIsLeast(p + 2);
      Even(p + 1);
    }
  }
}
