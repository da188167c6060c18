// Arithmetic modulo p = 2^255 - 19 in radix 2^25.5: ten signed limbs, even limbs of 26 bits and odd limbs of
// 25 bits. Shifts of negative numbers round down, as the source's comment on them asks.
module Field25519 {
  import opened Words

  const P: nat := 0x7fffffff_ffffffff_ffffffff_ffffffff_ffffffff_ffffffff_ffffffff_ffffffed

  // The weights 2^ceil(25.5 i)
  const W1 := 0x400_0000
  const W2 := 0x8_0000_0000_0000
  const W3 := 0x2000_0000_0000_0000_0000
  const W4 := 0x40_0000_0000_0000_0000_0000_0000
  const W5 := 0x1_0000_0000_0000_0000_0000_0000_0000_0000
  const W6 := 0x200_0000_0000_0000_0000_0000_0000_0000_0000_0000
  const W7 := 0x8_0000_0000_0000_0000_0000_0000_0000_0000_0000_0000_0000
  const W8 := 0x1000_0000_0000_0000_0000_0000_0000_0000_0000_0000_0000_0000_0000
  const W9 := 0x40_0000_0000_0000_0000_0000_0000_0000_0000_0000_0000_0000_0000_0000_0000
  const TWO255 := 0x8000_0000_0000_0000_0000_0000_0000_0000_0000_0000_0000_0000_0000_0000_0000_0000

  // The number ten limbs spell.
  function Sum(t0: int, t1: int, t2: int, t3: int, t4: int, t5: int, t6: int, t7: int, t8: int, t9: int): int {
    t0 + W1 * t1 + W2 * t2 + W3 * t3 + W4 * t4 + W5 * t5 + W6 * t6 + W7 * t7 + W8 * t8 + W9 * t9
  }

  function Value(h: seq<i32>): int
    requires |h| == 10
  {
    Sum(h[0], h[1], h[2], h[3], h[4], h[5], h[6], h[7], h[8], h[9])
  }

  // |even limbs| < 1.1 * 2^25 and |odd limbs| < 1.1 * 2^24, scaled by ten to stay in the integers
  predicate TightEven(x: int) {
    -11 * 0x200_0000 < 10 * x < 11 * 0x200_0000
  }

  predicate TightOdd(x: int) {
    -11 * 0x100_0000 < 10 * x < 11 * 0x100_0000
  }

  predicate Tight(h: seq<i32>)
  {
    && |h| == 10
    && TightEven(h[0]) && TightEven(h[2]) && TightEven(h[4]) && TightEven(h[6]) && TightEven(h[8])
    && TightOdd(h[1]) && TightOdd(h[3]) && TightOdd(h[5]) && TightOdd(h[7]) && TightOdd(h[9])
  }

  const E25: int := 0x200_0000
  const E26: int := 0x400_0000
  const E24: int := 0x100_0000

  type carryable = x: int | -0x4000_0000_0000_0000 < x < 0x4000_0000_0000_0000

  // c = (t + 2^25) >> 26; t -= c * 2^26: the low part is in [-2^25, 2^25) and the carry is small.
  method Carry26(t: i64) returns (low: i64, c: i64)
    requires t as int + E25 < 0x8000_0000_0000_0000
    ensures t as int == low as int + E26 * c
    ensures -E25 <= low < E25
    ensures -0x20_0000_0000 <= c <= 0x20_0000_0000
    ensures -0x800_0000_0000 <= t <= 0x800_0000_0000 ==> -0x2_0000 <= c <= 0x2_0000
  {
    var s: i64 := t + E25;
    c := s / E26;
    var m: i64 := c * E26;
    low := t - m;
  }

  method Carry25(t: i64) returns (low: i64, c: i64)
    requires t as int + E24 < 0x8000_0000_0000_0000
    ensures t as int == low as int + E25 * c
    ensures -E24 <= low < E24
    ensures -0x40_0000_0000 <= c <= 0x40_0000_0000
  {
    var s: i64 := t + E24;
    c := s / E25;
    var m: i64 := c * E25;
    low := t - m;
  }

  // What the twelve carries do to the value: only the carry out of limb 9 leaves, and 2^255 of it returns as 19.
  lemma CarrySum(a0: int, a1: int, a2: int, a3: int, a4: int, a5: int, a6: int, a7: int, a8: int, a9: int,
                 c0: int, c1: int, c2: int, c3: int, c4: int, c5: int, c6: int, c7: int, c8: int, c9: int,
                 d0: int, d4: int)
    ensures Sum(a0 - E26 * c0 + 19 * c9 - E26 * d0, a1 + c0 - E25 * c1 + d0, a2 + c1 - E26 * c2, a3 + c2 - E25 * c3,
                a4 - E26 * c4 + c3 - E26 * d4, a5 + c4 - E25 * c5 + d4, a6 + c5 - E26 * c6, a7 + c6 - E25 * c7,
                a8 + c7 - E26 * c8, a9 + c8 - E25 * c9)
         == Sum(a0, a1, a2, a3, a4, a5, a6, a7, a8, a9) - c9 * P
  {
  }

  lemma SameModP(a: int, b: int, k: int)
    requires a == b - k * P
    ensures a % P == b % P
  {
  }

  // Within |t0| < 2^63, the bound the source's comment gives, 2^63 - 2^25 is the first value whose rounding overflows: hence
  // what CarryChain requires of a0.
  lemma RoundingOverflows()
    ensures var first: int := 0x8000_0000_0000_0000 - E25;
            -0x8000_0000_0000_0000 < first < 0x8000_0000_0000_0000 && first + E25 >= 0x8000_0000_0000_0000
  {
  }

  // The carries of FE_CARRY, on temporaries below 2^62 (2^63 - 2^25 for t0).
  method CarryChain(a0: i64, a1: carryable, a2: carryable, a3: carryable, a4: carryable,
                    a5: carryable, a6: carryable, a7: carryable, a8: carryable, a9: carryable)
    returns (t0: i64, t1: i64, t2: i64, t3: i64, t4: i64, t5: i64, t6: i64, t7: i64, t8: i64, t9: i64, ghost k: int)
    requires a0 as int + E25 < 0x8000_0000_0000_0000
    ensures TightEven(t0) && TightEven(t2) && TightEven(t4) && TightEven(t6) && TightEven(t8)
    ensures TightOdd(t1) && TightOdd(t3) && TightOdd(t5) && TightOdd(t7) && TightOdd(t9)
    ensures Sum(t0, t1, t2, t3, t4, t5, t6, t7, t8, t9) == Sum(a0, a1, a2, a3, a4, a5, a6, a7, a8, a9) - k * P
  {
    hide Sum;
    var c: i64;
    t0, t1, t2, t3, t4 := a0, a1, a2, a3, a4;
    t5, t6, t7, t8, t9 := a5, a6, a7, a8, a9;
    t0, c := Carry26(t0);  t1 := t1 + c;  ghost var c0 := c;
    t4, c := Carry26(t4);  t5 := t5 + c;  ghost var c4 := c;
    t1, c := Carry25(t1);  t2 := t2 + c;  ghost var c1 := c;
    t5, c := Carry25(t5);  t6 := t6 + c;  ghost var c5 := c;
    t2, c := Carry26(t2);  t3 := t3 + c;  ghost var c2 := c;
    t6, c := Carry26(t6);  t7 := t7 + c;  ghost var c6 := c;
    t3, c := Carry25(t3);  t4 := t4 + c;  ghost var c3 := c;
    t7, c := Carry25(t7);  t8 := t8 + c;  ghost var c7 := c;
    t4, c := Carry26(t4);  t5 := t5 + c;  ghost var d4 := c;
    t8, c := Carry26(t8);  t9 := t9 + c;  ghost var c8 := c;
    t9, c := Carry25(t9);
    var c19: i64 := c * 19;
    t0 := t0 + c19;                       ghost var c9 := c;
    t0, c := Carry26(t0);  t1 := t1 + c;  ghost var d0 := c;
    k := c9;
    CarrySum(a0, a1, a2, a3, a4, a5, a6, a7, a8, a9, c0, c1, c2, c3, c4, c5, c6, c7, c8, c9, d0, d4);
  }

  // FE_CARRY: the limbs stored are tight and spell the same number modulo p.
  method FeCarry(h: array<i32>, a0: i64, a1: carryable, a2: carryable, a3: carryable, a4: carryable,
                 a5: carryable, a6: carryable, a7: carryable, a8: carryable, a9: carryable)
    requires h.Length == 10
    requires a0 as int + E25 < 0x8000_0000_0000_0000
    modifies h
    ensures Tight(h[..])
    ensures Value(h[..]) % P == Sum(a0, a1, a2, a3, a4, a5, a6, a7, a8, a9) % P
  {
    hide Sum;
    var t0, t1, t2, t3, t4, t5, t6, t7, t8, t9, k := CarryChain(a0, a1, a2, a3, a4, a5, a6, a7, a8, a9);
    h[0], h[1], h[2], h[3], h[4] := t0, t1, t2, t3, t4;
    h[5], h[6], h[7], h[8], h[9] := t5, t6, t7, t8, t9;
    SameModP(Value(h[..]), Sum(a0, a1, a2, a3, a4, a5, a6, a7, a8, a9), k);
  }

  // Limbs as fe_mul and fe_sq take them: even below 1.65 * 2^26, odd below 1.65 * 2^25.
  predicate LooseEven(x: int) {
    -110729625 <= x <= 110729625
  }

  predicate LooseOdd(x: int) {
    -55364812 <= x <= 55364812
  }

  predicate Loose(h: seq<i32>)
  {
    && |h| == 10
    && LooseEven(h[0]) && LooseEven(h[2]) && LooseEven(h[4]) && LooseEven(h[6]) && LooseEven(h[8])
    && LooseOdd(h[1]) && LooseOdd(h[3]) && LooseOdd(h[5]) && LooseOdd(h[7]) && LooseOdd(h[9])
  }

  const HALF := 110729625
  const FULL := 221459250
  const WIDE := 2103862875
  type factor = x: i32 | -FULL <= x <= FULL
  type wide = x: i32 | -WIDE <= x <= WIDE

  lemma ProdBound(a: int, b: int, m: int, n: int)
    requires -m <= a <= m && -n <= b <= n
    ensures -(m * n) <= a * b <= m * n
  {
    assert (m - a) * (n + b) >= 0;
    assert (m + a) * (n - b) >= 0;
    assert (m - a) * (n - b) >= 0;
    assert (m + a) * (n + b) >= 0;
  }

  // One 64-bit product of two 32-bit factors. Ten products with a left factor of half size, or six of any, stay below
  // 2^62.
  function Prod(a: factor, b: wide): (m: int)
    ensures -FULL * WIDE <= m <= FULL * WIDE
    ensures -HALF <= a <= HALF ==> -HALF * WIDE <= m <= HALF * WIDE
  {
    ProdBound(a, b, FULL, WIDE);
    if -HALF <= a <= HALF then
      ProdBound(a, b, HALF, WIDE);
      a * b
    else
      a * b
  }

  type product = x: int | -FULL * WIDE <= x <= FULL * WIDE

  // Products added up from the left, as the source writes them: every partial sum fits 64 bits.
  function Add5(a: product, b: product, c: product, d: product, e: product): (t: i64)
    ensures t == a + b + c + d + e
  {
    var s1: i64 := a + b;
    var s2: i64 := s1 + c;
    var s3: i64 := s2 + d;
    s3 + e
  }

  function Add6(a: product, b: product, c: product, d: product, e: product, f: product): (t: i64)
    ensures t == a + b + c + d + e + f
  {
    var s4: i64 := Add5(a, b, c, d, e);
    s4 + f
  }

  function Add10(a: product, b: product, c: product, d: product, e: product,
                 f: product, g: product, h: product, i: product, j: product): (t: i64)
    ensures t == a + b + c + d + e + f + g + h + i + j
  {
    var s5: i64 := Add6(a, b, c, d, e, f);
    var s6: i64 := s5 + g;
    var s7: i64 := s6 + h;
    var s8: i64 := s7 + i;
    s8 + j
  }

  lemma Scale2(a: i32, b: wide)
    requires LooseOdd(a)
    ensures Prod(a * 2, b) == 2 * Prod(a, b)
  {
  }

  lemma Scale19(a: factor, b: i32)
    requires LooseEven(b)
    ensures Prod(a, b * 19) == 19 * Prod(a, b)
  {
  }

  lemma Distribute(f: factor, g0: wide, g1: wide, g2: wide, g3: wide, g4: wide, g5: wide, g6: wide, g7: wide,
                   g8: wide, g9: wide)
    ensures f * Sum(g0, g1, g2, g3, g4, g5, g6, g7, g8, g9)
         == Sum(Prod(f, g0), Prod(f, g1), Prod(f, g2), Prod(f, g3), Prod(f, g4),
                Prod(f, g5), Prod(f, g6), Prod(f, g7), Prod(f, g8), Prod(f, g9))
  {
    hide Prod;
    Spread(f, g0, W1, g1, W2, g2);
    Spread(f, g0 + W1 * g1 + W2 * g2, W3, g3, W4, g4);
    Spread(f, Sum(g0, g1, g2, g3, g4, 0, 0, 0, 0, 0), W5, g5, W6, g6);
    Spread(f, Sum(g0, g1, g2, g3, g4, g5, g6, 0, 0, 0), W7, g7, W8, g8);
    Spread(f, Sum(g0, g1, g2, g3, g4, g5, g6, g7, g8, 0), W9, g9, 0, 0);
    ProdIs(f, g0);
  }

  lemma ProdIs(f: factor, g: wide)
    ensures Prod(f, g) == f * g
  {
  }

  lemma Spread(f: factor, head: int, v: int, a: wide, w: int, b: wide)
    ensures f * (head + v * a + w * b) == f * head + v * Prod(f, a) + w * Prod(f, b)
  {
    assert f * (v * a) == v * (f * a);
    assert f * (w * b) == w * (f * b);
  }

  lemma MulRow0(f: i32, g0: i32, g1: i32, g2: i32, g3: i32, g4: i32, g5: i32, g6: i32, g7: i32, g8: i32, g9: i32)
    requires LooseEven(f) && Loose([g0, g1, g2, g3, g4, g5, g6, g7, g8, g9])
    ensures Sum(Prod(f, g0), Prod(f, g1), Prod(f, g2), Prod(f, g3), Prod(f, g4),
                Prod(f, g5), Prod(f, g6), Prod(f, g7), Prod(f, g8), Prod(f, g9))
         == (f * Sum(g0, g1, g2, g3, g4, g5, g6, g7, g8, g9))
  {
    hide Prod;
    Distribute(f, g0, g1, g2, g3, g4, g5, g6, g7, g8, g9);
  }

  lemma MulRow1(f: i32, g0: i32, g1: i32, g2: i32, g3: i32, g4: i32, g5: i32, g6: i32, g7: i32, g8: i32, g9: i32) returns (k: int)
    requires LooseOdd(f) && Loose([g0, g1, g2, g3, g4, g5, g6, g7, g8, g9])
    ensures Sum(Prod(f * 2, g9 * 19), Prod(f, g0), Prod(f * 2, g1), Prod(f, g2), Prod(f * 2, g3),
                Prod(f, g4), Prod(f * 2, g5), Prod(f, g6), Prod(f * 2, g7), Prod(f, g8))
         == W1 * (f * Sum(g0, g1, g2, g3, g4, g5, g6, g7, g8, g9)) - k * P
  {
    hide Prod;
    Distribute(f, g0, g1, g2, g3, g4, g5, g6, g7, g8, g9);
    Scale2(f, g1);  Scale2(f, g3);  Scale2(f, g5);  Scale2(f, g7);
    Scale2(f, g9 * 19);  Scale19(f, g9);
    k := 2 * Prod(f, g9);
  }

  lemma MulRow2(f: i32, g0: i32, g1: i32, g2: i32, g3: i32, g4: i32, g5: i32, g6: i32, g7: i32, g8: i32, g9: i32) returns (k: int)
    requires LooseEven(f) && Loose([g0, g1, g2, g3, g4, g5, g6, g7, g8, g9])
    ensures Sum(Prod(f, g8 * 19), Prod(f, g9 * 19), Prod(f, g0), Prod(f, g1), Prod(f, g2),
                Prod(f, g3), Prod(f, g4), Prod(f, g5), Prod(f, g6), Prod(f, g7))
         == W2 * (f * Sum(g0, g1, g2, g3, g4, g5, g6, g7, g8, g9)) - k * P
  {
    hide Prod;
    Distribute(f, g0, g1, g2, g3, g4, g5, g6, g7, g8, g9);
    Scale19(f, g8);  Scale19(f, g9);
    k := Prod(f, g8) + W1 * Prod(f, g9);
  }

  lemma MulRow3(f: i32, g0: i32, g1: i32, g2: i32, g3: i32, g4: i32, g5: i32, g6: i32, g7: i32, g8: i32, g9: i32) returns (k: int)
    requires LooseOdd(f) && Loose([g0, g1, g2, g3, g4, g5, g6, g7, g8, g9])
    ensures Sum(Prod(f * 2, g7 * 19), Prod(f, g8 * 19), Prod(f * 2, g9 * 19), Prod(f, g0), Prod(f * 2, g1),
                Prod(f, g2), Prod(f * 2, g3), Prod(f, g4), Prod(f * 2, g5), Prod(f, g6))
         == W3 * (f * Sum(g0, g1, g2, g3, g4, g5, g6, g7, g8, g9)) - k * P
  {
    hide Prod;
    Distribute(f, g0, g1, g2, g3, g4, g5, g6, g7, g8, g9);
    Scale2(f, g1);  Scale2(f, g3);  Scale2(f, g5);  Scale2(f, g7 * 19);
    Scale19(f, g7);  Scale19(f, g8);  Scale2(f, g9 * 19);  Scale19(f, g9);
    k := 2 * Prod(f, g7) + W1 * Prod(f, g8) + 2 * W2 * Prod(f, g9);
  }

  lemma MulRow4(f: i32, g0: i32, g1: i32, g2: i32, g3: i32, g4: i32, g5: i32, g6: i32, g7: i32, g8: i32, g9: i32) returns (k: int)
    requires LooseEven(f) && Loose([g0, g1, g2, g3, g4, g5, g6, g7, g8, g9])
    ensures Sum(Prod(f, g6 * 19), Prod(f, g7 * 19), Prod(f, g8 * 19), Prod(f, g9 * 19), Prod(f, g0),
                Prod(f, g1), Prod(f, g2), Prod(f, g3), Prod(f, g4), Prod(f, g5))
         == W4 * (f * Sum(g0, g1, g2, g3, g4, g5, g6, g7, g8, g9)) - k * P
  {
    hide Prod;
    Distribute(f, g0, g1, g2, g3, g4, g5, g6, g7, g8, g9);
    Scale19(f, g6);  Scale19(f, g7);  Scale19(f, g8);  Scale19(f, g9);
    k := Prod(f, g6) + W1 * Prod(f, g7) + W2 * Prod(f, g8) + W3 * Prod(f, g9);
  }

  lemma MulRow5(f: i32, g0: i32, g1: i32, g2: i32, g3: i32, g4: i32, g5: i32, g6: i32, g7: i32, g8: i32, g9: i32) returns (k: int)
    requires LooseOdd(f) && Loose([g0, g1, g2, g3, g4, g5, g6, g7, g8, g9])
    ensures Sum(Prod(f * 2, g5 * 19), Prod(f, g6 * 19), Prod(f * 2, g7 * 19), Prod(f, g8 * 19), Prod(f * 2, g9 * 19),
                Prod(f, g0), Prod(f * 2, g1), Prod(f, g2), Prod(f * 2, g3), Prod(f, g4))
         == W5 * (f * Sum(g0, g1, g2, g3, g4, g5, g6, g7, g8, g9)) - k * P
  {
    hide Prod;
    Distribute(f, g0, g1, g2, g3, g4, g5, g6, g7, g8, g9);
    Scale2(f, g1);  Scale2(f, g3);  Scale2(f, g5 * 19);  Scale19(f, g5);
    Scale19(f, g6);  Scale2(f, g7 * 19);  Scale19(f, g7);  Scale19(f, g8);
    Scale2(f, g9 * 19);  Scale19(f, g9);
    k := 2 * Prod(f, g5) + W1 * Prod(f, g6) + 2 * W2 * Prod(f, g7) + W3 * Prod(f, g8) + 2 * W4 * Prod(f, g9);
  }

  lemma MulRow6(f: i32, g0: i32, g1: i32, g2: i32, g3: i32, g4: i32, g5: i32, g6: i32, g7: i32, g8: i32, g9: i32) returns (k: int)
    requires LooseEven(f) && Loose([g0, g1, g2, g3, g4, g5, g6, g7, g8, g9])
    ensures Sum(Prod(f, g4 * 19), Prod(f, g5 * 19), Prod(f, g6 * 19), Prod(f, g7 * 19), Prod(f, g8 * 19),
                Prod(f, g9 * 19), Prod(f, g0), Prod(f, g1), Prod(f, g2), Prod(f, g3))
         == W6 * (f * Sum(g0, g1, g2, g3, g4, g5, g6, g7, g8, g9)) - k * P
  {
    hide Prod;
    Distribute(f, g0, g1, g2, g3, g4, g5, g6, g7, g8, g9);
    Scale19(f, g4);  Scale19(f, g5);  Scale19(f, g6);  Scale19(f, g7);
    Scale19(f, g8);  Scale19(f, g9);
    k := Prod(f, g4) + W1 * Prod(f, g5) + W2 * Prod(f, g6) + W3 * Prod(f, g7) + W4 * Prod(f, g8)
       + W5 * Prod(f, g9);
  }

  lemma MulRow7(f: i32, g0: i32, g1: i32, g2: i32, g3: i32, g4: i32, g5: i32, g6: i32, g7: i32, g8: i32, g9: i32) returns (k: int)
    requires LooseOdd(f) && Loose([g0, g1, g2, g3, g4, g5, g6, g7, g8, g9])
    ensures Sum(Prod(f * 2, g3 * 19), Prod(f, g4 * 19), Prod(f * 2, g5 * 19), Prod(f, g6 * 19), Prod(f * 2, g7 * 19),
                Prod(f, g8 * 19), Prod(f * 2, g9 * 19), Prod(f, g0), Prod(f * 2, g1), Prod(f, g2))
         == W7 * (f * Sum(g0, g1, g2, g3, g4, g5, g6, g7, g8, g9)) - k * P
  {
    hide Prod;
    Distribute(f, g0, g1, g2, g3, g4, g5, g6, g7, g8, g9);
    Scale2(f, g1);  Scale2(f, g3 * 19);  Scale19(f, g3);  Scale19(f, g4);
    Scale2(f, g5 * 19);  Scale19(f, g5);  Scale19(f, g6);  Scale2(f, g7 * 19);
    Scale19(f, g7);  Scale19(f, g8);  Scale2(f, g9 * 19);  Scale19(f, g9);
    k := 2 * Prod(f, g3) + W1 * Prod(f, g4) + 2 * W2 * Prod(f, g5) + W3 * Prod(f, g6) + 2 * W4 * Prod(f, g7)
       + W5 * Prod(f, g8) + 2 * W6 * Prod(f, g9);
  }

  lemma MulRow8(f: i32, g0: i32, g1: i32, g2: i32, g3: i32, g4: i32, g5: i32, g6: i32, g7: i32, g8: i32, g9: i32) returns (k: int)
    requires LooseEven(f) && Loose([g0, g1, g2, g3, g4, g5, g6, g7, g8, g9])
    ensures Sum(Prod(f, g2 * 19), Prod(f, g3 * 19), Prod(f, g4 * 19), Prod(f, g5 * 19), Prod(f, g6 * 19),
                Prod(f, g7 * 19), Prod(f, g8 * 19), Prod(f, g9 * 19), Prod(f, g0), Prod(f, g1))
         == W8 * (f * Sum(g0, g1, g2, g3, g4, g5, g6, g7, g8, g9)) - k * P
  {
    hide Prod;
    Distribute(f, g0, g1, g2, g3, g4, g5, g6, g7, g8, g9);
    Scale19(f, g2);  Scale19(f, g3);  Scale19(f, g4);  Scale19(f, g5);
    Scale19(f, g6);  Scale19(f, g7);  Scale19(f, g8);  Scale19(f, g9);
    k := Prod(f, g2) + W1 * Prod(f, g3) + W2 * Prod(f, g4) + W3 * Prod(f, g5) + W4 * Prod(f, g6)
       + W5 * Prod(f, g7) + W6 * Prod(f, g8) + W7 * Prod(f, g9);
  }

  lemma MulRow9(f: i32, g0: i32, g1: i32, g2: i32, g3: i32, g4: i32, g5: i32, g6: i32, g7: i32, g8: i32, g9: i32) returns (k: int)
    requires LooseOdd(f) && Loose([g0, g1, g2, g3, g4, g5, g6, g7, g8, g9])
    ensures Sum(Prod(f * 2, g1 * 19), Prod(f, g2 * 19), Prod(f * 2, g3 * 19), Prod(f, g4 * 19), Prod(f * 2, g5 * 19),
                Prod(f, g6 * 19), Prod(f * 2, g7 * 19), Prod(f, g8 * 19), Prod(f * 2, g9 * 19), Prod(f, g0))
         == W9 * (f * Sum(g0, g1, g2, g3, g4, g5, g6, g7, g8, g9)) - k * P
  {
    hide Prod;
    Distribute(f, g0, g1, g2, g3, g4, g5, g6, g7, g8, g9);
    Scale2(f, g1 * 19);  Scale19(f, g1);  Scale19(f, g2);  Scale2(f, g3 * 19);
    Scale19(f, g3);  Scale19(f, g4);  Scale2(f, g5 * 19);  Scale19(f, g5);
    Scale19(f, g6);  Scale2(f, g7 * 19);  Scale19(f, g7);  Scale19(f, g8);
    Scale2(f, g9 * 19);  Scale19(f, g9);
    k := 2 * Prod(f, g1) + W1 * Prod(f, g2) + 2 * W2 * Prod(f, g3) + W3 * Prod(f, g4) + 2 * W4 * Prod(f, g5)
       + W5 * Prod(f, g6) + 2 * W6 * Prod(f, g7) + W7 * Prod(f, g8) + 2 * W8 * Prod(f, g9);
  }

  lemma Gather(f0: int, f1: int, f2: int, f3: int, f4: int, f5: int, f6: int, f7: int, f8: int, f9: int, G: int)
    ensures Sum(f0, f1, f2, f3, f4, f5, f6, f7, f8, f9) * G
         == f0 * G + W1 * (f1 * G) + W2 * (f2 * G) + W3 * (f3 * G) + W4 * (f4 * G)
          + W5 * (f5 * G) + W6 * (f6 * G) + W7 * (f7 * G) + W8 * (f8 * G) + W9 * (f9 * G)
  {
  }

  // The ten sums fe_mul forms spell f * g modulo p.
  lemma MulIdentity(f0: i32, f1: i32, f2: i32, f3: i32, f4: i32, f5: i32, f6: i32, f7: i32, f8: i32, f9: i32,
                    g0: i32, g1: i32, g2: i32, g3: i32, g4: i32, g5: i32, g6: i32, g7: i32, g8: i32, g9: i32,
                    t0: int, t1: int, t2: int, t3: int, t4: int, t5: int, t6: int, t7: int, t8: int, t9: int)
    requires Loose([f0, f1, f2, f3, f4, f5, f6, f7, f8, f9]) && Loose([g0, g1, g2, g3, g4, g5, g6, g7, g8, g9])
    requires t0 == Prod(f0, g0) + Prod(f1 * 2, g9 * 19) + Prod(f2, g8 * 19) + Prod(f3 * 2, g7 * 19)
                + Prod(f4, g6 * 19) + Prod(f5 * 2, g5 * 19) + Prod(f6, g4 * 19)
                + Prod(f7 * 2, g3 * 19) + Prod(f8, g2 * 19) + Prod(f9 * 2, g1 * 19)
    requires t1 == Prod(f0, g1) + Prod(f1, g0) + Prod(f2, g9 * 19) + Prod(f3, g8 * 19)
                + Prod(f4, g7 * 19) + Prod(f5, g6 * 19) + Prod(f6, g5 * 19)
                + Prod(f7, g4 * 19) + Prod(f8, g3 * 19) + Prod(f9, g2 * 19)
    requires t2 == Prod(f0, g2) + Prod(f1 * 2, g1) + Prod(f2, g0) + Prod(f3 * 2, g9 * 19)
                + Prod(f4, g8 * 19) + Prod(f5 * 2, g7 * 19) + Prod(f6, g6 * 19)
                + Prod(f7 * 2, g5 * 19) + Prod(f8, g4 * 19) + Prod(f9 * 2, g3 * 19)
    requires t3 == Prod(f0, g3) + Prod(f1, g2) + Prod(f2, g1) + Prod(f3, g0)
                + Prod(f4, g9 * 19) + Prod(f5, g8 * 19) + Prod(f6, g7 * 19)
                + Prod(f7, g6 * 19) + Prod(f8, g5 * 19) + Prod(f9, g4 * 19)
    requires t4 == Prod(f0, g4) + Prod(f1 * 2, g3) + Prod(f2, g2) + Prod(f3 * 2, g1)
                + Prod(f4, g0) + Prod(f5 * 2, g9 * 19) + Prod(f6, g8 * 19)
                + Prod(f7 * 2, g7 * 19) + Prod(f8, g6 * 19) + Prod(f9 * 2, g5 * 19)
    requires t5 == Prod(f0, g5) + Prod(f1, g4) + Prod(f2, g3) + Prod(f3, g2)
                + Prod(f4, g1) + Prod(f5, g0) + Prod(f6, g9 * 19)
                + Prod(f7, g8 * 19) + Prod(f8, g7 * 19) + Prod(f9, g6 * 19)
    requires t6 == Prod(f0, g6) + Prod(f1 * 2, g5) + Prod(f2, g4) + Prod(f3 * 2, g3)
                + Prod(f4, g2) + Prod(f5 * 2, g1) + Prod(f6, g0)
                + Prod(f7 * 2, g9 * 19) + Prod(f8, g8 * 19) + Prod(f9 * 2, g7 * 19)
    requires t7 == Prod(f0, g7) + Prod(f1, g6) + Prod(f2, g5) + Prod(f3, g4)
                + Prod(f4, g3) + Prod(f5, g2) + Prod(f6, g1)
                + Prod(f7, g0) + Prod(f8, g9 * 19) + Prod(f9, g8 * 19)
    requires t8 == Prod(f0, g8) + Prod(f1 * 2, g7) + Prod(f2, g6) + Prod(f3 * 2, g5)
                + Prod(f4, g4) + Prod(f5 * 2, g3) + Prod(f6, g2)
                + Prod(f7 * 2, g1) + Prod(f8, g0) + Prod(f9 * 2, g9 * 19)
    requires t9 == Prod(f0, g9) + Prod(f1, g8) + Prod(f2, g7) + Prod(f3, g6)
                + Prod(f4, g5) + Prod(f5, g4) + Prod(f6, g3)
                + Prod(f7, g2) + Prod(f8, g1) + Prod(f9, g0)
    ensures Sum(t0, t1, t2, t3, t4, t5, t6, t7, t8, t9) % P
         == (Sum(f0, f1, f2, f3, f4, f5, f6, f7, f8, f9) * Sum(g0, g1, g2, g3, g4, g5, g6, g7, g8, g9)) % P
  {
    hide Prod;
    MulRow0(f0, g0, g1, g2, g3, g4, g5, g6, g7, g8, g9);
    var k1 := MulRow1(f1, g0, g1, g2, g3, g4, g5, g6, g7, g8, g9);
    var k2 := MulRow2(f2, g0, g1, g2, g3, g4, g5, g6, g7, g8, g9);
    var k3 := MulRow3(f3, g0, g1, g2, g3, g4, g5, g6, g7, g8, g9);
    var k4 := MulRow4(f4, g0, g1, g2, g3, g4, g5, g6, g7, g8, g9);
    var k5 := MulRow5(f5, g0, g1, g2, g3, g4, g5, g6, g7, g8, g9);
    var k6 := MulRow6(f6, g0, g1, g2, g3, g4, g5, g6, g7, g8, g9);
    var k7 := MulRow7(f7, g0, g1, g2, g3, g4, g5, g6, g7, g8, g9);
    var k8 := MulRow8(f8, g0, g1, g2, g3, g4, g5, g6, g7, g8, g9);
    var k9 := MulRow9(f9, g0, g1, g2, g3, g4, g5, g6, g7, g8, g9);
    var F, G := Sum(f0, f1, f2, f3, f4, f5, f6, f7, f8, f9), Sum(g0, g1, g2, g3, g4, g5, g6, g7, g8, g9);
    Gather(f0, f1, f2, f3, f4, f5, f6, f7, f8, f9, G);
    SameModP(Sum(t0, t1, t2, t3, t4, t5, t6, t7, t8, t9), F * G, k1 + k2 + k3 + k4 + k5 + k6 + k7 + k8 + k9);
  }

  // fe_mul; h may be f or g.
  method FeMul(h: array<i32>, f: array<i32>, g: array<i32>)
    requires h.Length == 10 && Loose(f[..]) && Loose(g[..])
    modifies h
    ensures Tight(h[..])
    ensures Value(h[..]) % P == old(Value(f[..]) * Value(g[..])) % P
  {
    hide Prod, Sum, Add10;
    var f0, f1, f2, f3, f4 := f[0], f[1], f[2], f[3], f[4];
    var f5, f6, f7, f8, f9 := f[5], f[6], f[7], f[8], f[9];
    var g0, g1, g2, g3, g4 := g[0], g[1], g[2], g[3], g[4];
    var g5, g6, g7, g8, g9 := g[5], g[6], g[7], g[8], g[9];
    var F1: i32, F3: i32, F5: i32, F7: i32, F9: i32 := f1 * 2, f3 * 2, f5 * 2, f7 * 2, f9 * 2;
    var G1: i32, G2: i32, G3: i32 := g1 * 19, g2 * 19, g3 * 19;
    var G4: i32, G5: i32, G6: i32 := g4 * 19, g5 * 19, g6 * 19;
    var G7: i32, G8: i32, G9: i32 := g7 * 19, g8 * 19, g9 * 19;
    var t0: i64 := Add10(Prod(f0, g0), Prod(F1, G9), Prod(f2, G8), Prod(F3, G7), Prod(f4, G6),
                      Prod(F5, G5), Prod(f6, G4), Prod(F7, G3), Prod(f8, G2), Prod(F9, G1));
    var t1: i64 := Add10(Prod(f0, g1), Prod(f1, g0), Prod(f2, G9), Prod(f3, G8), Prod(f4, G7),
                      Prod(f5, G6), Prod(f6, G5), Prod(f7, G4), Prod(f8, G3), Prod(f9, G2));
    var t2: i64 := Add10(Prod(f0, g2), Prod(F1, g1), Prod(f2, g0), Prod(F3, G9), Prod(f4, G8),
                      Prod(F5, G7), Prod(f6, G6), Prod(F7, G5), Prod(f8, G4), Prod(F9, G3));
    var t3: i64 := Add10(Prod(f0, g3), Prod(f1, g2), Prod(f2, g1), Prod(f3, g0), Prod(f4, G9),
                      Prod(f5, G8), Prod(f6, G7), Prod(f7, G6), Prod(f8, G5), Prod(f9, G4));
    var t4: i64 := Add10(Prod(f0, g4), Prod(F1, g3), Prod(f2, g2), Prod(F3, g1), Prod(f4, g0),
                      Prod(F5, G9), Prod(f6, G8), Prod(F7, G7), Prod(f8, G6), Prod(F9, G5));
    var t5: i64 := Add10(Prod(f0, g5), Prod(f1, g4), Prod(f2, g3), Prod(f3, g2), Prod(f4, g1),
                      Prod(f5, g0), Prod(f6, G9), Prod(f7, G8), Prod(f8, G7), Prod(f9, G6));
    var t6: i64 := Add10(Prod(f0, g6), Prod(F1, g5), Prod(f2, g4), Prod(F3, g3), Prod(f4, g2),
                      Prod(F5, g1), Prod(f6, g0), Prod(F7, G9), Prod(f8, G8), Prod(F9, G7));
    var t7: i64 := Add10(Prod(f0, g7), Prod(f1, g6), Prod(f2, g5), Prod(f3, g4), Prod(f4, g3),
                      Prod(f5, g2), Prod(f6, g1), Prod(f7, g0), Prod(f8, G9), Prod(f9, G8));
    var t8: i64 := Add10(Prod(f0, g8), Prod(F1, g7), Prod(f2, g6), Prod(F3, g5), Prod(f4, g4),
                      Prod(F5, g3), Prod(f6, g2), Prod(F7, g1), Prod(f8, g0), Prod(F9, G9));
    var t9: i64 := Add10(Prod(f0, g9), Prod(f1, g8), Prod(f2, g7), Prod(f3, g6), Prod(f4, g5),
                      Prod(f5, g4), Prod(f6, g3), Prod(f7, g2), Prod(f8, g1), Prod(f9, g0));
    MulIdentity(f0, f1, f2, f3, f4, f5, f6, f7, f8, f9, g0, g1, g2, g3, g4, g5, g6, g7, g8, g9, t0, t1, t2, t3, t4, t5, t6, t7, t8, t9);
    FeCarry(h, t0, t1, t2, t3, t4, t5, t6, t7, t8, t9);
  }

  // fe_sq folds the two products of each pair of limbs into one; diagonal products appear once.
  lemma Pair(x: i32, y: i32)
    requires LooseEven(x) && LooseEven(y)
    ensures Prod(x * 2, y) == Prod(x, y) + Prod(y, x)
  {
  }

  lemma PairRight(x: i32, y: i32)
    requires LooseEven(x) && LooseEven(y)
    ensures Prod(x, y * 2) == Prod(x, y) + Prod(y, x)
  {
  }

  lemma PairOdd(x: i32, y: i32)
    requires LooseOdd(x) && LooseOdd(y)
    ensures Prod(x * 2, y * 2) == Prod(x * 2, y) + Prod(y * 2, x)
  {
  }

  lemma PairWrap(x: i32, y: i32)
    requires LooseEven(x) && LooseEven(y)
    ensures Prod(x * 2, y * 19) == Prod(x, y * 19) + Prod(y, x * 19)
  {
  }

  lemma PairWrapRight(x: i32, y: i32)
    requires LooseEven(x) && LooseOdd(y)
    ensures Prod(x, y * 38) == Prod(x, y * 19) + Prod(y, x * 19)
  {
  }

  lemma PairOddWrap(x: i32, y: i32)
    requires LooseOdd(x) && LooseOdd(y)
    ensures Prod(x * 2, y * 38) == Prod(x * 2, y * 19) + Prod(y * 2, x * 19)
  {
  }

  lemma SquareWrap(x: i32)
    requires LooseOdd(x)
    ensures Prod(x, x * 38) == Prod(x * 2, x * 19)
  {
  }

  // The ten sums fe_sq forms spell f * f modulo p.
  lemma SqIdentity(f0: i32, f1: i32, f2: i32, f3: i32, f4: i32, f5: i32, f6: i32, f7: i32, f8: i32, f9: i32,
                   t0: int, t1: int, t2: int, t3: int, t4: int, t5: int, t6: int, t7: int, t8: int, t9: int)
    requires Loose([f0, f1, f2, f3, f4, f5, f6, f7, f8, f9])
    requires t0 == Prod(f0, f0) + Prod(f1 * 2, f9 * 38) + Prod(f2 * 2, f8 * 19)
                + Prod(f3 * 2, f7 * 38) + Prod(f4 * 2, f6 * 19) + Prod(f5, f5 * 38)
    requires t1 == Prod(f0 * 2, f1) + Prod(f2, f9 * 38) + Prod(f3 * 2, f8 * 19)
                + Prod(f4, f7 * 38) + Prod(f5 * 2, f6 * 19)
    requires t2 == Prod(f0 * 2, f2) + Prod(f1 * 2, f1) + Prod(f3 * 2, f9 * 38)
                + Prod(f4 * 2, f8 * 19) + Prod(f5 * 2, f7 * 38) + Prod(f6, f6 * 19)
    requires t3 == Prod(f0 * 2, f3) + Prod(f1 * 2, f2) + Prod(f4, f9 * 38)
                + Prod(f5 * 2, f8 * 19) + Prod(f6, f7 * 38)
    requires t4 == Prod(f0 * 2, f4) + Prod(f1 * 2, f3 * 2) + Prod(f2, f2)
                + Prod(f5 * 2, f9 * 38) + Prod(f6 * 2, f8 * 19) + Prod(f7, f7 * 38)
    requires t5 == Prod(f0 * 2, f5) + Prod(f1 * 2, f4) + Prod(f2 * 2, f3)
                + Prod(f6, f9 * 38) + Prod(f7 * 2, f8 * 19)
    requires t6 == Prod(f0 * 2, f6) + Prod(f1 * 2, f5 * 2) + Prod(f2 * 2, f4)
                + Prod(f3 * 2, f3) + Prod(f7 * 2, f9 * 38) + Prod(f8, f8 * 19)
    requires t7 == Prod(f0 * 2, f7) + Prod(f1 * 2, f6) + Prod(f2 * 2, f5)
                + Prod(f3 * 2, f4) + Prod(f8, f9 * 38)
    requires t8 == Prod(f0 * 2, f8) + Prod(f1 * 2, f7 * 2) + Prod(f2 * 2, f6)
                + Prod(f3 * 2, f5 * 2) + Prod(f4, f4) + Prod(f9, f9 * 38)
    requires t9 == Prod(f0 * 2, f9) + Prod(f1 * 2, f8) + Prod(f2 * 2, f7)
                + Prod(f3 * 2, f6) + Prod(f4, f5 * 2)
    ensures Sum(t0, t1, t2, t3, t4, t5, t6, t7, t8, t9) % P
         == (Sum(f0, f1, f2, f3, f4, f5, f6, f7, f8, f9) * Sum(f0, f1, f2, f3, f4, f5, f6, f7, f8, f9)) % P
  {
    hide Prod, Sum;
    PairOddWrap(f1, f9);  PairWrap(f2, f8);  PairOddWrap(f3, f7);  PairWrap(f4, f6);  SquareWrap(f5);
    Pair(f0, f1);  PairWrapRight(f2, f9);  PairWrap(f3, f8);  PairWrapRight(f4, f7);  PairWrap(f5, f6);
    Pair(f0, f2);  PairOddWrap(f3, f9);  PairWrap(f4, f8);  PairOddWrap(f5, f7);  Pair(f0, f3);
    Pair(f1, f2);  PairWrapRight(f4, f9);  PairWrap(f5, f8);  PairWrapRight(f6, f7);  Pair(f0, f4);
    PairOdd(f1, f3);  PairOddWrap(f5, f9);  PairWrap(f6, f8);  SquareWrap(f7);  Pair(f0, f5);
    Pair(f1, f4);  Pair(f2, f3);  PairWrapRight(f6, f9);  PairWrap(f7, f8);  Pair(f0, f6);
    PairOdd(f1, f5);  Pair(f2, f4);  PairOddWrap(f7, f9);  Pair(f0, f7);  Pair(f1, f6);
    Pair(f2, f5);  Pair(f3, f4);  PairWrapRight(f8, f9);  Pair(f0, f8);  PairOdd(f1, f7);
    Pair(f2, f6);  PairOdd(f3, f5);  SquareWrap(f9);  Pair(f0, f9);  Pair(f1, f8);
    Pair(f2, f7);  Pair(f3, f6);  PairRight(f4, f5);
    MulIdentity(f0, f1, f2, f3, f4, f5, f6, f7, f8, f9, f0, f1, f2, f3, f4, f5, f6, f7, f8, f9, t0, t1, t2, t3, t4, t5, t6, t7, t8, t9);
  }

  // fe_sq; h may be f.
  method FeSq(h: array<i32>, f: array<i32>)
    requires h.Length == 10 && Loose(f[..])
    modifies h
    ensures Tight(h[..])
    ensures Value(h[..]) % P == old(Value(f[..]) * Value(f[..])) % P
  {
    hide Prod, Sum, Add5, Add6;
    var f0, f1, f2, f3, f4 := f[0], f[1], f[2], f[3], f[4];
    var f5, f6, f7, f8, f9 := f[5], f[6], f[7], f[8], f[9];
    var f0_2: i32, f1_2: i32, f2_2: i32, f3_2: i32 := f0 * 2, f1 * 2, f2 * 2, f3 * 2;
    var f4_2: i32, f5_2: i32, f6_2: i32, f7_2: i32 := f4 * 2, f5 * 2, f6 * 2, f7 * 2;
    var f5_38: i32, f6_19: i32, f7_38: i32 := f5 * 38, f6 * 19, f7 * 38;
    var f8_19: i32, f9_38: i32 := f8 * 19, f9 * 38;
    var t0: i64 := Add6(Prod(f0, f0), Prod(f1_2, f9_38), Prod(f2_2, f8_19),
                     Prod(f3_2, f7_38), Prod(f4_2, f6_19), Prod(f5, f5_38));
    var t1: i64 := Add5(Prod(f0_2, f1), Prod(f2, f9_38), Prod(f3_2, f8_19),
                     Prod(f4, f7_38), Prod(f5_2, f6_19));
    var t2: i64 := Add6(Prod(f0_2, f2), Prod(f1_2, f1), Prod(f3_2, f9_38),
                     Prod(f4_2, f8_19), Prod(f5_2, f7_38), Prod(f6, f6_19));
    var t3: i64 := Add5(Prod(f0_2, f3), Prod(f1_2, f2), Prod(f4, f9_38),
                     Prod(f5_2, f8_19), Prod(f6, f7_38));
    var t4: i64 := Add6(Prod(f0_2, f4), Prod(f1_2, f3_2), Prod(f2, f2),
                     Prod(f5_2, f9_38), Prod(f6_2, f8_19), Prod(f7, f7_38));
    var t5: i64 := Add5(Prod(f0_2, f5), Prod(f1_2, f4), Prod(f2_2, f3),
                     Prod(f6, f9_38), Prod(f7_2, f8_19));
    var t6: i64 := Add6(Prod(f0_2, f6), Prod(f1_2, f5_2), Prod(f2_2, f4),
                     Prod(f3_2, f3), Prod(f7_2, f9_38), Prod(f8, f8_19));
    var t7: i64 := Add5(Prod(f0_2, f7), Prod(f1_2, f6), Prod(f2_2, f5),
                     Prod(f3_2, f4), Prod(f8, f9_38));
    var t8: i64 := Add6(Prod(f0_2, f8), Prod(f1_2, f7_2), Prod(f2_2, f6),
                     Prod(f3_2, f5_2), Prod(f4, f4), Prod(f9, f9_38));
    var t9: i64 := Add5(Prod(f0_2, f9), Prod(f1_2, f8), Prod(f2_2, f7),
                     Prod(f3_2, f6), Prod(f4, f5_2));
    SqIdentity(f0, f1, f2, f3, f4, f5, f6, f7, f8, f9, t0, t1, t2, t3, t4, t5, t6, t7, t8, t9);
    FeCarry(h, t0, t1, t2, t3, t4, t5, t6, t7, t8, t9);
  }

  // 2^ceil(25.5 k)
  function Weight(k: nat): (w: nat)
    ensures w > 0
  {
    if k == 0 then 1 else Weight(k - 1) * Radix(k - 1)
  }

  // Limb k spans 26 bits when k is even and 25 when it is odd.
  function Radix(k: nat): (r: nat)
    ensures r > 0
  {
    if k % 2 == 0 then E26 else E25
  }

  ghost function Partial(t: seq<i32>, k: nat): int
    requires k <= |t|
  {
    if k == 0 then 0 else Partial(t, k - 1) + Weight(k - 1) * t[k - 1]
  }

  lemma PartialStart(t: seq<i32>)
    ensures Partial(t, 0) == 0
  {
  }

  lemma PartialStep(t: seq<i32>, k: nat)
    requires k < |t|
    ensures Partial(t, k + 1) == Partial(t, k) + Weight(k) * t[k]
  {
  }

  lemma Weights()
    ensures Weight(0) == 1 && Weight(1) == W1 && Weight(2) == W2 && Weight(3) == W3 && Weight(4) == W4
    ensures Weight(5) == W5 && Weight(6) == W6 && Weight(7) == W7 && Weight(8) == W8 && Weight(9) == W9
    ensures Weight(10) == TWO255
  {
  }

  lemma PartialValue(t: seq<i32>)
    requires |t| == 10
    ensures Partial(t, 10) == Value(t)
  {
    Weights();
    assert Partial(t, 1) == t[0];
    assert Partial(t, 2) == Partial(t, 1) + W1 * t[1];
    assert Partial(t, 3) == Partial(t, 2) + W2 * t[2];
    assert Partial(t, 4) == Partial(t, 3) + W3 * t[3];
    assert Partial(t, 5) == Partial(t, 4) + W4 * t[4];
    assert Partial(t, 6) == Partial(t, 5) + W5 * t[5];
    assert Partial(t, 7) == Partial(t, 6) + W6 * t[6];
    assert Partial(t, 8) == Partial(t, 7) + W7 * t[7];
    assert Partial(t, 9) == Partial(t, 8) + W8 * t[8];
    assert Partial(t, 10) == Partial(t, 9) + W9 * t[9];
  }

  // One limb of the first pass: q stays the floor of what has been read over its weight.
  lemma FloorStep(sum: int, q: int, t: int, w: int, radix: int, q': int)
    requires w > 0 && radix > 0
    requires q * w <= sum < q * w + w
    requires q' == (q + t) / radix
    ensures q' * (w * radix) <= sum + w * t < q' * (w * radix) + w * radix
  {
    var s := (q + t) % radix;
    assert q + t == q' * radix + s;
    assert (q + t) * w == q' * (w * radix) + s * w;
    assert 0 <= s * w <= (radix - 1) * w by {
      assert 0 <= s <= radix - 1;
      MulNonNegative(s, w);
      MulNonNegative(radix - 1 - s, w);
    }
  }

  // The quotient of the first pass tells the sign of h.
  lemma SignOf(h: seq<i32>, q0: int, q: int)
    requires Tight(h)
    requires q0 == (19 * h[9] as int + E24) / E25
    requires q * TWO255 <= q0 + Value(h) < q * TWO255 + TWO255
    ensures -(P as int) < Value(h) < P
    ensures q == if Value(h) >= 0 then 0 else -1
  {
  }

  lemma Canonical(h: int, q: int, kept: int, excess: int)
    requires -(P as int) < h < P && q == (if h >= 0 then 0 else -1)
    requires 0 <= kept < TWO255
    requires kept + excess * TWO255 == h + 19 * q
    ensures kept == h % P
  {
    if h < 0 {
      assert kept == h + P;
    }
  }

  lemma PartialSame(a: seq<i32>, b: seq<i32>, k: nat)
    requires k <= |a| && k <= |b| && a[..k] == b[..k]
    ensures Partial(a, k) == Partial(b, k)
  {
    if k > 0 {
      assert a[k - 1] == a[..k][k - 1] == b[..k][k - 1] == b[k - 1];
      assert a[..k][..k - 1] == a[..k - 1] && b[..k][..k - 1] == b[..k - 1];
      PartialSame(a, b, k - 1);
    }
  }

  // Rounds h down to the quotient its value leaves over 2^255.
  method Excess(h: seq<i32>) returns (q: i32)
    requires Tight(h)
    ensures -(P as int) < Value(h) < P
    ensures q == if Value(h) >= 0 then 0 else -1
  {
    hide Weight, Sum;
    q := (19 * h[9] as int + E24) / E25;
    ghost var q0 := q;
    Weights();
    for i := 0 to 5
      invariant -16 <= q <= 16
      invariant q * Weight(2 * i) <= q0 + Partial(h, 2 * i) < q * Weight(2 * i) + Weight(2 * i)
    {
      TightLimb(h, i);
      var e: i32 := (q as int + h[2 * i]) / E26;
      FloorStep(q0 + Partial(h, 2 * i), q, h[2 * i], Weight(2 * i), E26, e);
      WeightStep(2 * i);
      q := (e as int + h[2 * i + 1]) / E25;
      FloorStep(q0 + Partial(h, 2 * i + 1), e, h[2 * i + 1], Weight(2 * i + 1), E25, q);
      WeightStep(2 * i + 1);
    }
    PartialValue(h);
    SignOf(h, q0, q);
  }

  lemma WeightStep(k: nat)
    ensures Weight(k + 1) == Weight(k) * Radix(k)
  {
  }

  lemma TightLimb(h: seq<i32>, i: nat)
    requires Tight(h) && i < 5
    ensures TightEven(h[2 * i]) && TightOdd(h[2 * i + 1])
  {
  }

  lemma KeepStep(kept: int, q: int, t: int, w: int, radix: int, low: int, q': int, target: int)
    requires kept + q * w == target
    requires t + q == low + q' * radix
    ensures kept + w * low + q' * (w * radix) == target + w * t
  {
    assert (t + q) * w == low * w + q' * (w * radix);
  }

  predicate Reduced(t: seq<i32>, k: nat)
    requires k <= |t|
  {
    forall j :: 0 <= j < k ==> 0 <= t[j] < Radix(j)
  }

  // t[k] += q;  q = t[k] >> bits;  t[k] -= q << bits
  method PropagateLimb(t: array<i32>, k: nat, q: i32, ghost target: int) returns (q': i32)
    requires k < t.Length && Reduced(t[..], k)
    requires -40 <= q <= 40 && -0x300_0000 <= t[k] <= 0x300_0000
    requires Partial(t[..], k) + q * Weight(k) == target
    modifies t
    ensures Reduced(t[..], k + 1) && forall j :: k < j < t.Length ==> t[j] == old(t[j])
    ensures -40 <= q' <= 40
    ensures Partial(t[..], k + 1) + q' * Weight(k + 1) == target + Weight(k) * old(t[k])
  {
    hide Weight;
    ghost var was: seq<i32> := t[..];
    var radix := Radix(k);
    t[k] := t[k] + q;
    q' := t[k] / radix;
    var m: i32 := q' * radix;
    t[k] := t[k] - m;
    assert t[..k] == was[..k];
    PartialSame(t[..], was, k);
    WeightStep(k);
    KeepStep(Partial(was, k), q, was[k], Weight(k), radix, t[k], q', target);
  }

  method Propagate(t: array<i32>, q: i32) returns (excess: i32)
    requires t.Length == 10 && Tight(t[..]) && -19 <= q <= 0
    modifies t
    ensures Reduced(t[..], 10)
    ensures Value(t[..]) + excess * TWO255 == old(Value(t[..])) + q
  {
    hide Weight, Sum, Partial;
    ghost var was: seq<i32> := t[..];
    Weights();
    PartialStart(was);
    PartialStart(t[..]);
    excess := q;
    for i := 0 to 5
      invariant Reduced(t[..], 2 * i) && forall j :: 2 * i <= j < 10 ==> t[j] == was[j]
      invariant -40 <= excess <= 40
      invariant Partial(t[..], 2 * i) + excess * Weight(2 * i) == Partial(was, 2 * i) + q
    {
      TightLimb(was, i);
      PartialStep(was, 2 * i);
      PartialStep(was, 2 * i + 1);
      excess := PropagateLimb(t, 2 * i, excess, Partial(was, 2 * i) + q);
      excess := PropagateLimb(t, 2 * i + 1, excess, Partial(was, 2 * i + 1) + q);
    }
    PartialValue(t[..]);
    PartialValue(was);
  }

  lemma DigitBound(low: int, w: int, digit: int, radix: int)
    requires 0 <= low < w && 0 <= digit < radix
    ensures 0 <= low + w * digit < w * radix
  {
    MulNonNegative(w, digit);
    MulNonNegative(w, radix - 1 - digit);
    assert w * radix - w * digit == w * (radix - 1 - digit) + w;
  }

  lemma {:induction false} ReducedBound(t: seq<i32>, k: nat)
    requires k <= |t| && Reduced(t, k)
    ensures 0 <= Partial(t, k) < Weight(k)
  {
    if k > 0 {
      ReducedBound(t, k - 1);
      WeightStep(k - 1);
      DigitBound(Partial(t, k - 1), Weight(k - 1), t[k - 1], Radix(k - 1));
    }
  }

  // Bitwise or of two words that share no set bit, the high one a multiple of m and the low one below it.
  function Join(low: int, high: int, m: int): (w: u32)
    requires 0 <= low < m && 0 <= high < B32 && high % m == 0 && m > 0 && B32 % m == 0
  {
    JoinFits(low, high, m);
    low + high
  }

  lemma JoinFits(low: int, high: int, m: int)
    requires 0 <= low < m && 0 <= high < B32 && high % m == 0 && m > 0 && B32 % m == 0
    ensures 0 <= low + high < B32
  {
    var a, b := high / m, B32 / m;
    assert high == a * m && B32 == b * m;
    if a < b {
      MulNonNegative(b - a - 1, m);
      assert (b - a - 1) * m == B32 - high - m;
    } else {
      MulNonNegative(a - b, m);
    }
  }

  // A shift left by log2(m) keeps the low bits, those below n = 2^32 / m.
  function Shl(t: nat, m: nat, n: nat): (w: u32)
    requires m > 0 && n > 0 && m * n == B32
    ensures w == t % n * m && w % m == 0
  {
    ShlValue(t, m, n);
    t * m % B32
  }

  lemma ShlValue(t: nat, m: nat, n: nat)
    requires m > 0 && n > 0 && m * n == B32
    ensures t * m % B32 == t % n * m && t % n * m % m == 0
  {
    var q, r := t / n, t % n;
    assert t * m == q * B32 + r * m by {
      assert t == q * n + r;
      assert (q * n + r) * m == q * (m * n) + r * m;
    }
    MulNonNegative(r, m);
    MulNonNegative(n - 1 - r, m);
    assert (n - 1 - r) * m == B32 - m - r * m;
    ModUnique(t * m, q, r * m, B32);
    ModUnique(r * m, r, 0, m);
  }

  lemma ReducedLimbs(t: seq<i32>)
    requires |t| == 10 && Reduced(t, 10)
    ensures 0 <= t[0] < E26 && 0 <= t[2] < E26 && 0 <= t[4] < E26 && 0 <= t[6] < E26 && 0 <= t[8] < E26
    ensures 0 <= t[1] < E25 && 0 <= t[3] < E25 && 0 <= t[5] < E25 && 0 <= t[7] < E25 && 0 <= t[9] < E25
  {
  }

  // The eight words fe_tobytes stores.
  function Pack(t: seq<i32>): (w: seq<u32>)
    requires |t| == 10 && Reduced(t, 10)
    ensures |w| == 8
  {
    ReducedLimbs(t);
    [ Join(t[0], Shl(t[1], 0x400_0000, 0x40), 0x400_0000),
      Join(t[1] / 0x40, Shl(t[2], 0x8_0000, 0x2000), 0x8_0000),
      Join(t[2] / 0x2000, Shl(t[3], 0x2000, 0x8_0000), 0x2000),
      Join(t[3] / 0x8_0000, Shl(t[4], 0x40, 0x400_0000), 0x40),
      Join(t[5], Shl(t[6], 0x200_0000, 0x80), 0x200_0000),
      Join(t[6] / 0x80, Shl(t[7], 0x8_0000, 0x2000), 0x8_0000),
      Join(t[7] / 0x2000, Shl(t[8], 0x1000, 0x10_0000), 0x1000),
      Join(t[8] / 0x10_0000, Shl(t[9], 0x40, 0x400_0000), 0x40) ]
  }

  // Limbs 1, 2, 3, 6, 7 and 8 straddle two words: each is a high part times a power of two plus a low part.
  lemma PackSum(t0: int, l1: int, h1: int, l2: int, h2: int, l3: int, h3: int, t4: int,
                t5: int, l6: int, h6: int, l7: int, h7: int, l8: int, h8: int, t9: int)
    ensures (t0 + l1 * 0x400_0000) + (h1 + l2 * 0x8_0000) * B32
            + (h2 + l3 * 0x2000) * 0x1_0000_0000_0000_0000
            + (h3 + t4 * 0x40) * 0x1_0000_0000_0000_0000_0000_0000
            + (t5 + l6 * 0x200_0000) * 0x1_0000_0000_0000_0000_0000_0000_0000_0000
            + (h6 + l7 * 0x8_0000) * 0x1_0000_0000_0000_0000_0000_0000_0000_0000_0000_0000
            + (h7 + l8 * 0x1000) * 0x1_0000_0000_0000_0000_0000_0000_0000_0000_0000_0000_0000_0000
            + (h8 + t9 * 0x40) * 0x1_0000_0000_0000_0000_0000_0000_0000_0000_0000_0000_0000_0000_0000_0000
         == Sum(t0, h1 * 0x40 + l1, h2 * 0x2000 + l2, h3 * 0x8_0000 + l3, t4,
                t5, h6 * 0x80 + l6, h7 * 0x2000 + l7, h8 * 0x10_0000 + l8, t9)
  {
  }

  lemma PackWords(t: seq<i32>)
    requires |t| == 10 && Reduced(t, 10)
    ensures var w := Pack(t);
            && w[0] == t[0] as int + t[1] as int % 0x40 * 0x400_0000
            && w[1] == t[1] as int / 0x40 + t[2] as int % 0x2000 * 0x8_0000
            && w[2] == t[2] as int / 0x2000 + t[3] as int % 0x8_0000 * 0x2000
            && w[3] == t[3] as int / 0x8_0000 + t[4] as int * 0x40
            && w[4] == t[5] as int + t[6] as int % 0x80 * 0x200_0000
            && w[5] == t[6] as int / 0x80 + t[7] as int % 0x2000 * 0x8_0000
            && w[6] == t[7] as int / 0x2000 + t[8] as int % 0x10_0000 * 0x1000
            && w[7] == t[8] as int / 0x10_0000 + t[9] as int * 0x40
  {
    ReducedLimbs(t);
  }

  lemma PackValue(t: seq<i32>)
    requires |t| == 10 && Reduced(t, 10)
    ensures Val(Pack(t)) == Value(t)
  {
    hide Pack, Sum, Val, Reduced;
    PackWords(t);
    Val8(Pack(t));
    PackSum(t[0], t[1] % 0x40, t[1] / 0x40, t[2] % 0x2000, t[2] / 0x2000, t[3] % 0x8_0000, t[3] / 0x8_0000, t[4],
            t[5], t[6] % 0x80, t[6] / 0x80, t[7] % 0x2000, t[7] / 0x2000, t[8] % 0x10_0000, t[8] / 0x10_0000, t[9]);
  }

  // fe_tobytes: the canonical encoding.
  method FeToBytes(s: array<u8>, h: array<i32>)
    requires s.Length == 32 && h.Length == 10 && Tight(h[..])
    modifies s
    ensures ByteVal(s[..]) == Value(h[..]) % P
  {
    hide Sum, Weight, Partial, Pack;
    ghost var value := Value(h[..]);
    var t := new i32[10];
    for i := 0 to 10
      invariant t[..i] == h[..i]
    {
      t[i] := h[i];
    }
    assert t[..] == t[..10] == h[..10] == h[..];
    var q := Excess(t[..]);
    q := q * 19;
    ghost var excess := Propagate(t, q);
    ReducedBound(t[..], 10);
    PartialValue(t[..]);
    Weights();
    Canonical(value, q / 19, Value(t[..]), excess);
    PackValue(t[..]);
    Store32Buf(s, Pack(t[..]));
  }

  function Load24(s: seq<u8>): (w: u32)
    requires |s| == 3
    ensures w < 0x100_0000
  {
    s[0] as int + s[1] as int * 0x100 + s[2] as int * 0x1_0000
  }

  lemma ByteVal3(s: seq<u8>)
    requires |s| >= 3
    ensures ByteVal(s) == Load24(s[..3]) + 0x100_0000 * ByteVal(s[3..])
  {
    assert s[1..][1..] == s[2..];
    assert s[2..][1..] == s[3..];
    assert ByteVal(s[2..]) == s[2] as int + 0x100 * ByteVal(s[3..]);
  }

  lemma LoadedValue(s: seq<u8>)
    requires |s| == 32
    ensures ByteVal(s) == Sum(Load32(s[0..4]), Load24(s[4..7]) * 0x40, Load24(s[7..10]) * 0x20, Load24(s[10..13]) * 8,
                              Load24(s[13..16]) * 4, Load32(s[16..20]), Load24(s[20..23]) * 0x80,
                              Load24(s[23..26]) * 0x20, Load24(s[26..29]) * 0x10, Load24(s[29..32]) * 4)
  {
    hide ByteVal, Load32, Load24;
    ByteVal4(s);
    ByteVal3(s[4..]);
    ByteVal3(s[7..]);
    ByteVal3(s[10..]);
    ByteVal3(s[13..]);
    ByteVal4(s[16..]);
    ByteVal3(s[20..]);
    ByteVal3(s[23..]);
    ByteVal3(s[26..]);
    ByteVal3(s[29..]);
    assert s[..4] == s[0..4];
    assert s[4..][..3] == s[4..7] && s[4..][3..] == s[7..];
    assert s[7..][..3] == s[7..10] && s[7..][3..] == s[10..];
    assert s[10..][..3] == s[10..13] && s[10..][3..] == s[13..];
    assert s[13..][..3] == s[13..16] && s[13..][3..] == s[16..];
    assert s[16..][..4] == s[16..20] && s[16..][4..] == s[20..];
    assert s[20..][..3] == s[20..23] && s[20..][3..] == s[23..];
    assert s[23..][..3] == s[23..26] && s[23..][3..] == s[26..];
    assert s[26..][..3] == s[26..29] && s[26..][3..] == s[29..];
    assert s[29..][..3] == s[29..32] && s[29..][3..] == [];
    NoBytes();
  }

  lemma NoBytes()
    ensures ByteVal([]) == 0
  {
  }

  // The number of values the top three bytes keep when nb_mask bits are ignored: (0xffffff >> nb_mask) + 1.
  function Kept(nbMask: nat): nat
    requires nbMask <= 2
  {
    if nbMask == 0 then 0x100_0000 else if nbMask == 1 then 0x80_0000 else 0x40_0000
  }

  // Ignoring the top bits of the top bytes takes the number modulo a power of two.
  lemma MaskedValue(low: nat, top: nat, keep: nat, w: nat)
    requires w > 0 && keep > 0 && low < w
    ensures (low + w * top) % (w * keep) == low + w * (top % keep)
  {
    var q, r := top / keep, top % keep;
    assert w * top == q * (w * keep) + w * r by {
      assert top == q * keep + r;
      assert w * (q * keep + r) == q * (w * keep) + w * r;
    }
    MulNonNegative(w, r);
    MulNonNegative(w, keep - 1 - r);
    assert w * (keep - 1 - r) == w * keep - w - w * r;
    ModUnique(low + w * top, q, low + w * r, w * keep);
  }

  lemma SplitTop(x0: u32, x1: u32, x2: u32, x3: u32, x4: u32, x5: u32, x6: u32, x7: u32, x8: u32, top: u32, keep: nat)
    requires x1 < 0x100_0000 && x2 < 0x100_0000 && x3 < 0x100_0000 && x4 < 0x100_0000
    requires x6 < 0x100_0000 && x7 < 0x100_0000 && x8 < 0x100_0000
    requires keep > 0
    ensures Sum(x0, x1 * 0x40, x2 * 0x20, x3 * 8, x4 * 4, x5, x6 * 0x80, x7 * 0x20, x8 * 0x10, top * 4) % (4 * W9 * keep)
         == Sum(x0, x1 * 0x40, x2 * 0x20, x3 * 8, x4 * 4, x5, x6 * 0x80, x7 * 0x20, x8 * 0x10, top % keep * 4)
  {
    var low := Sum(x0, x1 * 0x40, x2 * 0x20, x3 * 8, x4 * 4, x5, x6 * 0x80, x7 * 0x20, x8 * 0x10, 0);
    assert low < 4 * W9;
    MaskedValue(low, top, keep, 4 * W9);
  }

  // fe_frombytes_mask
  method FeFromBytesMask(h: array<i32>, s: seq<u8>, nbMask: nat)
    requires h.Length == 10 && |s| == 32 && nbMask <= 2
    modifies h
    ensures Tight(h[..])
    ensures Value(h[..]) % P == (ByteVal(s) % (4 * W9 * Kept(nbMask))) % P
  {
    hide Sum, ByteVal, Load32, Load24;
    var x0, x1, x2, x3, x4 := Load32(s[0..4]), Load24(s[4..7]), Load24(s[7..10]), Load24(s[10..13]), Load24(s[13..16]);
    var x5, x6, x7, x8, x9 := Load32(s[16..20]), Load24(s[20..23]), Load24(s[23..26]), Load24(s[26..29]), Load24(s[29..32]);
    LoadedValue(s);
    SplitTop(x0, x1, x2, x3, x4, x5, x6, x7, x8, x9, Kept(nbMask));
    FeCarry(h, x0, x1 * 0x40, x2 * 0x20, x3 * 8, x4 * 4,
            x5, x6 * 0x80, x7 * 0x20, x8 * 0x10, x9 % Kept(nbMask) * 4);
  }

  // fe_frombytes: bit 255 is ignored.
  method FeFromBytes(h: array<i32>, s: seq<u8>)
    requires h.Length == 10 && |s| == 32
    modifies h
    ensures Tight(h[..])
    ensures Value(h[..]) % P == (ByteVal(s) % TWO255) % P
  {
    FeFromBytesMask(h, s, 1);
  }

  // Decoding and encoding is reduction: the low 255 bits modulo p, as section 5 of RFC 7748 reads a coordinate.
  method Canonicalise(out: array<u8>, s: seq<u8>)
    requires out.Length == 32 && |s| == 32
    modifies out
    ensures ByteVal(out[..]) == (ByteVal(s) % TWO255) % P
  {
    hide ByteVal, Value;
    var h := new i32[10];
    FeFromBytes(h, s);
    FeToBytes(out, h);
  }

  // Equal-length encodings of one number are the same bytes.
  lemma {:induction false} EncodingUnique(a: seq<u8>, b: seq<u8>)
    requires |a| == |b| && ByteVal(a) == ByteVal(b)
    ensures a == b
  {
    if a == [] {
    } else {
      ModUnique(ByteVal(a), ByteVal(a[1..]), a[0], 0x100);
      ModUnique(ByteVal(b), ByteVal(b[1..]), b[0], 0x100);
      EncodingUnique(a[1..], b[1..]);
      assert a == [a[0]] + a[1..] && b == [b[0]] + b[1..];
    }
  }

  // fe_isequal: limb vectors that spell the same residue compare equal, however they are carried.
  method FeIsEqual(f: array<i32>, g: array<i32>) returns (equal: bool)
    requires f.Length == 10 && g.Length == 10 && Tight(f[..]) && Tight(g[..])
    ensures equal <==> Value(f[..]) % P == Value(g[..]) % P
  {
    hide Sum, ByteVal;
    var fs, gs := new u8[32], new u8[32];
    FeToBytes(fs, f);
    FeToBytes(gs, g);
    equal := fs[..] == gs[..];
    if ByteVal(fs[..]) == ByteVal(gs[..]) {
      EncodingUnique(fs[..], gs[..]);
    }
  }

  // fe_isodd: the parity of the canonical residue.
  method FeIsOdd(f: array<i32>) returns (odd: int)
    requires f.Length == 10 && Tight(f[..])
    ensures odd == Value(f[..]) % P % 2
  {
    hide Sum;
    var s := new u8[32];
    FeToBytes(s, f);
    odd := s[0] % 2;
    assert ByteVal(s[..]) == s[0] + 0x100 * ByteVal(s[..][1..]);
  }
}
