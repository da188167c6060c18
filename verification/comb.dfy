// Fixed-base scalar multiplication: the scalar is rewritten with all bits set (1 for +1, 0 for -1) and read by
// two interleaved combs of four teeth each.
module Comb {
  import opened Words
  import opened Scalars
  import opened Groups
  import opened ModL

  const TWO32 := 0x1_0000_0000
  const TWO64 := 0x1_0000_0000_0000_0000
  const TWO96 := 0x1_0000_0000_0000_0000_0000_0000
  const TWO128 := 0x1_0000_0000_0000_0000_0000_0000_0000_0000
  const TWO256 := TWO128 * TWO128

  // A bit read as a sign
  function Sign(bit: int): int {
    2 * bit - 1
  }

  // The sum of all bits from k up, each as a sign at its own weight.
  ghost function Signed(s: seq<u8>, k: nat): int
    requires |s| == 32 && k <= 256
    decreases 256 - k
  {
    if k == 256 then 0 else 2 * Signed(s, k + 1) + Sign(ScalarBit(s, k))
  }

  lemma {:induction false} SignedHi(s: seq<u8>, k: nat)
    requires |s| == 32 && k <= 256
    ensures Signed(s, k) == 2 * Hi(s, k) - (Pow2(256 - k) - 1)
    decreases 256 - k
  {
    if k < 256 {
      SignedHi(s, k + 1);
    }
  }

  lemma SignedScalar(s: seq<u8>)
    requires |s| == 32
    ensures Signed(s, 0) == 2 * ByteVal(s) - (TWO256 - 1)
  {
    hide Pow2, Hi, Signed;
    SignedHi(s, 0);
    WholeScalar(s);
    Pow253();
    SmallPowers();
    Pow2Add(253, 3);
  }

  // Block t is bits 32t..32t+32; the ladder reads its bits from the top, down to bit i.
  ghost function Block(s: seq<u8>, t: nat, i: nat): int
    requires |s| == 32 && t < 8 && i <= 32
    decreases 32 - i
  {
    if i == 32 then 0 else 2 * Block(s, t, i + 1) + Sign(ScalarBit(s, 32 * t + i))
  }

  lemma {:induction false} BlockSigned(s: seq<u8>, t: nat, i: nat)
    requires |s| == 32 && t < 8 && i <= 32
    ensures Signed(s, 32 * t + i) == Block(s, t, i) + Pow2(32 - i) * Signed(s, 32 * t + 32)
    decreases 32 - i
  {
    hide Pow2, ScalarBit, Sign;
    SmallPowers();
    if i < 32 {
      PowUnfold(32 - i - 1);
      BlockSigned(s, t, i + 1);
      DoubleProduct(Pow2(32 - i - 1), Signed(s, 32 * t + 32));
    }
  }

  // What the ladder holds after position i: every block read down to i, at its block's weight.
  ghost function Read(s: seq<u8>, i: nat): int
    requires |s| == 32 && i <= 32
  {
    Block(s, 0, i) + TWO32 * Block(s, 1, i) + TWO64 * Block(s, 2, i) + TWO96 * Block(s, 3, i)
    + TWO128 * (Block(s, 4, i) + TWO32 * Block(s, 5, i) + TWO64 * Block(s, 6, i) + TWO96 * Block(s, 7, i))
  }

  lemma AllRead(s: seq<u8>)
    requires |s| == 32
    ensures Read(s, 0) == Signed(s, 0)
  {
    hide Pow2, Signed, Block;
    BlockSigned(s, 0, 0);
    BlockSigned(s, 1, 0);
    BlockSigned(s, 2, 0);
    BlockSigned(s, 3, 0);
    BlockSigned(s, 4, 0);
    BlockSigned(s, 5, 0);
    BlockSigned(s, 6, 0);
    BlockSigned(s, 7, 0);
    SmallPowers();
    Pow2Add(8, 8);
    Pow2Add(16, 16);
    NoBits(s);
  }

  lemma NoBits(s: seq<u8>)
    requires |s| == 32
    ensures Signed(s, 256) == 0
  {
  }

  // The four bits a comb reads at position i, as signs at the teeth's weights.
  ghost function Teeth(s: seq<u8>, i: nat): int
    requires |s| == 32 && i + 96 < 256
  {
    Sign(ScalarBit(s, i)) + TWO32 * Sign(ScalarBit(s, i + 32)) + TWO64 * Sign(ScalarBit(s, i + 64))
    + TWO96 * Sign(ScalarBit(s, i + 96))
  }

  lemma ReadStep(s: seq<u8>, i: nat)
    requires |s| == 32 && i < 32
    ensures Read(s, i) == 2 * Read(s, i + 1) + Teeth(s, i) + TWO128 * Teeth(s, i + 128)
  {
  }

  // Entry k of a comb: the top tooth positive, the other three signed by the bits of k.
  function Entry(k: nat): int
    requires k < 8
  {
    TWO96 + TWO64 * Sign(k / 4) + TWO32 * Sign(k / 2 % 2) + Sign(k % 2)
  }

  ghost predicate CombTable<G(!new)>(g: Group<G>, comb: seq<G>, B: G, scale: int)
  {
    |comb| == 8 && forall k :: 0 <= k < 8 ==> comb[k] == Mul(g, scale * Entry(k), B)
  }

  // lookup_add: teeth ^ (high - 1) complements the low teeth when the top one is clear, and the point found is
  // then subtracted instead of added.
  method LookupAdd<G(!new)>(g: Group<G>, p: G, comb: seq<G>, scalar: seq<u8>, i: nat, ghost B: G, ghost scale: int)
    returns (sum: G)
    requires Abelian(g) && CombTable(g, comb, B, scale)
    requires |scalar| == 32 && i + 96 < 256
    ensures sum == g.add(p, Mul(g, scale * Teeth(scalar, i), B))
  {
    hide Abelian, Mul, ScalarBit, Teeth, Entry;
    var teeth := ScalarBit(scalar, i) + 2 * ScalarBit(scalar, i + 32) + 4 * ScalarBit(scalar, i + 64)
                 + 8 * ScalarBit(scalar, i + 96);
    var high := teeth / 8;
    var index := if high == 1 then teeth % 8 else 7 - teeth % 8;
    var found := comb[0];
    for j := 0 to 8
      invariant j > index ==> found == comb[index]
    {
      if j == index {
        found := comb[j];
      }
    }
    if high == 1 {
      sum := g.add(p, found);
      TeethEntry(scalar, i, index, 1);
    } else {
      NegMul(g, scale * Entry(index), B);
      sum := g.add(p, g.neg(found));
      TeethEntry(scalar, i, index, -1);
    }
  }

  lemma TeethEntry(s: seq<u8>, i: nat, index: nat, sign: int)
    requires |s| == 32 && i + 96 < 256
    requires ScalarBit(s, i + 96) == if sign == 1 then 1 else 0
    requires sign == 1 || sign == -1
    requires var low := ScalarBit(s, i) + 2 * ScalarBit(s, i + 32) + 4 * ScalarBit(s, i + 64);
             index == if sign == 1 then low else 7 - low
    ensures index < 8 && Teeth(s, i) == sign * Entry(index)
  {
    hide ScalarBit;
    var b0, b1, b2 := ScalarBit(s, i), ScalarBit(s, i + 32), ScalarBit(s, i + 64);
    if sign == 1 {
      EntryBits(b0, b1, b2);
    } else {
      EntryBits(1 - b0, 1 - b1, 1 - b2);
    }
  }

  lemma EntryBits(b0: int, b1: int, b2: int)
    requires 0 <= b0 <= 1 && 0 <= b1 <= 1 && 0 <= b2 <= 1
    ensures Entry(b0 + 2 * b1 + 4 * b2) == TWO96 + TWO64 * Sign(b2) + TWO32 * Sign(b1) + Sign(b0)
  {
    var k := b0 + 2 * b1 + 4 * b2;
    assert k / 4 == b2 && k / 2 == b1 + 2 * b2 && k % 2 == b0;
  }

  // 1/2 modulo L and (2^256 - 1)/2 modulo L, four bytes to a row
  const HALF_MOD_L: seq<u8> :=
    [247, 233, 122, 46] + ([141, 49, 9, 44] + ([107, 206, 123, 81] + ([239, 124, 111, 10]
    + ([0, 0, 0, 0] + ([0, 0, 0, 0] + ([0, 0, 0, 0] + [0, 0, 0, 8]))))))

  const HALF_ONES: seq<u8> :=
    [142, 74, 204, 70] + ([186, 24, 118, 107] + ([184, 231, 190, 57] + ([250, 173, 119, 99]
    + ([255, 255, 255, 255] + ([255, 255, 255, 255] + ([255, 255, 255, 255] + [255, 255, 255, 7]))))))

  const HALF: nat := 0x80000000000000000000000000000000a6f7cef517bce6b2c09318d2e7ae9f7
  const ONES: nat := 0x7ffffffffffffffffffffffffffffff6377adfa39bee7b86b7618ba46cc4a8e

  lemma Rows(r0: seq<u8>, r1: seq<u8>, r2: seq<u8>, r3: seq<u8>, r4: seq<u8>, r5: seq<u8>, r6: seq<u8>, r7: seq<u8>)
    requires |r0| == |r1| == |r2| == |r3| == |r4| == |r5| == |r6| == |r7| == 4
    ensures ByteVal(r0 + (r1 + (r2 + (r3 + (r4 + (r5 + (r6 + r7))))))) ==
      Load32(r0) + B32 * (Load32(r1) + B32 * (Load32(r2) + B32 * (Load32(r3) + B32 * (Load32(r4)
      + B32 * (Load32(r5) + B32 * (Load32(r6) + B32 * Load32(r7)))))))
  {
    hide ByteVal, Load32;
    RowOf(r7, []);
    RowOf(r6, r7);
    RowOf(r5, r6 + r7);
    RowOf(r4, r5 + (r6 + r7));
    RowOf(r3, r4 + (r5 + (r6 + r7)));
    RowOf(r2, r3 + (r4 + (r5 + (r6 + r7))));
    RowOf(r1, r2 + (r3 + (r4 + (r5 + (r6 + r7)))));
    RowOf(r0, r1 + (r2 + (r3 + (r4 + (r5 + (r6 + r7))))));
    assert r7 + [] == r7;
  }

  lemma RowOf(r: seq<u8>, rest: seq<u8>)
    requires |r| == 4
    ensures ByteVal(r + rest) == Load32(r) + B32 * ByteVal(rest)
    ensures ByteVal([]) == 0
  {
    ByteVal4(r + rest);
    assert (r + rest)[..4] == r && (r + rest)[4..] == rest;
  }

  lemma HalfValue()
    ensures |HALF_MOD_L| == 32 && ByteVal(HALF_MOD_L) == HALF
  {
    hide ByteVal;
    Rows([247, 233, 122, 46], [141, 49, 9, 44], [107, 206, 123, 81], [239, 124, 111, 10],
         [0, 0, 0, 0], [0, 0, 0, 0], [0, 0, 0, 0], [0, 0, 0, 8]);
  }

  lemma OnesValue()
    ensures |HALF_ONES| == 32 && ByteVal(HALF_ONES) == ONES
  {
    hide ByteVal;
    Rows([142, 74, 204, 70], [186, 24, 118, 107], [184, 231, 190, 57], [250, 173, 119, 99],
         [255, 255, 255, 255], [255, 255, 255, 255], [255, 255, 255, 255], [255, 255, 255, 7]);
  }

  // The recoded scalar spells the scalar itself, up to multiples of L.
  lemma Recoding(scalar: nat, recoded: nat) returns (k: int)
    requires recoded == (scalar * HALF + ONES) % ORDER
    ensures 2 * recoded - (TWO256 - 1) == scalar + k * ORDER
  {
    var x := scalar * HALF + ONES;
    var q := x / ORDER;
    assert x == q * ORDER + recoded;
    assert 2 * (scalar * HALF) == scalar * (ORDER + 1);
    k := scalar - 15 - 2 * q;
  }

  lemma DropsOrder<G(!new)>(g: Group<G>, n: int, k: int, B: G)
    requires Abelian(g) && Mul(g, ORDER, B) == g.zero
    ensures Mul(g, n + k * ORDER, B) == Mul(g, n, B)
  {
    hide Abelian, Mul;
    MulAdd(g, n, k * ORDER, B);
    MulMul(g, k, ORDER, B);
    MulNone(g, k);
    ZeroIsUnit(g, Mul(g, n, B));
  }

  lemma {:induction false} MulNone<G(!new)>(g: Group<G>, k: int)
    requires Abelian(g)
    ensures Mul(g, k, g.zero) == g.zero
    decreases if k < 0 then -k else k
  {
    hide Abelian;
    if k > 0 {
      MulNone(g, k - 1);
      ZeroIsUnit(g, g.zero);
    } else if k < 0 {
      MulNone(g, k + 1);
      AddNeg(g, g.zero, g.zero);
      ZeroIsUnit(g, g.neg(g.zero));
      ZeroIsUnit(g, g.zero);
    }
  }

  lemma CombStep<G(!new)>(g: Group<G>, n: int, low: int, high: int, B: G)
    requires Abelian(g)
    ensures g.add(g.add(g.add(Mul(g, n, B), Mul(g, n, B)), Mul(g, low, B)), Mul(g, high, B))
         == Mul(g, 2 * n + low + high, B)
  {
    hide Abelian, Mul;
    MulAdd(g, n, n, B);
    MulAdd(g, 2 * n, low, B);
    MulAdd(g, 2 * n + low, high, B);
  }

  // The scalar in all-bits-set form.
  method Recode(scalar: array<u8>) returns (s: seq<u8>)
    requires scalar.Length == 32
    ensures |s| == 32
    ensures ByteVal(s) == (ByteVal(scalar[..]) * HALF + ONES) % ORDER
  {
    hide ByteVal;
    HalfValue();
    OnesValue();
    var half, ones, sScalar := new u8[32](i requires 0 <= i < 32 => HALF_MOD_L[i]),
                               new u8[32](i requires 0 <= i < 32 => HALF_ONES[i]), new u8[32];
    assert half[..] == HALF_MOD_L && ones[..] == HALF_ONES;
    EddsaMulAdd(sScalar, scalar, half, ones);
    s := sScalar[..];
  }

  ghost predicate Recodes(s: seq<u8>, scalar: nat) {
    ByteVal(s) == (scalar * HALF + ONES) % ORDER
  }

  lemma ReadRecoded(s: seq<u8>, scalar: nat) returns (k: int)
    requires |s| == 32 && Recodes(s, scalar)
    ensures Read(s, 0) == scalar + k * ORDER
  {
    hide ByteVal, Read;
    AllRead(s);
    SignedScalar(s);
    k := Recoding(scalar, ByteVal(s));
  }

  lemma CombResult<G(!new)>(g: Group<G>, s: seq<u8>, scalar: nat, B: G)
    requires Abelian(g) && Mul(g, ORDER, B) == g.zero
    requires |s| == 32 && Recodes(s, scalar)
    ensures Mul(g, Read(s, 0), B) == Mul(g, scalar, B)
  {
    hide Abelian, Mul, Read, Recodes;
    var k := ReadRecoded(s, scalar);
    DropsOrder(g, scalar, k, B);
  }

  // ge_scalarmult_base: [scalar]B for every 256-bit scalar.
  method ScalarMultBase<G(!new)>(g: Group<G>, combLow: seq<G>, combHigh: seq<G>, scalar: array<u8>, ghost B: G)
    returns (p: G)
    requires Abelian(g) && Mul(g, ORDER, B) == g.zero
    requires CombTable(g, combLow, B, 1) && CombTable(g, combHigh, B, TWO128)
    requires scalar.Length == 32
    ensures p == Mul(g, ByteVal(scalar[..]), B)
  {
    hide Abelian, Mul, ByteVal, CombTable, Read, Teeth;
    var s := Recode(scalar);
    p := g.zero;
    // The accumulator is neutral, so the top column needs no doubling.
    p := LookupAdd(g, p, combLow, s, 31, B, 1);
    p := LookupAdd(g, p, combHigh, s, 31 + 128, B, TWO128);
    Start(g, s, B);
    var i := 30;
    while i >= 0
      invariant -1 <= i <= 30
      invariant p == Mul(g, Read(s, i + 1), B)
    {
      ghost var n := Read(s, i + 1);
      p := g.add(p, p);
      p := LookupAdd(g, p, combLow, s, i, B, 1);
      p := LookupAdd(g, p, combHigh, s, i + 128, B, TWO128);
      CombStep(g, n, 1 * Teeth(s, i), TWO128 * Teeth(s, i + 128), B);
      ReadStep(s, i);
      i := i - 1;
    }
    CombResult(g, s, ByteVal(scalar[..]), B);
  }

  lemma Start<G(!new)>(g: Group<G>, s: seq<u8>, B: G)
    requires Abelian(g) && |s| == 32
    ensures g.add(g.add(g.zero, Mul(g, 1 * Teeth(s, 31), B)), Mul(g, TWO128 * Teeth(s, 31 + 128), B))
         == Mul(g, Read(s, 31), B)
  {
    hide Abelian, Mul, ScalarBit, Teeth;
    ReadStep(s, 31);
    NothingRead(s);
    MulAdd(g, Teeth(s, 31), TWO128 * Teeth(s, 31 + 128), B);
    ZeroIsUnit(g, Mul(g, Teeth(s, 31), B));
  }

  lemma NothingRead(s: seq<u8>)
    requires |s| == 32
    ensures Read(s, 32) == 0
  {
  }
}
