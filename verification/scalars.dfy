// The bits of a 32-byte scalar, read one at a time, and the number the bits from some position up spell.
module Scalars {
  import opened Words

  function Pow2(n: nat): (p: nat)
    ensures p > 0
  {
    if n == 0 then 1 else 2 * Pow2(n - 1)
  }

  lemma {:induction false} Pow2Add(m: nat, n: nat)
    ensures Pow2(m + n) == Pow2(m) * Pow2(n)
  {
    if m == 0 {
    } else {
      Pow2Add(m - 1, n);
      assert 2 * (Pow2(m - 1) * Pow2(n)) == (2 * Pow2(m - 1)) * Pow2(n);
    }
  }

  // scalar_bit
  function ScalarBit(s: seq<u8>, i: int): (b: int)
    requires |s| == 32 && i < 256
    ensures 0 <= b <= 1
  {
    if i < 0 then 0 else s[i / 8] / Pow2(i % 8) % 2
  }

  // The number spelled by bits k, k+1, ..., 255.
  ghost function Hi(s: seq<u8>, k: nat): (n: nat)
    requires |s| == 32 && k <= 256
    decreases 256 - k
  {
    if k == 256 then 0 else 2 * Hi(s, k + 1) + ScalarBit(s, k)
  }

  lemma Halves(b: u8)
    ensures b / 4 == b / 2 / 2 && b / 8 == b / 4 / 2 && b / 16 == b / 8 / 2 && b / 32 == b / 16 / 2
    ensures b / 64 == b / 32 / 2 && b / 128 == b / 64 / 2 && b / 128 / 2 == 0
  {
  }

  lemma ByteSum(b0: int, b1: int, b2: int, b3: int, b4: int, b5: int, b6: int, b7: int)
    requires b1 == b0 / 2 && b2 == b1 / 2 && b3 == b2 / 2 && b4 == b3 / 2
    requires b5 == b4 / 2 && b6 == b5 / 2 && b7 == b6 / 2 && b7 / 2 == 0
    ensures b0 == b0 % 2 + 2 * (b1 % 2) + 4 * (b2 % 2) + 8 * (b3 % 2)
                  + 16 * (b4 % 2) + 32 * (b5 % 2) + 64 * (b6 % 2) + 128 * (b7 % 2)
  {
  }

  lemma ByteBits(b: u8)
    ensures b == b % 2 + 2 * (b / 2 % 2) + 4 * (b / 4 % 2) + 8 * (b / 8 % 2)
                 + 16 * (b / 16 % 2) + 32 * (b / 32 % 2) + 64 * (b / 64 % 2) + 128 * (b / 128 % 2)
  {
    Halves(b);
    ByteSum(b, b / 2, b / 4, b / 8, b / 16, b / 32, b / 64, b / 128);
  }

  lemma SmallPowers()
    ensures Pow2(0) == 1 && Pow2(1) == 2 && Pow2(2) == 4 && Pow2(3) == 8 && Pow2(4) == 16
    ensures Pow2(5) == 32 && Pow2(6) == 64 && Pow2(7) == 128 && Pow2(8) == 256
  {
  }

  lemma HiStep(s: seq<u8>, j: nat, r: nat)
    requires |s| == 32 && j < 32 && r < 8
    ensures Hi(s, 8 * j + r) == 2 * Hi(s, 8 * j + r + 1) + s[j] / Pow2(r) % 2
  {
  }

  lemma HiByte(s: seq<u8>, j: nat)
    requires |s| == 32 && j < 32
    ensures Hi(s, 8 * j) == s[j] + 0x100 * Hi(s, 8 * j + 8)
  {
    hide Pow2, Hi;
    SmallPowers();
    HiStep(s, j, 0);
    HiStep(s, j, 1);
    HiStep(s, j, 2);
    HiStep(s, j, 3);
    HiStep(s, j, 4);
    HiStep(s, j, 5);
    HiStep(s, j, 6);
    HiStep(s, j, 7);
    ByteBits(s[j]);
  }

  lemma {:induction false} HiBytes(s: seq<u8>, j: nat)
    requires |s| == 32 && j <= 32
    ensures Hi(s, 8 * j) == ByteVal(s[j..])
    decreases 32 - j
  {
    if j == 32 {
    } else {
      HiBytes(s, j + 1);
      HiByte(s, j);
      assert s[j..][1..] == s[j + 1..];
    }
  }

  lemma WholeScalar(s: seq<u8>)
    requires |s| == 32
    ensures Hi(s, 0) == ByteVal(s)
  {
    HiBytes(s, 0);
    assert s[0..] == s;
  }

  const TWO253 := 0x2000_0000_0000_0000_0000_0000_0000_0000_0000_0000_0000_0000_0000_0000_0000_0000

  lemma Pow253()
    ensures Pow2(253) == TWO253
  {
    hide Pow2;
    SmallPowers();
    Pow2Add(8, 8);
    Pow2Add(16, 16);
    Pow2Add(32, 32);
    Pow2Add(64, 64);
    Pow2Add(64, 32);
    Pow2Add(96, 16);
    Pow2Add(112, 8);
    Pow2Add(120, 5);
    Pow2Add(128, 125);
  }

  // Dropping the bits below m takes the quotient by 2^m.
  lemma {:induction false} HiLow(s: seq<u8>, k: nat, m: nat)
    requires |s| == 32 && k <= m <= 256
    ensures Pow2(m - k) * Hi(s, m) <= Hi(s, k)
    decreases m - k
  {
    hide Pow2, Hi;
    HiUnfold(s, k);
    if k == m {
      SmallPowers();
    } else {
      HiLow(s, k + 1, m);
      PowUnfold(m - k - 1);
      DoubleProduct(Pow2(m - k - 1), Hi(s, m));
    }
  }

  lemma HiUnfold(s: seq<u8>, k: nat)
    requires |s| == 32 && k <= 256
    ensures k < 256 ==> Hi(s, k) == 2 * Hi(s, k + 1) + ScalarBit(s, k)
    ensures Hi(s, 256) == 0
  {
  }

  lemma PowUnfold(n: nat)
    ensures Pow2(n + 1) == 2 * Pow2(n)
  {
  }

  lemma DoubleProduct(p: int, h: int)
    ensures 2 * p * h == 2 * (p * h)
  {
  }

  // A scalar below 2^253 has no bit from 253 up.
  lemma NoHighBits(s: seq<u8>)
    requires |s| == 32 && ByteVal(s) < TWO253
    ensures Hi(s, 253) == 0
  {
    hide Pow2, Hi;
    WholeScalar(s);
    HiLow(s, 0, 253);
    Pow253();
  }
}
