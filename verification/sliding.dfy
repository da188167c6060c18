// The left-to-right signed sliding windows of crypto_eddsa_check_equation, recoded on the fly while one
// double-and-add ladder runs down the bits of two scalars.
module Sliding {
  import opened Words
  import opened Scalars
  import opened Groups
  import ModL

  type i8 = x: int | -0x80 <= x < 0x80
  type i16 = x: int | -0x8000 <= x < 0x8000

  // Bits k and up, rounded up by the bit below them: what the digits at k and above must spell.
  ghost function Recoded(s: seq<u8>, k: nat): nat
    requires |s| == 32 && k <= 256
  {
    Hi(s, k) + ScalarBit(s, k - 1)
  }

  // next_check is a u8: the check below bit 0 is 255, which no ladder position reaches.
  function Check(c: u8): int {
    if c == 255 then -1 else c
  }

  // The digits emitted above position i, read as the number acc at weight 2^(i+1), and the digit still pending
  // below them spell every bit down to the next check.
  ghost predicate Spells(s: seq<u8>, check: int, index: int, digit: int, i: int, acc: int)
    requires |s| == 32
  {
    && -1 <= check <= i <= 255 && check <= 253
    && (index == -1 || index > check)
    && acc * Pow2(i - check) + (if check < index <= i then digit * Pow2(index - check - 1) else 0)
       == Recoded(s, check + 1)
  }

  // An odd digit a table of 2^(width-2) odd multiples can serve.
  predicate Servable(digit: int, width: int)
    requires width == 3 || width == 5
  {
    digit % 2 == 1 && if width == 3 then -4 < digit < 4 else -16 < digit < 16
  }

  // v & (~v + 1): the lowest set bit
  function LowestBit(v: int): (b: int)
    requires v != 0
    ensures b > 0
    decreases if v < 0 then -v else v
  {
    if v % 2 == 1 then 1 else 2 * LowestBit(v / 2)
  }

  // mask & bit, for a single bit
  predicate Meets(mask: int, bit: int)
    requires bit > 0
  {
    mask / bit % 2 == 1
  }

  // The number of trailing zeros, assembled from three masks as the source does.
  function TrailingZeros(lsb: int): int
    requires lsb > 0
  {
    (if Meets(0xAA, lsb) then 1 else 0) + (if Meets(0xCC, lsb) then 2 else 0) + (if Meets(0xF0, lsb) then 4 else 0)
  }

  // Every nonzero number is an odd number times the power of two its lowest set bit is.
  lemma OddPart(v: int) returns (k: nat, d: int)
    requires v != 0
    ensures v == d * Pow2(k) && d % 2 == 1 && LowestBit(v) == Pow2(k)
    decreases if v < 0 then -v else v
  {
    if v % 2 == 1 {
      k, d := 0, v;
    } else {
      k, d := OddPart(v / 2);
      assert 2 * (d * Pow2(k)) == d * (2 * Pow2(k));
      k := k + 1;
    }
  }

  lemma CountsZeros(k: nat)
    requires k <= 4
    ensures TrailingZeros(Pow2(k)) == k
  {
    SmallPowers();
  }

  // The digit of a window of value v: odd, with its zeros moved into the position.
  lemma WindowDigit(v: int, width: int) returns (k: nat, d: int)
    requires width == 3 || width == 5
    requires v != 0 && if width == 3 then -4 <= v <= 4 else -16 <= v <= 16
    ensures k == TrailingZeros(LowestBit(v)) && v / Pow2(k) == d && v == d * Pow2(k)
    ensures Servable(d, width)
    ensures k <= 4
  {
    hide Pow2;
    SmallPowers();
    k, d := OddPart(v);
    if k > 4 {
      PowGrows(5, k);
      BigMultiple(d, Pow2(k));
    }
    CountsZeros(k);
    Exact(v, d, Pow2(k));
    SmallDigit(v, d, Pow2(k));
  }

  lemma PowGrows(m: nat, n: nat)
    requires m <= n
    ensures Pow2(m) <= Pow2(n)
  {
  }

  lemma BigMultiple(d: int, p: nat)
    requires d != 0 && p >= 32
    ensures d * p <= -32 || 32 <= d * p
  {
    if d > 0 {
      MulNonNegative(d - 1, p);
    } else {
      MulNonNegative(-d - 1, p);
    }
  }

  lemma Exact(v: int, d: int, p: nat)
    requires p > 0 && v == d * p
    ensures v / p == d
  {
    ModUnique(v, d, 0, p);
    assert (v / p - d) * p == 0;
  }

  // |d * p| at most a power of two 4 or 16 leaves an odd d strictly inside it.
  lemma SmallDigit(v: int, d: int, p: nat)
    requires p in {1, 2, 4, 8, 16} && d % 2 == 1 && v == d * p
    ensures -4 <= v <= 4 ==> -4 < d < 4
    ensures -16 <= v <= 16 ==> -16 < d < 16
  {
  }

  // The value of the window of w bits whose top bit is i.
  ghost function WindowSum(s: seq<u8>, i: nat, w: nat, j: nat): int
    requires |s| == 32 && i < 256 && 1 <= w <= i + 1 && j <= w - 1
  {
    if j == 0 then 0 else WindowSum(s, i, w, j - 1) + ScalarBit(s, i - (w - 1) + j - 1) * Pow2(j - 1)
  }

  lemma {:induction false} WindowReads(s: seq<u8>, i: nat, w: nat, j: nat)
    requires |s| == 32 && i < 256 && 1 <= w <= i + 1 && j <= w - 1
    ensures Hi(s, i - (w - 1)) == Pow2(j) * Hi(s, i - (w - 1) + j) + WindowSum(s, i, w, j)
    ensures 0 <= WindowSum(s, i, w, j) < Pow2(j)
  {
    hide Hi, Pow2, ScalarBit;
    SmallPowers();
    if j > 0 {
      WindowReads(s, i, w, j - 1);
      PowUnfold(j - 1);
      HiUnfold(s, i - (w - 1) + j - 1);
      WindowStep(Pow2(j - 1), Hi(s, i - (w - 1) + j), ScalarBit(s, i - (w - 1) + j - 1));
    }
  }

  lemma WindowStep(p: nat, h: int, b: int)
    requires 0 <= b <= 1
    ensures p * (2 * h + b) == 2 * p * h + b * p && 0 <= b * p <= p
  {
  }

  // A window closes the gap between the number recoded above it and the number recoded down to it.
  lemma WindowValue(s: seq<u8>, i: nat, w: nat)
    requires |s| == 32 && i < 255 && 1 <= w <= i + 1
    ensures Recoded(s, i - (w - 1))
         == Pow2(w) * Recoded(s, i + 1) + WindowSum(s, i, w, w - 1) - ScalarBit(s, i) * Pow2(w - 1) + ScalarBit(s, i - w)
  {
    hide Hi, Pow2, ScalarBit, WindowSum;
    WindowReads(s, i, w, w - 1);
    HiUnfold(s, i);
    PowUnfold(w - 1);
    WindowClose(Pow2(w - 1), Pow2(w), Hi(s, i), Hi(s, i + 1), ScalarBit(s, i));
  }

  lemma WindowClose(p: nat, double: nat, x: int, h: int, b: int)
    requires double == 2 * p && x == 2 * h + b
    ensures p * x == double * (h + b) - b * p
  {
    assert p * x == p * (2 * h + b);
  }

  // A window opens where two neighbouring bits differ, so its value is not zero and fits the digit tables.
  lemma WindowRange(s: seq<u8>, i: nat, w: nat, v: int)
    requires |s| == 32 && i < 255 && 1 <= w <= i + 1
    requires ScalarBit(s, i) != ScalarBit(s, i - 1)
    requires v == WindowSum(s, i, w, w - 1) - ScalarBit(s, i) * Pow2(w - 1) + ScalarBit(s, i - w)
    ensures v != 0 && -(Pow2(w - 1) as int) <= v <= Pow2(w - 1)
  {
    hide Hi, Pow2, ScalarBit;
    SmallPowers();
    WindowReads(s, i, w, w - 1);
    if w >= 2 {
      WindowReads(s, i, w, w - 2);
      PowUnfold(w - 2);
      if ScalarBit(s, i) == 0 {
        assert WindowSum(s, i, w, w - 1) == WindowSum(s, i, w, w - 2) + Pow2(w - 2);
      } else {
        assert WindowSum(s, i, w, w - 1) == WindowSum(s, i, w, w - 2);
      }
    }
  }

  // The loop that reads a window.
  method WindowInt(s: seq<u8>, i: nat, w: nat) returns (v: int)
    requires |s| == 32 && i < 255 && 1 <= w <= i + 1
    ensures v == WindowSum(s, i, w, w - 1) - ScalarBit(s, i) * Pow2(w - 1) + ScalarBit(s, i - w)
  {
    v := -(ScalarBit(s, i) * Pow2(w - 1));
    for j := 0 to w - 1
      invariant v == WindowSum(s, i, w, j) - ScalarBit(s, i) * Pow2(w - 1)
    {
      v := v + ScalarBit(s, i - (w - 1) + j) * Pow2(j);
    }
    v := v + ScalarBit(s, i - w);
  }

  lemma WindowFits(width: int, w: nat)
    requires (width == 3 || width == 5) && 1 <= w <= width
    ensures Pow2(w - 1) <= if width == 3 then 4 else 16
  {
    SmallPowers();
    PowGrows(w - 1, width - 1);
  }

  // The digit lands inside its window.
  lemma PositionFits(v: int, d: int, k: nat, w: nat)
    requires w >= 1 && v == d * Pow2(k) && d != 0 && -(Pow2(w - 1) as int) <= v <= Pow2(w - 1)
    ensures k <= w - 1
  {
    hide Pow2;
    if k > w - 1 {
      PowGrows(w, k);
      PowUnfold(w - 1);
      if d > 0 {
        MulNonNegative(d - 1, Pow2(k));
      } else {
        MulNonNegative(-d - 1, Pow2(k));
      }
    }
  }

  // Equal neighbouring bits recode to no digit.
  lemma SkipBit(s: seq<u8>, index: int, digit: int, i: nat, acc: int)
    requires |s| == 32 && i <= 253 && ScalarBit(s, i) == ScalarBit(s, i - 1)
    requires Spells(s, i, index, digit, i, acc)
    ensures Spells(s, i - 1, index, digit, i, acc)
  {
    hide Hi, Pow2, ScalarBit;
    SmallPowers();
    HiUnfold(s, i);
  }

  // A window of w bits becomes one pending digit d at the lowest set bit of its value.
  lemma OpenWindow(s: seq<u8>, index: int, digit: int, i: nat, acc: int, w: nat, k: nat, d: int)
    requires |s| == 32 && i <= 253 && 1 <= w <= i + 1 && k <= w - 1
    requires Spells(s, i, index, digit, i, acc)
    requires d * Pow2(k) == WindowSum(s, i, w, w - 1) - ScalarBit(s, i) * Pow2(w - 1) + ScalarBit(s, i - w)
    ensures Spells(s, i - w, i - (w - 1) + k, d, i, acc)
  {
    hide Hi, Pow2, ScalarBit, WindowSum;
    SmallPowers();
    WindowValue(s, i, w);
    assert acc == Recoded(s, i + 1);
  }

  // Moving down one position doubles what was emitted and takes the pending digit if it falls there.
  lemma MoveDown(s: seq<u8>, check: int, index: int, digit: int, i: int, acc: int)
    requires |s| == 32 && check < i
    requires Spells(s, check, index, digit, i, acc)
    ensures Spells(s, check, index, digit, i - 1, 2 * acc + if i == index then digit else 0)
  {
    hide Hi, Pow2, ScalarBit;
    PowUnfold(i - 1 - check);
    Doubled(acc, Pow2(i - 1 - check), if i == index then digit else 0);
  }

  lemma Doubled(acc: int, p: int, d: int)
    ensures (2 * acc + d) * p == acc * (2 * p) + d * p
  {
  }

  // With no set bit from k up there is nothing to spell there.
  lemma NothingAbove(s: seq<u8>, k: nat)
    requires |s| == 32 && k <= 252 && Hi(s, k + 1) == 0
    ensures Recoded(s, k + 2) == 0
  {
    HiUnfold(s, k + 1);
  }

  lemma NothingSpelled(s: seq<u8>, check: int, i: int)
    requires |s| == 32 && -1 <= check <= i <= 255 && check <= 253 && Recoded(s, check + 1) == 0
    ensures Spells(s, check, -1, -1, i, 0)
  {
    hide Recoded;
  }

  class SlideCtx {
    var nextIndex: i16
    var nextDigit: i8
    var nextCheck: u8

    ghost predicate Follows(s: seq<u8>, width: int, i: int, acc: int)
      reads this
      requires |s| == 32 && (width == 3 || width == 5)
    {
      && Spells(s, Check(nextCheck), nextIndex, nextDigit, i, acc)
      && (nextIndex != -1 ==> Servable(nextDigit, width))
    }

    // slide_init
    constructor (scalar: seq<u8>)
      requires |scalar| == 32 && ByteVal(scalar) < TWO253
      ensures nextCheck <= 253
      ensures forall i, width | nextCheck <= i <= 255 && (width == 3 || width == 5) :: Follows(scalar, width, i, 0)
    {
      hide Hi, Pow2, ScalarBit, Recoded, Spells;
      var i := 252;
      NoHighBits(scalar);
      while i > 0 && ScalarBit(scalar, i) == 0
        invariant 0 <= i <= 252 && Hi(scalar, i + 1) == 0
      {
        HiUnfold(scalar, i);
        i := i - 1;
      }
      nextCheck := i + 1;
      nextIndex := -1;
      nextDigit := -1;
      NothingAbove(scalar, i);
      new;
      forall j, width | nextCheck <= j <= 255 && (width == 3 || width == 5)
        ensures Follows(scalar, width, j, 0)
      {
        NothingSpelled(scalar, Check(nextCheck), j);
      }
    }

    // Computes the digit of the window whose top bit is i.
    method OpenAt(width: int, i: nat, scalar: seq<u8>, ghost acc: int)
      requires |scalar| == 32 && (width == 3 || width == 5) && i <= 253 && i == nextCheck
      requires ScalarBit(scalar, i) != ScalarBit(scalar, i - 1)
      requires Follows(scalar, width, i, acc)
      modifies this
      ensures Follows(scalar, width, i, acc) && Check(nextCheck) < i
    {
      hide Hi, Pow2, ScalarBit, Recoded, WindowSum, Spells;
      var w := if width <= i + 1 then width else i + 1;
      var v := WindowInt(scalar, i, w);
      WindowRange(scalar, i, w, v);
      WindowFits(width, w);
      ghost var k, d := WindowDigit(v, width);
      PositionFits(v, d, k, w);
      OpenWindow(scalar, nextIndex, nextDigit, i, acc, w, k, d);
      var zeros := TrailingZeros(LowestBit(v));
      nextIndex := i - (w - 1) + zeros;
      nextDigit := v / Pow2(zeros);
      nextCheck := (nextCheck - w) % 0x100;
    }

    // slide_step: the digit at position i, zero when none falls there.
    method Step(width: int, i: nat, scalar: seq<u8>, ghost acc: int) returns (digit: int)
      requires |scalar| == 32 && (width == 3 || width == 5) && i <= 253
      requires Follows(scalar, width, i, acc)
      modifies this
      ensures digit == 0 || Servable(digit, width)
      ensures Follows(scalar, width, i - 1, 2 * acc + digit)
    {
      hide Hi, Pow2, ScalarBit, Recoded;
      if i == nextCheck {
        if ScalarBit(scalar, i) == ScalarBit(scalar, i - 1) {
          SkipBit(scalar, nextIndex, nextDigit, i, acc);
          nextCheck := (nextCheck - 1) % 0x100;
        } else {
          OpenAt(width, i, scalar, acc);
        }
      }
      MoveDown(scalar, Check(nextCheck), nextIndex, nextDigit, i, acc);
      digit := if i == nextIndex then nextDigit else 0;
    }
  }

  // k odd multiples of x, the table a window of odd digits indexes
  ghost predicate OddMultiples<G(!new)>(g: Group<G>, table: seq<G>, x: G, size: nat)
  {
    |table| == size && forall k :: 0 <= k < size ==> table[k] == Mul(g, 2 * k + 1, x)
  }

  // lutA: -A, then each entry two more than the last.
  method OddTable<G(!new)>(g: Group<G>, x: G, size: nat) returns (table: seq<G>)
    requires Abelian(g) && size >= 1
    ensures OddMultiples(g, table, x, size)
  {
    hide Abelian;
    var x2 := g.add(x, x);
    table := [x];
    One(g, x);
    MulAdd(g, 1, 1, x);
    for i := 1 to size
      invariant OddMultiples(g, table, x, i)
    {
      MulAdd(g, 2, 2 * (i - 1) + 1, x);
      table := table + [g.add(x2, table[i - 1])];
    }
  }

  lemma One<G(!new)>(g: Group<G>, x: G)
    requires Abelian(g)
    ensures Mul(g, 1, x) == x
  {
    ZeroIsUnit(g, x);
  }

  // The addition one digit causes: the table entry it indexes, or its opposite.
  function AddDigit<G>(g: Group<G>, sum: G, table: seq<G>, digit: int): G
    requires -2 * |table| < digit < 2 * |table|
  {
    if digit > 0 then g.add(sum, table[digit / 2])
    else if digit < 0 then g.add(sum, g.neg(table[-digit / 2]))
    else sum
  }

  lemma DigitAdded<G(!new)>(g: Group<G>, sum: G, table: seq<G>, digit: int, x: G, size: nat)
    requires Abelian(g) && OddMultiples(g, table, x, size)
    requires -2 * size < digit < 2 * size && (digit == 0 || digit % 2 == 1)
    ensures AddDigit(g, sum, table, digit) == g.add(sum, Mul(g, digit, x))
  {
    hide Abelian;
    if digit > 0 {
      assert 2 * (digit / 2) + 1 == digit;
    } else if digit < 0 {
      assert 2 * (-digit / 2) + 1 == -digit;
      NegMul(g, -digit, x);
    } else {
      ZeroIsUnit(g, sum);
    }
  }

  lemma DigitsAdded<G(!new)>(g: Group<G>, sum: G, lutA: seq<G>, bWindow: seq<G>, minusA: G, B: G, hAcc: int, sAcc: int,
                             hDigit: int, sDigit: int)
    requires Abelian(g) && OddMultiples(g, lutA, minusA, 2) && OddMultiples(g, bWindow, B, 8)
    requires hDigit == 0 || Servable(hDigit, 3)
    requires sDigit == 0 || Servable(sDigit, 5)
    requires sum == Lin(g, sAcc, B, hAcc, minusA)
    ensures AddDigit(g, AddDigit(g, g.add(sum, sum), lutA, hDigit), bWindow, sDigit)
         == Lin(g, 2 * sAcc + sDigit, B, 2 * hAcc + hDigit, minusA)
  {
    hide Abelian, Mul, AddDigit;
    LinDouble(g, sAcc, B, hAcc, minusA);
    DigitAdded(g, g.add(sum, sum), lutA, hDigit, minusA, 2);
    LinAddRight(g, 2 * sAcc, B, 2 * hAcc, minusA, hDigit);
    DigitAdded(g, Lin(g, 2 * sAcc, B, 2 * hAcc + hDigit, minusA), bWindow, sDigit, B, 8);
    LinAddLeft(g, 2 * sAcc, B, 2 * hAcc + hDigit, minusA, sDigit);
  }

  // The fused ladder: [s]B + [h](-A).
  method Ladder<G(!new)>(g: Group<G>, minusA: G, ghost B: G, bWindow: seq<G>, h: seq<u8>, s: seq<u8>) returns (sum: G)
    requires Abelian(g) && OddMultiples(g, bWindow, B, 8)
    requires |h| == 32 && |s| == 32 && ByteVal(h) < TWO253 && ByteVal(s) < TWO253
    ensures sum == Lin(g, ByteVal(s), B, ByteVal(h), minusA)
  {
    hide Abelian, ByteVal, Hi, Pow2, ScalarBit, Mul, Spells, Lin, AddDigit;
    var lutA := OddTable(g, minusA, 2);
    var hSlide := new SlideCtx(h);
    var sSlide := new SlideCtx(s);
    var i := if hSlide.nextCheck >= sSlide.nextCheck then hSlide.nextCheck else sSlide.nextCheck;
    sum := g.zero;
    LinZero(g, B, minusA);
    ghost var hAcc, sAcc := 0, 0;
    while i >= 0
      invariant -1 <= i <= 253
      invariant hSlide.Follows(h, 3, i, hAcc) && sSlide.Follows(s, 5, i, sAcc)
      invariant sum == Lin(g, sAcc, B, hAcc, minusA)
    {
      ghost var was := sum;
      sum := g.add(sum, sum);
      var hDigit := hSlide.Step(3, i, h, hAcc);
      var sDigit := sSlide.Step(5, i, s, sAcc);
      sum := AddDigit(g, sum, lutA, hDigit);
      sum := AddDigit(g, sum, bWindow, sDigit);
      DigitsAdded(g, was, lutA, bWindow, minusA, B, hAcc, sAcc, hDigit, sDigit);
      hAcc, sAcc := 2 * hAcc + hDigit, 2 * sAcc + sDigit;
      i := i - 1;
    }
    Finished(h, Check(hSlide.nextCheck), hSlide.nextIndex, hSlide.nextDigit, hAcc);
    Finished(s, Check(sSlide.nextCheck), sSlide.nextIndex, sSlide.nextDigit, sAcc);
  }

  lemma LinZero<G(!new)>(g: Group<G>, x: G, y: G)
    requires Abelian(g)
    ensures Lin(g, 0, x, 0, y) == g.zero
  {
    ZeroIsUnit(g, g.zero);
  }

  lemma Finished(s: seq<u8>, check: int, index: int, digit: int, acc: int)
    requires |s| == 32 && Spells(s, check, index, digit, -1, acc)
    ensures acc == ByteVal(s)
  {
    hide Hi, ByteVal;
    WholeScalar(s);
  }

  datatype Decoded<G> = OnCurve(point: G) | OffCurve

  // crypto_eddsa_check_equation, on the decoded opposites of the public key and of R: accepts exactly when both
  // points decode, s is below the order, and [8]([s]B - [h]A - R) is the neutral element.
  method CheckEquation<G(!new)(==)>(g: Group<G>, minusA: Decoded<G>, minusR: Decoded<G>, ghost B: G, bWindow: seq<G>,
                                    h: seq<u8>, s: seq<u8>) returns (accepted: bool)
    requires Abelian(g) && OddMultiples(g, bWindow, B, 8)
    requires |h| == 32 && |s| == 32 && ByteVal(h) < TWO253
    ensures accepted <==>
      && minusA.OnCurve? && minusR.OnCurve? && ByteVal(s) < ModL.ORDER
      && Mul(g, 8, g.add(Lin(g, ByteVal(s), B, ByteVal(h), minusA.point), minusR.point)) == g.zero
  {
    hide Abelian, ByteVal, Mul;
    var s32 := new u32[8];
    Load32Buf(s32, s, 8);
    assert s32[..8] == s32[..];
    var above := ModL.IsAboveL(s32[..]);
    if minusA.OffCurve? || minusR.OffCurve? || above == 1 {
      return false;
    }
    var sum := Ladder(g, minusA.point, B, bWindow, h, s);
    sum := g.add(sum, minusR.point);
    ghost var d := sum;
    One(g, d);
    MulAdd(g, 1, 1, d);
    MulAdd(g, 2, 2, d);
    MulAdd(g, 4, 4, d);
    sum := g.add(sum, sum);
    sum := g.add(sum, sum);
    sum := g.add(sum, sum);
    accepted := sum == g.zero;
  }
}
