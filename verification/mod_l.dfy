// Arithmetic modulo L, the order of the Ed25519 base point: schoolbook multiplication, the two's-complement
// comparison with L, and Barrett reduction of a 512-bit number, all over little-endian 32-bit words in place.
module ModL {
  import opened Words

  const ORDER: nat := 0x1000000000000000000000000000000014def9dea2f79cd65812631a5cf5d3ed

  const L: seq<u32> := [
    0x5cf5d3ed, 0x5812631a, 0xa2f79cd6, 0x14def9de,
    0x00000000, 0x00000000, 0x00000000, 0x10000000]

  // floor(2^512 / L)
  const R: seq<u32> := [
    0x0a2c131b, 0xed9ce5a3, 0x086329a7, 0x2106215d,
    0xffffffeb, 0xffffffff, 0xffffffff, 0xffffffff, 0xf]

  const RECIPROCAL: nat := 0xfffffffffffffffffffffffffffffffeb2106215d086329a7ed9ce5a30a2c131b

  lemma LValue()
    ensures |L| == 8 && Val(L) == ORDER
  {
    Val4(L[4..]);
    Val4(L);
    assert L[4..][4..] == [];
  }

  lemma RValue()
    ensures |R| == 9 && Val(R) == RECIPROCAL
  {
    assert R[8..][1..] == [];
    assert Val(R[8..]) == 0xf;
    Val4(R[4..]);
    Val4(R);
    assert R[4..][4..] == R[8..];
  }

  // One limb of a row: carry += p + x*y; p = (u32)carry; carry >>= 32, seen at weight P.
  lemma RowStep(S: int, carry: int, p: int, x: int, y: int, lo: int, hi: int, P: int, O: int, V: int)
    requires S + carry * P == O + x * V
    requires carry + p + x * y == lo + B32 * hi
    ensures S + P * lo + hi * (B32 * P) == O + P * p + x * (V + P * y)
  {
    assert (carry + p + x * y) * P == (lo + B32 * hi) * P;
    assert (carry + p + x * y) * P == carry * P + P * p + (x * y) * P;
    assert (lo + B32 * hi) * P == P * lo + hi * (B32 * P) by {
      assert (B32 * hi) * P == hi * (B32 * P);
    }
    assert x * (V + P * y) == x * V + (x * y) * P by {
      assert x * (P * y) == (x * y) * P;
    }
  }

  lemma MulMono(x: int, y: int, m: int)
    requires 0 <= x <= m && 0 <= y
    ensures 0 <= x * y <= m * y
  {
  }

  // carry + p + x*y of three words below 2^32 fits a u64.
  lemma NoWrap(carry: u32, p: u32, x: u32, y: u32)
    ensures 0 <= x * y
    ensures carry as int + p as int + x * y < 0x1_0000_0000_0000_0000
  {
    MulMono(x, y, 0xffff_ffff);
  }

  // One limb of a row, with the words already written in `done`.
  lemma RowLimb(done: seq<u32>, was: seq<u32>, b: seq<u32>, j: nat, x: u32, carryIn: u32, lo: u32, hi: u32)
    requires j == |done| && j < |was| && j < |b|
    requires Val(done) + carryIn * PowB(j) == Val(was[..j]) + x * Val(b[..j])
    requires carryIn as int + was[j] as int + x * b[j] == lo as int + B32 * hi
    ensures Val(done + [lo]) + hi * PowB(j + 1) == Val(was[..j + 1]) + x * Val(b[..j + 1])
  {
    ValAppend(done, [lo]);
    assert Val([lo]) == lo;
    ValSnoc(was, j);
    ValSnoc(b, j);
    RowStep(Val(done), carryIn, was[j], x, b[j], lo, hi, PowB(j), Val(was[..j]), Val(b[..j]));
  }

  // The inner loop shared by multiply and mod_l: p[off..off+n] += x * b[..n], with the carry out returned.
  method MulAddRow(p: array<u32>, off: nat, x: u32, b: seq<u32>, n: nat) returns (carry: u32)
    requires off + n <= p.Length && n <= |b|
    modifies p
    ensures p[..off] == old(p[..off]) && p[off + n..] == old(p[off + n..])
    ensures Val(p[off..off + n]) + carry * PowB(n) == old(Val(p[off..off + n])) + x * Val(b[..n])
  {
    hide Val, PowB;
    ValEmpty();
    carry := 0;
    ghost var was := p[off..off + n];
    ghost var done: seq<u32> := [];
    for j := 0 to n
      invariant done == p[off..off + j]
      invariant p[..off] == old(p[..off]) && p[off + j..] == old(p[off + j..])
      invariant Val(done) + carry * PowB(j) == Val(was[..j]) + x * Val(b[..j])
    {
      ghost var carryIn := carry;
      assert p[off + j] == was[j];
      NoWrap(carry, p[off + j], x, b[j]);
      var sum: u64 := carry as int + p[off + j] as int + x * b[j];
      p[off + j] := sum % B32;
      carry := sum / B32;
      RowLimb(done, was, b, j, x, carryIn, sum % B32, carry);
      done := done + [sum % B32];
    }
    assert was[..n] == was;
    assert p[off..off + n] == done;
  }

  lemma RowIntoStep(low: int, was: int, now: int, P: int, ai: int, b: int, a: int, c: int)
    requires low + P * was == a * b + c
    requires now == was + ai * b
    ensures low + P * now == (a + P * ai) * b + c
  {
    assert P * now == P * was + P * (ai * b);
    assert P * (ai * b) == (P * ai) * b;
    assert (a + P * ai) * b == a * b + (P * ai) * b;
  }

  lemma RowInto(i: nat, low: seq<u32>, was: seq<u32>, now: seq<u32>, carry: u32, ai: u32, b: int, a: int, c: int)
    requires i == |low| && |was| == |now|
    requires Val(low + was) == a * b + c
    requires Val(now) + carry * PowB(|now|) == Val(was) + ai * b
    ensures Val(low + (now + [carry])) == (a + PowB(i) * ai) * b + c
  {
    hide Val, PowB;
    ValAppend(low, was);
    ValAppend(now, [carry]);
    ValOne(carry);
    ValAppend(low, now + [carry]);
    RowIntoStep(Val(low), Val(was), Val(now + [carry]), PowB(i), ai, b, a, c);
  }

  // multiply, and the first loop of mod_l: p = a*b + p, where the words of p past |b| are overwritten unread.
  method Multiply(p: array<u32>, a: seq<u32>, b: seq<u32>)
    requires p.Length >= |a| + |b|
    modifies p
    ensures Val(p[..|a| + |b|]) == Val(a) * Val(b) + old(Val(p[..|b|]))
  {
    hide Val, PowB;
    ValEmpty();
    ghost var c := Val(p[..|b|]);
    var n := |b|;
    for i := 0 to |a|
      invariant Val(p[..i + n]) == Val(a[..i]) * Val(b) + c
    {
      ghost var low, was := p[..i], p[i..i + n];
      assert p[..i + n] == low + was;
      var carry := MulAddRow(p, i, a[i], b, n);
      assert b[..n] == b;
      ghost var now := p[i..i + n];
      p[i + n] := carry;
      assert p[..i + 1 + n] == low + (now + [carry]);
      RowInto(i, low, was, now, carry, a[i], Val(b), Val(a[..i]), c);
      ValSnoc(a, i);
    }
    assert a[..|a|] == a;
  }

  // ~w & 0xffffffff
  function Not(w: u32): u32 {
    0xffff_ffff - w
  }

  ghost function Complement(s: seq<u32>): seq<u32> {
    seq(|s|, i requires 0 <= i < |s| => Not(s[i]))
  }

  lemma {:induction false} ComplementVal(s: seq<u32>)
    ensures Val(Complement(s)) == PowB(|s|) - 1 - Val(s)
  {
    if s == [] {
    } else {
      assert Complement(s)[1..] == Complement(s[1..]);
      ComplementVal(s[1..]);
    }
  }

  lemma AddStep(S: int, carry: int, x: int, y: int, lo: int, hi: int, P: int, O: int)
    requires S + carry * P == O
    requires carry + x + y == lo + B32 * hi
    ensures S + P * lo + hi * (B32 * P) == O + P * x + P * y
  {
    assert (carry + x + y) * P == (lo + B32 * hi) * P;
    assert (carry + x + y) * P == carry * P + P * x + P * y;
    assert (B32 * hi) * P == hi * (B32 * P);
  }

  // One limb of an addition with carry, with the words already produced in `done`.
  lemma AddLimb(done: seq<u32>, x: seq<u32>, y: seq<u32>, j: nat, c0: int, carryIn: u32, lo: u32, hi: u32)
    requires j == |done| && j < |x| && j < |y|
    requires Val(done) + carryIn * PowB(j) == c0 + Val(x[..j]) + Val(y[..j])
    requires carryIn as int + x[j] as int + y[j] as int == lo as int + B32 * hi
    ensures Val(done + [lo]) + hi * PowB(j + 1) == c0 + Val(x[..j + 1]) + Val(y[..j + 1])
  {
    ValAppend(done, [lo]);
    assert Val([lo]) == lo;
    ValSnoc(x, j);
    ValSnoc(y, j);
    AddStep(Val(done), carryIn, x[j], y[j], lo, hi, PowB(j), c0 + Val(x[..j]) + Val(y[..j]));
  }

  // Compares with L by adding its two's complement and keeping only the carry out.
  method IsAboveL(x: seq<u32>) returns (above: u32)
    requires |x| == 8
    ensures above == if Val(x) >= ORDER then 1 else 0
  {
    hide Val, PowB;
    LValue();
    ValEmpty();
    var carry: u64 := 1;
    ghost var done: seq<u32> := [];
    ghost var y := Complement(L);
    for i := 0 to 8
      invariant |done| == i && carry <= 1
      invariant Val(done) + carry * PowB(i) == 1 + Val(x[..i]) + Val(y[..i])
    {
      ghost var carryIn := carry;
      carry := carry + (x[i] as int + Not(L[i]) as int);
      AddLimb(done, x, y, i, 1, carryIn, carry % B32, carry / B32);
      done := done + [carry % B32];
      carry := carry / B32;
    }
    assert x[..8] == x && y[..8] == y;
    ComplementVal(L);
    ValBound(done);
    ValBound(x);
    PowB8();
    above := carry;
  }

  // w & mask, for the two masks the source builds
  function And(w: u32, mask: u32): u32
    requires mask == 0 || mask == 0xffff_ffff
  {
    if mask == 0 then 0 else w
  }

  // The words added by remove_l: nothing, or the two's complement of L less the carry in.
  ghost function Masked(above: bool): seq<u32> {
    if above then Complement(L) else [0, 0, 0, 0, 0, 0, 0, 0]
  }

  lemma MaskedVal(above: bool)
    ensures |Masked(above)| == 8
    ensures (if above then 1 else 0) + Val(Masked(above)) == if above then PowB(8) - ORDER else 0
  {
    LValue();
    ComplementVal(L);
    if !above {
      var z: seq<u32> := [0, 0, 0, 0, 0, 0, 0, 0];
      Val4(z);
      Val4(z[4..]);
      assert z[4..][4..] == [];
    }
  }

  // Conditionally removes L. The source calls it with r and x the same array.
  method RemoveL(r: array<u32>, x: array<u32>)
    requires r.Length >= 8 && x.Length >= 8
    modifies r
    ensures Val(r[..8]) == old(Val(x[..8])) - if old(Val(x[..8])) >= ORDER then ORDER else 0
  {
    hide Val, PowB;
    LValue();
    ValEmpty();
    var above := IsAboveL(x[..8]);
    var carry: u64 := above;
    var mask: u32 := (Not(above) as int + 1) % B32;
    ghost var was, done: seq<u32> := x[..8], [];
    ghost var y := Masked(above == 1);
    for i := 0 to 8
      invariant |done| == i && carry <= 1 && r[..i] == done && |y| == 8
      invariant x[i..8] == was[i..8]
      invariant Val(done) + carry * PowB(i) == above as int + Val(was[..i]) + Val(y[..i])
    {
      ghost var carryIn := carry;
      assert x[i] == x[i..8][0] == was[i];
      carry := carry + (x[i] as int + And(Not(L[i]), mask) as int);
      ghost var before := x[..];
      r[i] := carry % B32;
      assert x[i + 1..8] == before[i + 1..8];
      AddLimb(done, was, y, i, above, carryIn, carry % B32, carry / B32);
      done := done + [carry % B32];
      carry := carry / B32;
    }
    assert was[..8] == was && y[..8] == y;
    MaskedVal(above == 1);
    ValBound(done);
    ValBound(was);
    PowB8();
  }

  lemma CancelLess(a: int, b: int, T: int)
    requires T > 0 && a * T < b * T
    ensures a < b
  {
    assert a * T - b * T == (a - b) * T;
  }

  lemma Swap(a: int, b: int, c: int)
    ensures (a * b) * c == (a * c) * b
  {
  }

  // The Barrett quotient is floor(x / l) or one less: r and T stand for floor(T / l) and 2^512.
  lemma BarrettQuotient(x: nat, q: nat, T: nat, r: nat, l: nat)
    requires r * l <= T < r * l + l
    requires x < T
    requires q * T <= x * r < (q + 1) * T
    ensures 0 <= x - q * l < 2 * l
  {
    assert q * l < x + 1 by {
      Swap(q, l, T);
      MulMono(q * T, l, x * r);
      Swap(x, r, l);
      Swap(x, l, r);
      MulMono(r * l, x, T);
      assert (x * r) * l == (r * l) * x;
      assert (x + 1) * T == T * x + T;
      CancelLess(q * l, x + 1, T);
    }
    BarrettUpper(x, q, T, r, l);
  }

  lemma ScaleReciprocal(x: nat, T: nat, r: nat, l: nat)
    requires T <= r * l + l
    ensures T * x <= x * r * l + x * l
  {
    MulMono(T, x, r * l + l);
    assert (r * l + l) * x == x * r * l + x * l;
  }

  lemma ScaleFloor(y: nat, q: nat, T: nat, l: nat)
    requires y < (q + 1) * T
    ensures y * l <= (q * l + l) * T - l
  {
    MulMono(y, l, (q + 1) * T - 1);
    assert ((q + 1) * T - 1) * l == (q * l + l) * T - l;
  }

  lemma BarrettUpper(x: nat, q: nat, T: nat, r: nat, l: nat)
    requires T < r * l + l
    requires x < T
    requires x * r < (q + 1) * T
    ensures x < q * l + 2 * l
  {
    ScaleReciprocal(x, T, r, l);
    ScaleFloor(x * r, q, T, l);
    MulMono(x, l, T);
    Distribute(q * l + l, l, T);
    CancelLess(x, q * l + l + l, T);
  }

  lemma Distribute(a: int, b: int, c: int)
    ensures (a + b) * c == a * c + b * c
  {
  }

  lemma LowRowStep(low: int, mid: int, now: int, P: int, Q: int, T: int, q: int, qi: int, k: int, carry: int,
                   lj: int, lh: int, l: int)
    requires T == P * Q && l == lj + Q * lh
    requires low + P * mid == q * l - k * T
    requires now + carry * Q == mid + qi * lj
    ensures low + P * now == (q + P * qi) * l - (k + carry + qi * lh) * T
  {
    var m := P * qi;
    assert P * (now + carry * Q) == P * now + carry * T by {
      assert P * (carry * Q) == carry * (P * Q);
    }
    assert P * (mid + qi * lj) == P * mid + m * lj;
    assert m * l == m * lj + m * (Q * lh);
    assert m * (Q * lh) == (qi * lh) * (P * Q) by {
      assert (P * qi) * (Q * lh) == (qi * lh) * (P * Q);
    }
    assert (q + m) * l == q * l + m * l;
    assert (k + carry + qi * lh) * T == k * T + carry * T + (qi * lh) * T;
  }

  lemma LowRow(i: nat, low: seq<u32>, mid: seq<u32>, now: seq<u32>, q: seq<u32>, k: int, carry: u32)
    requires i == |low| && i < 8 && |mid| == |now| == 8 - i && |q| == 8 && |L| == 8
    requires Val(low + mid) == Val(q[..i]) * ORDER - k * PowB(8)
    requires Val(now) + carry * PowB(8 - i) == Val(mid) + q[i] * Val(L[..8 - i])
    ensures Val(low + now) == Val(q[..i + 1]) * ORDER - (k + carry + q[i] * Val(L[8 - i..])) * PowB(8)
  {
    hide Val, PowB;
    LValue();
    ValAppend(low, mid);
    ValAppend(low, now);
    ValSplit(L, 8 - i);
    PowBAdd(i, 8 - i);
    ValSnoc(q, i);
    LowRowStep(Val(low), Val(mid), Val(now), PowB(i), PowB(8 - i), PowB(8), Val(q[..i]), q[i], k, carry,
               Val(L[..8 - i]), Val(L[8 - i..]), ORDER);
  }

  // ZERO(p, n)
  method Zero(p: array<u32>, n: nat)
    requires n <= p.Length
    modifies p
    ensures Val(p[..n]) == 0
    ensures p[n..] == old(p[n..])
  {
    ValEmpty();
    for i := 0 to n
      invariant Val(p[..i]) == 0
      invariant p[n..] == old(p[n..])
    {
      ghost var done: seq<u32> := p[..i];
      p[i] := 0;
      assert p[..i + 1] == done + [0];
      ValAppend(done, [0]);
      ValOne(0);
    }
  }

  // The low 256 bits of xr[16..24] * L replace xr[..8]; the carries out of each row are dropped.
  method LowProduct(xr: array<u32>) returns (ghost k: int)
    requires xr.Length == 25
    modifies xr
    ensures xr[8..] == old(xr[8..])
    ensures Val(xr[..8]) == Val(xr[16..24]) * ORDER - k * PowB(8)
  {
    hide Val, PowB;
    LValue();
    ValEmpty();
    Zero(xr, 8);
    ghost var q: seq<u32> := xr[16..24];
    k := 0;
    for i := 0 to 8
      invariant xr[8..] == old(xr[8..])
      invariant Val(xr[..8]) == Val(q[..i]) * ORDER - k * PowB(8)
    {
      ghost var low: seq<u32>, mid: seq<u32> := xr[..i], xr[i..8];
      assert xr[..8] == low + mid;
      assert xr[i + 16] == xr[8..][i + 8] == q[i];
      var carry := MulAddRow(xr, i, xr[i + 16], L, 8 - i);
      ghost var now: seq<u32> := xr[i..8];
      assert xr[..8] == low + now;
      LowRow(i, low, mid, now, q, k, carry);
      k := k + carry + q[i] * Val(L[8 - i..]);
    }
    assert q[..8] == q;
    assert xr[16..24] == xr[8..][8..16] == q;
  }

  // x - y modulo 2^256, by adding the complement of y in place of y.
  method SubtractLow(x: seq<u32>, y: array<u32>) returns (ghost borrow: int)
    requires |x| >= 8 && y.Length >= 8
    modifies y
    ensures Val(y[..8]) == Val(x[..8]) - old(Val(y[..8])) + borrow * PowB(8)
  {
    hide Val, PowB;
    ValEmpty();
    var carry: u64 := 1;
    ghost var was: seq<u32>, done: seq<u32> := y[..8], [];
    ghost var c := Complement(was);
    for i := 0 to 8
      invariant |done| == i && carry <= 1 && y[..i] == done
      invariant y[i..8] == was[i..8]
      invariant Val(done) + carry * PowB(i) == 1 + Val(x[..i]) + Val(c[..i])
    {
      ghost var carryIn, before := carry, y[..];
      assert y[i] == y[i..8][0] == was[i];
      carry := carry + (x[i] as int + Not(y[i]) as int);
      y[i] := carry % B32;
      assert y[i + 1..8] == before[i + 1..8];
      AddLimb(done, x, c, i, 1, carryIn, carry % B32, carry / B32);
      done := done + [carry % B32];
      carry := carry / B32;
    }
    assert c[..8] == c && y[..8] == done;
    ComplementVal(was);
    borrow := 1 - carry;
    assert (1 - carry) * PowB(8) == PowB(8) - carry * PowB(8);
  }

  lemma SameResidue(d: int, e: int, k: int, T: int)
    requires 0 <= d < T && 0 <= e < T && d == e + k * T
    ensures d == e
  {
    if k >= 1 {
      MulMono(1, T, k);
    } else if k <= -1 {
      MulMono(1, T, -k);
    }
  }

  // The quotient the 25-word product holds above bit 512, and what is left of x after taking it off.
  lemma Quotient(x: nat, xr: seq<u32>)
    requires |xr| == 25 && x < PowB(16) && Val(xr) == RECIPROCAL * x
    ensures 0 <= x - Val(xr[16..]) * ORDER < 2 * ORDER
  {
    hide Val, PowB;
    PowB8();
    ValSplit(xr, 16);
    ValBound(xr[..16]);
    BarrettQuotient(x, Val(xr[16..]), PowB(16), RECIPROCAL, ORDER);
  }

  lemma LowDifference(x: int, xl: int, xh: int, q: int, ql: int, qh: int, y: int, z: int, k: int, borrow: int, T: int)
    requires x == xl + T * xh && q == ql + T * qh
    requires y == ql * ORDER - k * T
    requires z == xl - y + borrow * T
    ensures x - q * ORDER == z + (xh - qh * ORDER - k - borrow) * T
  {
    assert q * ORDER == ql * ORDER + (qh * ORDER) * T;
    assert (xh - qh * ORDER - k - borrow) * T == T * xh - (qh * ORDER) * T - k * T - borrow * T;
  }

  lemma Remainder(x: nat, q: nat, r: nat)
    requires x == q * ORDER + r && r < ORDER
    ensures x % ORDER == r
  {
  }

  // Full reduction modulo L.
  method Reduce(reduced: array<u8>, x: array<u32>)
    requires reduced.Length == 32 && x.Length == 16
    modifies reduced
    ensures ByteVal(reduced[..]) == Val(x[..]) % ORDER
  {
    hide Val, PowB;
    LValue();
    RValue();
    PowB8();
    var xr := new u32[25];
    Zero(xr, 16);  // the source zeroes all 25 words, but writes those from 16 on before it reads them
    Multiply(xr, R, x[..]);
    ghost var X, product: seq<u32> := Val(x[..]), xr[..25];
    ValBound(x[..]);
    Quotient(X, product);
    ghost var q: seq<u32> := xr[16..];
    assert product[16..] == q;
    ghost var k := LowProduct(xr);
    assert xr[16..24] == q[..8];
    ghost var y := Val(xr[..8]);
    ghost var borrow := SubtractLow(x[..], xr);
    ghost var z, d := Val(xr[..8]), X - Val(q) * ORDER;
    ValSplit(x[..], 8);
    ValSplit(q, 8);
    LowDifference(X, Val(x[..][..8]), Val(x[..][8..]), Val(q), Val(q[..8]), Val(q[8..]), y, z, k, borrow, PowB(8));
    ValBound(xr[..8]);
    SameResidue(d, z, Val(x[..][8..]) - Val(q[8..]) * ORDER - k - borrow, PowB(8));
    RemoveL(xr, xr);
    ghost var r := Val(xr[..8]);
    if d < ORDER {
      Remainder(X, Val(q), r);
    } else {
      assert (Val(q) + 1) * ORDER == Val(q) * ORDER + ORDER;
      Remainder(X, Val(q) + 1, r);
    }
    Store32Buf(reduced, xr[..8]);
  }

  // crypto_eddsa_reduce
  method EddsaReduce(reduced: array<u8>, expanded: array<u8>)
    requires reduced.Length == 32 && expanded.Length == 64
    modifies reduced
    ensures ByteVal(reduced[..]) == old(ByteVal(expanded[..])) % ORDER
  {
    var x := new u32[16];
    Load32Buf(x, expanded[..], 16);
    assert x[..16] == x[..];
    Reduce(reduced, x);
  }

  // crypto_eddsa_mul_add: r may be any of the buffers a, b and c.
  method EddsaMulAdd(r: array<u8>, a: array<u8>, b: array<u8>, c: array<u8>)
    requires r.Length == 32 && a.Length == 32 && b.Length == 32 && c.Length == 32
    modifies r
    ensures ByteVal(r[..]) == old(ByteVal(a[..]) * ByteVal(b[..]) + ByteVal(c[..])) % ORDER
  {
    hide Val, PowB, ByteVal;
    var A, B, p := new u32[8], new u32[8], new u32[16];
    Load32Buf(A, a[..], 8);
    Load32Buf(B, b[..], 8);
    Load32Buf(p, c[..], 8);
    assert A[..8] == A[..] && B[..8] == B[..];
    Multiply(p, A[..], B[..]);
    assert p[..16] == p[..];
    Reduce(r, p);
  }
}
