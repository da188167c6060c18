// Machine words as bounded integers, and the little-endian number a sequence of words or bytes spells.
// The source's unsigned arithmetic wraps silently; here every u64 variable carries its bound, so each
// assignment to one is a proof that the source's sum did not wrap.
module Words {

  const B32 := 0x1_0000_0000

  type u8 = x: int | 0 <= x < 0x100
  type u32 = x: int | 0 <= x < 0x1_0000_0000
  type u64 = x: int | 0 <= x < 0x1_0000_0000_0000_0000
  type i32 = x: int | -0x8000_0000 <= x < 0x8000_0000
  type i64 = x: int | -0x8000_0000_0000_0000 <= x < 0x8000_0000_0000_0000

  lemma MulNonNegative(a: int, b: int)
    requires a >= 0 && b >= 0
    ensures a * b >= 0
  {
  }

  lemma ModUnique(x: int, q: int, r: int, m: int)
    requires m > 0 && 0 <= r < m && x == q * m + r
    ensures x % m == r
  {
    var q' := x / m;
    assert (q - q') * m == x % m - r;
    if q > q' {
      MulNonNegative(q - q' - 1, m);
    } else if q < q' {
      MulNonNegative(q' - q - 1, m);
    }
  }

  // 2^(32 k)
  function PowB(k: nat): (r: nat)
    ensures r > 0
  {
    if k == 0 then 1 else B32 * PowB(k - 1)
  }

  lemma {:induction false} PowBAdd(a: nat, b: nat)
    ensures PowB(a + b) == PowB(a) * PowB(b)
  {
    if a == 0 {
    } else {
      PowBAdd(a - 1, b);
      calc {
        PowB(a + b);
        B32 * PowB(a - 1 + b);
        B32 * (PowB(a - 1) * PowB(b));
        (B32 * PowB(a - 1)) * PowB(b);
      }
    }
  }

  lemma PowB8()
    ensures PowB(8) == 0x1_0000_0000_0000_0000_0000_0000_0000_0000_0000_0000_0000_0000_0000_0000_0000_0000
    ensures PowB(16) == PowB(8) * PowB(8)
  {
    assert PowB(1) == B32;
    assert PowB(2) == 0x1_0000_0000_0000_0000;
    assert PowB(4) == 0x1_0000_0000_0000_0000_0000_0000_0000_0000;
    assert PowB(6) == 0x1_0000_0000_0000_0000_0000_0000_0000_0000_0000_0000_0000_0000;
    PowBAdd(8, 8);
  }

  // Little-endian value of a sequence of 32-bit words.
  function Val(s: seq<u32>): nat
  {
    if s == [] then 0 else s[0] + B32 * Val(s[1..])
  }

  lemma ValEmpty()
    ensures Val([]) == 0 && PowB(0) == 1
  {
  }

  lemma ValOne(w: u32)
    ensures Val([w]) == w
  {
  }

  lemma {:induction false} ValAppend(s: seq<u32>, t: seq<u32>)
    ensures Val(s + t) == Val(s) + PowB(|s|) * Val(t)
  {
    if s == [] {
      assert s + t == t;
    } else {
      assert (s + t)[1..] == s[1..] + t;
      ValAppend(s[1..], t);
      var P := PowB(|s| - 1);
      calc {
        Val(s + t);
        s[0] + B32 * (Val(s[1..]) + P * Val(t));
        s[0] + B32 * Val(s[1..]) + B32 * (P * Val(t));
        { assert B32 * (P * Val(t)) == (B32 * P) * Val(t); }
        Val(s) + PowB(|s|) * Val(t);
      }
    }
  }

  lemma ValSplit(s: seq<u32>, k: nat)
    requires k <= |s|
    ensures Val(s) == Val(s[..k]) + PowB(k) * Val(s[k..])
  {
    assert s == s[..k] + s[k..];
    ValAppend(s[..k], s[k..]);
  }

  lemma ValSnoc(s: seq<u32>, k: nat)
    requires k < |s|
    ensures Val(s[..k + 1]) == Val(s[..k]) + PowB(k) * s[k]
  {
    assert s[..k + 1] == s[..k] + [s[k]];
    ValAppend(s[..k], [s[k]]);
    assert Val([s[k]]) == s[k];
  }

  lemma {:induction false} ValBound(s: seq<u32>)
    ensures Val(s) < PowB(|s|)
  {
    if s == [] {
    } else {
      ValBound(s[1..]);
    }
  }

  lemma Val4(s: seq<u32>)
    requires |s| >= 4
    ensures Val(s) == s[0] as int + s[1] as int * B32 + s[2] as int * 0x1_0000_0000_0000_0000
                      + s[3] as int * 0x1_0000_0000_0000_0000_0000_0000
                      + Val(s[4..]) * 0x1_0000_0000_0000_0000_0000_0000_0000_0000
  {
    assert s[1..][1..] == s[2..];
    assert s[2..][1..] == s[3..];
    assert s[3..][1..] == s[4..];
    assert Val(s[2..]) == s[2] as int + B32 * Val(s[3..]);
    assert Val(s[3..]) == s[3] as int + B32 * Val(s[4..]);
  }

  lemma Val8(w: seq<u32>)
    requires |w| == 8
    ensures Val(w) == w[0] as int + w[1] as int * B32 + w[2] as int * 0x1_0000_0000_0000_0000
                      + w[3] as int * 0x1_0000_0000_0000_0000_0000_0000
                      + w[4] as int * 0x1_0000_0000_0000_0000_0000_0000_0000_0000
                      + w[5] as int * 0x1_0000_0000_0000_0000_0000_0000_0000_0000_0000_0000
                      + w[6] as int * 0x1_0000_0000_0000_0000_0000_0000_0000_0000_0000_0000_0000_0000
                      + w[7] as int * 0x1_0000_0000_0000_0000_0000_0000_0000_0000_0000_0000_0000_0000_0000_0000
  {
    ValAppend(w[..4], w[4..]);
    assert w == w[..4] + w[4..];
    Val4(w);
    Val4(w[4..]);
    assert w[4..][4..] == [];
  }

  // Little-endian value of a sequence of bytes.
  function ByteVal(s: seq<u8>): nat
  {
    if s == [] then 0 else s[0] + 0x100 * ByteVal(s[1..])
  }

  function Load32(s: seq<u8>): (w: u32)
    requires |s| == 4
  {
    s[0] as int + s[1] as int * 0x100 + s[2] as int * 0x1_0000 + s[3] as int * 0x100_0000
  }

  function Store32(w: u32): (s: seq<u8>)
    ensures |s| == 4 && Load32(s) == w
  {
    var w1 := w / 0x100;
    var w2 := w1 / 0x100;
    [w % 0x100, w1 % 0x100, w2 % 0x100, w2 / 0x100]
  }

  lemma ByteVal4(s: seq<u8>)
    requires |s| >= 4
    ensures ByteVal(s) == Load32(s[..4]) + B32 * ByteVal(s[4..])
  {
    assert s[1..][1..] == s[2..];
    assert s[2..][1..] == s[3..];
    assert s[3..][1..] == s[4..];
    assert ByteVal(s[2..]) == s[2] as int + 0x100 * ByteVal(s[3..]);
    assert ByteVal(s[3..]) == s[3] as int + 0x100 * ByteVal(s[4..]);
  }

  lemma Load32Step(pre: int, i: nat, w: int, rest: int, bytes: int)
    requires bytes == w + B32 * rest
    ensures pre + PowB(i) * bytes == pre + PowB(i) * w + PowB(i + 1) * rest
  {
    var P := PowB(i);
    calc {
      P * bytes;
      P * w + P * (B32 * rest);
      { assert P * (B32 * rest) == (B32 * P) * rest; }
      P * w + PowB(i + 1) * rest;
    }
  }

  // load32_le_buf: dst is filled with the words the bytes of src spell.
  method Load32Buf(dst: array<u32>, src: seq<u8>, size: nat)
    requires size <= dst.Length && |src| == 4 * size
    modifies dst
    ensures Val(dst[..size]) == ByteVal(src)
    ensures dst[size..] == old(dst[size..])
  {
    for i := 0 to size
      invariant ByteVal(src) == Val(dst[..i]) + PowB(i) * ByteVal(src[4 * i..])
      invariant dst[size..] == old(dst[size..])
    {
      ghost var rest, before := src[4 * i..], dst[..i];
      dst[i] := Load32(src[4 * i..4 * i + 4]);
      assert dst[..i + 1] == before + [dst[i]];
      ValAppend(before, [dst[i]]);
      ByteVal4(rest);
      assert rest[..4] == src[4 * i..4 * i + 4] && rest[4..] == src[4 * (i + 1)..];
      Load32Step(Val(before), i, dst[i], ByteVal(src[4 * (i + 1)..]), ByteVal(rest));
    }
    assert src[4 * size..] == [];
  }

  // store32_le_buf
  method Store32Buf(dst: array<u8>, src: seq<u32>)
    requires dst.Length == 4 * |src|
    modifies dst
    ensures ByteVal(dst[..]) == Val(src)
  {
    for i := 0 to |src|
      invariant forall j :: 0 <= j < i ==> dst[4 * j..4 * j + 4] == Store32(src[j])
    {
      var b := Store32(src[i]);
      dst[4 * i], dst[4 * i + 1], dst[4 * i + 2], dst[4 * i + 3] := b[0], b[1], b[2], b[3];
    }
    LoadedWords(dst[..], src);
  }

  lemma {:induction false} LoadedWords(bytes: seq<u8>, words: seq<u32>)
    requires |bytes| == 4 * |words|
    requires forall j :: 0 <= j < |words| ==> Load32(bytes[4 * j..4 * j + 4]) == words[j]
    ensures ByteVal(bytes) == Val(words)
  {
    if words == [] {
    } else {
      ByteVal4(bytes);
      assert bytes[..4] == bytes[4 * 0..4 * 0 + 4];
      forall j | 0 <= j < |words| - 1
        ensures Load32(bytes[4..][4 * j..4 * j + 4]) == words[1..][j]
      {
        assert bytes[4..][4 * j..4 * j + 4] == bytes[4 * (j + 1)..4 * (j + 1) + 4];
      }
      LoadedWords(bytes[4..], words[1..]);
    }
  }

  function Zeros(n: nat): seq<u8> {
    seq(n, _ => 0)
  }

  lemma ZerosAdd(a: nat, b: nat)
    ensures Zeros(a + b) == Zeros(a) + Zeros(b)
  {
  }

  lemma App(a: seq<u8>, b: seq<u8>, c: seq<u8>)
    ensures (a + b) + c == a + (b + c)
  {
  }

  lemma Regroup(a: seq<u8>, m: seq<u8>, k: nat)
    requires k <= |m|
    ensures (a + m[..k]) + m[k..] == a + m
  {
  }
}
