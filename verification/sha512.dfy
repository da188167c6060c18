// SHA-512 (FIPS 180-4) as a streaming context: bytes are OR-ed into a zeroed block, whole words and whole blocks
// are loaded directly, and the message schedule is rolled in place over the sixteen input words.
module Sha512 {
  import opened Words

  type word = u64

  // Addition modulo 2^64
  function Add(x: word, y: word): word {
    (x + y) % 0x1_0000_0000_0000_0000
  }

  const K: seq<word> :=
      [0x428a2f98d728ae22, 0x7137449123ef65cd, 0xb5c0fbcfec4d3b2f, 0xe9b5dba58189dbbc,
       0x3956c25bf348b538, 0x59f111f1b605d019, 0x923f82a4af194f9b, 0xab1c5ed5da6d8118]
    + [0xd807aa98a3030242, 0x12835b0145706fbe, 0x243185be4ee4b28c, 0x550c7dc3d5ffb4e2,
       0x72be5d74f27b896f, 0x80deb1fe3b1696b1, 0x9bdc06a725c71235, 0xc19bf174cf692694]
    + [0xe49b69c19ef14ad2, 0xefbe4786384f25e3, 0x0fc19dc68b8cd5b5, 0x240ca1cc77ac9c65,
       0x2de92c6f592b0275, 0x4a7484aa6ea6e483, 0x5cb0a9dcbd41fbd4, 0x76f988da831153b5]
    + [0x983e5152ee66dfab, 0xa831c66d2db43210, 0xb00327c898fb213f, 0xbf597fc7beef0ee4,
       0xc6e00bf33da88fc2, 0xd5a79147930aa725, 0x06ca6351e003826f, 0x142929670a0e6e70]
    + [0x27b70a8546d22ffc, 0x2e1b21385c26c926, 0x4d2c6dfc5ac42aed, 0x53380d139d95b3df,
       0x650a73548baf63de, 0x766a0abb3c77b2a8, 0x81c2c92e47edaee6, 0x92722c851482353b]
    + [0xa2bfe8a14cf10364, 0xa81a664bbc423001, 0xc24b8b70d0f89791, 0xc76c51a30654be30,
       0xd192e819d6ef5218, 0xd69906245565a910, 0xf40e35855771202a, 0x106aa07032bbd1b8]
    + [0x19a4c116b8d2d0c8, 0x1e376c085141ab53, 0x2748774cdf8eeb99, 0x34b0bcb5e19b48a8,
       0x391c0cb3c5c95a63, 0x4ed8aa4ae3418acb, 0x5b9cca4f7763e373, 0x682e6ff3d6b2b8a3]
    + [0x748f82ee5defb2fc, 0x78a5636f43172f60, 0x84c87814a1f0ab72, 0x8cc702081a6439ec,
       0x90befffa23631e28, 0xa4506cebde82bde9, 0xbef9a3f7b2c67915, 0xc67178f2e372532b]
    + [0xca273eceea26619c, 0xd186b8c721c0c207, 0xeada7dd6cde0eb1e, 0xf57d4f7fee6ed178,
       0x06f067aa72176fba, 0x0a637dc5a2c898a6, 0x113f9804bef90dae, 0x1b710b35131c471b]
    + [0x28db77f523047d84, 0x32caab7b40c72493, 0x3c9ebe0a15c9bebc, 0x431d67c49c100d4c,
       0x4cc5d4becb3e42b6, 0x597f299cfc657e2a, 0x5fcb6fab3ad6faec, 0x6c44198c4a475817]

  // Section 5.3.5
  const IV: seq<word> := [
    0x6a09e667f3bcc908, 0xbb67ae8584caa73b, 0x3c6ef372fe94f82b, 0xa54ff53a5f1d36f1,
    0x510e527fade682d1, 0x9b05688c2b3e6c1f, 0x1f83d9abfb41bd6b, 0x5be0cd19137e2179]

  // Section 4.1.3
  function Rot(x: bv64, c: nat): bv64
    requires 0 < c < 64
  {
    (x >> c) | (x << (64 - c))
  }

  function Ch(x: word, y: word, z: word): word {
    (((x as bv64) & (y as bv64)) ^ (!(x as bv64) & (z as bv64))) as word
  }

  function Maj(x: word, y: word, z: word): word {
    (((x as bv64) & (y as bv64)) ^ ((x as bv64) & (z as bv64)) ^ ((y as bv64) & (z as bv64))) as word
  }

  function BigSigma0(x: word): word {
    (Rot(x as bv64, 28) ^ Rot(x as bv64, 34) ^ Rot(x as bv64, 39)) as word
  }

  function BigSigma1(x: word): word {
    (Rot(x as bv64, 14) ^ Rot(x as bv64, 18) ^ Rot(x as bv64, 41)) as word
  }

  function LitSigma0(x: word): word {
    (Rot(x as bv64, 1) ^ Rot(x as bv64, 8) ^ ((x as bv64) >> 7)) as word
  }

  function LitSigma1(x: word): word {
    (Rot(x as bv64, 19) ^ Rot(x as bv64, 61) ^ ((x as bv64) >> 6)) as word
  }

  // The message schedule of section 6.4.2, all eighty words of it.
  function W(block: seq<word>, t: nat): word
    requires |block| == 16
  {
    if t < 16 then block[t]
    else Add(Add(Add(LitSigma1(W(block, t - 2)), W(block, t - 7)), LitSigma0(W(block, t - 15))), W(block, t - 16))
  }

  datatype Vars = Vars(a: word, b: word, c: word, d: word, e: word, f: word, g: word, h: word)

  function Round(v: Vars, k: word, w: word): Vars {
    var t1 := Add(Add(Add(Add(v.h, BigSigma1(v.e)), Ch(v.e, v.f, v.g)), k), w);
    var t2 := Add(BigSigma0(v.a), Maj(v.a, v.b, v.c));
    Vars(Add(t1, t2), v.a, v.b, v.c, Add(v.d, t1), v.e, v.f, v.g)
  }

  function Rounds(v: Vars, block: seq<word>, t: nat): Vars
    requires |block| == 16 && t <= 80
  {
    if t == 0 then v else Round(Rounds(v, block, t - 1), K[t - 1], W(block, t - 1))
  }

  function Start(hash: seq<word>): Vars
    requires |hash| == 8
  {
    Vars(hash[0], hash[1], hash[2], hash[3], hash[4], hash[5], hash[6], hash[7])
  }

  function Compress(hash: seq<word>, block: seq<word>): (r: seq<word>)
    requires |hash| == 8 && |block| == 16
    ensures |r| == 8
  {
    FeedForward(hash, Rounds(Start(hash), block, 80))
  }

  function FeedForward(hash: seq<word>, v: Vars): (r: seq<word>)
    requires |hash| == 8
    ensures |r| == 8
  {
    [Add(hash[0], v.a), Add(hash[1], v.b), Add(hash[2], v.c), Add(hash[3], v.d),
     Add(hash[4], v.e), Add(hash[5], v.f), Add(hash[6], v.g), Add(hash[7], v.h)]
  }

  lemma AddAssoc(x: word, y: word, z: word)
    ensures Add(Add(x, y), z) == Add(x, Add(y, z))
  {
    AddThree(x, y, z);
    AddThree(y, z, x);
    assert Add(Add(y, z), x) == Add(x, Add(y, z));
  }

  lemma AddThree(x: word, y: word, z: word)
    ensures Add(Add(x, y), z) == (x + y + z) % 0x1_0000_0000_0000_0000
  {
    var m := 0x1_0000_0000_0000_0000;
    var s := (x + y) % m + z;
    ModUnique(x + y + z, (x + y) / m + s / m, s % m, m);
  }

  lemma AddComm(x: word, y: word)
    ensures Add(x, y) == Add(y, x)
  {
  }

  // The source adds in another order than the standard writes.
  lemma AddOrder(h: word, s: word, c: word, k: word, w: word)
    ensures Add(Add(Add(s, c), h), Add(k, w)) == Add(Add(Add(Add(h, s), c), k), w)
  {
    hide Add;
    AddAssoc(Add(Add(s, c), h), k, w);
    AddComm(Add(s, c), h);
    AddAssoc(h, s, c);
  }

  lemma ScheduleAddOrder(w2: word, w7: word, w15: word, w16: word)
    ensures Add(Add(Add(w16, w2), w15), w7) == Add(Add(Add(w2, w7), w15), w16)
  {
    hide Add;
    calc {
      Add(Add(Add(w16, w2), w15), w7);
      { AddAssoc(w16, w2, w15); AddAssoc(w16, Add(w2, w15), w7); }
      Add(w16, Add(Add(w2, w15), w7));
      { AddAssoc(w2, w15, w7); AddComm(w15, w7); AddAssoc(w2, w7, w15); }
      Add(w16, Add(Add(w2, w7), w15));
      { AddComm(w16, Add(Add(w2, w7), w15)); }
      Add(Add(Add(w2, w7), w15), w16);
    }
  }

  lemma ScheduleOrder(block: seq<word>, t: nat)
    requires |block| == 16 && 16 <= t < 80
    ensures W(block, t)
         == Add(Add(Add(W(block, t - 16), LitSigma1(W(block, t - 2))), LitSigma0(W(block, t - 15))), W(block, t - 7))
  {
    hide Add, LitSigma0, LitSigma1;
    ScheduleAddOrder(LitSigma1(W(block, t - 2)), W(block, t - 7), LitSigma0(W(block, t - 15)), W(block, t - 16));
  }

  // Slot u mod 16 of the rolling window holds word u, for the sixteen words before t.
  ghost predicate Window(input: seq<word>, block: seq<word>, t: nat)
    requires |block| == 16
  {
    |input| == 16 && t >= 16 && forall u :: t - 16 <= u < t ==> input[u % 16] == W(block, u)
  }

  lemma WindowStep(input: seq<word>, block: seq<word>, t: nat, w: word)
    requires |block| == 16 && Window(input, block, t) && w == W(block, t)
    ensures Window(input[t % 16 := w], block, t + 1)
  {
    hide W;
    forall u | t + 1 - 16 <= u < t + 1
      ensures input[t % 16 := w][u % 16] == W(block, u)
    {
      if u < t {
        assert u % 16 != t % 16;
      }
    }
  }

  lemma Slots(j: nat, t: nat)
    requires t >= 16 && j == t % 16
    ensures (j - 2) % 16 == (t - 2) % 16 && (j - 7) % 16 == (t - 7) % 16
    ensures (j - 15) % 16 == (t - 15) % 16 && j == (t - 16) % 16
    ensures (j - 2) % 16 != j && (j - 7) % 16 != j && (j - 15) % 16 != j
  {
    SlotBefore(t / 16, j, 2);
    SlotBefore(t / 16, j, 7);
    SlotBefore(t / 16, j, 15);
    SlotBefore(t / 16, j, 16);
  }

  // The slot d places back, in the window and in the schedule
  lemma SlotBefore(q: nat, j: nat, d: nat)
    requires j < 16 && 0 < d <= 16
    ensures (j - d) % 16 == (16 * q + j - d) % 16 && (d < 16 ==> (j - d) % 16 != j)
  {
    if j >= d {
      ModUnique(16 * q + j - d, q, j - d, 16);
    } else {
      ModUnique(16 * q + j - d, q - 1, 16 + j - d, 16);
    }
  }

  // One word of the schedule, rolled over the one sixteen places before it.
  method ScheduleInPlace(input: array<word>, j: nat, ghost block: seq<word>, ghost t: nat)
    requires input.Length == 16 && |block| == 16
    requires 16 <= t < 80 && j == t % 16 && Window(input[..], block, t)
    modifies input
    ensures Window(input[..], block, t + 1) && input[j] == W(block, t)
  {
    hide W, Add, LitSigma0, LitSigma1, Window;
    ghost var was := input[..];
    WindowReads(was, block, t);
    Slots(j, t);
    input[j] := Add(input[j], LitSigma1(input[(j - 2) % 16]));
    input[j] := Add(input[j], LitSigma0(input[(j - 15) % 16]));
    input[j] := Add(input[j], input[(j - 7) % 16]);
    ScheduleOrder(block, t);
    assert input[..] == was[t % 16 := W(block, t)];
    WindowStep(was, block, t, W(block, t));
  }

  // sha512_compress: hash is updated in place and input is left holding the last words of the schedule.
  method CompressInPlace(hash: array<word>, input: array<word>)
    requires hash.Length == 8 && input.Length == 16 && hash != input
    modifies hash, input
    ensures hash[..] == Compress(old(hash[..]), old(input[..]))
  {
    hide W, Round, Rounds, FeedForward, Start, Window;
    ghost var block, init := input[..], Start(hash[..]);
    var v := Start(hash[..]);
    NoRounds(init, block);
    for j := 0 to 16
      invariant v == Rounds(init, block, j)
      invariant input[..] == block && hash[..] == old(hash[..])
    {
      FirstWords(block, j);
      v := RoundInPlace(v, K[j], input[j]);
      NextRound(init, block, j);
    }
    FirstWindow(block);
    for i := 1 to 5
      invariant v == Rounds(init, block, 16 * i)
      invariant Window(input[..], block, 16 * i) && hash[..] == old(hash[..])
    {
      for j := 0 to 16
        invariant v == Rounds(init, block, 16 * i + j)
        invariant Window(input[..], block, 16 * i + j) && hash[..] == old(hash[..])
      {
        ScheduleInPlace(input, j, block, 16 * i + j);
        v := RoundInPlace(v, K[16 * i + j], input[j]);
        NextRound(init, block, 16 * i + j);
      }
    }
    AddInto(hash, v);
  }

  method AddInto(hash: array<word>, v: Vars)
    requires hash.Length == 8
    modifies hash
    ensures hash[..] == FeedForward(old(hash[..]), v)
  {
    hide Add;
    hash[0], hash[1], hash[2], hash[3] := Add(hash[0], v.a), Add(hash[1], v.b), Add(hash[2], v.c), Add(hash[3], v.d);
    hash[4], hash[5], hash[6], hash[7] := Add(hash[4], v.e), Add(hash[5], v.f), Add(hash[6], v.g), Add(hash[7], v.h);
  }

  method RoundInPlace(v: Vars, k: word, w: word) returns (r: Vars)
    ensures r == Round(v, k, w)
  {
    hide Add, BigSigma0, BigSigma1, Ch, Maj;
    var a, b, c, d, e, f, g, h := v.a, v.b, v.c, v.d, v.e, v.f, v.g, v.h;
    var input := Add(k, w);
    var t1 := Add(Add(Add(BigSigma1(e), Ch(e, f, g)), h), input);
    var t2 := Add(BigSigma0(a), Maj(a, b, c));
    AddOrder(h, BigSigma1(e), Ch(e, f, g), k, w);
    h := g;
    g := f;
    f := e;
    e := Add(d, t1);
    d := c;
    c := b;
    b := a;
    a := Add(t1, t2);
    r := Vars(a, b, c, d, e, f, g, h);
  }

  lemma NoRounds(v: Vars, block: seq<word>)
    requires |block| == 16
    ensures Rounds(v, block, 0) == v
  {
  }

  lemma NextRound(v: Vars, block: seq<word>, t: nat)
    requires |block| == 16 && t < 80
    ensures Rounds(v, block, t + 1) == Round(Rounds(v, block, t), K[t], W(block, t))
  {
  }

  lemma FirstWords(block: seq<word>, t: nat)
    requires |block| == 16 && t < 16
    ensures W(block, t) == block[t]
  {
  }

  lemma FirstWindow(block: seq<word>)
    requires |block| == 16
    ensures Window(block, block, 16)
  {
    forall u | 0 <= u < 16
      ensures block[u % 16] == W(block, u)
    {
      FirstWords(block, u);
    }
  }

  lemma WindowReads(input: seq<word>, block: seq<word>, t: nat)
    requires |block| == 16 && Window(input, block, t)
    ensures input[(t - 2) % 16] == W(block, t - 2) && input[(t - 7) % 16] == W(block, t - 7)
    ensures input[(t - 15) % 16] == W(block, t - 15) && input[(t - 16) % 16] == W(block, t - 16)
  {
  }

  // Eight bytes as a big-endian word: load64_be.
  function Be(b0: u8, b1: u8, b2: u8, b3: u8, b4: u8, b5: u8, b6: u8, b7: u8): word {
    b0 as int * 0x100_0000_0000_0000 + b1 as int * 0x1_0000_0000_0000 + b2 as int * 0x100_0000_0000
    + b3 as int * 0x1_0000_0000 + b4 as int * 0x100_0000 + b5 as int * 0x1_0000 + b6 as int * 0x100 + b7 as int
  }

  function WordAt(s: seq<u8>, i: nat): word
    requires 8 * i + 8 <= |s|
  {
    Be(s[8 * i], s[8 * i + 1], s[8 * i + 2], s[8 * i + 3], s[8 * i + 4], s[8 * i + 5], s[8 * i + 6], s[8 * i + 7])
  }

  // store64_be
  function Store64(w: word): (s: seq<u8>)
    ensures |s| == 8 && WordAt(s, 0) == w
  {
    var w1 := w / 0x100;
    var w2 := w1 / 0x100;
    var w3 := w2 / 0x100;
    var w4 := w3 / 0x100;
    var w5 := w4 / 0x100;
    var w6 := w5 / 0x100;
    [w6 / 0x100, w6 % 0x100, w5 % 0x100, w4 % 0x100, w3 % 0x100, w2 % 0x100, w1 % 0x100, w % 0x100]
  }

  // The sixteen words of a 128-byte block
  function BlockOf(s: seq<u8>): (b: seq<word>)
    requires |s| == 128
    ensures |b| == 16
  {
    seq(16, i requires 0 <= i < 16 => WordAt(s, i))
  }

  // A partial block, its unused bytes zero
  function Filled(s: seq<u8>): (b: seq<u8>)
    requires |s| <= 128
    ensures |b| == 128
  {
    s + Zeros(128 - |s|)
  }

  // Section 6.4.2: the compression function folded over whole blocks
  function Fold(m: seq<u8>): (h: seq<word>)
    requires |m| % 128 == 0
    ensures |h| == 8
  {
    if m == [] then IV else Compress(Fold(m[..|m| - 128]), BlockOf(m[|m| - 128..]))
  }

  lemma FoldBlock(m: seq<u8>, b: seq<u8>)
    requires |m| % 128 == 0 && |b| == 128
    ensures Fold(m + b) == Compress(Fold(m), BlockOf(b))
  {
    assert (m + b)[..|m + b| - 128] == m && (m + b)[|m + b| - 128..] == b;
  }

  const TWO64 := 0x1_0000_0000_0000_0000
  const TWO128 := TWO64 * TWO64

  lemma PadLength(n: nat)
    ensures (n + 1 + (239 - n % 128) % 128 + 16) % 128 == 0
  {
  }

  // Section 5.1.2: the message, a one bit, zeros, and the 128-bit length in bits
  function Pad(m: seq<u8>): (p: seq<u8>)
    ensures |p| % 128 == 0
  {
    hide Store64, WordAt;
    PadLength(|m|);
    var bits := 8 * |m|;
    m + ([0x80] + Zeros((239 - |m| % 128) % 128) + Store64(bits / TWO64 % TWO64) + Store64(bits % TWO64))
  }

  function Serialize(h: seq<word>): seq<u8>
    requires |h| == 8
  {
    Store64(h[0]) + Store64(h[1]) + Store64(h[2]) + Store64(h[3])
    + Store64(h[4]) + Store64(h[5]) + Store64(h[6]) + Store64(h[7])
  }

  function Digest(m: seq<u8>): seq<u8> {
    Serialize(Fold(Pad(m)))
  }

  // The weight of byte pos of a word
  function Place(pos: nat): nat
    requires pos < 8
  {
    if pos == 0 then 0x100_0000_0000_0000 else if pos == 1 then 0x1_0000_0000_0000
    else if pos == 2 then 0x100_0000_0000 else if pos == 3 then 0x1_0000_0000
    else if pos == 4 then 0x100_0000 else if pos == 5 then 0x1_0000
    else if pos == 6 then 0x100 else 1
  }

  // w | (b << 8 * (7 - pos)), where byte pos of w, the word spelled by s, is still zero: or and sum agree.
  function OrByte(w: word, b: u8, pos: nat, ghost s: seq<u8>): (r: word)
    requires |s| == 8 && pos < 8 && w == WordAt(s, 0) && s[pos] == 0
    ensures r == WordAt(s[pos := b], 0)
  {
    w + b * Place(pos)
  }

  // The bytes of word i
  function Bytes8(s: seq<u8>, i: nat): (r: seq<u8>)
    requires 8 * i + 8 <= |s|
    ensures |r| == 8
  {
    s[8 * i..8 * i + 8]
  }

  lemma BytesSpell(s: seq<u8>, i: nat)
    requires 8 * i + 8 <= |s|
    ensures WordAt(Bytes8(s, i), 0) == WordAt(s, i)
  {
    SameWord(Bytes8(s, i), 0, s, i);
  }

  // Writing byte |r| of a zero-filled block changes that byte of one word.
  lemma ByteWritten(r: seq<u8>, b: u8)
    requires |r| < 128
    ensures var w, pos := |r| / 8, |r| % 8;
            var s := Bytes8(Filled(r), w);
            && s[pos] == 0 && WordAt(s, 0) == BlockOf(Filled(r))[w]
            && BlockOf(Filled(r + [b])) == BlockOf(Filled(r))[w := WordAt(s[pos := b], 0)]
  {
    hide WordAt;
    var w := |r| / 8;
    BytesSpell(Filled(r), w);
    BytesSpell(Filled(r + [b]), w);
    ByteFilled(r, b);
    forall i | 0 <= i < 16 && i != w
      ensures WordAt(Filled(r + [b]), i) == WordAt(Filled(r), i)
    {
      SameWord(Filled(r + [b]), i, Filled(r), i);
    }
  }

  lemma ByteFilled(r: seq<u8>, b: u8)
    requires |r| < 128
    ensures var w, pos := |r| / 8, |r| % 8;
            var s := Bytes8(Filled(r), w);
            && s[pos] == 0 && Bytes8(Filled(r + [b]), w) == s[pos := b]
            && forall i :: 0 <= i < 16 && i != w ==> Bytes8(Filled(r + [b]), i) == Bytes8(Filled(r), i)
  {
    assert Filled(r + [b]) == Filled(r)[|r| := b];
  }

  lemma SameWord(s: seq<u8>, i: nat, t: seq<u8>, j: nat)
    requires 8 * i + 8 <= |s| && 8 * j + 8 <= |t| && Bytes8(s, i) == Bytes8(t, j)
    ensures WordAt(s, i) == WordAt(t, j)
  {
    hide Be;
    var a, b := Bytes8(s, i), Bytes8(t, j);
    assert s[8 * i] == a[0] && s[8 * i + 1] == a[1] && s[8 * i + 2] == a[2] && s[8 * i + 3] == a[3];
    assert s[8 * i + 4] == a[4] && s[8 * i + 5] == a[5] && s[8 * i + 6] == a[6] && s[8 * i + 7] == a[7];
    assert t[8 * j] == b[0] && t[8 * j + 1] == b[1] && t[8 * j + 2] == b[2] && t[8 * j + 3] == b[3];
    assert t[8 * j + 4] == b[4] && t[8 * j + 5] == b[5] && t[8 * j + 6] == b[6] && t[8 * j + 7] == b[7];
  }

  // Loading n words at word index k of a zero-filled block appends their bytes.
  lemma WordsWritten(r: seq<u8>, m: seq<u8>, n: nat, input: seq<word>)
    requires |r| % 8 == 0 && 8 * n <= |m| && |r| + 8 * n <= 128
    requires |input| == 16
    requires forall i :: 0 <= i < n ==> input[|r| / 8 + i] == WordAt(m, i)
    requires forall i :: 0 <= i < |r| / 8 || |r| / 8 + n <= i < 16 ==> input[i] == BlockOf(Filled(r))[i]
    ensures input == BlockOf(Filled(r + m[..8 * n]))
  {
    hide Be;
    var f := Filled(r + m[..8 * n]);
    forall i | 0 <= i < 16
      ensures input[i] == WordAt(f, i)
    {
      if |r| / 8 <= i < |r| / 8 + n {
        var j := i - |r| / 8;
        assert input[|r| / 8 + j] == WordAt(m, j);
        assert Bytes8(f, i) == Bytes8(m, j);
        SameWord(f, i, m, j);
      } else {
        assert Bytes8(f, i) == Bytes8(Filled(r), i);
        SameWord(f, i, Filled(r), i);
      }
    }
  }

  lemma ZeroWord()
    ensures Be(0, 0, 0, 0, 0, 0, 0, 0) == 0
  {
  }

  // ZERO(input, n)
  method ZeroWords(input: array<word>, n: nat)
    requires n <= input.Length
    modifies input
    ensures forall i :: 0 <= i < n ==> input[i] == 0
    ensures forall i :: n <= i < input.Length ==> input[i] == old(input[i])
  {
    for i := 0 to n
      invariant forall j :: 0 <= j < i ==> input[j] == 0
      invariant forall j :: n <= j < input.Length ==> input[j] == old(input[j])
    {
      input[i] := 0;
    }
  }

  lemma EmptyBlock(input: seq<word>)
    requires |input| == 16 && forall i :: 0 <= i < 16 ==> input[i] == 0
    ensures input == BlockOf(Filled([]))
  {
    hide Be;
    var f := Filled([]);
    ZeroWord();
    forall i | 0 <= i < 16
      ensures WordAt(f, i) == 0
    {
      SameWord(f, i, Zeros(8), 0);
    }
  }

  lemma FullBlock(r: seq<u8>)
    requires |r| == 128
    ensures Filled(r) == r
  {
  }

  lemma AddIs(x: word, y: word)
    ensures Add(x, y) == if x + y < TWO64 then x + y else x + y - TWO64
  {
    if x + y < TWO64 {
      ModUnique(x + y, 0, x + y, TWO64);
    } else {
      ModUnique(x + y, 1, x + y - TWO64, TWO64);
    }
  }

  // The 128-bit sum of a two-word counter and a word.
  lemma CarryOut(hi: word, lo: word, y: word)
    ensures var sum := Add(lo, y);
            (if sum < y then Add(hi, 1) else hi) * TWO64 + sum == (hi * TWO64 + lo + y) % TWO128
  {
    hide Add;
    AddIs(lo, y);
    AddIs(hi, 1);
    var total := hi as int * TWO64 + lo as int + y as int;
    if total < TWO128 {
      ModUnique(total, 0, total, TWO128);
    } else {
      ModUnique(total, 1, total - TWO128, TWO128);
    }
  }

  // hi and lo are the 128-bit count of bits.
  ghost predicate Counts(bits: nat, hi: word, lo: word) {
    hi * TWO64 + lo == bits % TWO128
  }

  lemma FinalBits(n: nat, k: nat)
    requires k <= 128
    ensures (8 * n % TWO128 + k * 8) % TWO128 == 8 * (n + k) % TWO128
  {
    var q := 8 * n / TWO128;
    var x := 8 * n % TWO128 + k * 8;
    assert 8 * (n + k) == (q + x / TWO128) * TWO128 + x % TWO128;
    ModUnique(8 * (n + k), q + x / TWO128, x % TWO128, TWO128);
  }

  // More bytes, and the counter moved on by their bits
  lemma CountMore(n: nat, k: nat, hi: word, lo: word, hi': word, lo': word)
    requires k <= 128 && Counts(8 * n, hi, lo)
    requires hi' * TWO64 + lo' == (hi * TWO64 + lo + 8 * k) % TWO128
    ensures Counts(8 * (n + k), hi', lo')
  {
    FinalBits(n, k);
  }

  class Sha512Ctx {
    const hash: array<word>
    const input: array<word>
    var sizeHi: word
    var sizeLo: word
    var idx: nat
    // The bytes compressed so far, and those waiting in the block.
    ghost var done: seq<u8>
    ghost var pending: seq<u8>

    ghost predicate Valid()
      reads this, hash, input
    {
      && hash.Length == 8 && input.Length == 16 && hash != input
      && |done| % 128 == 0 && |pending| == idx <= 128
      && hash[..] == Fold(done)
      && input[..] == BlockOf(Filled(pending))
      && Counts(8 * |done|, sizeHi, sizeLo)
    }

    ghost function Message(): seq<u8>
      reads this
    {
      done + pending
    }

    // crypto_sha512_init
    constructor ()
      ensures Valid() && idx == 0 && Message() == []
      ensures fresh(hash) && fresh(input)
    {
      hash := new word[8](i requires 0 <= i < 8 => IV[i]);
      input := new word[16](_ => 0);
      sizeHi, sizeLo, idx := 0, 0, 0;
      done, pending := [], [];
      new;
      assert hash[..] == IV;
      EmptyBlock(input[..]);
    }

    // sha512_incr: a 128-bit counter in two words.
    method Incr(y: word)
      modifies this`sizeHi, this`sizeLo
      ensures sizeHi * TWO64 + sizeLo == (old(sizeHi) * TWO64 + old(sizeLo) + y) % TWO128
    {
      ghost var hi, lo := sizeHi, sizeLo;
      sizeLo := Add(sizeLo, y);
      if sizeLo < y {
        sizeHi := Add(sizeHi, 1);
      }
      CarryOut(hi, lo, y);
    }

    // sha512_incr by the bits of k more bytes
    method Count(ghost n: nat, k: nat)
      requires k <= 128 && Counts(8 * n, sizeHi, sizeLo)
      modifies this`sizeHi, this`sizeLo
      ensures Counts(8 * (n + k), sizeHi, sizeLo)
    {
      ghost var hi, lo := sizeHi, sizeLo;
      Incr(k * 8);
      CountMore(n, k, hi, lo, sizeHi, sizeLo);
    }

    // sha512_set_input
    method SetInput(b: u8)
      requires Valid() && idx < 128
      modifies input
      ensures input[..] == BlockOf(Filled(pending + [b]))
    {
      hide Be, BlockOf, Filled, Fold;
      var w, pos := idx / 8, idx % 8;
      ByteWritten(pending, b);
      input[w] := OrByte(input[w], b, pos, Bytes8(Filled(pending), w));
    }

    // load64_be_buf(input + k, m, n), with the index moved past the words.
    method LoadWords(k: nat, m: seq<u8>, n: nat)
      requires Valid() && (n == 0 || 8 * k == idx) && idx + 8 * n <= 128 && 8 * n <= |m|
      modifies this`idx, this`pending, input
      ensures Valid() && Message() == old(Message()) + m[..8 * n] && idx == old(idx) + 8 * n
    {
      hide BlockOf, Filled, Fold, WordAt, Counts;
      ghost var was, r := input[..], pending;
      assert was == BlockOf(Filled(r));
      for i := 0 to n
        invariant idx == old(idx) && pending == r
        invariant forall j :: 0 <= j < i ==> input[k + j] == WordAt(m, j)
        invariant forall j :: 0 <= j < 16 && (j < k || k + i <= j) ==> input[j] == was[j]
      {
        input[k + i] := WordAt(m, i);
      }
      if n > 0 {
        WordsWritten(r, m, n, input[..]);
      } else {
        assert input[..] == was && m[..8 * n] == [] && r + [] == r;
      }
      idx := idx + 8 * n;
      pending := r + m[..8 * n];
      assert done + (r + m[..8 * n]) == done + r + m[..8 * n];
    }

    // Compresses a full block and starts an empty one.
    method Flush()
      requires Valid() && idx == 128
      modifies this, hash, input
      ensures Valid() && idx == 0 && Message() == old(Message()) && pending == []
    {
      hide BlockOf, Filled, Compress, Fold, Counts;
      ghost var message := done + pending;
      Count(|done|, 128);
      FullBlock(pending);
      FoldBlock(done, pending);
      CompressInPlace(hash, input);
      idx := 0;
      ZeroWords(input, 16);
      EmptyBlock(input[..]);
      done, pending := message, [];
    }

    // crypto_sha512_update: whatever the buffer holds, the message grows by exactly the bytes given.
    method Update(m: seq<u8>)
      requires Valid() && idx < 128
      modifies this, hash, input
      ensures Valid() && idx < 128 && Message() == old(Message()) + m
    {
      hide *;
      if m == [] {
        assert Message() + m == Message();
        return;
      }
      ghost var before := Message();
      var taken := AlignWord(m);
      var rest := m[taken..];
      Regroup(before, m, taken);
      taken := AlignBlock(rest);
      Regroup(before + m[..|m| - |rest|], rest, taken);
      rest := rest[taken..];
      rest := WholeBlocks(rest);
      if |rest| != 0 {
        var n := |rest| / 8;
        ghost var now := Message();
        LoadWords(0, rest, n);
        Regroup(now, rest, 8 * n);
        AddBytes(rest[8 * n..]);
      } else {
        assert Message() + rest == Message();
      }
    }

    // Words up to the next block boundary, or as many as there are; a block filled this way is compressed.
    method AlignBlock(m: seq<u8>) returns (taken: nat)
      requires Valid() && idx <= 128 && (idx % 8 == 0 || m == [])
      modifies this, hash, input
      ensures Valid() && taken <= |m| && Message() == old(Message()) + m[..taken]
      ensures idx < 128 && (idx != 0 ==> |m| - taken < 8) && (idx % 8 == 0 || taken == |m|)
    {
      hide *;
      taken := 0;
      assert m[..0] == [] && Message() + [] == Message();
      if idx % 128 != 0 {
        var n := WordsToBoundary(idx, |m|);
        LoadWords(idx / 8, m, n);
        taken := 8 * n;
      }
      if idx == 128 {
        Flush();
      }
    }

    // The message processed block by block.
    method WholeBlocks(m: seq<u8>) returns (rest: seq<u8>)
      requires Valid() && idx < 128 && (idx != 0 ==> |m| < 8) && (idx % 8 == 0 || m == [])
      modifies this, hash, input
      ensures Valid() && Message() + rest == old(Message()) + m
      ensures idx + |rest| < 128 && (idx != 0 ==> |rest| < 8)
    {
      hide *;
      ghost var whole := Message() + m;
      var blocks := |m| / 128;
      assert m[0..] == m;
      for i := 0 to blocks
        invariant Valid() && (idx == 0 || (|m| < 8 && idx == old(idx))) && 128 * i <= |m|
        invariant Message() + m[128 * i..] == whole
      {
        var block := m[128 * i..128 * i + 128];
        Regroup(Message(), m[128 * i..], 128);
        assert m[128 * i..][..128] == block[..8 * 16] && m[128 * i..][128..] == m[128 * (i + 1)..];
        LoadWords(0, block, 16);
        Flush();
      }
      rest := m[128 * blocks..];
    }

    // Bytes up to the next word boundary, or as many as there are.
    method AlignWord(m: seq<u8>) returns (taken: nat)
      requires Valid() && idx < 128
      modifies this`idx, this`pending, input
      ensures Valid() && taken <= |m| && Message() == old(Message()) + m[..taken]
      ensures idx == old(idx) + taken && idx <= 128
      ensures idx % 8 == 0 || taken == |m|
    {
      hide *;
      taken := 0;
      if idx % 8 != 0 {
        var room := (8 - idx % 8) % 8;
        taken := if room <= |m| then room else |m|;
        AddBytes(m[..taken]);
      } else {
        assert Message() + m[..0] == Message();
      }
    }

    method AddBytes(m: seq<u8>)
      requires Valid() && idx + |m| <= 128
      modifies this`idx, this`pending, input
      ensures Valid() && Message() == old(Message()) + m && idx == old(idx) + |m|
    {
      hide Be, BlockOf, Filled, Fold;
      ghost var r := pending;
      assert r + m[..0] == r;
      for i := 0 to |m|
        invariant Valid() && pending == r + m[..i] && hash[..] == old(hash[..])
      {
        assert m[..i + 1] == m[..i] + [m[i]];
        assert idx == |r| + i;
        SetInput(m[i]);
        idx := idx + 1;
        pending := pending + [m[i]];
      }
      assert m[..|m|] == m;
      assert done + (r + m) == done + r + m;
    }

    // crypto_sha512_final: the digest of everything fed, however it was split.
    method Final() returns (out: seq<u8>)
      requires Valid() && idx < 128
      modifies this, hash, input
      ensures out == Digest(old(Message()))
    {
      hide BlockOf, Filled, Fold, Store64, Counts;
      ghost var m0, r := done, pending;
      assert hash[..] == Fold(m0) && |r| == idx && |m0| % 128 == 0;
      SetInput(0x80);
      Count(|m0|, idx);
      out := Close(hash, input, idx, sizeHi, sizeLo, m0, r);
    }
  }

  // The padded blocks of crypto_sha512_final, once the one bit and the length are in place.
  method Close(hash: array<word>, input: array<word>, idx: nat, sizeHi: word, sizeLo: word,
               ghost m: seq<u8>, ghost r: seq<u8>) returns (out: seq<u8>)
    requires hash.Length == 8 && input.Length == 16 && hash != input
    requires |m| % 128 == 0 && |r| == idx < 128
    requires hash[..] == Fold(m) && input[..] == BlockOf(Filled(r + [0x80]))
    requires Counts(8 * (|m| + |r|), sizeHi, sizeLo)
    modifies hash, input
    ensures out == Digest(m + r)
  {
    hide *;
    ghost var last: seq<u8>;
    ghost var whole := m;
    if idx > 111 {
      CompressInPlace(hash, input);
      whole := m + Filled(r + [0x80]);
      FoldBlock(m, Filled(r + [0x80]));
      ZeroWords(input, 14);
      last := Zeros(112) + Store64(sizeHi) + Store64(sizeLo);
      LastAlone(input[..][14 := sizeHi][15 := sizeLo], sizeHi, sizeLo);
      PadOver(m, r, sizeHi, sizeLo);
    } else {
      last := r + [0x80] + Zeros(111 - |r|) + Store64(sizeHi) + Store64(sizeLo);
      LastShared(r, sizeHi, sizeLo);
      PadWithin(m, r, sizeHi, sizeLo);
    }
    input[14] := sizeHi;
    input[15] := sizeLo;
    CompressInPlace(hash, input);
    assert |last| == 128 by {
      BlockLength(r, sizeHi, sizeLo);
    }
    FoldBlock(whole, last);
    DigestIs(m + r);
    out := Serialize(hash[..]);
  }

  lemma BlockLength(r: seq<u8>, hi: word, lo: word)
    requires |r| < 128
    ensures |Zeros(112) + Store64(hi) + Store64(lo)| == 128
    ensures |r| <= 111 ==> |r + [0x80] + Zeros(111 - |r|) + Store64(hi) + Store64(lo)| == 128
  {
    hide Store64;
  }

  lemma DigestIs(m: seq<u8>)
    ensures Digest(m) == Serialize(Fold(Pad(m)))
  {
  }

  // Whole words to the boundary: of the room left, which is a number of words, or of the bytes given
  lemma ToBoundary(idx: nat, size: nat)
    requires 0 < idx < 128
    ensures (128 - idx % 128) % 128 == 128 - idx
    ensures idx % 8 == 0 ==> 8 * (idx / 8) == idx && 8 * ((128 - idx) / 8) == 128 - idx
    ensures 8 * (size / 8) <= size < 8 * (size / 8) + 8
  {
  }

  // MIN(align(idx, 128), size) >> 3
  function WordsToBoundary(idx: nat, size: nat): (n: nat)
    requires idx < 128 && idx != 0 && (idx % 8 == 0 || size == 0)
    ensures idx + 8 * n <= 128 && 8 * n <= size && (n == 0 || 8 * (idx / 8) == idx)
    ensures idx + 8 * n == 128 || size - 8 * n < 8
    ensures (idx + 8 * n) % 8 == 0 || 8 * n == size
  {
    ToBoundary(idx, size);
    var room := (128 - idx % 128) % 128;
    (if room <= size then room else size) / 8
  }

  lemma SplitLength(bits: nat, hi: word, lo: word)
    requires hi * TWO64 + lo == bits % TWO128
    ensures bits / TWO64 % TWO64 == hi && bits % TWO64 == lo
  {
    var q := bits / TWO128;
    assert bits == (q * TWO64 + hi) * TWO64 + lo;
    ModUnique(bits, q * TWO64 + hi, lo, TWO64);
    ModUnique(q * TWO64 + hi, q, hi, TWO64);
  }

  lemma PadIs(m: seq<u8>, hi: word, lo: word)
    requires Counts(8 * |m|, hi, lo)
    ensures Pad(m) == m + ([0x80] + Zeros((239 - |m| % 128) % 128) + Store64(hi) + Store64(lo))
  {
    hide Store64;
    SplitLength(8 * |m|, hi, lo);
  }

  // Padding fills the last block ...
  lemma PadWithin(m: seq<u8>, r: seq<u8>, hi: word, lo: word)
    requires |m| % 128 == 0 && |r| <= 111
    requires Counts(8 * (|m| + |r|), hi, lo)
    ensures Pad(m + r) == m + (r + [0x80] + Zeros(111 - |r|) + Store64(hi) + Store64(lo))
  {
    hide Store64, Zeros, Pad, Counts;
    assert |m + r| == |m| + |r|;
    PadIs(m + r, hi, lo);
    PadZeros(|m|, |r|);
    Splice(m, r, [0x80], Zeros(111 - |r|), Store64(hi), Store64(lo));
  }

  lemma PadZeros(n: nat, k: nat)
    requires n % 128 == 0 && k < 128
    ensures (239 - (n + k) % 128) % 128 == if k <= 111 then 111 - k else 239 - k
  {
  }

  lemma Splice(m: seq<u8>, r: seq<u8>, a: seq<u8>, z: seq<u8>, s: seq<u8>, t: seq<u8>)
    ensures (m + r) + (a + z + s + t) == m + (r + a + z + s + t)
  {
    App(m, r, a + z + s + t);
    App(r, a + z + s, t);
    App(r, a + z, s);
    App(r, a, z);
  }

  // ... or runs over into one more.
  lemma PadOver(m: seq<u8>, r: seq<u8>, hi: word, lo: word)
    requires |m| % 128 == 0 && 111 < |r| < 128
    requires Counts(8 * (|m| + |r|), hi, lo)
    ensures Pad(m + r) == m + Filled(r + [0x80]) + (Zeros(112) + Store64(hi) + Store64(lo))
  {
    hide Store64, Pad, Zeros, Filled, Counts;
    assert |m + r| == |m| + |r|;
    PadIs(m + r, hi, lo);
    PadZeros(|m|, |r|);
    var z1, z2, s, t := Zeros(127 - |r|), Zeros(112), Store64(hi), Store64(lo);
    ZerosAdd(127 - |r|, 112);
    FilledIs(r + [0x80]);
    Splice(m, r, [0x80], z1 + z2, s, t);
    App(r + [0x80], z1, z2);
    App(r + [0x80] + z1, z2, s);
    App(r + [0x80] + z1, z2 + s, t);
    App(m, r + [0x80] + z1, z2 + s + t);
  }

  lemma FilledIs(s: seq<u8>)
    requires |s| <= 128
    ensures Filled(s) == s + Zeros(128 - |s|)
  {
  }

  lemma LastShared(r: seq<u8>, hi: word, lo: word)
    requires |r| <= 111
    ensures BlockOf(r + [0x80] + Zeros(111 - |r|) + Store64(hi) + Store64(lo))
         == BlockOf(Filled(r + [0x80]))[14 := hi][15 := lo]
  {
    LengthWords(r + [0x80] + Zeros(111 - |r|), Filled(r + [0x80]), hi, lo);
  }

  lemma LastAlone(input: seq<word>, hi: word, lo: word)
    requires |input| == 16 && input[14] == hi && input[15] == lo
    requires forall i :: 0 <= i < 14 ==> input[i] == 0
    ensures input == BlockOf(Zeros(112) + Store64(hi) + Store64(lo))
  {
    LengthWords(Zeros(112), Filled([]), hi, lo);
    EmptyBlock(Zero16());
  }

  function Zero16(): seq<word> {
    seq(16, _ => 0)
  }

  lemma LengthWords(head: seq<u8>, f: seq<u8>, hi: word, lo: word)
    requires |head| == 112 && |f| == 128 && head == f[..112]
    ensures BlockOf(head + Store64(hi) + Store64(lo)) == BlockOf(f)[14 := hi][15 := lo]
  {
    hide Be, Store64;
    var b := head + Store64(hi) + Store64(lo);
    forall i | 0 <= i < 16
      ensures BlockOf(b)[i] == BlockOf(f)[14 := hi][15 := lo][i]
    {
      if i < 14 {
        assert b[8 * i..8 * i + 8] == f[8 * i..8 * i + 8];
        SameWord(b, i, f, i);
      } else if i == 14 {
        assert b[8 * 14..8 * 14 + 8] == Store64(hi)[8 * 0..8 * 0 + 8];
        SameWord(b, 14, Store64(hi), 0);
      } else {
        assert b[8 * 15..8 * 15 + 8] == Store64(lo)[8 * 0..8 * 0 + 8];
        SameWord(b, 15, Store64(lo), 0);
      }
    }
  }

  // crypto_sha512
  method Hash(m: seq<u8>) returns (out: seq<u8>)
    ensures out == Digest(m)
  {
    hide *;
    var ctx := new Sha512Ctx();
    ctx.Update(m);
    assert [] + m == m;
    out := ctx.Final();
  }
}
