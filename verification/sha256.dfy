// SHA-256 (FIPS 180-4), HMAC-SHA256 (RFC 2104) and HKDF-SHA256 (RFC 5869) as the link derives its keys with them.
module Sha256 {
  import opened Words

  // Addition modulo 2^32
  function Add(x: u32, y: u32): u32 {
    (x + y) % B32
  }

  const K: seq<u32> :=
      [0x428a2f98, 0x71374491, 0xb5c0fbcf, 0xe9b5dba5, 0x3956c25b, 0x59f111f1, 0x923f82a4, 0xab1c5ed5]
    + [0xd807aa98, 0x12835b01, 0x243185be, 0x550c7dc3, 0x72be5d74, 0x80deb1fe, 0x9bdc06a7, 0xc19bf174]
    + [0xe49b69c1, 0xefbe4786, 0x0fc19dc6, 0x240ca1cc, 0x2de92c6f, 0x4a7484aa, 0x5cb0a9dc, 0x76f988da]
    + [0x983e5152, 0xa831c66d, 0xb00327c8, 0xbf597fc7, 0xc6e00bf3, 0xd5a79147, 0x06ca6351, 0x14292967]
    + [0x27b70a85, 0x2e1b2138, 0x4d2c6dfc, 0x53380d13, 0x650a7354, 0x766a0abb, 0x81c2c92e, 0x92722c85]
    + [0xa2bfe8a1, 0xa81a664b, 0xc24b8b70, 0xc76c51a3, 0xd192e819, 0xd6990624, 0xf40e3585, 0x106aa070]
    + [0x19a4c116, 0x1e376c08, 0x2748774c, 0x34b0bcb5, 0x391c0cb3, 0x4ed8aa4a, 0x5b9cca4f, 0x682e6ff3]
    + [0x748f82ee, 0x78a5636f, 0x84c87814, 0x8cc70208, 0x90befffa, 0xa4506ceb, 0xbef9a3f7, 0xc67178f2]

  // Section 5.3.3
  const IV: seq<u32> := [
    0x6a09e667, 0xbb67ae85, 0x3c6ef372, 0xa54ff53a, 0x510e527f, 0x9b05688c, 0x1f83d9ab, 0x5be0cd19]

  // Section 4.1.2
  function Ror(x: bv32, n: nat): bv32
    requires 0 < n < 32
  {
    (x >> n) | (x << (32 - n))
  }

  function Ch(e: u32, f: u32, g: u32): u32 {
    (((e as bv32) & (f as bv32)) ^ (!(e as bv32) & (g as bv32))) as u32
  }

  function Maj(a: u32, b: u32, c: u32): u32 {
    (((a as bv32) & (b as bv32)) ^ ((a as bv32) & (c as bv32)) ^ ((b as bv32) & (c as bv32))) as u32
  }

  function BigSigma0(x: u32): u32 {
    (Ror(x as bv32, 2) ^ Ror(x as bv32, 13) ^ Ror(x as bv32, 22)) as u32
  }

  function BigSigma1(x: u32): u32 {
    (Ror(x as bv32, 6) ^ Ror(x as bv32, 11) ^ Ror(x as bv32, 25)) as u32
  }

  function LitSigma0(x: u32): u32 {
    (Ror(x as bv32, 7) ^ Ror(x as bv32, 18) ^ ((x as bv32) >> 3)) as u32
  }

  function LitSigma1(x: u32): u32 {
    (Ror(x as bv32, 17) ^ Ror(x as bv32, 19) ^ ((x as bv32) >> 10)) as u32
  }

  // Four bytes as a big-endian word
  function WordAt(s: seq<u8>, i: nat): u32
    requires 4 * i + 4 <= |s|
  {
    s[4 * i] as int * 0x100_0000 + s[4 * i + 1] as int * 0x1_0000 + s[4 * i + 2] as int * 0x100 + s[4 * i + 3] as int
  }

  function Store32Be(w: u32): (s: seq<u8>)
    ensures |s| == 4 && WordAt(s, 0) == w
  {
    var w1 := w / 0x100;
    var w2 := w1 / 0x100;
    [w2 / 0x100, w2 % 0x100, w1 % 0x100, w % 0x100]
  }

  // The message schedule of section 6.2.2
  function W(block: seq<u8>, t: nat): u32
    requires |block| == 64
  {
    if t < 16 then WordAt(block, t)
    else Add(Add(Add(W(block, t - 16), LitSigma0(W(block, t - 15))), W(block, t - 7)), LitSigma1(W(block, t - 2)))
  }

  datatype Vars = Vars(a: u32, b: u32, c: u32, d: u32, e: u32, f: u32, g: u32, h: u32)

  function Round(v: Vars, k: u32, w: u32): Vars {
    var t1 := Add(Add(Add(Add(v.h, BigSigma1(v.e)), Ch(v.e, v.f, v.g)), k), w);
    var t2 := Add(BigSigma0(v.a), Maj(v.a, v.b, v.c));
    Vars(Add(t1, t2), v.a, v.b, v.c, Add(v.d, t1), v.e, v.f, v.g)
  }

  function Rounds(v: Vars, block: seq<u8>, t: nat): Vars
    requires |block| == 64 && t <= 64
  {
    if t == 0 then v else Round(Rounds(v, block, t - 1), K[t - 1], W(block, t - 1))
  }

  function Start(state: seq<u32>): Vars
    requires |state| == 8
  {
    Vars(state[0], state[1], state[2], state[3], state[4], state[5], state[6], state[7])
  }

  function Compress(state: seq<u32>, block: seq<u8>): (r: seq<u32>)
    requires |state| == 8 && |block| == 64
    ensures |r| == 8
  {
    var v := Rounds(Start(state), block, 64);
    [Add(state[0], v.a), Add(state[1], v.b), Add(state[2], v.c), Add(state[3], v.d),
     Add(state[4], v.e), Add(state[5], v.f), Add(state[6], v.g), Add(state[7], v.h)]
  }

  // The compression function folded over whole blocks
  function Fold(m: seq<u8>): (h: seq<u32>)
    requires |m| % 64 == 0
    ensures |h| == 8
  {
    if m == [] then IV else Compress(Fold(m[..|m| - 64]), m[|m| - 64..])
  }

  lemma FoldBlock(m: seq<u8>, b: seq<u8>)
    requires |m| % 64 == 0 && |b| == 64
    ensures Fold(m + b) == Compress(Fold(m), b)
  {
    assert (m + b)[..|m + b| - 64] == m && (m + b)[|m + b| - 64..] == b;
  }

  const TWO64 := 0x1_0000_0000_0000_0000

  // The length of a message in bits, in the 64-bit counter
  function BitCount(bytes: nat): u64 {
    8 * bytes % TWO64
  }

  // The 64-bit count of bits, most significant byte first
  function Length(bits: u64): (s: seq<u8>)
    ensures |s| == 8
  {
    seq(8, i requires 0 <= i < 8 => Octet(bits, i))
  }

  // (uint8_t)(bits >> (56 - 8 * i))
  function Octet(bits: u64, i: nat): u8
    requires i < 8
  {
    var shift := if i == 0 then 0x100_0000_0000_0000 else if i == 1 then 0x1_0000_0000_0000
                 else if i == 2 then 0x100_0000_0000 else if i == 3 then 0x1_0000_0000
                 else if i == 4 then 0x100_0000 else if i == 5 then 0x1_0000
                 else if i == 6 then 0x100 else 1;
    bits / shift % 0x100
  }

  lemma PadLength(n: nat)
    ensures (n + 1 + (119 - n % 64) % 64 + 8) % 64 == 0
  {
  }

  // Section 5.1.1: the message, a one bit, zeros, and the length in bits
  function Pad(m: seq<u8>): (p: seq<u8>)
    ensures |p| % 64 == 0
  {
    PadLength(|m|);
    m + ([0x80] + Zeros(PadZeros(|m|)) + Length(BitCount(|m|)))
  }

  function Serialize(h: seq<u32>): (s: seq<u8>)
    requires |h| == 8
    ensures |s| == 32
  {
    Store32Be(h[0]) + Store32Be(h[1]) + Store32Be(h[2]) + Store32Be(h[3])
    + Store32Be(h[4]) + Store32Be(h[5]) + Store32Be(h[6]) + Store32Be(h[7])
  }

  function Digest(m: seq<u8>): (d: seq<u8>)
    ensures |d| == 32
  {
    Serialize(Fold(Pad(m)))
  }

  // sl2__sha256_block
  method Block(state: array<u32>, p: seq<u8>)
    requires state.Length == 8 && |p| == 64
    modifies state
    ensures state[..] == Compress(old(state[..]), p)
  {
    hide W, WordAt, Round, Rounds, Add;
    var w := new u32[64];
    for i := 0 to 16
      invariant state[..] == old(state[..])
      invariant forall j :: 0 <= j < i ==> w[j] == W(p, j)
    {
      w[i] := WordAt(p, i);
      ScheduleWord(p, i);
    }
    for i := 16 to 64
      invariant state[..] == old(state[..])
      invariant forall j :: 0 <= j < i ==> w[j] == W(p, j)
    {
      ScheduleWord(p, i);
      var s0, s1 := LitSigma0(w[i - 15]), LitSigma1(w[i - 2]);
      w[i] := Add(Add(Add(w[i - 16], s0), w[i - 7]), s1);
    }
    ghost var init := Start(state[..]);
    var v := Start(state[..]);
    NoRounds(init, p);
    for i := 0 to 64
      invariant state[..] == old(state[..]) && v == Rounds(init, p, i)
      invariant forall j :: 0 <= j < 64 ==> w[j] == W(p, j)
    {
      v := RoundInPlace(v, K[i], w[i]);
      NextRound(init, p, i);
    }
    state[0], state[1], state[2], state[3] := Add(state[0], v.a), Add(state[1], v.b), Add(state[2], v.c), Add(state[3], v.d);
    state[4], state[5], state[6], state[7] := Add(state[4], v.e), Add(state[5], v.f), Add(state[6], v.g), Add(state[7], v.h);
  }

  lemma ScheduleWord(p: seq<u8>, t: nat)
    requires |p| == 64
    ensures t < 16 ==> W(p, t) == WordAt(p, t)
    ensures t >= 16 ==> W(p, t) == Add(Add(Add(W(p, t - 16), LitSigma0(W(p, t - 15))), W(p, t - 7)), LitSigma1(W(p, t - 2)))
  {
  }

  method RoundInPlace(v: Vars, k: u32, w: u32) returns (r: Vars)
    ensures r == Round(v, k, w)
  {
    hide Add, BigSigma0, BigSigma1, Ch, Maj;
    var a, b, c, d, e, f, g, h := v.a, v.b, v.c, v.d, v.e, v.f, v.g, v.h;
    var t1 := Add(Add(Add(Add(h, BigSigma1(e)), Ch(e, f, g)), k), w);
    var t2 := Add(BigSigma0(a), Maj(a, b, c));
    h := g;
    g := f;
    f := e;
    e := Add(d, t1);
    d := c;
    c := b;
    b := a;
    a := Add(t1, t2);
    r := Vars(a, b, c, d, e, f, g, h);
  }

  lemma NoRounds(v: Vars, block: seq<u8>)
    requires |block| == 64
    ensures Rounds(v, block, 0) == v
  {
  }

  lemma NextRound(v: Vars, block: seq<u8>, t: nat)
    requires |block| == 64 && t < 64
    ensures Rounds(v, block, t + 1) == Round(Rounds(v, block, t), K[t], W(block, t))
  {
  }

  class Sha256Ctx {
    const state: array<u32>
    const buf: array<u8>
    var bitlen: u64
    var buflen: nat
    // The bytes compressed so far, and those waiting in the buffer.
    ghost var done: seq<u8>
    ghost var pending: seq<u8>

    ghost predicate Buffered()
      reads this, state, buf
    {
      && state.Length == 8 && buf.Length == 64
      && |done| % 64 == 0 && |pending| == buflen < 64
      && state[..] == Fold(done) && buf[..buflen] == pending
    }

    ghost predicate Valid()
      reads this, state, buf
    {
      Buffered() && bitlen == BitCount(|Message()|)
    }

    ghost function Message(): seq<u8>
      reads this
    {
      done + pending
    }

    // sl2_sha256_init
    constructor ()
      ensures Valid() && Message() == []
      ensures fresh(state) && fresh(buf)
    {
      state := new u32[8](i requires 0 <= i < 8 => IV[i]);
      buf := new u8[64];
      bitlen, buflen := 0, 0;
      done, pending := [], [];
      new;
      assert state[..] == IV;
    }

    // Copies bytes that fit the buffer, and compresses it once it is full.
    method Feed(p: seq<u8>)
      requires Buffered() && buflen + |p| <= 64
      modifies this`buflen, this`done, this`pending, state, buf
      ensures Buffered() && Message() == old(Message()) + p
      ensures buflen == if old(buflen) + |p| == 64 then 0 else old(buflen) + |p|
    {
      hide Fold, Compress;
      ghost var r := pending;
      for i := 0 to |p|
        invariant buflen == old(buflen) && done == old(done) && pending == r && state[..] == old(state[..])
        invariant buf[..buflen + i] == r + p[..i]
      {
        buf[buflen + i] := p[i];
        assert buf[..buflen + i + 1] == buf[..buflen + i] + [p[i]];
      }
      assert p[..|p|] == p;
      App(done, r, p);
      buflen := buflen + |p|;
      pending := r + p;
      if buflen == 64 {
        FoldBlock(done, pending);
        assert buf[..] == pending;
        Block(state, buf[..]);
        buflen := 0;
        done, pending := done + pending, [];
      }
    }

    // sl2_sha256_update: the message grows by exactly the bytes given, however much the buffer holds.
    method Update(data: seq<u8>)
      requires Valid()
      modifies this, state, buf
      ensures Valid() && Message() == old(Message()) + data
    {
      hide *;
      ghost var whole := Message() + data;
      CountBits(data);
      Bounds();
      var off := 0;
      assert data[0..] == data;
      while off < |data|
        invariant off <= |data|
        invariant Buffered() && Message() + data[off..] == whole && bitlen == BitCount(|whole|)
      {
        var room := 64 - buflen;
        var n := if room > |data| - off then |data| - off else room;
        Bounds();
        Regroup(Message(), data[off..], n);
        assert data[off..][..n] == data[off..off + n] && data[off..][n..] == data[off + n..];
        Feed(data[off..off + n]);
        off := off + n;
      }
      assert data[off..] == [] && Message() + [] == Message();
      IsValid();
    }

    // sl2_sha256_final: the digest of everything fed, however it was split.
    method Final() returns (out: seq<u8>)
      requires Valid()
      modifies this, state, buf
      ensures out == Digest(old(Message()))
    {
      hide *;
      ghost var message := Message();
      ghost var n := |message|;
      ValidMeans();
      var bl := bitlen;
      Update([0x80]);
      ghost var zeros := 0;
      NoZeros(message + [0x80]);
      ValidMeans();
      while buflen != 56
        invariant Valid() && Message() == message + [0x80] + Zeros(zeros)
        invariant buflen == (n + 1 + zeros) % 64 && zeros <= PadZeros(n)
        decreases PadZeros(n) - zeros
      {
        ZerosLeft(n, zeros);
        MoreZeros(message + [0x80], zeros);
        Update([0]);
        zeros := zeros + 1;
        ValidMeans();
        FilledLength(message, zeros);
      }
      ZerosLeft(n, zeros);
      ValidMeans();
      // The length block bypasses the bit count.
      Feed(Length(bl));
      PadIs(message);
      Regroup3(message, [0x80], Zeros(zeros), Length(bl));
      DigestIs(message, Message());
      Emptied();
      out := Serialize(state[..]);
    }

    lemma ValidMeans()
      requires Valid()
      ensures Buffered() && buflen < 64 && bitlen == BitCount(|Message()|)
      ensures |Message()| % 64 == buflen
    {
      hide Fold, BitCount;
      assert |Message()| == |done| + buflen;
    }

    // With nothing pending, the state is the fold of the whole message.
    lemma Emptied()
      requires Buffered() && buflen == 0
      ensures |Message()| % 64 == 0 && state[..] == Fold(Message())
    {
      assert done + pending == done;
    }

    // bitlen += len * 8
    method CountBits(data: seq<u8>)
      requires Valid()
      modifies this`bitlen
      ensures Buffered() && Message() == old(Message()) && bitlen == BitCount(|Message() + data|)
    {
      hide BitCount, Fold;
      BitsAdd(|Message()|, |data|);
      assert |Message() + data| == |Message()| + |data|;
      bitlen := (bitlen + |data| * 8) % TWO64;
    }

    lemma Bounds()
      requires Buffered()
      ensures buflen < 64
    {
    }

    lemma IsValid()
      requires Buffered() && bitlen == BitCount(|Message()|)
      ensures Valid()
    {
    }
  }

  lemma BitsAdd(n: nat, k: nat)
    ensures (BitCount(n) + k * 8) % TWO64 == BitCount(n + k)
  {
    var q := 8 * n / TWO64;
    var x := 8 * n % TWO64 + k * 8;
    assert 8 * (n + k) == (q + x / TWO64) * TWO64 + x % TWO64;
    ModUnique(8 * (n + k), q + x / TWO64, x % TWO64, TWO64);
  }

  // The zeros section 5.1.1 asks for
  function PadZeros(n: nat): nat {
    (119 - n % 64) % 64
  }

  lemma ZerosLeft(n: nat, zeros: nat)
    requires zeros <= PadZeros(n)
    ensures (n + 1 + zeros) % 64 == 56 <==> zeros == PadZeros(n)
  {
    var q, a := n / 64, n % 64;
    assert PadZeros(n) == if a <= 55 then 55 - a else 119 - a;
    if a + 1 + zeros < 64 {
      ModUnique(n + 1 + zeros, q, a + 1 + zeros, 64);
    } else {
      ModUnique(n + 1 + zeros, q + 1, a + 1 + zeros - 64, 64);
    }
  }

  lemma NoZeros(m: seq<u8>)
    ensures m + Zeros(0) == m && PadZeros(|m|) >= 0
  {
  }

  lemma MoreZeros(m: seq<u8>, k: nat)
    ensures m + Zeros(k) + [0] == m + Zeros(k + 1)
  {
  }

  lemma FilledLength(m: seq<u8>, k: nat)
    ensures |m + [0x80] + Zeros(k)| == |m| + 1 + k
  {
  }

  lemma PadIs(m: seq<u8>)
    ensures Pad(m) == m + ([0x80] + Zeros(PadZeros(|m|)) + Length(BitCount(|m|)))
  {
    hide Length;
  }

  lemma Regroup3(m: seq<u8>, a: seq<u8>, z: seq<u8>, l: seq<u8>)
    ensures m + a + z + l == m + (a + z + l)
  {
    App(m + a, z, l);
    App(m, a, z + l);
    App(a, z, l);
  }

  lemma DigestIs(m: seq<u8>, padded: seq<u8>)
    requires padded == Pad(m)
    ensures |padded| % 64 == 0 && Digest(m) == Serialize(Fold(padded))
  {
  }

  // sl2_sha256
  method Hash(m: seq<u8>) returns (out: seq<u8>)
    ensures out == Digest(m)
  {
    hide *;
    var ctx := new Sha256Ctx();
    ctx.Update(m);
    assert [] + m == m;
    out := ctx.Final();
  }

  function Xor(b: u8, c: bv8): u8 {
    ((b as bv8) ^ c) as u8
  }

  function XorAll(k: seq<u8>, c: bv8): (r: seq<u8>)
    ensures |r| == |k|
  {
    seq(|k|, i requires 0 <= i < |k| => Xor(k[i], c))
  }

  // Section 2 of RFC 2104: a key is hashed if longer than the block, then filled with zeros to its length.
  function BlockKey(key: seq<u8>): (k: seq<u8>)
    ensures |k| == 64
  {
    if |key| > 64 then Digest(key) + Zeros(32) else key + Zeros(64 - |key|)
  }

  // H(K xor opad, H(K xor ipad, text))
  function Hmac(key: seq<u8>, m: seq<u8>): (t: seq<u8>)
    ensures |t| == 32
  {
    Digest(XorAll(BlockKey(key), 0x5c) + Digest(XorAll(BlockKey(key), 0x36) + m))
  }

  method PadKey(key: seq<u8>) returns (k: array<u8>)
    ensures fresh(k) && k[..] == BlockKey(key)
  {
    hide Digest;
    k := new u8[64](_ => 0);
    assert k[..] == Zeros(64);
    if |key| > 64 {
      var h := Hash(key);
      CopyInto(k, 0, h);
    } else if |key| > 0 {
      CopyInto(k, 0, key);
    }
  }

  method XorInto(k: array<u8>, c: bv8) returns (pad: array<u8>)
    ensures fresh(pad) && pad[..] == XorAll(k[..], c)
  {
    hide Xor;
    pad := new u8[k.Length];
    for i := 0 to k.Length
      invariant forall j :: 0 <= j < i ==> pad[j] == Xor(k[j], c)
    {
      pad[i] := Xor(k[i], c);
    }
  }

  // sl2_hmac_sha256
  method HmacSha256(key: seq<u8>, m: seq<u8>) returns (out: seq<u8>)
    ensures out == Hmac(key, m)
  {
    hide *;
    var k := PadKey(key);
    var ipad := XorInto(k, 0x36);
    var opad := XorInto(k, 0x5c);
    var c := new Sha256Ctx();
    c.Update(ipad[..]);
    c.Update(m);
    assert [] + ipad[..] + m == ipad[..] + m;
    var inner := c.Final();
    c := new Sha256Ctx();
    c.Update(opad[..]);
    c.Update(inner);
    assert [] + opad[..] + inner == opad[..] + inner;
    out := c.Final();
    HmacIs(key, m);
  }

  lemma HmacIs(key: seq<u8>, m: seq<u8>)
    ensures Hmac(key, m) == Digest(XorAll(BlockKey(key), 0x5c) + Digest(XorAll(BlockKey(key), 0x36) + m))
  {
  }

  // memcpy(dst + at, src, |src|)
  method CopyInto(dst: array<u8>, at: nat, src: seq<u8>)
    requires at + |src| <= dst.Length
    modifies dst
    ensures dst[..] == old(dst[..at]) + src + old(dst[at + |src|..])
  {
    ghost var was := dst[..];
    for i := 0 to |src|
      invariant forall j :: 0 <= j < i ==> dst[at + j] == src[j]
      invariant forall j :: 0 <= j < dst.Length && (j < at || at + i <= j) ==> dst[j] == was[j]
    {
      dst[at + i] := src[i];
    }
  }

  // Section 2.2 of RFC 5869
  function Extract(salt: seq<u8>, ikm: seq<u8>): (prk: seq<u8>)
    ensures |prk| == 32
  {
    Hmac(if |salt| > 0 then salt else Zeros(32), ikm)
  }

  // T(n) of section 2.3: T(0) is empty, T(n) = HMAC(PRK, T(n-1) | info | n)
  function T(prk: seq<u8>, info: seq<u8>, n: nat): (t: seq<u8>)
    requires n <= 255
    ensures |t| == if n == 0 then 0 else 32
  {
    hide Hmac;
    if n == 0 then [] else NextT(prk, T(prk, info, n - 1), info, n)
  }

  function NextT(prk: seq<u8>, t: seq<u8>, info: seq<u8>, ctr: u8): (next: seq<u8>)
    ensures |next| == 32
  {
    Hmac(prk, t + info + [ctr])
  }

  // T(1) | T(2) | ... | T(n)
  function Okm(prk: seq<u8>, info: seq<u8>, n: nat): (o: seq<u8>)
    requires n <= 255
    ensures |o| == 32 * n
  {
    if n == 0 then [] else Okm(prk, info, n - 1) + T(prk, info, n)
  }

  function Hkdf(ikm: seq<u8>, salt: seq<u8>, info: seq<u8>, size: nat): (o: seq<u8>)
    requires size <= 255 * 32
    ensures |o| == size
  {
    Okm(Extract(salt, ikm), info, (size + 31) / 32)[..size]
  }

  // T(n) = HMAC(prk, T(n-1) | info | n), assembled in a 288-byte block.
  method ExpandBlock(prk: seq<u8>, t: seq<u8>, info: seq<u8>, ctr: u8) returns (next: seq<u8>)
    requires |t| <= 32 && |info| <= 255
    ensures next == NextT(prk, t, info, ctr)
  {
    hide Hmac;
    var block := new u8[32 + 255 + 1];
    var bl := 0;
    if |t| > 0 {
      CopyInto(block, 0, t);
      bl := bl + |t|;
    }
    assert block[..bl] == t;
    if |info| > 0 {
      CopyInto(block, bl, info);
      bl := bl + |info|;
    }
    assert block[..bl] == t + info;
    block[bl] := ctr;
    bl := bl + 1;
    assert block[..bl] == t + info + [ctr];
    next := HmacSha256(prk, block[..bl]);
  }

  // The first n bytes of round r, after the rounds before it
  lemma NextBytes(prk: seq<u8>, info: seq<u8>, r: nat, n: nat)
    requires 1 <= r <= 255 && 0 < n <= 32
    ensures T(prk, info, r) == NextT(prk, T(prk, info, r - 1), info, r)
    ensures Okm(prk, info, r)[..32 * (r - 1) + n] == Okm(prk, info, r - 1) + T(prk, info, r)[..n]
    ensures Okm(prk, info, r - 1)[..32 * (r - 1)] == Okm(prk, info, r - 1)
    ensures (32 * (r - 1) + n + 31) / 32 == r
  {
    hide Hmac;
  }

  lemma NoRoundsOf(prk: seq<u8>, info: seq<u8>)
    ensures T(prk, info, 0) == [] && Okm(prk, info, 0) == []
  {
  }

  // sl2_hkdf_sha256: the counter byte never repeats and the 288-byte block is never overrun.
  method HkdfSha256(ikm: seq<u8>, salt: seq<u8>, info: seq<u8>, out: array<u8>, size: nat)
    requires size <= 255 * 32 && size <= out.Length && |info| <= 255
    modifies out
    ensures out[..size] == Hkdf(ikm, salt, info, size)
    ensures out[size..] == old(out[size..])
  {
    hide Hmac, Okm;
    var zero := Zeros(32);
    var prk := HmacSha256(if |salt| > 0 then salt else zero, ikm);
    Expand(prk, info, out, size);
  }

  // The expand loop of sl2_hkdf_sha256
  method Expand(prk: seq<u8>, info: seq<u8>, out: array<u8>, size: nat)
    requires size <= 255 * 32 && size <= out.Length && |info| <= 255
    modifies out
    ensures out[..size] == Okm(prk, info, (size + 31) / 32)[..size]
    ensures out[size..] == old(out[size..])
  {
    hide Hmac, NextT, T, Okm;
    var t: seq<u8> := [];
    var done := 0;
    var ctr: u8 := 1;
    ghost var rounds := 0;
    NoRoundsOf(prk, info);
    while done < size
      invariant done <= size && rounds <= 255 && rounds == (done + 31) / 32
      invariant done < size ==> done == 32 * rounds && ctr == rounds + 1
      invariant t == T(prk, info, rounds)
      invariant out[..done] == Okm(prk, info, rounds)[..done]
      invariant out[size..] == old(out[size..])
    {
      t := ExpandBlock(prk, t, info, ctr);
      rounds := rounds + 1;
      var n := if size - done < 32 then size - done else 32;
      NextBytes(prk, info, rounds, n);
      ghost var before, tail := out[..done], out[size..];
      CopyInto(out, done, t[..n]);
      assert out[..done + n] == before + t[..n] && out[size..] == tail;
      done := done + n;
      ctr := (ctr + 1) % 0x100;
    }
  }
}
