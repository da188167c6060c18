// What FIPS 180-4 fixes of the two hash functions besides their constants: the word functions, the first step on the
// message of its examples, the padding, and the byte order.
module ShaStandard {
  import opened Words
  import Sha512
  import Sha256

  // --- Word functions (sections 4.1.2 and 4.1.3) ---

  // The truth tables of choice and majority: one bit of each word for each of the eight cases
  lemma TruthTables()
    ensures Sha512.Ch(0xF0, 0xCC, 0xAA) == 0xCA && Sha512.Maj(0xF0, 0xCC, 0xAA) == 0xE8
    ensures Sha256.Ch(0xF0, 0xCC, 0xAA) == 0xCA && Sha256.Maj(0xF0, 0xCC, 0xAA) == 0xE8
  {
  }

  // Where the mixing functions send one bit: from the top one every rotation and shift shows.
  lemma Mixing512()
    ensures Sha512.BigSigma0(0x0000000000000001) == 0x0000001042000000
    ensures Sha512.BigSigma1(0x0000000000000001) == 0x0004400000800000
    ensures Sha512.LitSigma0(0x8000000000000000) == 0x4180000000000000 && Sha512.LitSigma0(0x0000000000000001) == 0x8100000000000000
    ensures Sha512.LitSigma1(0x8000000000000000) == 0x0200100000000004 && Sha512.LitSigma1(0x0000000000000001) == 0x0000200000000008
  {
  }

  lemma Mixing256()
    ensures Sha256.BigSigma0(0x00000001) == 0x40080400
    ensures Sha256.BigSigma1(0x00000001) == 0x04200080
    ensures Sha256.LitSigma0(0x80000000) == 0x11002000 && Sha256.LitSigma0(0x00000001) == 0x02004000
    ensures Sha256.LitSigma1(0x80000000) == 0x00205000 && Sha256.LitSigma1(0x00000001) == 0x0000a000
  {
  }

  // --- The first step on the message "abc" ---

  const ABC: seq<u8> := [0x61, 0x62, 0x63]

  lemma FirstWords()
    ensures Sha512.WordAt(ABC + [0x80, 0, 0, 0, 0], 0) == 0x6162638000000000
    ensures Sha256.WordAt(ABC + [0x80], 0) == 0x61626380
  {
  }

  lemma FirstStep512()
    ensures var v := Sha512.Round(Sha512.Start(Sha512.IV), 0x428a2f98d728ae22, 0x6162638000000000);
            v.a == 0xf6afceb8bcfcddf5 && v.e == 0x58cb02347ab51f91
            && [v.b, v.c, v.d] == Sha512.IV[..3] && [v.f, v.g, v.h] == Sha512.IV[4..7]
  {
    hide Sha512.BigSigma0, Sha512.BigSigma1, Sha512.Ch, Sha512.Maj, Sha512.Add;
    Parts512();
    Sums512();
    assert Sha512.Start(Sha512.IV) == Sha512.Vars(0x6a09e667f3bcc908, 0xbb67ae8584caa73b, 0x3c6ef372fe94f82b, 0xa54ff53a5f1d36f1,
                                         0x510e527fade682d1, 0x9b05688c2b3e6c1f, 0x1f83d9abfb41bd6b, 0x5be0cd19137e2179);
  }

  lemma Sums512()
    ensures Sha512.Add(Sha512.Add(Sha512.Add(Sha512.Add(0x5be0cd19137e2179, 0x9427e33bb5c9dbca), 0x1f85c98c7b273d3b),
                                  0x428a2f98d728ae22), 0x6162638000000000) == 0xb37b0cfa1b97e8a0
    ensures Sha512.Add(0x08c4db56aac80c2a, 0x3a6fe667f69ce92b) == 0x4334c1bea164f555
    ensures Sha512.Add(0xb37b0cfa1b97e8a0, 0x4334c1bea164f555) == 0xf6afceb8bcfcddf5
    ensures Sha512.Add(0xa54ff53a5f1d36f1, 0xb37b0cfa1b97e8a0) == 0x58cb02347ab51f91
  {
  }

  lemma Parts512()
    ensures Sha512.BigSigma1(0x510e527fade682d1) == 0x9427e33bb5c9dbca
    ensures Sha512.BigSigma0(0x6a09e667f3bcc908) == 0x08c4db56aac80c2a
    ensures Sha512.Ch(0x510e527fade682d1, 0x9b05688c2b3e6c1f, 0x1f83d9abfb41bd6b) == 0x1f85c98c7b273d3b
    ensures Sha512.Maj(0x6a09e667f3bcc908, 0xbb67ae8584caa73b, 0x3c6ef372fe94f82b) == 0x3a6fe667f69ce92b
  {
  }

  lemma FirstStep256()
    ensures var v := Sha256.Round(Sha256.Start(Sha256.IV), 0x428a2f98, 0x61626380);
            v.a == 0x5d6aebcd && v.e == 0xfa2a4622
            && [v.b, v.c, v.d] == Sha256.IV[..3] && [v.f, v.g, v.h] == Sha256.IV[4..7]
  {
    hide Sha256.BigSigma0, Sha256.BigSigma1, Sha256.Ch, Sha256.Maj, Sha256.Add;
    Parts256();
    Sums256();
    assert Sha256.Start(Sha256.IV) == Sha256.Vars(0x6a09e667, 0xbb67ae85, 0x3c6ef372, 0xa54ff53a,
                                         0x510e527f, 0x9b05688c, 0x1f83d9ab, 0x5be0cd19);
  }

  lemma Sums256()
    ensures Sha256.Add(Sha256.Add(Sha256.Add(Sha256.Add(0x5be0cd19, 0x3587272b), 0x1f85c98c),
                                  0x428a2f98), 0x61626380) == 0x54da50e8
    ensures Sha256.Add(0xce20b47e, 0x3a6fe667) == 0x08909ae5
    ensures Sha256.Add(0x54da50e8, 0x08909ae5) == 0x5d6aebcd
    ensures Sha256.Add(0xa54ff53a, 0x54da50e8) == 0xfa2a4622
  {
  }

  lemma Parts256()
    ensures Sha256.BigSigma1(0x510e527f) == 0x3587272b
    ensures Sha256.BigSigma0(0x6a09e667) == 0xce20b47e
    ensures Sha256.Ch(0x510e527f, 0x9b05688c, 0x1f83d9ab) == 0x1f85c98c
    ensures Sha256.Maj(0x6a09e667, 0xbb67ae85, 0x3c6ef372) == 0x3a6fe667
  {
  }

  // All the rounds are run, and each word of the state is added to what comes out of them.
  lemma FeedsForward512(h: seq<u64>, b: seq<u64>, i: nat)
    requires |h| == 8 && |b| == 16 && i < 8
    ensures var v := Sha512.Rounds(Sha512.Vars(h[0], h[1], h[2], h[3], h[4], h[5], h[6], h[7]), b, 80);
            Sha512.Compress(h, b)[i] as int
            == (h[i] as int + [v.a, v.b, v.c, v.d, v.e, v.f, v.g, v.h][i] as int) % Sha512.TWO64
  {
    hide Sha512.Rounds;
  }

  lemma FeedsForward256(h: seq<u32>, b: seq<u8>, i: nat)
    requires |h| == 8 && |b| == 64 && i < 8
    ensures var v := Sha256.Rounds(Sha256.Vars(h[0], h[1], h[2], h[3], h[4], h[5], h[6], h[7]), b, 64);
            Sha256.Compress(h, b)[i] as int == (h[i] as int + [v.a, v.b, v.c, v.d, v.e, v.f, v.g, v.h][i] as int) % B32
  {
    hide Sha256.Rounds;
  }

  // --- Padding and byte order (sections 5.1 and 6) ---

  // What a padded message is: the message, a one bit, as few zeros as fill a block, and the length in bits.
  predicate Padded(m: seq<u8>, p: seq<u8>, block: nat, tail: nat)
    requires block > 0
  {
    && |p| % block == 0 && |m| + 1 + tail <= |p| < |m| + 1 + tail + block
    && p[..|m|] == m && p[|m|] == 0x80 && forall i :: |m| < i < |p| - tail ==> p[i] == 0
  }

  lemma PaddedIs(m: seq<u8>, zeros: nat, length: seq<u8>, block: nat)
    requires zeros < block && (|m| + 1 + zeros + |length|) % block == 0
    ensures Padded(m, m + [0x80] + Zeros(zeros) + length, block, |length|)
  {
    var p := m + [0x80] + Zeros(zeros) + length;
    forall i | |m| < i < |p| - |length|
      ensures p[i] == 0
    {
      assert p[i] == Zeros(zeros)[i - |m| - 1];
    }
  }

  lemma Padding512(m: seq<u8>)
    ensures var p := Sha512.Pad(m);
            && Padded(m, p, 128, 16)
            && Sha512.WordAt(p, |p| / 8 - 2) as int * Sha512.TWO64 + Sha512.WordAt(p, |p| / 8 - 1) as int == 8 * |m| % Sha512.TWO128
  {
    hide Sha512.Store64, Sha512.WordAt, Padded;
    var bits := 8 * |m|;
    var hi: u64, lo: u64 := bits / Sha512.TWO64 % Sha512.TWO64, bits % Sha512.TWO64;
    var zeros := (239 - |m| % 128) % 128;
    var body := m + [0x80] + Zeros(zeros);
    Sha512.PadLength(|m|);
    LastWords512(body, hi, lo);
    PaddedIs(m, zeros, Sha512.Store64(hi) + Sha512.Store64(lo), 128);
    Joined(m, [0x80], Zeros(zeros), Sha512.Store64(hi), Sha512.Store64(lo));
    TwoWords(bits);
  }

  lemma Joined(m: seq<u8>, a: seq<u8>, z: seq<u8>, x: seq<u8>, y: seq<u8>)
    ensures m + (a + z + x + y) == m + a + z + x + y == m + a + z + (x + y)
  {
  }

  lemma Padding256(m: seq<u8>)
    ensures var p := Sha256.Pad(m);
            && Padded(m, p, 64, 8)
            && Sha256.WordAt(p, |p| / 4 - 2) as int * B32 + Sha256.WordAt(p, |p| / 4 - 1) as int == 8 * |m| % Sha256.TWO64
  {
    hide Sha256.Length, Sha256.WordAt, Padded;
    var bits := Sha256.BitCount(|m|);
    var zeros := Sha256.PadZeros(|m|);
    var body := m + [0x80] + Zeros(zeros);
    Sha256.PadLength(|m|);
    Sha256.PadIs(m);
    LastWords256(body, bits);
    PaddedIs(m, zeros, Sha256.Length(bits), 64);
    Joined(m, [0x80], Zeros(zeros), Sha256.Length(bits), []);
    assert [0x80] + Zeros(zeros) + Sha256.Length(bits) + [] == [0x80] + Zeros(zeros) + Sha256.Length(bits);
    assert Sha256.Length(bits) + [] == Sha256.Length(bits);
  }

  lemma LastWords256(s: seq<u8>, bits: u64)
    requires (|s| + 8) % 64 == 0
    ensures var p := s + Sha256.Length(bits);
            && |p| == |s| + 8
            && Sha256.WordAt(p, |p| / 4 - 2) as int * B32 + Sha256.WordAt(p, |p| / 4 - 1) as int == bits
  {
    hide Sha256.Length;
    var p, l := s + Sha256.Length(bits), Sha256.Length(bits);
    var w := |p| / 4;
    assert p[4 * (w - 2)] == l[0] && p[4 * (w - 2) + 1] == l[1] && p[4 * (w - 2) + 2] == l[2] && p[4 * (w - 2) + 3] == l[3];
    assert p[4 * (w - 1)] == l[4] && p[4 * (w - 1) + 1] == l[5] && p[4 * (w - 1) + 2] == l[6] && p[4 * (w - 1) + 3] == l[7];
    LengthSpells(bits);
  }

  lemma LengthSpells(bits: u64)
    ensures var l := Sha256.Length(bits);
            Sha256.WordAt(l, 0) as int * B32 + Sha256.WordAt(l, 1) as int == bits
  {
    hide Sha256.Octet, Above;
    OctetIs(bits, 0);
    OctetIs(bits, 1);
    OctetIs(bits, 2);
    OctetIs(bits, 3);
    OctetIs(bits, 4);
    OctetIs(bits, 5);
    OctetIs(bits, 6);
    OctetIs(bits, 7);
    AboveAll(bits);
  }

  // The number that byte i and those before it spell
  function Above(bits: u64, i: nat): nat
    requires i < 8
    decreases 8 - i
  {
    if i == 7 then bits else Above(bits, i + 1) / 0x100
  }

  lemma AboveAll(bits: u64)
    ensures Above(bits, 7) == bits
  {
  }

  lemma OctetIs(bits: u64, i: nat)
    requires i < 8
    ensures Sha256.Octet(bits, i) == Above(bits, i) - (if i == 0 then 0 else 0x100 * Above(bits, i - 1))
  {
    AboveIs(bits, i);
    hide Above;
  }

  lemma AboveIs(bits: u64, i: nat)
    requires i < 8
    ensures i > 0 ==> Above(bits, i - 1) == Above(bits, i) / 0x100
    ensures Above(bits, i)
            == if i == 0 then bits / 0x100_0000_0000_0000 else if i == 1 then bits / 0x1_0000_0000_0000
               else if i == 2 then bits / 0x100_0000_0000 else if i == 3 then bits / 0x1_0000_0000
               else if i == 4 then bits / 0x100_0000 else if i == 5 then bits / 0x1_0000
               else if i == 6 then bits / 0x100 else bits
    decreases 8 - i
  {
    if i < 7 {
      AboveIs(bits, i + 1);
    }
  }

  lemma TwoWords(bits: nat)
    ensures bits / Sha512.TWO64 % Sha512.TWO64 * Sha512.TWO64 + bits % Sha512.TWO64 == bits % Sha512.TWO128
  {
    var q, r := bits / Sha512.TWO64, bits % Sha512.TWO64;
    var q', r' := q / Sha512.TWO64, q % Sha512.TWO64;
    assert bits == q' * Sha512.TWO128 + (r' * Sha512.TWO64 + r);
    ModUnique(bits, q', r' * Sha512.TWO64 + r, Sha512.TWO128);
  }

  lemma LastWords512(s: seq<u8>, hi: u64, lo: u64)
    requires (|s| + 16) % 128 == 0
    ensures var p := s + Sha512.Store64(hi) + Sha512.Store64(lo);
            |p| == |s| + 16 && Sha512.WordAt(p, |p| / 8 - 2) == hi && Sha512.WordAt(p, |p| / 8 - 1) == lo
  {
    hide Sha512.Store64, Sha512.WordAt;
    var p := s + Sha512.Store64(hi) + Sha512.Store64(lo);
    var w := |p| / 8;
    assert Sha512.Bytes8(p, w - 2) == Sha512.Store64(hi);
    assert Sha512.Bytes8(p, w - 1) == Sha512.Store64(lo);
    Sha512.BytesSpell(p, w - 2);
    Sha512.BytesSpell(p, w - 1);
  }

  // A digest is its words in order, most significant byte first.
  lemma Digests(h: seq<u64>, g: seq<u32>, i: nat)
    requires |h| == |g| == 8 && i < 8
    ensures |Sha512.Serialize(h)| == 64 && Sha512.WordAt(Sha512.Serialize(h), i) == h[i]
    ensures Sha256.WordAt(Sha256.Serialize(g), i) == g[i]
  {
    hide Sha512.Store64, Sha512.WordAt, Sha256.Store32Be;
    var s := Sha512.Serialize(h);
    assert Sha512.Bytes8(s, i) == Sha512.Store64(h[i]);
    Sha512.BytesSpell(s, i);
    var z, w := Sha256.Serialize(g), Sha256.Store32Be(g[i]);
    assert z[4 * i] == w[0] && z[4 * i + 1] == w[1] && z[4 * i + 2] == w[2] && z[4 * i + 3] == w[3];
  }
}
