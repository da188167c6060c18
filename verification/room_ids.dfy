// The 64-bit name of a room source: a namespace in the top byte, and a Link's address in the low six.
module RoomIds {
  import opened Words
  import opened Bonds

  type Mac = m: seq<u8> | |m| == 6 witness [0, 0, 0, 0, 0, 0]

  const NO_MAC: Mac := [0, 0, 0, 0, 0, 0]
  const INTERNAL_ID: u64 := 0
  const NS_LINK: u8 := 1
  const AUTO_ID: u64 := 3 * 0x100_0000_0000_0000

  // The number a byte string spells, most significant byte first
  function Number(s: seq<u8>): nat {
    if s == [] then 0 else Number(s[..|s| - 1]) * 0x100 + s[|s| - 1]
  }

  // The n low bytes of a number, most significant first
  function Digits(x: nat, n: nat): (s: seq<u8>)
    ensures |s| == n
  {
    if n == 0 then [] else Digits(x / 0x100, n - 1) + [x % 0x100]
  }

  lemma {:induction false} DigitsNumber(s: seq<u8>)
    ensures Digits(Number(s), |s|) == s
  {
    if s != [] {
      var rest := s[..|s| - 1];
      DigitsNumber(rest);
      assert s == rest + [s[|s| - 1]];
    }
  }

  lemma {:induction false} NumberBound(s: seq<u8>)
    ensures |s| <= 8 ==> Number(s) < Pow256(|s|)
  {
    if s != [] {
      NumberBound(s[..|s| - 1]);
    }
  }

  function Pow256(n: nat): (p: nat)
    ensures p > 0
  {
    if n == 0 then 1 else 0x100 * Pow256(n - 1)
  }

  lemma {:induction false} NumberDigits(x: nat, n: nat)
    requires x < Pow256(n)
    ensures Number(Digits(x, n)) == x
  {
    if n > 0 {
      NumberDigits(x / 0x100, n - 1);
      assert Digits(x, n)[..n - 1] == Digits(x / 0x100, n - 1);
    }
  }

  lemma EightBytes()
    ensures Pow256(8) == 0x1_0000_0000_0000_0000
  {
    assert Pow256(4) == 0x1_0000_0000;
    assert Pow256(8) == 0x1_0000_0000 * Pow256(4);
  }

  // An id as its eight bytes
  function Bytes(id: u64): (s: seq<u8>)
    ensures |s| == 8
  {
    Digits(id, 8)
  }

  // What sl2_room_source_mac_id spells: the namespace, a zero, the address
  function MacId(ns: u8, mac: Mac): (id: u64)
    ensures Bytes(id) == [ns, 0] + mac
  {
    hide Number, Digits;
    var s := [ns, 0] + mac;
    NumberBound(s);
    EightBytes();
    DigitsNumber(s);
    Number(s)
  }

  // What sl2_room_source_id_mac reads back
  function MacOfId(id: u64, ns: u8): Option<Mac> {
    if Bytes(id)[0] == ns then Some(Bytes(id)[2..]) else None
  }

  // Reading back what was written
  lemma MacRoundTrip(ns: u8, mac: Mac, other: u8)
    ensures MacOfId(MacId(ns, mac), other) == if other == ns then Some(mac) else None
  {
    hide Bytes;
    assert ([ns, 0] + mac)[2..] == mac;
  }

  lemma BytesUnique(a: u64, b: u64)
    requires Bytes(a) == Bytes(b)
    ensures a == b
  {
    hide Number, Digits;
    EightBytes();
    NumberDigits(a, 8);
    NumberDigits(b, 8);
  }

  // The source calls the reading the exact inverse of the writing. It is for the ids whose second byte is zero, and for
  // no other: any id of the namespace reads as some address.
  lemma MacOfIdInverse(id: u64, ns: u8)
    requires MacOfId(id, ns).Some?
    ensures MacId(ns, MacOfId(id, ns).value) == id <==> Bytes(id)[1] == 0
  {
    hide Bytes, MacId;
    var mac := MacOfId(id, ns).value;
    assert Bytes(id) == [Bytes(id)[0], Bytes(id)[1]] + Bytes(id)[2..];
    WrittenBytes(ns, mac);
    if Bytes(id)[1] == 0 {
      BytesUnique(MacId(ns, mac), id);
    }
  }

  lemma WrittenBytes(ns: u8, mac: Mac)
    ensures Bytes(MacId(ns, mac)) == [ns, 0] + mac
    ensures ([ns, 0] + mac)[1] == 0
  {
    hide Bytes;
  }

  lemma MacIdUnique(ns: u8, a: Mac, b: Mac)
    requires MacId(ns, a) == MacId(ns, b)
    ensures a == b
  {
    hide Bytes, MacId;
    MacRoundTrip(ns, a, ns);
    MacRoundTrip(ns, b, ns);
  }

  lemma MacIdKind(mac: Mac)
    ensures MacId(NS_LINK, mac) != INTERNAL_ID && MacId(NS_LINK, mac) != AUTO_ID
  {
    hide MacId;
    WrittenBytes(NS_LINK, mac);
    assert ([NS_LINK, 0] + mac)[0] == 1;
    assert Bytes(0)[0] == 0;
    AutoBytes();
  }

  lemma AutoBytes()
    ensures Bytes(AUTO_ID)[0] == 3
  {
    TopByte(3, 7);
    assert Pow256(3) == 0x100_0000;
    assert Pow256(7) == 0x1_0000_0000 * Pow256(3);
    DigitsNumber([3] + seq(7, _ => 0));
  }

  lemma {:induction false} TopByte(b: u8, k: nat)
    ensures Number([b] + seq(k, _ => 0)) == b * Pow256(k)
  {
    var s: seq<u8> := [b] + seq(k, _ => 0);
    if k == 0 {
      assert s == [b];
      assert s[..0] == [];
    } else {
      TopByte(b, k - 1);
      assert s[..k] == [b] + seq(k - 1, _ => 0);
    }
  }

  lemma {:induction false} DigitAt(x: nat, n: nat, j: nat)
    requires j < n
    ensures Digits(x, n)[j] == x / Pow256(n - 1 - j) % 0x100
  {
    if j < n - 1 {
      DigitAt(x / 0x100, n - 1, j);
      DivTwice(x, Pow256(n - 2 - j));
    }
  }

  lemma DivTwice(x: nat, p: nat)
    requires p > 0
    ensures x / 0x100 / p == x / (0x100 * p)
  {
    var q := x / 0x100 / p;
    var r := x / 0x100 - q * p;
    assert x == 0x100 * (q * p + r) + x % 0x100;
    assert 0x100 * (q * p) == q * (0x100 * p);
    DivUnique(x, 0x100 * p, q, 0x100 * r + x % 0x100);
  }

  lemma DivUnique(x: nat, d: nat, q: nat, r: nat)
    requires d > 0 && x == q * d + r && r < d
    ensures x / d == q
  {
    ModUnique(x, q, r, d);
    assert (x / d - q) * d == 0;
  }

  // sl2_room_source_mac_id: each byte is put in its place.
  method WriteId(ns: u8, mac: Mac) returns (id: u64)
    ensures id == MacId(ns, mac)
  {
    hide Number, Pow256, MacId, Bytes;
    var sum: nat := ns * 0x100_0000_0000_0000;
    Start(ns);
    for i := 0 to 6
      invariant sum == Number([ns, 0] + mac[..i]) * Pow256(6 - i)
    {
      NextByte([ns, 0] + mac[..i], mac[i], 5 - i);
      assert [ns, 0] + mac[..i] + [mac[i]] == [ns, 0] + mac[..i + 1];
      sum := sum + mac[i] * Pow256(5 - i);
    }
    assert mac[..6] == mac;
    Spelled(sum, ns, mac);
    id := sum;
  }

  lemma Start(ns: u8)
    ensures ns * 0x100_0000_0000_0000 == Number([ns, 0] + []) * Pow256(6)
  {
    NsNumber(ns);
    assert [ns, 0] + [] == [ns, 0];
    assert Pow256(3) == 0x100_0000;
    assert Pow256(6) == 0x100_0000 * Pow256(3);
  }

  lemma NextByte(s: seq<u8>, b: u8, k: nat)
    ensures Number(s + [b]) * Pow256(k) == Number(s) * Pow256(k + 1) + b * Pow256(k)
  {
    assert (s + [b])[..|s|] == s;
    assert (Number(s) * 0x100 + b) * Pow256(k) == Number(s) * (0x100 * Pow256(k)) + b * Pow256(k);
  }

  lemma Spelled(sum: nat, ns: u8, mac: Mac)
    requires sum == Number([ns, 0] + mac) * Pow256(0)
    ensures sum < 0x1_0000_0000_0000_0000 && sum == MacId(ns, mac)
  {
    hide Number, MacId, Digits;
    EightBytes();
    NumberBound([ns, 0] + mac);
    DigitsNumber([ns, 0] + mac);
    BytesUnique(sum, MacId(ns, mac));
  }

  lemma NsNumber(ns: u8)
    ensures Number([ns, 0]) == ns * 0x100
  {
    assert [ns, 0][..1] == [ns];
    assert [ns][..0] == [];
    assert Number([ns]) == ns;
  }

  // sl2_room_source_id_mac: the address, if the id is of the namespace
  method ReadId(id: u64, ns: u8) returns (mac: Option<Mac>)
    ensures mac == MacOfId(id, ns)
  {
    hide Digits;
    DigitAt(id, 8, 0);
    if id / Pow256(7) % 0x100 != ns {
      return None;
    }
    var bytes: seq<u8> := [];
    for i := 0 to 6
      invariant bytes == Bytes(id)[2..2 + i]
    {
      DigitAt(id, 8, 2 + i);
      bytes := bytes + [id / Pow256(5 - i) % 0x100];
    }
    assert bytes == Bytes(id)[2..];
    mac := Some(bytes);
  }
}
