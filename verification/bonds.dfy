// The stored bond table: a format byte, a count, and one 62-byte record per dial.
module Bonds {
  import opened Words

  const MAX_DIALS := 4
  const FMT: u8 := 2
  const REC_SIZE := 62
  const BLOB_MAX := 2 + MAX_DIALS * REC_SIZE

  datatype Option<+T> = None | Some(value: T)

  // The durable epoch latch is bit 0 of flags.
  datatype Bond = Bond(mac: seq<u8>, lmk: seq<u8>, idPub: seq<u8>, flags: u8, reserved: seq<u8>)

  predicate Sized(b: Bond) {
    |b.mac| == 6 && |b.lmk| == 16 && |b.idPub| == 32 && |b.reserved| == 7
  }

  predicate AllSized(recs: seq<Bond>) {
    forall i :: 0 <= i < |recs| ==> Sized(recs[i])
  }

  function Record(b: Bond): (s: seq<u8>)
    ensures Sized(b) ==> |s| == REC_SIZE
  {
    b.mac + b.lmk + b.idPub + [b.flags] + b.reserved
  }

  function Parse(s: seq<u8>): (b: Bond)
    requires |s| == REC_SIZE
    ensures Sized(b)
  {
    Bond(s[0..6], s[6..22], s[22..54], s[54], s[55..62])
  }

  // Where each field of a record is
  lemma RecordLayout(b: Bond)
    requires Sized(b)
    ensures var s := Record(b);
            && |s| == 62 && s[..6] == b.mac && s[6..22] == b.lmk && s[22..54] == b.idPub && s[54] == b.flags && s[55..] == b.reserved
  {
  }

  lemma ParseRecord(b: Bond)
    requires Sized(b)
    ensures Parse(Record(b)) == b
  {
    var s := Record(b);
    assert s[0..6] == b.mac;
    assert s[6..22] == b.lmk;
    assert s[22..54] == b.idPub;
    assert s[55..62] == b.reserved;
  }

  lemma RecordParse(s: seq<u8>)
    requires |s| == REC_SIZE
    ensures Record(Parse(s)) == s
  {
    assert s == s[0..6] + s[6..22] + s[22..54] + [s[54]] + s[55..62];
  }

  function Records(recs: seq<Bond>): seq<u8> {
    if recs == [] then [] else Record(recs[0]) + Records(recs[1..])
  }

  function ParseAll(s: seq<u8>, n: nat): (recs: seq<Bond>)
    requires |s| >= n * REC_SIZE
    ensures |recs| == n && AllSized(recs)
  {
    if n == 0 then [] else [Parse(s[..REC_SIZE])] + ParseAll(s[REC_SIZE..], n - 1)
  }

  function Encode(recs: seq<Bond>): seq<u8>
    requires |recs| <= MAX_DIALS
  {
    [FMT, |recs|] + Records(recs)
  }

  function Decode(blob: seq<u8>): Option<seq<Bond>> {
    if |blob| < 2 || blob[0] != FMT || blob[1] > MAX_DIALS || |blob| < 2 + blob[1] * REC_SIZE then None
    else Some(ParseAll(blob[2..], blob[1]))
  }

  lemma {:induction false} RecordsSize(recs: seq<Bond>)
    requires AllSized(recs)
    ensures |Records(recs)| == |recs| * REC_SIZE
  {
    if recs != [] {
      RecordsSize(recs[1..]);
    }
  }

  lemma {:induction false} ParseRecords(recs: seq<Bond>, tail: seq<u8>)
    requires AllSized(recs)
    ensures |Records(recs) + tail| >= |recs| * REC_SIZE
    ensures ParseAll(Records(recs) + tail, |recs|) == recs
  {
    RecordsSize(recs);
    if recs != [] {
      RecordsSize(recs[1..]);
      var s := Records(recs) + tail;
      assert s[..REC_SIZE] == Record(recs[0]);
      assert s[REC_SIZE..] == Records(recs[1..]) + tail;
      ParseRecord(recs[0]);
      ParseRecords(recs[1..], tail);
    }
  }

  lemma {:induction false} RecordsParse(s: seq<u8>, n: nat)
    requires |s| >= n * REC_SIZE
    ensures Records(ParseAll(s, n)) == s[..n * REC_SIZE]
  {
    if n > 0 {
      RecordParse(s[..REC_SIZE]);
      RecordsParse(s[REC_SIZE..], n - 1);
      assert ParseAll(s, n)[1..] == ParseAll(s[REC_SIZE..], n - 1);
      assert s[..n * REC_SIZE] == s[..REC_SIZE] + s[REC_SIZE..][..(n - 1) * REC_SIZE];
    }
  }

  // What is saved is what is loaded, whatever follows it in the buffer.
  lemma DecodeEncode(recs: seq<Bond>, tail: seq<u8>)
    requires |recs| <= MAX_DIALS && AllSized(recs)
    ensures Decode(Encode(recs) + tail) == Some(recs)
  {
    var blob := Encode(recs) + tail;
    RecordsSize(recs);
    assert blob[2..] == Records(recs) + tail;
    ParseRecords(recs, tail);
  }

  // Every accepted blob is the encoding of what it decodes to, up to bytes past the last record.
  lemma EncodeDecode(blob: seq<u8>)
    requires Decode(blob).Some?
    ensures var recs := Decode(blob).value;
            |recs| <= MAX_DIALS && AllSized(recs) && Encode(recs) == blob[..2 + |recs| * REC_SIZE]
  {
    var n := blob[1];
    RecordsParse(blob[2..], n);
    assert blob[..2 + n * REC_SIZE] == [blob[0], blob[1]] + blob[2..][..n * REC_SIZE];
  }

  lemma EncodeLength(recs: seq<Bond>)
    requires |recs| <= MAX_DIALS && AllSized(recs)
    ensures |Encode(recs)| == 2 + |recs| * REC_SIZE <= BLOB_MAX
  {
    RecordsSize(recs);
  }

  // sl2_bonds_encode: zero, and an untouched buffer, when the count is out of range or the buffer too small.
  method BondsEncode(recs: seq<Bond>, n: int, blob: array<u8>) returns (need: nat)
    requires n <= |recs| && AllSized(recs)
    modifies blob
    ensures need == 0 <==> n < 0 || n > MAX_DIALS || blob.Length < 2 + n * REC_SIZE
    ensures need == 0 ==> blob[..] == old(blob[..])
    ensures need > 0 ==> need == 2 + n * REC_SIZE <= blob.Length
    ensures need > 0 ==> blob[..] == Encode(recs[..n]) + old(blob[..])[need..]
  {
    if n < 0 || n > MAX_DIALS {
      return 0;
    }
    need := 2 + n * REC_SIZE;
    if blob.Length < need {
      return 0;
    }
    RecordsSize(recs[..n]);
    var bytes := Records(recs[..n]);
    blob[0] := FMT;
    blob[1] := n;
    for i := 0 to |bytes|
      invariant blob[0] == FMT && blob[1] == n
      invariant forall j :: 0 <= j < i ==> blob[2 + j] == bytes[j]
      invariant forall j :: 2 + i <= j < blob.Length ==> blob[j] == old(blob[j])
    {
      blob[2 + i] := bytes[i];
    }
  }

  lemma ParseNext(s: seq<u8>, n: nat)
    requires n > 0 && |s| >= n * REC_SIZE
    ensures ParseAll(s, n) == [Parse(s[..REC_SIZE])] + ParseAll(s[REC_SIZE..], n - 1)
  {
  }

  // sl2_bonds_decode: -1 for a wrong format, an impossible count or short data.
  method BondsDecode(blob: seq<u8>, out: array<Bond>) returns (n: int)
    requires out.Length == MAX_DIALS
    modifies out
    ensures n == -1 <==> Decode(blob).None?
    ensures n == -1 ==> out[..] == old(out[..])
    ensures n != -1 ==> n == |Decode(blob).value| <= MAX_DIALS
    ensures n != -1 ==> out[..n] == Decode(blob).value && out[n..] == old(out[n..])
  {
    hide ParseAll;
    if |blob| < 2 || blob[0] != FMT {
      return -1;
    }
    var count := blob[1];
    if count > MAX_DIALS {
      return -1;
    }
    if |blob| < 2 + count * REC_SIZE {
      return -1;
    }
    ParseInto(blob[2..], count, out);
    n := count;
  }

  // The records at the front of s, one slot each
  method ParseInto(s: seq<u8>, n: nat, out: array<Bond>)
    requires n * REC_SIZE <= |s| && n <= out.Length
    modifies out
    ensures out[..n] == ParseAll(s, n) && out[n..] == old(out[n..])
  {
    hide Parse, ParseAll, AllSized;
    ghost var recs := ParseAll(s, n);
    var rest := s;
    for i := 0 to n
      invariant |rest| >= (n - i) * REC_SIZE && recs[i..] == ParseAll(rest, n - i)
      invariant forall j :: 0 <= j < i ==> out[j] == recs[j]
      invariant forall j :: i <= j < out.Length ==> out[j] == old(out[j])
    {
      ParseNext(rest, n - i);
      assert recs[i..][0] == recs[i] && recs[i..][1..] == recs[i + 1..];
      out[i] := Parse(rest[..REC_SIZE]);
      rest := rest[REC_SIZE..];
    }
  }
}
