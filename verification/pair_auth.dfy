// Key confirmation for pairing: a packet type, the protocol version and an HMAC over both ends' addresses.
module PairAuth {
  import opened Words
  import Sha256

  const VERSION: u8 := 5
  const MIN_LEN := 34

  // "SLv5-pair-auth"
  const DOMAIN: seq<u8> := [83, 76, 118, 53, 45, 112, 97, 105, 114, 45, 97, 117, 116, 104]

  datatype Packet = Packet(kind: u8, version: u8, tag: seq<u8>)

  function Transcript(kind: u8, dialMac: seq<u8>, ctrlMac: seq<u8>): seq<u8> {
    DOMAIN + [kind, VERSION] + dialMac + ctrlMac
  }

  // Where each part of the transcript is
  lemma TranscriptLayout(kind: u8, dialMac: seq<u8>, ctrlMac: seq<u8>)
    requires |dialMac| == |ctrlMac| == 6
    ensures var t := Transcript(kind, dialMac, ctrlMac);
            && |t| == 28 && t[..14] == DOMAIN && t[14] == kind && t[15] == 5 && t[16..22] == dialMac && t[22..] == ctrlMac
  {
  }

  // Direction, roles and both addresses can be read back from the transcript, so no two uses share one.
  lemma TranscriptUnique(k1: u8, d1: seq<u8>, c1: seq<u8>, k2: u8, d2: seq<u8>, c2: seq<u8>)
    requires |d1| == |d2| == 6 && |c1| == |c2| == 6
    requires Transcript(k1, d1, c1) == Transcript(k2, d2, c2)
    ensures k1 == k2 && d1 == d2 && c1 == c2
  {
    var a, b := Transcript(k1, d1, c1), Transcript(k2, d2, c2);
    assert a[14] == k1 && b[14] == k2;
    assert a[16..22] == d1 && b[16..22] == d2;
    assert a[22..28] == c1 && b[22..28] == c2;
  }

  function Tag(lmk: seq<u8>, kind: u8, dialMac: seq<u8>, ctrlMac: seq<u8>): (t: seq<u8>)
    ensures |t| == 32
  {
    Sha256.Hmac(lmk, Transcript(kind, dialMac, ctrlMac))
  }

  function Make(kind: u8, lmk: seq<u8>, dialMac: seq<u8>, ctrlMac: seq<u8>): (p: Packet)
    ensures |p.tag| == 32
  {
    Packet(kind, VERSION, Tag(lmk, kind, dialMac, ctrlMac))
  }

  // sl2_pair_auth_make
  method PairAuthMake(kind: u8, lmk: seq<u8>, dialMac: seq<u8>, ctrlMac: seq<u8>) returns (p: Packet)
    requires |dialMac| == 6 && |ctrlMac| == 6
    ensures p == Make(kind, lmk, dialMac, ctrlMac)
  {
    hide Sha256.Hmac;
    var tr := new u8[28];
    Sha256.CopyInto(tr, 0, DOMAIN);
    tr[14] := kind;
    tr[15] := VERSION;
    assert tr[..16] == DOMAIN + [kind, VERSION];
    Sha256.CopyInto(tr, 16, dialMac);
    assert tr[..22] == DOMAIN + [kind, VERSION] + dialMac;
    Sha256.CopyInto(tr, 22, ctrlMac);
    assert tr[..] == Transcript(kind, dialMac, ctrlMac);
    var tag := Sha256.HmacSha256(lmk, tr[..]);
    p := Packet(kind, VERSION, tag);
  }

  // The authenticated prefix is the expected one; bytes past it are ignored.
  predicate Proves(data: seq<u8>, want: Packet)
    requires |want.tag| == 32
  {
    |data| >= MIN_LEN && data[0] == want.kind && data[1] == want.version && data[2..34] == want.tag
  }

  // sl2_pair_auth_matches: accumulates the differences of all 32 bytes before it decides. Only whether a difference
  // was seen is kept, not which bits differed.
  method PairAuthMatches(data: seq<u8>, want: Packet) returns (ok: bool)
    requires |want.tag| == 32
    ensures ok <==> Proves(data, want)
  {
    if |data| < MIN_LEN || data[0] != want.kind || data[1] != want.version {
      return false;
    }
    var diff := false;
    for i := 0 to 32
      invariant diff <==> data[2..2 + i] != want.tag[..i]
    {
      assert data[2..2 + i + 1] == data[2..2 + i] + [data[2 + i]] && want.tag[..i + 1] == want.tag[..i] + [want.tag[i]];
      diff := diff || data[2 + i] != want.tag[i];
    }
    assert want.tag[..32] == want.tag;
    ok := !diff;
  }
}
