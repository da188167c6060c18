// The radio's peers follow the bond table: between calls each bonded dial is a peer under its own key, a candidate
// under the key being confirmed, and the broadcast peer is there while pairing is open, and nobody else is.
module LinkPeers {
  import opened Words
  import opened Bonds
  import opened LinkState
  import opened WifiSession
  import opened LinkSpec
  import opened LinkFrame
  import opened LinkRun
  import opened LinkPairing
  import opened LinkTable
  import opened LinkHistory
  import opened LinkCandidate
  import PairAuth

  function OnRadio(peers: map<seq<u8>, Peer>, mac: seq<u8>): Option<Peer> {
    if mac in peers then Some(peers[mac]) else None
  }

  // The peer the core's state calls for at an address
  function PeerOf(c: Core, mac: seq<u8>): Option<Peer> {
    if mac == BCAST then if c.pairing.phase.Off? then None else Some(Plain)
    else if c.pairing.phase.Confirm? && mac == c.pairing.candMac then Some(Keyed(c.pairing.candLmk))
    else
      var i := Find(c.dials, mac);
      if i >= 0 then Some(Keyed(c.dials[i].bond.lmk)) else None
  }

  predicate NoBroadcast(c: Core) {
    && (c.pairing.phase.Confirm? ==> c.pairing.candMac != BCAST)
    && forall i :: 0 <= i < |c.dials| ==> c.dials[i].bond.mac != BCAST
  }

  // Before a start has succeeded some peers may be missing, but none is wrong.
  ghost predicate PeersOk(c: Core) {
    && NoBroadcast(c)
    && (c.started ==> forall mac :: OnRadio(c.world.peers, mac) == PeerOf(c, mac))
    && (!c.started ==> forall mac :: OnRadio(c.world.peers, mac) in {None, PeerOf(c, mac)})
  }

  // What the world is assumed to do: a peer that was there before can be put back, and no request names the broadcast
  // address.
  predicate Assumed(op: Op, env: Env) {
    env.restore && (op.Recv? && |op.data| >= 8 && op.data[0] == 4 ==> op.data[2..8] != BCAST)
  }

  lemma DelOne(c: Core, mac: seq<u8>, x: seq<u8>)
    ensures OnRadio(DelPeer(c, mac).world.peers, x) == if x == mac then None else OnRadio(c.world.peers, x)
  {
  }

  lemma AddOne(c: Core, mac: seq<u8>, peer: Peer, x: seq<u8>)
    ensures OnRadio(AddPeer(c, mac, peer, true).world.peers, x) == if x == mac then Some(peer) else OnRadio(c.world.peers, x)
  {
  }

  // --- Calls that keep the peers ---

  predicate SameKeys(a: seq<Dial>, b: seq<Dial>) {
    |a| == |b| && forall i :: 0 <= i < |a| ==> a[i].bond.mac == b[i].bond.mac && a[i].bond.lmk == b[i].bond.lmk
  }

  lemma SameKeysPeers(c: Core, r: Core)
    requires PeersOk(c) && SameKeys(c.dials, r.dials)
    requires r.pairing == c.pairing && r.started == c.started && r.world.peers == c.world.peers
    ensures PeersOk(r)
  {
    hide Find;
    forall mac
      ensures PeerOf(r, mac) == PeerOf(c, mac)
    {
      var i, j := Find(c.dials, mac), Find(r.dials, mac);
    }
  }

  lemma KeptPeers(c: Core, r: Core)
    requires PeersOk(c) && KeepsTable(c, r)
    ensures PeersOk(r)
  {
    hide PeersOk;
    SameKeysPeers(c, r);
  }

  lemma EpochPeers(c: Core, i: nat, e: u16, env: Env)
    requires PeersOk(c) && i < |c.dials|
    ensures PeersOk(EpochOk(c, i, e, env).0)
  {
    hide PeersOk, EpochOk;
    EpochOutcome(c, i, e, env);
    EpochRest(c, i, e, env);
    SameKeysPeers(c, EpochOk(c, i, e, env).0);
  }

  lemma EpochRest(c: Core, i: nat, e: u16, env: Env)
    requires i < |c.dials|
    ensures var r := EpochOk(c, i, e, env).0;
            r.pairing == c.pairing && r.started == c.started && r.world.peers == c.world.peers
  {
    hide BondsOf, Encode;
  }

  lemma DialFramePeers(c: Core, i: nat, kind: u8, ver: u8, data: seq<u8>, env: Env)
    requires PeersOk(c) && i < |c.dials| && AllShaped(c.dials)
    ensures PeersOk(OnDialFrame(c, i, kind, ver, data, env))
  {
    hide PeersOk, OnDialFrame, EpochOk, KeepsTable, Guarded, EchoOf, Echoes;
    var r := OnDialFrame(c, i, kind, ver, data, env);
    DialFrameKeeps(c, i, kind, ver, data, env);
    if KeepsTable(c, r) {
      KeptPeers(c, r);
    } else {
      EpochPeers(c, i, EchoOf(kind, ver, data), env);
      KeptPeers(EpochOk(c, i, EchoOf(kind, ver, data), env).0, r);
    }
  }

  // --- Opening and closing a handshake ---

  lemma PairStartPeers(c: Core, window: u32, env: Env)
    requires PeersOk(c)
    ensures PeersOk(PairStart(c, window, env))
  {
    hide Find;
    var r := PairStart(c, window, env);
    if !r.pairing.phase.Off? && c.pairing.phase.Off? {
      forall mac
        ensures OnRadio(r.world.peers, mac) == PeerOf(r, mac)
      {
        AddOne(c, BCAST, Plain, mac);
        assert OnRadio(c.world.peers, mac) == PeerOf(c, mac);
      }
    } else {
      assert forall mac :: PeerOf(r, mac) == PeerOf(c, mac);
    }
  }

  // The radio after a candidate is dropped
  lemma CleanupRadio(c: Core, env: Env, mac: seq<u8>)
    requires env.restore || Find(c.dials, c.pairing.candMac) < 0
    ensures var i := Find(c.dials, mac);
            OnRadio(CleanupCandidate(c, env).world.peers, mac)
            == if mac != c.pairing.candMac then OnRadio(c.world.peers, mac)
               else if i >= 0 then Some(Keyed(c.dials[i].bond.lmk))
               else None
  {
    hide Find;
    var bonded := Find(c.dials, c.pairing.candMac);
    var c1 := DelPeer(c, c.pairing.candMac);
    DelOne(c, c.pairing.candMac, mac);
    if bonded >= 0 {
      AddOne(c1, c.dials[bonded].bond.mac, Keyed(c.dials[bonded].bond.lmk), mac);
    }
  }

  // A radio that is right but for the candidate's entry is right once the handshake has ended.
  ghost predicate RightBut(c: Core, mac: seq<u8>) {
    && NoBroadcast(c)
    && forall x :: x != mac && x != BCAST ==>
         var i := Find(c.dials, x);
         OnRadio(c.world.peers, x) == if i >= 0 then Some(Keyed(c.dials[i].bond.lmk)) else None
  }

  lemma ConfirmRightBut(c: Core)
    requires PeersOk(c) && c.started && c.pairing.phase.Confirm?
    ensures RightBut(c, c.pairing.candMac)
  {
    hide Find;
    forall x | x != c.pairing.candMac && x != BCAST
      ensures var i := Find(c.dials, x);
              OnRadio(c.world.peers, x) == if i >= 0 then Some(Keyed(c.dials[i].bond.lmk)) else None
    {
      assert OnRadio(c.world.peers, x) == PeerOf(c, x);
    }
  }

  lemma EndPeers(c: Core, result: PairResult)
    requires c.started && NoBroadcast(c)
    requires forall x :: x != BCAST ==>
               var i := Find(c.dials, x);
               OnRadio(c.world.peers, x) == if i >= 0 then Some(Keyed(c.dials[i].bond.lmk)) else None
    ensures PeersOk(PairEnd(c, result))
  {
    hide Find;
    var r := PairEnd(c, result);
    forall x
      ensures OnRadio(r.world.peers, x) == PeerOf(r, x)
    {
      DelOne(c, BCAST, x);
    }
  }

  lemma CleanupPeers(c: Core, result: PairResult, env: Env)
    requires c.started && RightBut(c, c.pairing.candMac)
    requires env.restore || Find(c.dials, c.pairing.candMac) < 0
    ensures PeersOk(PairEnd(CleanupCandidate(c, env), result))
  {
    hide Find, PairEnd, CleanupCandidate, NoBroadcast;
    var r := CleanupCandidate(c, env);
    forall x | x != BCAST
      ensures var i := Find(r.dials, x);
              OnRadio(r.world.peers, x) == if i >= 0 then Some(Keyed(r.dials[i].bond.lmk)) else None
    {
      CleanupRadio(c, env, x);
    }
    CleanupKeepsNo(c, env);
    EndPeers(r, result);
  }

  lemma CleanupKeepsNo(c: Core, env: Env)
    requires c.started && NoBroadcast(c)
    ensures NoBroadcast(CleanupCandidate(c, env)) && CleanupCandidate(c, env).started
  {
    hide Find;
    assert ZeroBytes(6)[0] == 0;
  }

  lemma PairCancelPeers(c: Core, env: Env)
    requires PeersOk(c) && env.restore && (c.started || c.pairing.phase.Off?)
    ensures PeersOk(PairCancel(c, env))
  {
    hide PeersOk, CleanupCandidate, PairEnd, RightBut, Find;
    if c.pairing.phase.Confirm? {
      ConfirmRightBut(c);
      CleanupPeers(c, Cancelled, env);
    } else if c.pairing.phase.Window? {
      WindowEnds(c, Cancelled);
    }
  }

  lemma WindowEnds(c: Core, result: PairResult)
    requires PeersOk(c) && c.started && c.pairing.phase.Window?
    ensures PeersOk(PairEnd(c, result))
  {
    hide Find, PairEnd;
    forall x | x != BCAST
      ensures var i := Find(c.dials, x);
              OnRadio(c.world.peers, x) == if i >= 0 then Some(Keyed(c.dials[i].bond.lmk)) else None
    {
      assert OnRadio(c.world.peers, x) == PeerOf(c, x);
    }
    EndPeers(c, result);
  }

  lemma TimeoutsPeers(c: Core, env: Env)
    requires PeersOk(c) && env.restore && c.started
    ensures PeersOk(PairTimeouts(c, env))
  {
    hide PeersOk, CleanupCandidate, PairEnd, RightBut, Find;
    if c.pairing.phase.Confirm? {
      ConfirmRightBut(c);
      CleanupPeers(c, Timeout, env);
    } else if c.pairing.phase.Window? {
      WindowEnds(c, Timeout);
      WindowEnds(c, Full);
    }
  }

  lemma TickPeers(c: Core, env: Env)
    requires PeersOk(c) && env.restore && AllShaped(c.dials)
    ensures PeersOk(Tick(c, env))
  {
    hide PeersOk, Tick, PairTimeouts, KeepsTable;
    TickKeeps(c, env);
    if c.started {
      TimeoutsPeers(c, env);
    }
    KeptPeers(if c.started then PairTimeouts(c, env) else c, Tick(c, env));
  }

  // --- A candidate arrives ---

  lemma AnswersPeers(c: Core, r: Core)
    requires PeersOk(c) && Answers(c, r)
    ensures PeersOk(r)
  {
    hide Find;
    assert forall x :: PeerOf(r, x) == PeerOf(c, x);
  }

  // A candidate taking the window leaves the radio right exactly when it does not claim the broadcast address.
  lemma EntersPeers(c: Core, data: seq<u8>, crypto: Crypto, env: Env, r: Core)
    requires PeersOk(c) && c.started && Enters(c, data, crypto, env, r)
    ensures PeersOk(r) <==> data[2..8] != BCAST
  {
    hide Find, DeriveLmk;
    var p := WithCandidate(c, data, crypto);
    assert p.candMac == data[2..8];
    assert r.world.peers == c.world.peers[p.candMac := Keyed(p.candLmk)];
    if data[2..8] != BCAST {
      forall x
        ensures OnRadio(r.world.peers, x) == PeerOf(r, x)
      {
        assert OnRadio(c.world.peers, x) == PeerOf(c, x);
      }
    }
  }

  lemma RefusedPeers(c: Core, data: seq<u8>, crypto: Crypto, env: Env, r: Core)
    requires PeersOk(c) && c.started && Refused(c, data, crypto, env, r) && env.restore
    ensures PeersOk(r)
  {
    hide Find, DeriveLmk, PairEnd, CleanupCandidate;
    var p := WithCandidate(c, data, crypto);
    var m := DelPeer(c.(pairing := p), p.candMac);
    assert p.candMac == data[2..8];
    forall x | x != p.candMac && x != BCAST
      ensures var i := Find(m.dials, x);
              OnRadio(m.world.peers, x) == if i >= 0 then Some(Keyed(m.dials[i].bond.lmk)) else None
    {
      DelOne(c.(pairing := p), p.candMac, x);
      assert OnRadio(c.world.peers, x) == PeerOf(c, x);
    }
    assert RightBut(m, p.candMac);
    CleanupPeers(m, Cancelled, env);
  }

  // The request takes the window for the broadcast address.
  predicate ClaimsBroadcast(c: Core, data: seq<u8>, crypto: Crypto, env: Env) {
    c.pairing.phase.Window? && env.install && env.sign.Some? && Acceptable(c, data, crypto) && data[2..8] == BCAST
  }

  // Where a peer can be put back, a request leaves the radio right unless it does that, and then never.
  lemma PairReqPeers(c: Core, data: seq<u8>, crypto: Crypto, env: Env)
    requires PeersOk(c) && c.started && env.restore
    ensures PeersOk(OnPairReq(c, data, crypto, env)) <==> !ClaimsBroadcast(c, data, crypto, env)
  {
    hide PeersOk, OnPairReq, Enters, Refused, Answers, Acceptable;
    var r := OnPairReq(c, data, crypto, env);
    PairReqOutcome(c, data, crypto, env);
    if c.pairing.phase.Window? && env.install && env.sign.Some? && Acceptable(c, data, crypto) {
      EntersOutcome(c, data, crypto, env);
      LongEnough(c, data, crypto, env, r);
      EntersPeers(c, data, crypto, env, r);
    } else if env.sign.None? {
      UnsignedPeers(c, data, crypto, env);
    } else if Answers(c, r) {
      AnswersPeers(c, r);
    } else if Enters(c, data, crypto, env, r) {
      WindowAccepts(c, data, crypto, env, r);
    } else if Refused(c, data, crypto, env, r) {
      LongEnough(c, data, crypto, env, r);
      RefusedPeers(c, data, crypto, env, r);
    }
  }

  // Without a signature of its own the controller stores at most a result.
  lemma UnsignedPeers(c: Core, data: seq<u8>, crypto: Crypto, env: Env)
    requires PeersOk(c) && env.sign.None?
    ensures PeersOk(OnPairReq(c, data, crypto, env))
  {
    hide Find, DeriveLmk, ParseRequest, PeersOk;
    var r := OnPairReq(c, data, crypto, env);
    AnswersPeers(c, c.(pairing := c.pairing.(result := r.pairing.result)));
  }

  lemma WindowAccepts(c: Core, data: seq<u8>, crypto: Crypto, env: Env, r: Core)
    requires Enters(c, data, crypto, env, r)
    ensures c.pairing.phase.Window? && env.install && Acceptable(c, data, crypto)
  {
  }

  lemma LongEnough(c: Core, data: seq<u8>, crypto: Crypto, env: Env, r: Core)
    requires Enters(c, data, crypto, env, r) || Refused(c, data, crypto, env, r)
    ensures |data| >= 8
  {
    hide DeriveLmk, Find, WithCandidate;
  }

  // --- A candidate is committed ---

  lemma FindReplaced(ds: seq<Dial>, i: nat, d: Dial, x: seq<u8>)
    requires i < |ds| && d.bond.mac == ds[i].bond.mac
    ensures Find(ds[i := d], x) == Find(ds, x)
  {
    hide Find;
    var now := ds[i := d];
    var a, b := Find(now, x), Find(ds, x);
    assert forall j :: 0 <= j < |ds| ==> now[j].bond.mac == ds[j].bond.mac;
    assert a >= 0 ==> ds[a].bond.mac == x;
    assert b >= 0 ==> now[b].bond.mac == x;
  }

  lemma FindAppended(ds: seq<Dial>, d: Dial, x: seq<u8>)
    requires Find(ds, d.bond.mac) < 0
    ensures Find(ds + [d], x) == if x == d.bond.mac then |ds| else Find(ds, x)
  {
    hide Find;
    var now := ds + [d];
    var a, b := Find(now, x), Find(ds, x);
    assert Find(ds, d.bond.mac) == -1;
    assert forall j :: 0 <= j < |ds| ==> now[j].bond.mac == ds[j].bond.mac;
    assert now[|ds|].bond.mac == d.bond.mac;
    assert 0 <= a < |ds| ==> ds[a].bond.mac == x;
    assert b >= 0 ==> now[b].bond.mac == x;
  }

  lemma CommitPeers(c: Core, env: Env)
    requires PeersOk(c) && c.started && env.restore && c.pairing.phase.Confirm?
    ensures PeersOk(PairCommit(c, env))
  {
    hide PeersOk, CleanupCandidate, PairEnd, RightBut, Find, Saves;
    if Saves(Proposed(c), env.save) {
      CommittedPeers(c, env);
    } else {
      ConfirmRightBut(c);
      CleanupPeers(c, StorageError, env);
      CommitFails(c, env);
    }
  }

  lemma CommittedPeers(c: Core, env: Env)
    requires PeersOk(c) && c.started && c.pairing.phase.Confirm? && Saves(Proposed(c), env.save)
    ensures PeersOk(PairCommit(c, env))
  {
    hide Find, Encode, CleanupCandidate, ZeroBytes, FreshDial;
    var r := PairCommit(c, env);
    var bond := Candidate(c);
    var i := Find(c.dials, bond.mac);
    var d := if i >= 0 then Rekeyed(c.dials[i], bond) else Rekeyed(FreshDial(bond), bond);
    forall x
      ensures OnRadio(r.world.peers, x) == PeerOf(r, x)
    {
      assert OnRadio(c.world.peers, x) == PeerOf(c, x);
      if i >= 0 {
        FindReplaced(c.dials, i, d, x);
      } else {
        FindAppended(c.dials, d, x);
      }
    }
  }

  lemma ConfirmPeers(c: Core, src: seq<u8>, data: seq<u8>, env: Env)
    requires PeersOk(c) && c.started && env.restore
    ensures PeersOk(OnPairConfirm(c, src, data, env))
  {
    hide PairAuth.Make, PairAuth.Proves, PairCommit, Find, PeersOk;
    var candidate := c.pairing.phase.Confirm? && src == c.pairing.candMac;
    var c1 := if candidate then PairCommit(c, env) else c;
    if candidate {
      CommitPeers(c, env);
    }
    var i := Find(c1.dials, src);
    if i >= 0 {
      forall ack
        ensures PeersOk(Send(SetDial(c1, i, c1.dials[i].(lastProbe := Clock(env.now))), src, ack))
      {
        SameKeysPeers(c1, Send(SetDial(c1, i, c1.dials[i].(lastProbe := Clock(env.now))), src, ack));
      }
    }
  }

  lemma RecvPeers(c: Core, src: seq<u8>, dst: seq<u8>, data: seq<u8>, crypto: Crypto, env: Env)
    requires PeersOk(c) && AllShaped(c.dials) && Assumed(Recv(src, dst, data), env)
    ensures PeersOk(OnRecv(c, src, dst, data, crypto, env))
  {
    hide OnPairReq, OnPairConfirm, OnDialFrame, PeersOk;
    if c.started && |data| >= 2 {
      if data[0] == 4 {
        PairReqPeers(c, data, crypto, env);
      }
      ConfirmPeers(c, src, data, env);
      var i := Find(c.dials, src);
      if i >= 0 {
        DialFramePeers(c, i, data[0], data[1], data, env);
      }
    }
  }

  // --- Forgetting ---

  predicate Apart(ds: seq<Dial>) {
    forall a, b :: 0 <= a < |ds| && 0 <= b < |ds| && a != b ==> ds[a].bond.mac != ds[b].bond.mac
  }

  lemma ValidApart(ds: seq<Dial>)
    requires ValidTable(BondsOf(ds))
    ensures Apart(ds)
  {
    hide AllSized;
    var recs := BondsOf(ds);
    forall a, b | 0 <= a < |ds| && 0 <= b < |ds| && a != b
      ensures ds[a].bond.mac != ds[b].bond.mac
    {
      assert recs[a].mac == ds[a].bond.mac && recs[b].mac == ds[b].bond.mac;
    }
  }

  lemma FindAt(ds: seq<Dial>, k: nat)
    requires Apart(ds) && k < |ds|
    ensures Find(ds, ds[k].bond.mac) == k
  {
    hide Find;
  }

  lemma FindRemoved(ds: seq<Dial>, i: nat, x: seq<u8>)
    requires i < |ds| && Apart(ds)
    ensures var k := Find(ds[..i] + ds[i + 1..], x);
            var was := Find(ds, x);
            k == if was == i then -1 else if was > i then was - 1 else was
  {
    hide Find, Apart;
    var now := ds[..i] + ds[i + 1..];
    var k, was := Find(now, x), Find(ds, x);
    if was >= 0 && was != i {
      var at := if was < i then was else was - 1;
      assert now[at] == ds[was];
      RemovedApart(ds, i);
      FindAt(now, at);
    } else {
      NotElsewhere(ds, i, x);
    }
  }

  lemma NotElsewhere(ds: seq<Dial>, i: nat, x: seq<u8>)
    requires i < |ds| && Apart(ds) && Find(ds, x) in {-1, i as int}
    ensures var now := ds[..i] + ds[i + 1..];
            forall j :: 0 <= j < |now| ==> now[j].bond.mac != x
  {
    hide Find;
    var now := ds[..i] + ds[i + 1..];
    forall j | 0 <= j < |now|
      ensures now[j].bond.mac != x
    {
      assert now[j] == ds[if j < i then j else j + 1];
    }
  }

  lemma RemovedApart(ds: seq<Dial>, i: nat)
    requires i < |ds| && Apart(ds)
    ensures Apart(ds[..i] + ds[i + 1..])
  {
    var now := ds[..i] + ds[i + 1..];
    forall a, b | 0 <= a < |now| && 0 <= b < |now| && a != b
      ensures now[a].bond.mac != now[b].bond.mac
    {
      assert now[a] == ds[if a < i then a else a + 1];
      assert now[b] == ds[if b < i then b else b + 1];
    }
  }

  // Forgetting a dial takes its peer away; a candidate's new key goes with the handshake, which is closed next.
  lemma ForgottenPeers(c: Core, i: nat, mac: seq<u8>, r: Core)
    requires PeersOk(c) && Apart(c.dials) && i < |c.dials| && i == Find(c.dials, mac)
    requires r.started == c.started && r.pairing == c.pairing && r.dials == c.dials[..i] + c.dials[i + 1..]
    requires r.world.peers == c.world.peers - {mac}
    ensures if c.pairing.phase.Confirm? && c.pairing.candMac == mac then c.started ==> RightBut(r, mac) else PeersOk(r)
  {
    hide Find, Apart;
    assert NoBroadcast(r);
    forall x
      ensures OnRadio(r.world.peers, x) == if x == mac then None else OnRadio(c.world.peers, x)
      ensures Find(c.dials, x) == i <==> x == mac
      ensures Find(r.dials, x) >= 0 ==> x != mac && r.dials[Find(r.dials, x)] == c.dials[Find(c.dials, x)]
      ensures Find(r.dials, x) >= 0 <==> Find(c.dials, x) >= 0 && x != mac
    {
      FindRemoved(c.dials, i, x);
    }
    forall x | !(c.pairing.phase.Confirm? && c.pairing.candMac == mac)
      ensures x != mac ==> PeerOf(r, x) == PeerOf(c, x)
      ensures x == mac ==> PeerOf(r, x) == None
    {
    }
    if c.pairing.phase.Confirm? && c.pairing.candMac == mac && c.started {
      forall x | x != mac && x != BCAST
        ensures var j := Find(r.dials, x);
                OnRadio(r.world.peers, x) == if j >= 0 then Some(Keyed(r.dials[j].bond.lmk)) else None
      {
        assert OnRadio(c.world.peers, x) == PeerOf(c, x);
      }
    }
  }

  lemma CandidateForgotten(c: Core, env: Env)
    requires c.started && c.pairing.phase.Confirm? && RightBut(c, c.pairing.candMac) && env.restore
    ensures PeersOk(PairCancel(c, env))
  {
    hide PeersOk, RightBut, PairEnd, CleanupCandidate, Find;
    CleanupPeers(c, Cancelled, env);
  }

  lemma ForgetPeers(c: Core, mac: seq<u8>, env: Env)
    requires PeersOk(c) && Table(c) && env.restore
    ensures PeersOk(ForgetDial(c, mac, env).0)
  {
    hide PeersOk, RightBut, PairCancel, Find, Without, Forgotten, Encode, Durable, CandidateOk, ValidTable, Apart;
    var i := Find(c.dials, mac);
    PairCancelPeers(c, env);
    if i >= 0 && Saves(Without(c, i), env.save) {
      var r := Forgotten(c, i, mac);
      ValidApart(c.dials);
      ForgottenIs(c, i, mac);
      ForgottenPeers(c, i, mac, r);
      if c.pairing.phase.Confirm? && c.pairing.candMac == mac && c.started {
        CandidateForgotten(r, env);
      }
    }
  }

  lemma {:induction false} DelPeersRadio(c: Core, ds: seq<Dial>, x: seq<u8>)
    ensures OnRadio(DelPeers(c, ds).world.peers, x) == if Find(ds, x) >= 0 then None else OnRadio(c.world.peers, x)
    decreases |ds|
  {
    if ds != [] {
      DelOne(c, ds[0].bond.mac, x);
      DelPeersRadio(DelPeer(c, ds[0].bond.mac), ds[1..], x);
    }
  }

  lemma ForgetAllPeers(c: Core, env: Env)
    requires PeersOk(c) && Table(c) && env.restore
    ensures PeersOk(ForgetAll(c, env).0)
  {
    hide PeersOk, RightBut, PairCancel, Find, DelPeers, Durable, CandidateOk;
    if env.save {
      var c2 := DelPeers(Store(c, []), c.dials);
      DelPeersWorld(Store(c, []), c.dials);
      var c3 := Cleared(c2);
      EmptiedPeers(c, c3);
      if c.pairing.phase.Confirm? {
        CandidateForgotten(c3, env);
      } else {
        PairCancelPeers(c3, env);
      }
    }
  }

  lemma EmptiedPeers(c: Core, r: Core)
    requires PeersOk(c) && (!c.started ==> c.pairing.phase.Off?)
    requires r.started == c.started && r.pairing == c.pairing && r.dials == []
    requires r.world.peers == DelPeers(Store(c, []), c.dials).world.peers
    ensures if c.pairing.phase.Confirm? then RightBut(r, c.pairing.candMac) else PeersOk(r)
  {
    hide Find, DelPeers;
    forall x
      ensures OnRadio(r.world.peers, x) == if Find(c.dials, x) >= 0 then None else OnRadio(c.world.peers, x)
      ensures Find(r.dials, x) == -1
    {
      DelPeersRadio(Store(c, []), c.dials, x);
    }
    forall x
      ensures OnRadio(c.world.peers, x) in {None, PeerOf(c, x)} && (c.started ==> OnRadio(c.world.peers, x) == PeerOf(c, x))
    {
    }
    if !c.pairing.phase.Confirm? {
      forall x | c.started
        ensures OnRadio(r.world.peers, x) == PeerOf(r, x)
      {
        BroadcastFree(c);
      }
      forall x | !c.started
        ensures OnRadio(r.world.peers, x) in {None, PeerOf(r, x)}
      {
      }
    }
  }

  lemma BroadcastFree(c: Core)
    requires NoBroadcast(c)
    ensures Find(c.dials, BCAST) == -1
  {
  }

  // --- Starting and losing power ---

  // The first k stored dials are on the radio, and nothing is on it that should not be.
  ghost predicate Installed(c: Core, recs: seq<Bond>, k: nat)
    requires k <= |recs| == |c.dials|
  {
    && (forall x :: OnRadio(c.world.peers, x) in {None, PeerOf(c, x)})
    && (forall j :: 0 <= j < k ==> OnRadio(c.world.peers, recs[j].mac).Some?)
  }

  lemma InstallOne(c: Core, recs: seq<Bond>, k: nat)
    requires NoBroadcast(c) && Apart(c.dials) && c.pairing.phase.Off? && BondsOf(c.dials) == recs && k < |recs|
    requires Installed(c, recs, k)
    ensures var r := AddPeer(c, recs[k].mac, Keyed(recs[k].lmk), true);
            Installed(r, recs, k + 1)
  {
    hide Find, Apart;
    var r := AddPeer(c, recs[k].mac, Keyed(recs[k].lmk), true);
    assert recs[k] == c.dials[k].bond;
    FindAt(c.dials, k);
    assert PeerOf(c, recs[k].mac) == Some(Keyed(recs[k].lmk));
    forall x
      ensures OnRadio(r.world.peers, x) in {None, PeerOf(r, x)}
      ensures OnRadio(c.world.peers, x).Some? ==> OnRadio(r.world.peers, x).Some?
    {
      AddOne(c, recs[k].mac, Keyed(recs[k].lmk), x);
      assert PeerOf(r, x) == PeerOf(c, x);
    }
  }

  lemma {:induction false} InstallRadio(c: Core, recs: seq<Bond>, k: nat, env: Env)
    requires k <= |recs| && NoBroadcast(c) && Apart(c.dials) && c.pairing.phase.Off? && BondsOf(c.dials) == recs
    requires Installed(c, recs, k)
    ensures var (r, ok) := InstallPeers(c, recs, k, env);
            if ok then Installed(r, recs, |recs|) else Installed(r, recs, k)
    decreases |recs| - k
  {
    hide Apart, Installed, BondsOf, NoBroadcast;
    if k < |recs| && k != env.failAt {
      var m := AddPeer(c, recs[k].mac, Keyed(recs[k].lmk), true);
      InstallOne(c, recs, k);
      assert NoBroadcast(m) by { SameNoBroadcast(c, m); }
      InstallRadio(m, recs, k + 1, env);
      FewerInstalled(InstallPeers(m, recs, k + 1, env).0, recs, k);
    }
  }

  lemma SameNoBroadcast(c: Core, r: Core)
    requires NoBroadcast(c) && r.dials == c.dials && r.pairing == c.pairing
    ensures NoBroadcast(r)
  {
  }

  lemma FewerInstalled(c: Core, recs: seq<Bond>, k: nat)
    requires k < |recs| == |c.dials|
    ensures Installed(c, recs, k + 1) || Installed(c, recs, |recs|) ==> Installed(c, recs, k)
  {
    hide PeerOf, OnRadio;
  }

  // Everything on the radio: nothing missing, nothing wrong
  lemma AllInstalled(c: Core, recs: seq<Bond>)
    requires NoBroadcast(c) && c.pairing.phase.Off? && BondsOf(c.dials) == recs && Installed(c, recs, |recs|)
    ensures forall x :: OnRadio(c.world.peers, x) == PeerOf(c, x)
  {
    hide Find;
    forall x
      ensures OnRadio(c.world.peers, x) == PeerOf(c, x)
    {
      var i := Find(c.dials, x);
      if i >= 0 {
        assert recs[i].mac == x;
      }
    }
  }

  predicate StoredApart(w: World) {
    forall j :: 0 <= j < |Durable(w)| ==> Durable(w)[j].mac != BCAST
  }

  // The table is in order, the broadcast address is in nobody's bond, and the radio is right.
  ghost predicate Radio(c: Core) {
    Table(c) && PeersOk(c) && StoredApart(c.world)
  }

  lemma LoadedPeers(c: Core, recs: seq<Bond>, env: Env)
    requires NoBroadcast(c) && Apart(c.dials) && !c.started && c.pairing.phase.Off? && BondsOf(c.dials) == recs
    requires Installed(c, recs, 0)
    ensures var (r, ok) := InstallPeers(c, recs, 0, env);
            && NoBroadcast(r)
            && if ok then forall x :: OnRadio(r.world.peers, x) == PeerOf(r, x) else PeersOk(r)
  {
    hide BondsOf, PeerOf, OnRadio;
    InstallRadio(c, recs, 0, env);
    var (r, ok) := InstallPeers(c, recs, 0, env);
    InstallWorld(c, recs, 0, env);
    if ok {
      AllInstalled(r, recs);
    }
  }

  // The slots of a controller that is not up are empty or the stored ones, so the radio has only stored dials on it.
  lemma NothingWrong(c: Core, loaded: Core)
    requires PeersOk(c) && Table(c) && !c.started && loaded.pairing == c.pairing && loaded.world.peers == c.world.peers
    requires BondsOf(loaded.dials) == Durable(c.world)
    ensures Installed(loaded, Durable(c.world), 0)
  {
    hide Find, Durable, CandidateOk, ValidTable;
    forall x
      ensures OnRadio(loaded.world.peers, x) in {None, PeerOf(loaded, x)}
    {
      assert OnRadio(c.world.peers, x) in {None, PeerOf(c, x)};
      if c.dials != [] {
        SameBondsFind(c.dials, loaded.dials, x);
      }
    }
  }

  lemma SameBondsFind(a: seq<Dial>, b: seq<Dial>, x: seq<u8>)
    requires BondsOf(a) == BondsOf(b)
    ensures Find(a, x) == Find(b, x) && (Find(a, x) >= 0 ==> a[Find(a, x)].bond == b[Find(b, x)].bond)
  {
    hide Find;
    assert |a| == |b| && forall j :: 0 <= j < |a| ==> a[j].bond == BondsOf(a)[j] && b[j].bond == BondsOf(b)[j];
  }

  lemma StartPeers(c: Core, env: Env)
    requires Radio(c) && !c.started
    ensures PeersOk(Start(c, env))
  {
    hide Decode, PeersOk, InstallPeers, FreshDials, Installed, ValidTable, BondsOf, Apart, CandidateOk;
    var recs := Durable(c.world);
    var c1 := c.(ownMac := if env.ownMac.Some? then env.ownMac.value else []);
    SameKeysPeers(c, c1);
    if env.ownMac.Some? && env.identity && recs != [] {
      var c2 := c1.(dials := FreshDials(recs));
      FreshBonds(recs);
      FreshApart(c, recs);
      NothingWrong(c, c2);
      LoadedPeers(c2, recs, env);
      InstallWorld(c2, recs, 0, env);
      if InstallPeers(c2, recs, 0, env).1 {
        StartsRight(InstallPeers(c2, recs, 0, env).0, Start(c, env));
      }
    } else if Start(c, env).started {
      EmptyRadio(c, Start(c, env));
    }
  }

  lemma FreshApart(c: Core, recs: seq<Bond>)
    requires StoredApart(c.world) && ValidTable(recs) && recs == Durable(c.world) && c.pairing.phase.Off?
    ensures Apart(FreshDials(recs)) && NoBroadcast(c.(dials := FreshDials(recs)))
  {
    FreshBonds(recs);
    ValidApart(FreshDials(recs));
  }

  lemma StartsRight(m: Core, r: Core)
    requires NoBroadcast(m) && r.dials == m.dials && r.pairing == m.pairing && r.world.peers == m.world.peers
    requires r.started && forall x :: OnRadio(m.world.peers, x) == PeerOf(m, x)
    ensures PeersOk(r)
  {
    hide Find;
    assert forall x :: PeerOf(r, x) == PeerOf(m, x);
  }

  lemma EmptyRadio(c: Core, r: Core)
    requires Table(c) && PeersOk(c) && !c.started && Durable(c.world) == []
    requires r.dials == c.dials && r.pairing == c.pairing && r.world.peers == c.world.peers
    ensures PeersOk(r)
  {
    hide Durable, CandidateOk, ValidTable;
    assert |c.dials| == |BondsOf(c.dials)|;
    forall x
      ensures OnRadio(r.world.peers, x) == PeerOf(r, x)
    {
      assert OnRadio(c.world.peers, x) in {None, PeerOf(c, x)};
    }
  }

  lemma CapsPeers(c: Core, env: Env)
    requires PeersOk(c)
    ensures PeersOk(CapsChanged(c, env))
  {
    hide PeersOk;
    SameKeysPeers(c, CapsChanged(c, env));
  }

  lemma ApplyPeers(c: Core, op: Op, crypto: Crypto, env: Env)
    requires Radio(c) && AllShaped(c.dials) && Assumed(op, env)
    ensures PeersOk(Apply(c, op, crypto, env))
  {
    hide OnRecv, Tick, PairStart, PairCancel, ForgetDial, ForgetAll, Start, CapsChanged, PeersOk, Durable, CandidateOk, ValidTable;
    match op
    case Recv(src, dst, data) => RecvPeers(c, src, dst, data, crypto, env);
    case Loop => TickPeers(c, env);
    case OpenPairing(window) => PairStartPeers(c, window, env);
    case ClosePairing => PairCancelPeers(c, env);
    case Forget(mac) => ForgetPeers(c, mac, env);
    case ForgetEvery => ForgetAllPeers(c, env);
    case NewCaps => CapsPeers(c, env);
    case StartUp =>
      if !c.started {
        StartPeers(c, env);
      }
  }

  lemma ApplyStored(c: Core, op: Op, crypto: Crypto, env: Env)
    requires Radio(c) && AllShaped(c.dials) && Assumed(op, env)
    ensures StoredApart(Apply(c, op, crypto, env).world)
  {
    hide Apply, Durable, Wrote, IsLatch, IsCommit, IsForget, CandidateOk, ValidTable, Table;
    var r := Apply(c, op, crypto, env);
    ApplyTable(c, op, crypto, env);
    ApplyPeers(c, op, crypto, env);
    if Untouched(c, r) {
      UntouchedDurable(c, r);
    } else {
      WroteApart(c, r);
    }
  }

  lemma WroteApart(c: Core, r: Core)
    requires Wrote(c, r, Durable(r.world)) && PeersOk(r)
    ensures StoredApart(r.world)
  {
    hide Durable, Encode, ValidTable;
    assert forall j :: 0 <= j < |r.dials| ==> BondsOf(r.dials)[j] == r.dials[j].bond;
  }

  lemma AfterRadio(c: Core, step: Step, crypto: Crypto)
    requires Radio(c) && AllShaped(c.dials) && Assumed(step.op, step.env)
    ensures Radio(After(c, step, crypto))
  {
    hide Apply, Table, PowerLoss, Durable;
    var r := Apply(c, step.op, crypto, step.env);
    AfterTable(c, step, crypto);
    ApplyPeers(c, step.op, crypto, step.env);
    ApplyStored(c, step.op, crypto, step.env);
    ApplyTable(c, step.op, crypto, step.env);
    if step.Cut? {
      PowerLossTable(c, r, step.saved, step.shown);
      SilentRadio(c, r, step.saved, step.shown);
    }
  }

  lemma SilentRadio(c: Core, r: Core, saved: bool, shown: nat)
    ensures PeersOk(PowerLoss(c, r, saved, shown))
  {
  }

  // Over every run, between calls, the radio has exactly the peers the bond table and the handshake call for.
  lemma {:induction false} RunRadio(c: Core, steps: seq<Step>, crypto: Crypto)
    requires Radio(c) && AllShaped(c.dials)
    requires forall k :: 0 <= k < |steps| ==> Assumed(steps[k].op, steps[k].env)
    ensures Radio(Run(c, steps, crypto))
    decreases |steps|
  {
    hide Radio, After, Assumed;
    if steps != [] {
      AfterRadio(c, steps[0], crypto);
      AfterShaped(c, steps[0], crypto);
      RunRadio(After(c, steps[0], crypto), steps[1..], crypto);
    }
  }

  // --- The two assumptions are needed ---

  // Giving up on a candidate leaves the radio right exactly when the peer it displaced can be put back.
  lemma CancelNeedsRestore(c: Core, env: Env)
    requires PeersOk(c) && c.started && c.pairing.phase.Confirm?
    ensures PeersOk(PairCancel(c, env)) <==> env.restore || Find(c.dials, c.pairing.candMac) < 0
  {
    hide PeersOk, RightBut, PairEnd, CleanupCandidate, Find;
    if env.restore || Find(c.dials, c.pairing.candMac) < 0 {
      ConfirmRightBut(c);
      CleanupPeers(c, Cancelled, env);
    } else {
      LostPeer(c, env);
    }
  }

  lemma LostPeer(c: Core, env: Env)
    requires PeersOk(c) && c.started && c.pairing.phase.Confirm? && !env.restore && Find(c.dials, c.pairing.candMac) >= 0
    ensures !PeersOk(PairCancel(c, env))
  {
    hide Find;
    var r := PairCancel(c, env);
    var mac := c.pairing.candMac;
    assert OnRadio(r.world.peers, mac) == None;
    assert PeerOf(r, mac).Some?;
  }
}
