// What each operation of the controller core does to its state, as a function of the state, the call and the
// world's answers.
module LinkSpec {
  import opened Words
  import opened Bonds
  import opened LinkState
  import opened WifiSession
  import PairAuth
  import Sha256

  // --- The replay guard ---

  function Pend(c: Core, i: nat): (r: Core)
    requires i < |c.dials|
    ensures |r.dials| == |c.dials|
  {
    SetDial(c, i, c.dials[i].(pendState := true))
  }

  // epoch_ok: whether the packet may be acted on, latching the guard on a first correct echo.
  function EpochOk(c: Core, i: nat, e: u16, env: Env): (r: (Core, bool))
    requires i < |c.dials|
    ensures |r.0.dials| == |c.dials|
  {
    var d := c.dials[i];
    if c.epoch == 0 then (c, true)
    else if e == c.epoch then
      if Latched(d.bond) then (c, true)
      else
        var recs := BondsOf(c.dials)[i := Latch(d.bond)];
        if !Saves(recs, env.save) then (SetDial(c, i, d.(epochSeen := true, pendState := true)), false)
        else (SetDial(Store(c, recs), i, d.(epochSeen := true, bond := Latch(d.bond))), true)
    else if !Latched(d.bond) && !d.epochSeen then (c, true)
    else (Pend(c, i), false)
  }

  // room_epoch_ok
  function RoomEpochOk(c: Core, i: nat, version: u8, complete: bool, e: u16, env: Env): (r: (Core, bool))
    requires i < |c.dials|
    ensures |r.0.dials| == |c.dials|
  {
    if c.epoch == 0 || (version >= 5 && (!complete || e == 0 || e != c.epoch)) then (Pend(c, i), false)
    else EpochOk(c, i, if version >= 5 && complete then e else 0, env)
  }

  // wifi_epoch_ok
  function WifiEpochOk(c: Core, i: nat, e: u16, env: Env): (r: (Core, bool))
    requires i < |c.dials|
    ensures |r.0.dials| == |c.dials|
  {
    if e != c.epoch then (Pend(c, i), false) else EpochOk(c, i, e, env)
  }

  // --- STATE ---

  // What build_state reports when the device gives no answer: no flags, and the "no value" sentinels.
  const NO_DEVICE: seq<u8> := [0, 0, 0, 0, 0, 0, 0, 0, 0, 0, 0, 0, 0, 0xFF, 0x7F, 0xFF, 0x7F, 0xFF, 0xFF, 0, 0]

  // build_state
  function BuildState(c: Core, env: Env): (r: (Core, StatePkt))
    requires AllShaped(c.dials)
    ensures |r.0.dials| == |c.dials|
  {
    match env.device
    case Unavailable => (c, StatePkt(c.capsSeq, c.epoch, NO_DEVICE))
    case Reports(payload, setupAp) =>
      (if setupAp then c else ObserveClosed(c), StatePkt(c.capsSeq, c.epoch, payload))
  }

  // send_state_to
  function SendState(c: Core, i: nat, p: StatePkt, now: nat): (r: Core)
    requires i < |c.dials|
    ensures |r.dials| == |c.dials|
  {
    var d := c.dials[i];
    Send(SetDial(c, i, d.(lastStateTx := Clock(now), pendState := false,
                          want := if Wants(d.want, 4) then d.want - 4 else d.want,
                          heard := Some(p), heardAt := now)),
         d.bond.mac, State(p))
  }

  function EchoFrom(c: Core, k: nat, p: StatePkt, now: nat): (r: Core)
    requires k <= |c.dials|
    ensures |r.dials| == |c.dials|
    decreases |c.dials| - k
  {
    if k == |c.dials| then c
    else EchoFrom(if Live(c.dials[k], now) then SendState(c, k, p, now) else Pend(c, k), k + 1, p, now)
  }

  // echo_state_all
  function EchoStateAll(c: Core, now: nat, env: Env): (r: Core)
    requires AllShaped(c.dials)
    ensures |r.dials| == |c.dials|
  {
    var (c1, p) := BuildState(c, env);
    EchoFrom(c1.(lastState := Some(p)), 0, p, now)
  }

  // --- Pairing ---

  // pair_cleanup_candidate
  function CleanupCandidate(c: Core, env: Env): (r: Core)
    ensures r.dials == c.dials
  {
    var bonded := Find(c.dials, c.pairing.candMac);
    var c1 := DelPeer(c, c.pairing.candMac);
    var c2 := if bonded >= 0 then AddPeer(c1, c.dials[bonded].bond.mac, Keyed(c.dials[bonded].bond.lmk), env.restore) else c1;
    c2.(pairing := c2.pairing.(candMac := ZeroBytes(6), candLmk := ZeroBytes(16), candIdPub := ZeroBytes(32),
                               candEphPub := ZeroBytes(32), ephPriv := ZeroBytes(32)))
  }

  // pair_end
  function PairEnd(c: Core, result: PairResult): (r: Core)
    ensures r.dials == c.dials
  {
    var c1 := DelPeer(c, BCAST);
    c1.(pairing := c1.pairing.(phase := Off, result := result))
  }

  // sl2_link_pair_start
  function PairStart(c: Core, window: u32, env: Env): Core {
    if !c.started then c.(pairing := c.pairing.(result := Idle))
    else if !c.pairing.phase.Off? then c.(pairing := c.pairing.(deadline := (Clock(env.now) + window) % B32))
    else if env.keypair.None? then c.(pairing := c.pairing.(result := Idle))
    else
      var (priv, pub) := env.keypair.value;
      if !env.install then c.(pairing := c.pairing.(ephPriv := ZeroBytes(32), ephPub := pub, result := Idle))
      else
        AddPeer(c.(pairing := c.pairing.(ephPriv := priv, ephPub := pub, phase := Window, result := Listening,
                                         deadline := (Clock(env.now) + window) % B32)),
                BCAST, Plain, true)
  }

  // sl2_link_pair_cancel
  function PairCancel(c: Core, env: Env): Core {
    if c.pairing.phase.Off? then c
    else PairEnd(if c.pairing.phase.Confirm? then CleanupCandidate(c, env) else c, Cancelled)
  }

  // The fields of a pairing request
  datatype Request = Request(mac: seq<u8>, ephPub: seq<u8>, idPub: seq<u8>, sig: seq<u8>, transcript: seq<u8>)

  // "SLv2-req"
  const REQ_DOMAIN: seq<u8> := [83, 76, 118, 50, 45, 114, 101, 113]

  function ParseRequest(data: seq<u8>): (r: Request)
    requires |data| >= 136
    ensures |r.mac| == 6 && |r.ephPub| == 32 && |r.idPub| == 32
  {
    Request(data[2..8], data[8..40], data[40..72], data[72..136], REQ_DOMAIN + data[0..2] + data[2..8] + data[8..40] + data[40..72])
  }

  // "serin-link-v2-lmk"
  const LMK_INFO: seq<u8> := [115, 101, 114, 105, 110, 45, 108, 105, 110, 107, 45, 118, 50, 45, 108, 109, 107]

  // sl2_derive_lmk
  function DeriveLmk(crypto: Crypto, ownPriv: seq<u8>, peerPub: seq<u8>, dialPub: seq<u8>, ctrlPub: seq<u8>): (r: Option<seq<u8>>)
    ensures r.Some? ==> |r.value| == 16
  {
    hide Sha256.Hkdf;
    var shared := crypto.shared(ownPriv, peerPub);
    if shared.None? then None else Some(Sha256.Hkdf(shared.value, dialPub + ctrlPub, LMK_INFO, 16))
  }

  // on_pair_req: the new or re-keyed candidate, the same answer again, or nothing.
  function OnPairReq(c: Core, data: seq<u8>, crypto: Crypto, env: Env): (r: Core)
    ensures r.dials == c.dials
  {
    hide DeriveLmk, Find;
    if c.pairing.phase.Off? || |data| < 136 || data[1] < PairAuth.VERSION then c
    else
      var req := ParseRequest(data);
      var known := Find(c.dials, req.mac);
      var repeating := c.pairing.phase.Confirm?;
      if repeating && req.mac != c.pairing.candMac then c
      else if !crypto.verify(req.idPub, req.transcript, req.sig) then c
      else if known >= 0 && c.dials[known].bond.idPub != req.idPub then c.(pairing := c.pairing.(result := PinMismatch))
      else if known < 0 && |c.dials| >= MAX_DIALS then c.(pairing := c.pairing.(result := Full))
      else if repeating && (req.ephPub != c.pairing.candEphPub || req.idPub != c.pairing.candIdPub) then c
      else
        var lmk := DeriveLmk(crypto, c.pairing.ephPriv, req.ephPub, req.ephPub, c.pairing.ephPub);
        if lmk.None? || env.sign.None? then c
        else
          var answer := PairResp(c.pairing.ephPub, env.channel, env.sign.value);
          if repeating then Send(c, BCAST, answer)
          else
            var c1 := c.(pairing := c.pairing.(candEphPub := req.ephPub, candMac := req.mac, candLmk := lmk.value,
                                               candIdPub := req.idPub));
            var c2 := DelPeer(c1, req.mac);
            if !env.install then PairEnd(CleanupCandidate(c2, env), Cancelled)
            else
              var c3 := Send(AddPeer(c2, req.mac, Keyed(lmk.value), true), BCAST, answer);
              c3.(pairing := c3.pairing.(phase := Confirm, result := Confirming,
                                         confirmDeadline := (Clock(env.now) + PAIR_CONFIRM_MS) % B32))
  }

  function Candidate(c: Core): Bond {
    Bond(c.pairing.candMac, c.pairing.candLmk, c.pairing.candIdPub, 1, ZeroBytes(7))
  }

  // The dial's setup session and its history are gone.
  function Disown(c: Core, mac: seq<u8>): (r: Core)
    ensures r.dials == c.dials
  {
    Emit(if c.owner.valid && c.owner.mac == mac then Emit(c.(owner := c.owner.(valid := false)), Disowned(mac)) else c,
         Wiped(mac))
  }

  // A slot re-keyed by pairing keeps its runtime fields, except the Wi-Fi session ones and the guard's.
  function Rekeyed(d: Dial, bond: Bond): Dial {
    d.(bond := bond, wifiSetupReq := false, retired := seq(HISTORY, _ => 0), retiredStatus := seq(HISTORY, _ => 0),
       retiredNext := 0, epochSeen := false, pendState := true)
  }

  // pair_commit
  function PairCommit(c: Core, env: Env): Core {
    var known := Find(c.dials, c.pairing.candMac);
    var bond := Candidate(c);
    var recs := if known >= 0 then BondsOf(c.dials)[known := bond] else BondsOf(c.dials) + [bond];
    if !Saves(recs, env.save) then PairEnd(CleanupCandidate(c, env), StorageError)
    else
      var c2 := Disown(Store(c, recs), c.pairing.candMac);
      var c3 := if known >= 0 then SetDial(c2, known, Rekeyed(c2.dials[known], bond))
                else c2.(dials := c2.dials + [Rekeyed(FreshDial(bond), bond)]);
      PairEnd(c3.(pairing := c3.pairing.(candLmk := ZeroBytes(16), ephPriv := ZeroBytes(32))), Paired)
  }

  // PAIR_CONFIRM from src: a proof of the candidate's key commits it, a proof of a bonded key is acknowledged again.
  function OnPairConfirm(c: Core, src: seq<u8>, data: seq<u8>, env: Env): Core {
    hide PairAuth.Make, PairAuth.Proves, PairCommit, Find;
    var bonded := Find(c.dials, src);
    var candidate := c.pairing.phase.Confirm? && src == c.pairing.candMac;
    if !candidate && bonded < 0 then c
    else
      var key := if candidate then c.pairing.candLmk else c.dials[bonded].bond.lmk;
      if !PairAuth.Proves(data, PairAuth.Make(19, key, src, c.ownMac)) then c
      else
        var ack := PairAck(PairAuth.Make(20, key, src, c.ownMac).tag);
        var c1 := if candidate then PairCommit(c, env) else c;
        if candidate && !c1.pairing.result.Paired? then c1
        else
          var i := Find(c1.dials, src);
          if i < 0 then c1
          else Send(SetDial(c1, i, c1.dials[i].(lastProbe := Clock(env.now))), src, ack)
  }

  // --- Receiving ---

  function Seen(c: Core, i: nat, now: nat): (r: Core)
    requires i < |c.dials|
    ensures |r.dials| == |c.dials|
  {
    SetDial(c, i, c.dials[i].(lastProbe := Clock(now)))
  }

  // PROBE
  function OnProbe(c: Core, i: nat, data: seq<u8>, env: Env): (r: Core)
    requires i < |c.dials|
    ensures |r.dials| == |c.dials|
  {
    Seen(if |data| >= 3 then SetDial(c, i, c.dials[i].(want := data[2])) else c, i, env.now)
  }

  // CMD: an accepted command is applied, and if it took, every head is told at once.
  function OnCmd(c: Core, i: nat, data: seq<u8>, env: Env): (r: Core)
    requires i < |c.dials| && AllShaped(c.dials)
    ensures |r.dials| == |c.dials|
  {
    hide EpochOk, EchoStateAll;
    if |data| < 19 then c
    else
      var (c1, ok) := EpochOk(c, i, U16(data, 17), env);
      EpochShaped(c, i, U16(data, 17), env);
      if !ok then c1
      else
        var c2 := Emit(Seen(c1, i, env.now), ApplyHook(c.dials[i].bond.mac));
        if env.apply then EchoStateAll(c2, env.later, env) else c2
  }

  // What an accepted sensor report does: the screen status is kept, the adapter is told.
  function SensorReport(c: Core, i: nat, mac: seq<u8>, data: seq<u8>, env: Env): (r: Core)
    requires i < |c.dials| && |data| >= 7
    ensures |r.dials| == |c.dials|
  {
    var flags := data[2];
    var c2 := SetDial(c, i, c.dials[i].(screenValid := flags / 2 % 2 == 1, screenOn := flags / 4 % 2 == 1));
    var isEdit := |data| > 7 && data[7] != 0xFF;
    Seen(if env.hasSensor then Emit(c2, SensorHook(mac, isEdit)) else c2, i, env.now)
  }

  // DIAL_SENSOR
  function OnSensor(c: Core, i: nat, ver: u8, data: seq<u8>, env: Env): (r: Core)
    requires i < |c.dials|
    ensures |r.dials| == |c.dials|
  {
    if |data| < 7 || ver < 3 then c
    else
      var (c1, ok) := RoomEpochOk(c, i, ver, |data| >= 11, U16(data, 9), env);
      if !ok then c1 else SensorReport(c1, i, c.dials[i].bond.mac, data, env)
  }

  // WIFI_REQ
  function OnWifiReq(c: Core, i: nat, data: seq<u8>, env: Env): (r: Core)
    requires i < |c.dials|
    ensures |r.dials| == |c.dials|
  {
    if |data| < 4 then c else Seen(SetDial(c, i, c.dials[i].(wifiReq := true)), i, env.now)
  }

  // WIFI_SETUP: four bytes ask without a session, eight or more name one.
  function OnWifiSetup(c: Core, i: nat, data: seq<u8>, env: Env): (r: Core)
    requires i < |c.dials| && AllShaped(c.dials)
    ensures |r.dials| == |c.dials|
  {
    hide EpochOk, WifiEpochOk, QueueSetup;
    EpochShaped(c, i, U16(data, 2), env);
    if |data| == 4 then
      var (c1, ok) := EpochOk(c, i, U16(data, 2), env);
      if !ok then c1 else Seen(QueueSetup(c1, i, 0), i, env.now)
    else if |data| >= 8 && U32(data, 4) != 0 then
      var (c1, ok) := WifiEpochOk(c, i, U16(data, 2), env);
      if !ok then c1 else Seen(QueueSetup(c1, i, U32(data, 4)), i, env.now)
    else c
  }

  // WIFI_CANCEL
  function OnWifiCancel(c: Core, i: nat, data: seq<u8>, env: Env): (r: Core)
    requires i < |c.dials| && AllShaped(c.dials)
    ensures |r.dials| == |c.dials|
  {
    hide EpochOk, WifiEpochOk, CancelSession;
    if |data| < 8 || U32(data, 4) == 0 then c
    else
      var (c1, ok) := WifiEpochOk(c, i, U16(data, 2), env);
      EpochShaped(c, i, U16(data, 2), env);
      if !ok then c1 else CancelSession(Seen(c1, i, env.now), i, U32(data, 4), env)
  }

  // ROOM_CATALOG_REQ
  function OnCatalogReq(c: Core, i: nat, ver: u8, data: seq<u8>, env: Env): (r: Core)
    requires i < |c.dials|
    ensures |r.dials| == |c.dials|
  {
    if |data| < 8 || ver < 4 then c
    else Seen(SetDial(c, i, c.dials[i].(catalogCursor := U16(data, 2), catalogReq := true)), i, env.now)
  }

  // What an accepted source choice does: it waits for the loop.
  function SourceChoice(c: Core, i: nat, data: seq<u8>, env: Env): (r: Core)
    requires i < |c.dials| && |data| >= 16
    ensures |r.dials| == |c.dials|
  {
    Seen(SetDial(c, i, c.dials[i].(sourceRequestId := data[2], sourceRevision := U32(data, 4), sourceId := U64(data, 8),
                                   sourceReq := true)), i, env.now)
  }

  // ROOM_SOURCE_SET
  function OnSourceSet(c: Core, i: nat, ver: u8, data: seq<u8>, env: Env): (r: Core)
    requires i < |c.dials|
    ensures |r.dials| == |c.dials|
  {
    if |data| < 16 || ver < 4 then c
    else
      var (c1, ok) := RoomEpochOk(c, i, ver, |data| >= 18, U16(data, 16), env);
      if !ok then c1 else SourceChoice(c1, i, data, env)
  }

  // One frame from bonded dial i, past the version floor. Of DIAL_INFO only the proof of liveness is modelled.
  function OnDialFrame(c: Core, i: nat, kind: u8, ver: u8, data: seq<u8>, env: Env): (r: Core)
    requires i < |c.dials| && AllShaped(c.dials)
    ensures |r.dials| == |c.dials|
  {
    if kind == 2 then OnCmd(c, i, data, env)
    else if kind == 3 then OnProbe(c, i, data, env)
    else if kind == 8 then OnWifiReq(c, i, data, env)
    else if kind == 10 then OnWifiSetup(c, i, data, env)
    else if kind == 11 then if |data| < 3 then c else Seen(c, i, env.now)
    else if kind == 12 then OnSensor(c, i, ver, data, env)
    else if kind == 13 then OnCatalogReq(c, i, ver, data, env)
    else if kind == 15 then OnSourceSet(c, i, ver, data, env)
    else if kind == 17 then OnWifiCancel(c, i, data, env)
    else c
  }

  // The guard leaves the slots alone, or marks one for resync, or marks it seen and latches or fails to.
  lemma EpochOutcome(c: Core, i: nat, e: u16, env: Env)
    requires i < |c.dials|
    ensures var d := c.dials[i];
            var r := EpochOk(c, i, e, env).0.dials;
            || r == c.dials
            || r == c.dials[i := d.(pendState := true)]
            || r == c.dials[i := d.(epochSeen := true, pendState := true)]
            || r == c.dials[i := d.(epochSeen := true, bond := Latch(d.bond))]
  {
  }

  lemma WifiEpochOutcome(c: Core, i: nat, e: u16, env: Env)
    requires i < |c.dials|
    ensures || (WifiEpochOk(c, i, e, env) == (Pend(c, i), false) && e != c.epoch)
            || WifiEpochOk(c, i, e, env) == EpochOk(c, i, e, env)
  {
    hide EpochOk;
  }

  lemma EpochShaped(c: Core, i: nat, e: u16, env: Env)
    requires i < |c.dials| && AllShaped(c.dials)
    ensures AllShaped(EpochOk(c, i, e, env).0.dials)
    ensures AllShaped(WifiEpochOk(c, i, e, env).0.dials)
  {
    hide EpochOk, WifiEpochOk;
    EpochOutcome(c, i, e, env);
    WifiEpochOutcome(c, i, e, env);
  }

  // sl2_link_on_recv
  function OnRecv(c: Core, src: seq<u8>, dst: seq<u8>, data: seq<u8>, crypto: Crypto, env: Env): Core
    requires AllShaped(c.dials)
  {
    if !c.started || |data| < 2 then c
    else
      var kind, ver := data[0], data[1];
      if kind == 4 then OnPairReq(c, data, crypto, env)
      else if dst != c.ownMac then c
      else if kind == 19 then OnPairConfirm(c, src, data, env)
      else if c.pairing.phase.Confirm? && src == c.pairing.candMac then c
      else
        var i := Find(c.dials, src);
        if i < 0 || (kind != 3 && ver < 1) then c
        else OnDialFrame(c, i, kind, ver, data, env)
  }

  // --- The loop ---

  function PullCaps(c: Core, i: nat, now: nat, env: Env): (r: Core)
    requires i < |c.dials|
    ensures |r.dials| == |c.dials|
  {
    var d := c.dials[i];
    if Wants(d.want, 2) && (d.lastCapsTx == 0 || Since(Clock(now), d.lastCapsTx) >= PULL_THROTTLE_MS) && env.caps then
      SetDial(Send(c, d.bond.mac, Caps(c.capsSeq)), i, d.(lastCapsTx := Clock(now)))
    else c
  }

  function PullInfo(c: Core, i: nat, now: nat): (r: Core)
    requires i < |c.dials|
    ensures |r.dials| == |c.dials|
  {
    var d := c.dials[i];
    if Wants(d.want, 1) && (d.lastInfoTx == 0 || Since(Clock(now), d.lastInfoTx) >= PULL_THROTTLE_MS) then
      SetDial(Send(c, d.bond.mac, Info), i, d.(lastInfoTx := Clock(now)))
    else c
  }

  function ServeWifiReq(c: Core, i: nat, env: Env): (r: Core)
    requires i < |c.dials|
    ensures |r.dials| == |c.dials|
  {
    var d := c.dials[i];
    if d.wifiReq then Send(SetDial(c, i, d.(wifiReq := false)), d.bond.mac, WifiResp(env.creds)) else c
  }

  function ServeSetup(c: Core, i: nat, env: Env): (r: Core)
    requires i < |c.dials|
    ensures |r.dials| == |c.dials|
  {
    var d := c.dials[i];
    if !d.wifiSetupReq then c
    else
      var c1 := SetDial(c, i, d.(wifiSetupReq := false));
      if !env.hasSetup then c1
      else
        var c2 := Emit(c1, SetupHook(d.bond.mac, env.setup));
        if env.setup then c2.(owner := c2.owner.(started := true)) else c2
  }

  function ServeCatalog(c: Core, i: nat): (r: Core)
    requires i < |c.dials|
    ensures |r.dials| == |c.dials|
  {
    var d := c.dials[i];
    if d.catalogReq then Send(SetDial(c, i, d.(catalogReq := false)), d.bond.mac, Catalog(d.catalogCursor)) else c
  }

  // mark_other_info_pending
  function OtherInfo(ds: seq<Dial>, except: nat): (r: seq<Dial>)
    ensures |r| == |ds|
  {
    seq(|ds|, i requires 0 <= i < |ds| => if i == except then ds[i] else ds[i].(lastInfoTx := 0))
  }

  function ServeSource(c: Core, i: nat, env: Env): (r: Core)
    requires i < |c.dials|
    ensures |r.dials| == |c.dials|
  {
    var d := c.dials[i];
    if !d.sourceReq then c
    else
      var c1 := SetDial(c, i, d.(sourceReq := false));
      var c2 := if env.sourceSet.Some? then Emit(c1, SourceHook(d.bond.mac, d.sourceRevision, d.sourceId)) else c1;
      var result := if env.sourceSet.Some? then env.sourceSet.value else 3;
      var c3 := Send(c2, d.bond.mac, SourceAck(d.sourceRequestId, result));
      if result == 0 then c3.(dials := OtherInfo(c3.dials, i)) else c3
  }

  // serve_pulls
  function ServePulls(c: Core, i: nat, now: nat, env: Env): (r: Core)
    requires i < |c.dials|
    ensures |r.dials| == |c.dials|
  {
    ServeSource(ServeCatalog(ServeSetup(ServeWifiReq(PullInfo(PullCaps(c, i, now, env), i, now), i, env), i, env), i), i, env)
  }

  // Whether a live dial is due a STATE on this tick.
  predicate Due(d: Dial, now: nat) {
    var since := Since(Clock(now), d.lastStateTx);
    || !d.wasLive
    || ((d.pendState || Wants(d.want, 4)) && since >= STATE_MIN_INTERVAL_MS)
    || since >= STATE_HEARTBEAT_MS
  }

  function TickDial(c: Core, i: nat, p: StatePkt, env: Env): (r: Core)
    requires i < |c.dials|
    ensures |r.dials| == |c.dials|
  {
    var d := c.dials[i];
    if !Live(d, env.now) then SetDial(c, i, d.(wasLive := false))
    else
      var due := Due(d, env.now);
      var c1 := SetDial(c, i, d.(wasLive := true));
      ServePulls(if due then SendState(c1, i, p, env.now) else c1, i, env.now, env)
  }

  function TickFrom(c: Core, k: nat, p: StatePkt, env: Env): (r: Core)
    requires k <= |c.dials|
    ensures |r.dials| == |c.dials|
    decreases |c.dials| - k
  {
    if k == |c.dials| then c else TickFrom(TickDial(c, k, p, env), k + 1, p, env)
  }

  // The pairing timeouts
  function PairTimeouts(c: Core, env: Env): (r: Core)
    ensures r.dials == c.dials
  {
    var now := Clock(env.now);
    if c.pairing.phase.Window? && Reached(now, c.pairing.deadline) then
      PairEnd(c, if c.pairing.result.Full? then Full else Timeout)
    else if c.pairing.phase.Confirm? && (Reached(now, c.pairing.confirmDeadline) || Reached(now, c.pairing.deadline)) then
      PairEnd(CleanupCandidate(c, env), Timeout)
    else c
  }

  // The slots before the first live one are marked not live.
  function QuietFrom(ds: seq<Dial>, now: nat): (r: (seq<Dial>, bool))
    ensures |r.0| == |ds|
  {
    if ds == [] then ([], false)
    else if Live(ds[0], now) then (ds, true)
    else
      var (rest, live) := QuietFrom(ds[1..], now);
      ([ds[0].(wasLive := false)] + rest, live)
  }

  lemma {:induction false} QuietShaped(ds: seq<Dial>, now: nat)
    requires AllShaped(ds)
    ensures AllShaped(QuietFrom(ds, now).0)
  {
    if ds != [] {
      QuietShaped(ds[1..], now);
    }
  }

  // sl2_link_loop
  function Tick(c: Core, env: Env): (r: Core)
    requires AllShaped(c.dials)
    ensures |r.dials| == |c.dials|
  {
    if !c.started then c
    else
      var c1 := PairTimeouts(c, env);
      var (quiet, live) := QuietFrom(c1.dials, env.now);
      QuietShaped(c1.dials, env.now);
      var c2 := c1.(dials := quiet);
      if !live then c2
      else
        var (c3, p) := BuildState(c2, env);
        var c4 := if c3.lastState == Some(p) then c3 else PendAll(c3.(lastState := Some(p)));
        TickFrom(c4, 0, p, env)
  }

  // --- Life cycle ---

  // sl2_link_init, on a radio that has just powered up
  function Reset(c: Core): Core {
    Core(false, 0, 0, ZeroBytes(6), [], Owner(false, ZeroBytes(6), 0, false, false, 0), None,
         Pairing(Off, 0, 0, ZeroBytes(32), ZeroBytes(32), ZeroBytes(6), ZeroBytes(16), ZeroBytes(32), ZeroBytes(32), Idle),
         c.world.(peers := map[], log := c.world.log + [PowerUp]))
  }

  function InstallPeers(c: Core, recs: seq<Bond>, k: nat, env: Env): (r: (Core, bool))
    requires k <= |recs|
    ensures r.0.dials == c.dials
    decreases |recs| - k
  {
    if k == |recs| then (c, true)
    else if k == env.failAt then (c, false)
    else InstallPeers(AddPeer(c, recs[k].mac, Keyed(recs[k].lmk), true), recs, k + 1, env)
  }

  // sl2_link_start
  function Start(c: Core, env: Env): Core {
    if env.ownMac.None? then c
    else
      var c1 := c.(ownMac := env.ownMac.value);
      if !env.identity then c1
      else
        var recs := if c1.world.store.Some? then Decode(c1.world.store.value) else None;
        var loaded := recs.Some? && recs.value != [];
        var c2 := if loaded then c1.(dials := FreshDials(recs.value)) else c1;
        var (c3, installed) := if loaded then InstallPeers(c2, recs.value, 0, env) else (c2, true);
        if !installed then c3
        else
          var c4 := if c3.world.capsStore.Some? then c3.(capsSeq := c3.world.capsStore.value) else c3;
          var epoch := if env.rand.None? then 0 else if env.rand.value == 0 then 1 else env.rand.value;
          c4.(epoch := epoch, started := true)
  }

  // The table without one slot
  function Without(c: Core, i: nat): seq<Bond>
    requires i < |c.dials|
  {
    BondsOf(c.dials)[..i] + BondsOf(c.dials)[i + 1..]
  }

  // The peer, the ownership and the slot of a dial are gone.
  function Removed(c: Core, i: nat, mac: seq<u8>): Core
    requires i < |c.dials|
  {
    var c2 := Disown(DelPeer(c, mac), mac);
    c2.(dials := c2.dials[..i] + c2.dials[i + 1..])
  }

  // The table without the dial is stored, and the dial removed.
  function Forgotten(c: Core, i: nat, mac: seq<u8>): Core
    requires i < |c.dials| && |Without(c, i)| <= MAX_DIALS
  {
    Removed(Store(c, Without(c, i)), i, mac)
  }

  // sl2_link_forget_dial: the new state, and whether anything was forgotten.
  function ForgetDial(c: Core, mac: seq<u8>, env: Env): (Core, bool) {
    var candidate := c.pairing.phase.Confirm? && c.pairing.candMac == mac;
    var i := Find(c.dials, mac);
    if i < 0 then (if candidate then PairCancel(c, env) else c, candidate)
    else if !Saves(Without(c, i), env.save) then (c, false)
    else (if candidate then PairCancel(Forgotten(c, i, mac), env) else Forgotten(c, i, mac), true)
  }

  // What the removal of a dial changes
  lemma ForgottenIs(c: Core, i: nat, mac: seq<u8>)
    requires i < |c.dials| && |Without(c, i)| <= MAX_DIALS
    ensures var r := Forgotten(c, i, mac);
            && r.dials == c.dials[..i] + c.dials[i + 1..] && r.pairing == c.pairing && r.started == c.started
            && r.epoch == c.epoch && r.ownMac == c.ownMac && r.lastState == c.lastState
            && r.owner == Disown(c, mac).owner && r.world.log == Disown(c, mac).world.log
            && r.world.peers == c.world.peers - {mac}
            && r.world.store == Some(Encode(Without(c, i))) && r.world.writes == c.world.writes + [Encode(Without(c, i))]
  {
    hide Encode, Without;
  }

  function DelPeers(c: Core, ds: seq<Dial>): Core
    decreases |ds|
  {
    if ds == [] then c else DelPeers(DelPeer(c, ds[0].bond.mac), ds[1..])
  }

  // The ownership and the slots are gone.
  function Cleared(c: Core): Core {
    var c1 := if c.owner.valid then Emit(c.(owner := c.owner.(valid := false)), Disowned(c.owner.mac)) else c;
    Emit(c1.(dials := []), AllWiped)
  }

  // sl2_link_forget_all
  function ForgetAll(c: Core, env: Env): (Core, bool) {
    if !Saves([], env.save) then (c, false)
    else (PairCancel(Cleared(DelPeers(Store(c, []), c.dials)), env), true)
  }

  // sl2_link_caps_changed
  function CapsChanged(c: Core, env: Env): Core {
    var seqNo := (c.capsSeq + 1) % 0x100;
    var c1 := c.(capsSeq := seqNo);
    PendAll(if env.saveCaps then c1.(world := c1.world.(capsStore := Some(seqNo))) else c1)
  }
}
