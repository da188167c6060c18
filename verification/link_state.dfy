// The controller's state and the world around it: the bond slots, the Wi-Fi setup owner, the pairing handshake,
// the radio's peers, the durable store, and what the hooks answer during one call.
module LinkState {
  import opened Words
  import opened Bonds

  type u16 = x: int | 0 <= x < 0x1_0000

  const DIAL_LIVE_MS := 12500
  const STATE_MIN_INTERVAL_MS := 250
  const STATE_HEARTBEAT_MS := 10000
  const PULL_THROTTLE_MS := 2000
  const PAIR_CONFIRM_MS := 15000
  const HISTORY := 8

  // sl2_wifi_cancel_status
  const CLOSED: u8 := 0
  const WAITING: u8 := 1
  const RECOVERY: u8 := 2
  const STALE: u8 := 3
  const UNSUPPORTED: u8 := 4

  const BCAST: seq<u8> := [255, 255, 255, 255, 255, 255]

  // A STATE packet: the parts the core stamps, and the wire image of what the device reported.
  datatype StatePkt = StatePkt(capsSeq: u8, epoch: u16, payload: seq<u8>)

  // One bond slot. heard and heardAt record the STATE last sent to the dial and the clock then; the rest is the
  // source's runtime slot.
  datatype Dial = Dial(
    bond: Bond,
    lastProbe: u32, lastStateTx: u32, lastCapsTx: u32, lastInfoTx: u32,
    want: u8, wasLive: bool, pendState: bool,
    wifiReq: bool, wifiSetupReq: bool,
    retired: seq<u32>, retiredStatus: seq<u8>, retiredNext: nat,
    catalogReq: bool, catalogCursor: u16,
    sourceReq: bool, sourceRequestId: u8, sourceRevision: u32, sourceId: u64,
    epochSeen: bool, screenValid: bool, screenOn: bool,
    heard: Option<StatePkt>, heardAt: nat)

  function FreshDial(bond: Bond): Dial {
    Dial(bond, 0, 0, 0, 0, 0, false, false, false, false, seq(HISTORY, _ => 0), seq(HISTORY, _ => 0), 0,
         false, 0, false, 0, 0, 0, false, false, false, None, 0)
  }

  function FreshDials(recs: seq<Bond>): (r: seq<Dial>)
    ensures |r| == |recs|
  {
    seq(|recs|, i requires 0 <= i < |recs| => FreshDial(recs[i]))
  }

  // The Wi-Fi setup session that holds the hotspot, if any.
  datatype Owner = Owner(valid: bool, mac: seq<u8>, session: u32, started: bool, cancelled: bool, status: u8)

  datatype Phase = Off | Window | Confirm
  datatype PairResult = Idle | Listening | Confirming | Paired | Timeout | Full | PinMismatch | StorageError | Cancelled

  datatype Pairing = Pairing(phase: Phase, deadline: u32, confirmDeadline: u32, ephPriv: seq<u8>, ephPub: seq<u8>,
                             candMac: seq<u8>, candLmk: seq<u8>, candIdPub: seq<u8>, candEphPub: seq<u8>,
                             result: PairResult)

  datatype Peer = Plain | Keyed(lmk: seq<u8>)

  datatype Frame =
    | State(pkt: StatePkt)
    | Caps(capsSeq: u8)
    | Info
    | WifiResp(ok: bool)
    | Catalog(cursor: u16)
    | SourceAck(requestId: u8, result: u8)
    | CancelAck(session: u32, status: u8)
    | PairResp(ephPub: seq<u8>, channel: u8, sig: seq<u8>)
    | PairAck(tag: seq<u8>)

  // What leaves the core, in order: frames sent, hooks called, and marks that the source does not emit: the start and
  // the loss of an ownership of the Wi-Fi setup, the recording of its verdict, the retiring of a session, the wiping of
  // one dial's history or of all, and a reset of the controller.
  datatype Event =
    | Sent(mac: seq<u8>, frame: Frame)
    | ApplyHook(mac: seq<u8>)
    | SensorHook(mac: seq<u8>, isEdit: bool)
    | SourceHook(mac: seq<u8>, revision: u32, id: u64)
    | SetupHook(mac: seq<u8>, ok: bool)
    | CancelHook(mac: seq<u8>, session: u32, status: u8)
    | Owned(mac: seq<u8>, session: u32)
    | Settled(mac: seq<u8>, session: u32, status: u8)
    | Disowned(mac: seq<u8>)
    | Retired(mac: seq<u8>, session: u32)
    | Wiped(mac: seq<u8>)
    | AllWiped
    | PowerUp

  // store is the durable bond table; writes lists every value it was given, oldest first.
  datatype World = World(store: Option<seq<u8>>, capsStore: Option<u8>, writes: seq<seq<u8>>,
                         peers: map<seq<u8>, Peer>, log: seq<Event>)

  datatype Core = Core(started: bool, epoch: u16, capsSeq: u8, ownMac: seq<u8>, dials: seq<Dial>, owner: Owner,
                       lastState: Option<StatePkt>, pairing: Pairing, world: World)

  // The signature check and the Diffie-Hellman function are parameters of the core.
  datatype Crypto = Crypto(verify: (seq<u8>, seq<u8>, seq<u8>) -> bool, shared: (seq<u8>, seq<u8>) -> Option<seq<u8>>)

  datatype Device = Unavailable | Reports(payload: seq<u8>, setupAp: bool)

  // How the world answers during one call. now and later are the first and second reading of the clock, which the
  // core sees modulo 2^32.
  datatype Env = Env(
    now: nat, later: nat,
    save: bool, saveCaps: bool, install: bool, restore: bool, failAt: nat,
    keypair: Option<(seq<u8>, seq<u8>)>, sign: Option<seq<u8>>, channel: u8,
    ownMac: Option<seq<u8>>, identity: bool, rand: Option<u16>,
    device: Device, apply: bool, hasSensor: bool, caps: bool, creds: bool,
    hasSetup: bool, setup: bool, hasCancel: bool, cancel: u8,
    sourceSet: Option<u8>)

  function Clock(t: nat): u32 {
    t % B32
  }

  // (uint32_t)(a - b)
  function Since(a: u32, b: u32): u32 {
    (a - b) % B32
  }

  // The 32-bit clock measures the true age of anything sent less than 2^32 ms ago.
  lemma TrueAge(now: nat, sent: nat)
    requires sent <= now < sent + B32
    ensures Since(Clock(now), Clock(sent)) == now - sent
  {
    assert (now - sent) % B32 == now - sent;
    assert (now % B32 - sent % B32) % B32 == (now - sent) % B32 by { ModDifference(now, sent); }
  }

  lemma ModDifference(a: nat, b: nat)
    ensures (a % B32 - b % B32) % B32 == (a - b) % B32
  {
    var x, y := a / B32, b / B32;
    assert a - b == (a % B32 - b % B32) + B32 * (x - y);
  }

  // (int32_t)(a - b) >= 0
  predicate Reached(a: u32, b: u32) {
    Since(a, b) < 0x8000_0000
  }

  // dial_live_at
  predicate Live(d: Dial, now: nat) {
    d.lastProbe != 0 && Since(Clock(now), d.lastProbe) < DIAL_LIVE_MS
  }

  predicate Latched(b: Bond) {
    b.flags % 2 == 1
  }

  function Latch(b: Bond): Bond {
    if Latched(b) then b else b.(flags := b.flags + 1)
  }

  // want & bit, for the three bits of SL2_WANT_*
  predicate Wants(want: u8, bit: int)
    requires bit in {1, 2, 4}
  {
    want / bit % 2 == 1
  }

  // dial_by_mac
  function Find(ds: seq<Dial>, mac: seq<u8>): (i: int)
    ensures -1 <= i < |ds|
    ensures i >= 0 ==> ds[i].bond.mac == mac && forall j :: 0 <= j < i ==> ds[j].bond.mac != mac
    ensures i == -1 ==> forall j :: 0 <= j < |ds| ==> ds[j].bond.mac != mac
  {
    if ds == [] then -1
    else if ds[0].bond.mac == mac then 0
    else
      var r := Find(ds[1..], mac);
      assert forall j :: 1 <= j < |ds| ==> ds[j] == ds[1..][j - 1];
      if r == -1 then -1 else r + 1
  }

  function BondsOf(ds: seq<Dial>): (b: seq<Bond>)
    ensures |b| == |ds|
  {
    seq(|ds|, i requires 0 <= i < |ds| => ds[i].bond)
  }

  function Emit(c: Core, e: Event): Core {
    c.(world := c.world.(log := c.world.log + [e]))
  }

  // What has happened stays in the log.
  predicate Grows(was: seq<Event>, now: seq<Event>) {
    |was| <= |now| && now[..|was|] == was
  }

  lemma GrowsTrans(a: seq<Event>, b: seq<Event>, c: seq<Event>)
    requires Grows(a, b) && Grows(b, c)
    ensures Grows(a, c)
  {
    assert c[..|a|] == c[..|b|][..|a|];
  }

  // The event wipes the session history of a dial, or of all.
  predicate Wipe(e: Event) {
    e.PowerUp? || e.AllWiped? || e.Wiped?
  }

  // Nothing of what has happened since wiped a history.
  predicate Calm(was: seq<Event>, now: seq<Event>) {
    Grows(was, now) && forall k :: |was| <= k < |now| ==> !Wipe(now[k])
  }

  lemma CalmTrans(a: seq<Event>, b: seq<Event>, c: seq<Event>)
    requires Calm(a, b) && Calm(b, c)
    ensures Calm(a, c)
  {
    GrowsTrans(a, b, c);
    assert forall k :: |a| <= k < |b| ==> c[k] == c[..|b|][k];
  }

  function Send(c: Core, mac: seq<u8>, frame: Frame): Core {
    Emit(c, Sent(mac, frame))
  }

  function SetDial(c: Core, i: nat, d: Dial): (r: Core)
    requires i < |c.dials|
    ensures |r.dials| == |c.dials|
  {
    c.(dials := c.dials[i := d])
  }

  // persist_bonds succeeds when the table fits the blob and the store takes it ...
  predicate Saves(recs: seq<Bond>, save: bool) {
    |recs| <= MAX_DIALS && save
  }

  // ... and then the store holds exactly that table.
  function Store(c: Core, recs: seq<Bond>): (r: Core)
    requires |recs| <= MAX_DIALS
    ensures r.dials == c.dials
  {
    var blob := Encode(recs);
    c.(world := c.world.(store := Some(blob), writes := c.world.writes + [blob]))
  }

  function AddPeer(c: Core, mac: seq<u8>, peer: Peer, ok: bool): Core {
    if ok then c.(world := c.world.(peers := c.world.peers[mac := peer])) else c
  }

  function DelPeer(c: Core, mac: seq<u8>): Core {
    c.(world := c.world.(peers := c.world.peers - {mac}))
  }

  // Bytes of a frame past its end read as zero, as the tolerant decode fills them.
  function Byte(data: seq<u8>, i: nat): u8 {
    if i < |data| then data[i] else 0
  }

  function U16(data: seq<u8>, i: nat): u16 {
    Byte(data, i) as int + Byte(data, i + 1) as int * 0x100
  }

  function U32(data: seq<u8>, i: nat): u32 {
    U16(data, i) as int + U16(data, i + 2) as int * 0x1_0000
  }

  function U64(data: seq<u8>, i: nat): u64 {
    U32(data, i) as int + U32(data, i + 4) as int * 0x1_0000_0000
  }

  function ZeroBytes(n: nat): seq<u8> {
    seq(n, _ => 0)
  }
}
