// Which operations leave the Wi-Fi setup session alone, and a monitor that reads its story back from the log.
module WifiFrame {
  import opened Words
  import opened Bonds
  import opened LinkState
  import opened WifiSession
  import opened WifiHistory
  import opened LinkSpec

  // What the log says: whether everything so far was in order, which session owns the hotspot, whether its own start has
  // been carried out, its verdict so far, and the last eight sessions each dial has retired since its history was wiped.
  datatype Monitor = Monitor(ok: bool, owner: Option<(seq<u8>, u32)>, started: bool, verdict: Option<u8>,
                             queues: map<seq<u8>, seq<u32>>)

  function QueueOf(m: Monitor, mac: seq<u8>): seq<u32> {
    if mac in m.queues then m.queues[mac] else []
  }

  // The rules. A session with a name gets the hotspot only if its dial does not remember it as retired. A start is
  // carried out only for the owner, before any verdict. The adapter is asked to cancel only for the owner by its exact
  // address and nonzero session, after the owner's own start, and not after a final verdict. A final verdict is not taken
  // back, and an owner with a name is not retired before its verdict.
  function Note(m: Monitor, e: Event): Monitor {
    match e
    case Owned(mac, session) =>
      m.(ok := m.ok && (session == 0 || session !in QueueOf(m, mac)),
         owner := Some((mac, session)), started := false, verdict := None)
    case Disowned(mac) => m.(owner := None, started := false, verdict := None)
    case Retired(mac, session) =>
      m.(ok := m.ok && (session != 0 && m.owner == Some((mac, session)) ==> m.verdict.Some?),
         queues := m.queues[mac := Push(QueueOf(m, mac), session)])
    case Wiped(mac) => m.(queues := m.queues - {mac})
    case AllWiped => m.(queues := map[])
    case PowerUp => m.(owner := None, started := false, verdict := None, queues := map[])
    case SetupHook(mac, ok) =>
      m.(ok := m.ok && m.owner.Some? && m.owner.value.0 == mac && m.verdict.None?, started := m.started || ok)
    case CancelHook(mac, session, status) =>
      m.(ok := m.ok && m.owner == Some((mac, session)) && session != 0 && m.started && m.verdict in {None, Some(WAITING)})
    case Settled(mac, session, status) =>
      m.(ok := m.ok && m.owner == Some((mac, session)) && (m.verdict in {None, Some(WAITING)} || status != WAITING),
         verdict := Some(status))
    case _ => m
  }

  const IDLE := Monitor(true, None, false, None, map[])

  function Watch(log: seq<Event>): Monitor
    decreases |log|
  {
    if log == [] then IDLE else Note(Watch(log[..|log| - 1]), log[|log| - 1])
  }

  lemma WatchMore(log: seq<Event>, e: Event)
    ensures Watch(log + [e]) == Note(Watch(log), e)
  {
    assert (log + [e])[..|log|] == log;
  }

  lemma {:induction false} WatchPrefix(log: seq<Event>, k: nat)
    requires k <= |log| && Watch(log).ok
    ensures Watch(log[..k]).ok
    decreases |log|
  {
    if k < |log| {
      WatchPrefix(log[..|log| - 1], k);
      assert log[..|log| - 1][..k] == log[..k];
    } else {
      assert log[..k] == log;
    }
  }

  predicate SameWifi(a: Dial, b: Dial) {
    a.bond.mac == b.bond.mac && a.wifiSetupReq == b.wifiSetupReq
    && a.retired == b.retired && a.retiredStatus == b.retiredStatus && a.retiredNext == b.retiredNext
  }

  ghost predicate KeepsWifi(c: Core, r: Core) {
    && |r.dials| == |c.dials| && (forall i :: 0 <= i < |c.dials| ==> SameWifi(r.dials[i], c.dials[i]))
    && r.owner == c.owner && r.started == c.started && Watch(r.world.log) == Watch(c.world.log)
  }

  lemma WifiRefl(c: Core)
    ensures KeepsWifi(c, c)
  {
  }

  lemma WifiTrans(a: Core, b: Core, c: Core)
    requires KeepsWifi(a, b) && KeepsWifi(b, c)
    ensures KeepsWifi(a, c)
  {
  }

  // An event the monitor does not look at
  predicate Plainly(e: Event) {
    e.Sent? || e.ApplyHook? || e.SensorHook? || e.SourceHook?
  }

  lemma EmitWifi(c: Core, e: Event)
    requires Plainly(e)
    ensures KeepsWifi(c, Emit(c, e))
  {
    WatchMore(c.world.log, e);
  }

  lemma SetWifi(c: Core, i: nat, d: Dial)
    requires i < |c.dials| && SameWifi(d, c.dials[i])
    ensures KeepsWifi(c, SetDial(c, i, d))
  {
    hide Watch;
  }

  // A slot updated and a frame sent
  lemma SetSendWifi(c: Core, i: nat, d: Dial, mac: seq<u8>, frame: Frame)
    requires i < |c.dials| && SameWifi(d, c.dials[i])
    ensures KeepsWifi(c, Send(SetDial(c, i, d), mac, frame)) && KeepsWifi(c, SetDial(Send(c, mac, frame), i, d))
  {
    hide KeepsWifi, SameWifi;
    SetWifi(c, i, d);
    EmitWifi(SetDial(c, i, d), Sent(mac, frame));
    WifiTrans(c, SetDial(c, i, d), Send(SetDial(c, i, d), mac, frame));
    assert Send(SetDial(c, i, d), mac, frame) == SetDial(Send(c, mac, frame), i, d);
  }

  lemma EpochWifi(c: Core, i: nat, e: u16, env: Env)
    requires i < |c.dials|
    ensures KeepsWifi(c, EpochOk(c, i, e, env).0)
  {
    hide Watch, EpochOk;
    EpochOutcome(c, i, e, env);
    EpochKeepsOwner(c, i, e, env);
  }

  lemma EpochKeepsOwner(c: Core, i: nat, e: u16, env: Env)
    requires i < |c.dials|
    ensures var r := EpochOk(c, i, e, env).0;
            r.owner == c.owner && r.started == c.started && r.world.log == c.world.log && |r.dials| == |c.dials|
  {
    hide BondsOf, Encode, Latch, Latched;
  }

  lemma RoomEpochWifi(c: Core, i: nat, ver: u8, complete: bool, e: u16, env: Env)
    requires i < |c.dials|
    ensures KeepsWifi(c, RoomEpochOk(c, i, ver, complete, e, env).0)
  {
    hide EpochOk, KeepsWifi;
    SetWifi(c, i, c.dials[i].(pendState := true));
    EpochWifi(c, i, if ver >= 5 && complete then e else 0, env);
  }

  lemma WifiEpochWifi(c: Core, i: nat, e: u16, env: Env)
    requires i < |c.dials|
    ensures KeepsWifi(c, WifiEpochOk(c, i, e, env).0)
  {
    hide EpochOk, KeepsWifi;
    SetWifi(c, i, c.dials[i].(pendState := true));
    EpochWifi(c, i, e, env);
  }

  lemma SeenWifi(c: Core, i: nat, now: nat)
    requires i < |c.dials|
    ensures KeepsWifi(c, Seen(c, i, now))
  {
    SetWifi(c, i, c.dials[i].(lastProbe := Clock(now)));
  }

  lemma SendStateWifi(c: Core, i: nat, p: StatePkt, now: nat)
    requires i < |c.dials|
    ensures KeepsWifi(c, SendState(c, i, p, now))
  {
    hide KeepsWifi;
    var d := c.dials[i];
    SetSendWifi(c, i, d.(lastStateTx := Clock(now), pendState := false, want := if Wants(d.want, 4) then d.want - 4 else d.want,
                         heard := Some(p), heardAt := now), d.bond.mac, State(p));
  }

  lemma {:induction false} EchoWifi(c: Core, k: nat, p: StatePkt, now: nat)
    requires k <= |c.dials|
    ensures KeepsWifi(c, EchoFrom(c, k, p, now))
    decreases |c.dials| - k
  {
    hide KeepsWifi, SendState, Live;
    if k == |c.dials| {
      WifiRefl(c);
    } else {
      var c1 := if Live(c.dials[k], now) then SendState(c, k, p, now) else Pend(c, k);
      SendStateWifi(c, k, p, now);
      SetWifi(c, k, c.dials[k].(pendState := true));
      EchoWifi(c1, k + 1, p, now);
      WifiTrans(c, c1, EchoFrom(c1, k + 1, p, now));
    }
  }

  lemma PendAllWifi(c: Core)
    ensures KeepsWifi(c, PendAll(c))
  {
    hide Watch;
  }

  lemma CapsWifi(c: Core, i: nat, now: nat, env: Env)
    requires i < |c.dials|
    ensures KeepsWifi(c, PullCaps(c, i, now, env))
  {
    hide KeepsWifi, Since, Wants;
    WifiRefl(c);
    SetSendWifi(c, i, c.dials[i].(lastCapsTx := Clock(now)), c.dials[i].bond.mac, Caps(c.capsSeq));
  }

  lemma InfoWifi(c: Core, i: nat, now: nat)
    requires i < |c.dials|
    ensures KeepsWifi(c, PullInfo(c, i, now))
  {
    hide KeepsWifi, Since, Wants;
    WifiRefl(c);
    SetSendWifi(c, i, c.dials[i].(lastInfoTx := Clock(now)), c.dials[i].bond.mac, Info);
  }

  lemma CredsWifi(c: Core, i: nat, env: Env)
    requires i < |c.dials|
    ensures KeepsWifi(c, ServeWifiReq(c, i, env))
  {
    hide KeepsWifi;
    WifiRefl(c);
    SetSendWifi(c, i, c.dials[i].(wifiReq := false), c.dials[i].bond.mac, WifiResp(env.creds));
  }

  lemma CatalogWifi(c: Core, i: nat)
    requires i < |c.dials|
    ensures KeepsWifi(c, ServeCatalog(c, i))
  {
    hide KeepsWifi;
    WifiRefl(c);
    SetSendWifi(c, i, c.dials[i].(catalogReq := false), c.dials[i].bond.mac, Catalog(c.dials[i].catalogCursor));
  }

  lemma SourceWifi(c: Core, i: nat, env: Env)
    requires i < |c.dials|
    ensures KeepsWifi(c, ServeSource(c, i, env))
  {
    hide KeepsWifi, OtherInfo;
    WifiRefl(c);
    var d := c.dials[i];
    if d.sourceReq {
      var c1 := SetDial(c, i, d.(sourceReq := false));
      SetWifi(c, i, d.(sourceReq := false));
      var c2 := if env.sourceSet.Some? then Emit(c1, SourceHook(d.bond.mac, d.sourceRevision, d.sourceId)) else c1;
      WifiRefl(c1);
      EmitWifi(c1, SourceHook(d.bond.mac, d.sourceRevision, d.sourceId));
      WifiTrans(c, c1, c2);
      var result := if env.sourceSet.Some? then env.sourceSet.value else 3;
      var c3 := Send(c2, d.bond.mac, SourceAck(d.sourceRequestId, result));
      EmitWifi(c2, Sent(d.bond.mac, SourceAck(d.sourceRequestId, result)));
      WifiTrans(c, c2, c3);
      OtherInfoWifi(c3, i);
      WifiTrans(c, c3, c3.(dials := OtherInfo(c3.dials, i)));
    }
  }

  lemma OtherInfoWifi(c: Core, i: nat)
    ensures KeepsWifi(c, c.(dials := OtherInfo(c.dials, i)))
  {
    hide Watch;
  }

  lemma SensorReportWifi(c: Core, i: nat, mac: seq<u8>, data: seq<u8>, env: Env)
    requires i < |c.dials| && |data| >= 7
    ensures KeepsWifi(c, SensorReport(c, i, mac, data, env))
  {
    hide KeepsWifi;
    var flags := data[2];
    var d := c.dials[i].(screenValid := flags / 2 % 2 == 1, screenOn := flags / 4 % 2 == 1);
    var c2 := SetDial(c, i, d);
    SetWifi(c, i, d);
    var c3 := if env.hasSensor then Emit(c2, SensorHook(mac, |data| > 7 && data[7] != 0xFF)) else c2;
    EmitWifi(c2, SensorHook(mac, |data| > 7 && data[7] != 0xFF));
    WifiRefl(c2);
    WifiTrans(c, c2, c3);
    SeenWifi(c3, i, env.now);
    WifiTrans(c, c3, Seen(c3, i, env.now));
  }

  lemma {:induction false} QuietWifi(ds: seq<Dial>, now: nat)
    ensures forall i :: 0 <= i < |ds| ==> SameWifi(QuietFrom(ds, now).0[i], ds[i])
  {
    if ds != [] {
      QuietWifi(ds[1..], now);
      var r := QuietFrom(ds, now).0;
      forall i | 0 <= i < |ds|
        ensures SameWifi(r[i], ds[i])
      {
        if i > 0 {
          assert ds[i] == ds[1..][i - 1];
        }
      }
    }
  }

  // Pairing may close or open a handshake; the session is not touched.
  lemma PairEndsWifi(c: Core, env: Env)
    ensures forall result :: KeepsWifi(c, PairEnd(c, result))
    ensures forall result :: KeepsWifi(c, PairEnd(CleanupCandidate(c, env), result))
  {
    hide Watch, Find;
  }

  lemma PairingWifi(c: Core, window: u32, env: Env)
    ensures KeepsWifi(c, PairStart(c, window, env)) && KeepsWifi(c, PairCancel(c, env)) && KeepsWifi(c, PairTimeouts(c, env))
  {
    hide Watch, Find;
  }
}
