// Which operations leave the bond table, the store, the radio's peers and the pairing handshake alone.
module LinkFrame {
  import opened Words
  import opened Bonds
  import opened LinkState
  import opened WifiSession
  import opened LinkSpec

  ghost predicate SameBond(a: Dial, b: Dial) {
    a.bond == b.bond && a.epochSeen == b.epochSeen && (HistoryShaped(b) ==> HistoryShaped(a))
  }

  ghost predicate KeepsTable(c: Core, r: Core) {
    && |r.dials| == |c.dials| && (forall i :: 0 <= i < |c.dials| ==> SameBond(r.dials[i], c.dials[i]))
    && r.world.store == c.world.store && r.world.writes == c.world.writes && r.world.peers == c.world.peers
    && r.pairing == c.pairing && r.started == c.started && r.epoch == c.epoch && r.ownMac == c.ownMac
    && Calm(c.world.log, r.world.log)
  }

  lemma KeepsBonds(c: Core, r: Core)
    requires KeepsTable(c, r)
    ensures BondsOf(r.dials) == BondsOf(c.dials)
  {
  }

  lemma KeepsTrans(a: Core, b: Core, c: Core)
    requires KeepsTable(a, b) && KeepsTable(b, c)
    ensures KeepsTable(a, c)
  {
    hide Calm;
    CalmTrans(a.world.log, b.world.log, c.world.log);
  }

  lemma SetKeeps(c: Core, i: nat, d: Dial)
    requires i < |c.dials| && SameBond(d, c.dials[i])
    ensures KeepsTable(c, SetDial(c, i, d))
  {
  }

  lemma RetireSame(d: Dial, session: u32, status: u8)
    requires HistoryShaped(d)
    ensures SameBond(Retire(d, session, status), d)
  {
    hide RetiredIndex;
  }

  lemma TakeOverKeeps(c: Core, i: nat, session: u32)
    requires i < |c.dials| && AllShaped(c.dials)
    ensures KeepsTable(c, TakeOver(c, i, session))
  {
    hide RetireAt, Find, KeepsTable;
    var prior := if c.owner.valid then Find(c.dials, c.owner.mac) else -1;
    var owned := Emit(c.(dials := DropRequests(c.dials),
                         owner := Owner(true, c.dials[i].bond.mac, session, false, false, c.owner.status)),
                      Owned(c.dials[i].bond.mac, session));
    DropShaped(c.dials);
    OwnedKeeps(c, owned);
    if prior >= 0 {
      RetireAtKeeps(owned, prior, c.owner.session, STALE);
      KeepsTrans(c, owned, RetireAt(owned, prior, c.owner.session, STALE));
    }
  }

  lemma OwnedKeeps(c: Core, r: Core)
    requires r == c.(dials := DropRequests(c.dials), owner := r.owner, world := c.world.(log := r.world.log))
    requires Calm(c.world.log, r.world.log)
    ensures KeepsTable(c, r)
  {
    hide Calm;
  }

  lemma QueueKeeps(c: Core, i: nat, session: u32)
    requires i < |c.dials| && AllShaped(c.dials)
    ensures KeepsTable(c, QueueSetup(c, i, session))
  {
    hide TakeOver, RetiredIndex, IsOwner, KeepsTable;
    TakeOverKeeps(c, i, session);
    KeepsRefl(c);
    var c1 := TakeOver(c, i, session);
    SetKeeps(c1, i, c1.dials[i].(wifiSetupReq := true));
    KeepsTrans(c, c1, SetDial(c1, i, c1.dials[i].(wifiSetupReq := true)));
    SetKeeps(c, i, c.dials[i].(wifiSetupReq := true));
  }

  lemma KeepsRefl(c: Core)
    ensures KeepsTable(c, c)
  {
  }

  lemma ObserveKeeps(c: Core)
    requires AllShaped(c.dials)
    ensures KeepsTable(c, ObserveClosed(c))
  {
    hide Retire, Find;
    var i := Find(c.dials, c.owner.mac);
    if i >= 0 {
      RetireSame(c.dials[i], c.owner.session, CLOSED);
    }
  }

  lemma CancelKeeps(c: Core, i: nat, session: u32, env: Env)
    requires i < |c.dials| && AllShaped(c.dials)
    ensures KeepsTable(c, CancelSession(c, i, session, env))
  {
    hide ObserveClosed, Retire, CancelVerdict, IsOwner, AllShaped, HistoryShaped;
    ObserveKeeps(c);
    ObserveShaped(c);
    KeepsRefl(c);
    var c0 := if WithoutStart(env.device) == CLOSED then ObserveClosed(c) else c;
    CancelTailKeeps(c0, i, session, env);
    KeepsTrans(c, c0, CancelTail(c0, i, session, env));
  }

  lemma RetireAtKeeps(c: Core, i: nat, session: u32, status: u8)
    requires i < |c.dials| && AllShaped(c.dials)
    ensures KeepsTable(c, RetireAt(c, i, session, status))
  {
    hide Retire;
    RetireSame(c.dials[i], session, status);
  }

  lemma SettleKeeps(c: Core, i: nat, session: u32, env: Env)
    requires i < |c.dials| && AllShaped(c.dials)
    ensures KeepsTable(c, CancelSettle(c, i, session, env))
  {
    hide CancelVerdict, CancelStatus, IsOwner, PendAll, Emit, KeepsTable;
    var mac, status := c.dials[i].bond.mac, CancelStatus(c, i, session, env);
    var asked := Emit(c, CancelHook(mac, session, status));
    EmitKeeps(c, CancelHook(mac, session, status));
    PendAllKeeps(asked);
    KeepsTrans(c, asked, PendAll(asked));
    KeepsRefl(c);
    var c1 := if CancelVerdict(c, i, session, env).AskHook? then PendAll(asked) else c;
    SettledKeeps(c1, i, c1.owner.(cancelled := true, status := status), Settled(mac, session, status));
    if IsOwner(c, i, session) {
      KeepsTrans(c, c1, CancelSettle(c, i, session, env));
    }
  }

  lemma PendAllKeeps(c: Core)
    ensures KeepsTable(c, PendAll(c))
  {
  }

  lemma SettledKeeps(c: Core, i: nat, o: Owner, e: Event)
    requires i < |c.dials| && !Wipe(e)
    ensures KeepsTable(c, Emit(SetDial(c.(owner := o), i, c.dials[i].(wifiSetupReq := false)), e))
  {
  }

  lemma CancelTailKeeps(c: Core, i: nat, session: u32, env: Env)
    requires i < |c.dials| && AllShaped(c.dials)
    ensures KeepsTable(c, CancelTail(c, i, session, env))
  {
    hide CancelSettle, CancelStatus, RetireAt, KeepsTable;
    var c2 := CancelSettle(c, i, session, env);
    var status := CancelStatus(c, i, session, env);
    SettleShaped(c, i, session, env);
    SettleKeeps(c, i, session, env);
    var c3 := RetireAt(c2, i, session, status);
    RetireAtKeeps(c2, i, session, status);
    KeepsTrans(c, c2, c3);
    EmitKeeps(c3, Sent(c.dials[i].bond.mac, CancelAck(session, status)));
    KeepsTrans(c, c3, Send(c3, c.dials[i].bond.mac, CancelAck(session, status)));
  }

  lemma SendStateKeeps(c: Core, i: nat, p: StatePkt, now: nat)
    requires i < |c.dials|
    ensures KeepsTable(c, SendState(c, i, p, now))
  {
  }

  lemma {:induction false} EchoKeeps(c: Core, k: nat, p: StatePkt, now: nat)
    requires k <= |c.dials|
    ensures KeepsTable(c, EchoFrom(c, k, p, now))
    decreases |c.dials| - k
  {
    hide KeepsTable, SendState, Live;
    if k == |c.dials| {
      KeepsRefl(c);
    } else {
      var c1 := if Live(c.dials[k], now) then SendState(c, k, p, now) else Pend(c, k);
      SendStateKeeps(c, k, p, now);
      SetKeeps(c, k, c.dials[k].(pendState := true));
      EchoKeeps(c1, k + 1, p, now);
      KeepsTrans(c, c1, EchoFrom(c1, k + 1, p, now));
    }
  }

  lemma BuildKeeps(c: Core, env: Env)
    requires AllShaped(c.dials)
    ensures KeepsTable(c, BuildState(c, env).0)
  {
    hide ObserveClosed;
    ObserveKeeps(c);
    KeepsRefl(c);
  }

  lemma EchoAllKeeps(c: Core, now: nat, env: Env)
    requires AllShaped(c.dials)
    ensures KeepsTable(c, EchoStateAll(c, now, env))
  {
    hide BuildState, EchoFrom;
    var (c1, p) := BuildState(c, env);
    BuildKeeps(c, env);
    EchoKeeps(c1.(lastState := Some(p)), 0, p, now);
  }

  lemma CapsKeeps(c: Core, i: nat, now: nat, env: Env)
    requires i < |c.dials|
    ensures KeepsTable(c, PullCaps(c, i, now, env))
  {
  }

  lemma InfoKeeps(c: Core, i: nat, now: nat)
    requires i < |c.dials|
    ensures KeepsTable(c, PullInfo(c, i, now))
  {
  }

  lemma WifiReqKeeps(c: Core, i: nat, env: Env)
    requires i < |c.dials|
    ensures KeepsTable(c, ServeWifiReq(c, i, env))
  {
  }

  lemma SetupKeeps(c: Core, i: nat, env: Env)
    requires i < |c.dials|
    ensures KeepsTable(c, ServeSetup(c, i, env))
  {
  }

  lemma CatalogKeeps(c: Core, i: nat)
    requires i < |c.dials|
    ensures KeepsTable(c, ServeCatalog(c, i))
  {
  }

  lemma SourceKeeps(c: Core, i: nat, env: Env)
    requires i < |c.dials|
    ensures KeepsTable(c, ServeSource(c, i, env))
  {
    hide OtherInfo, KeepsTable;
    KeepsRefl(c);
    var d := c.dials[i];
    if d.sourceReq {
      var c1 := SetDial(c, i, d.(sourceReq := false));
      SetKeeps(c, i, d.(sourceReq := false));
      var c2 := if env.sourceSet.Some? then Emit(c1, SourceHook(d.bond.mac, d.sourceRevision, d.sourceId)) else c1;
      KeepsRefl(c1);
      EmitKeeps(c1, SourceHook(d.bond.mac, d.sourceRevision, d.sourceId));
      KeepsTrans(c, c1, c2);
      var result := if env.sourceSet.Some? then env.sourceSet.value else 3;
      var c3 := Send(c2, d.bond.mac, SourceAck(d.sourceRequestId, result));
      EmitKeeps(c2, Sent(d.bond.mac, SourceAck(d.sourceRequestId, result)));
      KeepsTrans(c, c2, c3);
      OtherInfoKeeps(c3, i);
      KeepsTrans(c, c3, c3.(dials := OtherInfo(c3.dials, i)));
    }
  }

  lemma OtherInfoKeeps(c: Core, except: nat)
    ensures KeepsTable(c, c.(dials := OtherInfo(c.dials, except)))
  {
  }

  lemma ServePullsKeeps(c: Core, i: nat, now: nat, env: Env)
    requires i < |c.dials|
    ensures KeepsTable(c, ServePulls(c, i, now, env))
  {
    hide KeepsTable, PullInfo, PullCaps, ServeSetup, ServeWifiReq, ServeSource, ServeCatalog;
    var c1 := PullCaps(c, i, now, env);
    CapsKeeps(c, i, now, env);
    var c2 := PullInfo(c1, i, now);
    InfoKeeps(c1, i, now);
    KeepsTrans(c, c1, c2);
    var c3 := ServeWifiReq(c2, i, env);
    WifiReqKeeps(c2, i, env);
    KeepsTrans(c, c2, c3);
    var c4 := ServeSetup(c3, i, env);
    SetupKeeps(c3, i, env);
    KeepsTrans(c, c3, c4);
    var c5 := ServeCatalog(c4, i);
    CatalogKeeps(c4, i);
    KeepsTrans(c, c4, c5);
    SourceKeeps(c5, i, env);
    KeepsTrans(c, c5, ServeSource(c5, i, env));
  }

  lemma TickDialKeeps(c: Core, i: nat, p: StatePkt, env: Env)
    requires i < |c.dials|
    ensures KeepsTable(c, TickDial(c, i, p, env))
  {
    hide KeepsTable, ServePulls, Live, Due, SendState;
    var d := c.dials[i];
    SetKeeps(c, i, d.(wasLive := false));
    SetKeeps(c, i, d.(wasLive := true));
    var c1 := SetDial(c, i, d.(wasLive := true));
    SendStateKeeps(c1, i, p, env.now);
    KeepsRefl(c1);
    var c2 := if Due(d, env.now) then SendState(c1, i, p, env.now) else c1;
    ServePullsKeeps(c2, i, env.now, env);
    KeepsTrans(c, c1, c2);
    KeepsTrans(c, c2, ServePulls(c2, i, env.now, env));
  }

  lemma {:induction false} TickFromKeeps(c: Core, k: nat, p: StatePkt, env: Env)
    requires k <= |c.dials|
    ensures KeepsTable(c, TickFrom(c, k, p, env))
    decreases |c.dials| - k
  {
    hide KeepsTable, TickDial;
    if k == |c.dials| {
      KeepsRefl(c);
    } else {
      TickDialKeeps(c, k, p, env);
      var c1 := TickDial(c, k, p, env);
      TickFromKeeps(c1, k + 1, p, env);
      KeepsTrans(c, c1, TickFrom(c1, k + 1, p, env));
    }
  }

  lemma {:induction false} QuietSame(ds: seq<Dial>, now: nat)
    ensures forall i :: 0 <= i < |ds| ==> SameBond(QuietFrom(ds, now).0[i], ds[i])
  {
    if ds != [] {
      QuietSame(ds[1..], now);
      var r := QuietFrom(ds, now).0;
      forall i | 0 <= i < |ds|
        ensures SameBond(r[i], ds[i])
      {
        if i > 0 {
          assert ds[i] == ds[1..][i - 1];
        }
      }
    }
  }

  // A tick keeps the table; only its pairing timeouts may close a handshake.
  lemma TickKeeps(c: Core, env: Env)
    requires AllShaped(c.dials)
    ensures KeepsTable(if c.started then PairTimeouts(c, env) else c, Tick(c, env))
  {
    hide PairTimeouts, QuietFrom, BuildState, TickFrom;
    if c.started {
      var c1 := PairTimeouts(c, env);
      QuietSame(c1.dials, env.now);
      QuietShaped(c1.dials, env.now);
      var (quiet, live) := QuietFrom(c1.dials, env.now);
      var c2 := c1.(dials := quiet);
      assert KeepsTable(c1, c2);
      if live {
        BuildKeeps(c2, env);
        var (c3, p) := BuildState(c2, env);
        var c4 := if c3.lastState == Some(p) then c3 else PendAll(c3.(lastState := Some(p)));
        assert KeepsTable(c3, c4);
        TickFromKeeps(c4, 0, p, env);
        hide KeepsTable;
        KeepsTrans(c1, c2, c3);
        KeepsTrans(c1, c3, c4);
        KeepsTrans(c1, c4, TickFrom(c4, 0, p, env));
      }
    }
  }

  // The frames the replay guard stands before: CMD, WIFI_SETUP, DIAL_SENSOR, ROOM_SOURCE_SET and WIFI_CANCEL.
  predicate Guarded(kind: u8) {
    kind in {2, 10, 12, 15, 17}
  }

  // The epoch such a frame echoes; a room frame from before v5, or cut short of the field, echoes none.
  function EchoOf(kind: u8, ver: u8, data: seq<u8>): u16 {
    if kind == 2 then U16(data, 17)
    else if kind == 12 then if ver >= 5 && |data| >= 11 then U16(data, 9) else 0
    else if kind == 15 then if ver >= 5 && |data| >= 18 then U16(data, 16) else 0
    else U16(data, 2)
  }

  // The frame is long enough, and new enough, to be held against the guard with an epoch of its own.
  predicate Echoes(kind: u8, ver: u8, data: seq<u8>) {
    if kind == 2 then |data| >= 19
    else if kind == 12 then ver >= 5 && |data| >= 11
    else if kind == 15 then ver >= 5 && |data| >= 18
    else if kind == 10 then |data| == 4 || (|data| >= 8 && U32(data, 4) != 0)
    else |data| >= 8 && U32(data, 4) != 0
  }

  // The rest of a guarded frame keeps the table as the guard leaves it, and a frame that echoes this boot's epoch does
  // reach the guard.
  ghost predicate GuardThenKeeps(c: Core, i: nat, kind: u8, ver: u8, data: seq<u8>, env: Env, r: Core)
    requires i < |c.dials|
  {
    var e := EchoOf(kind, ver, data);
    || KeepsTable(EpochOk(c, i, e, env).0, r)
    || (KeepsTable(c, r) && !(Echoes(kind, ver, data) && e == c.epoch && c.epoch != 0))
  }

  lemma SeenKeeps(c: Core, i: nat, now: nat)
    requires i < |c.dials|
    ensures KeepsTable(c, Seen(c, i, now))
  {
  }

  lemma EmitKeeps(c: Core, e: Event)
    requires !Wipe(e)
    ensures KeepsTable(c, Emit(c, e))
  {
  }

  lemma RoomEpochOutcome(c: Core, i: nat, version: u8, complete: bool, e: u16, env: Env)
    requires i < |c.dials|
    ensures || (RoomEpochOk(c, i, version, complete, e, env) == (Pend(c, i), false)
                && !(version >= 5 && complete && e == c.epoch && c.epoch != 0))
            || RoomEpochOk(c, i, version, complete, e, env)
               == EpochOk(c, i, if version >= 5 && complete then e else 0, env)
  {
    hide EpochOk;
  }

  lemma PendKeeps(c: Core, i: nat)
    requires i < |c.dials|
    ensures KeepsTable(c, Pend(c, i))
  {
  }

  lemma CmdKeeps(c: Core, i: nat, ver: u8, data: seq<u8>, env: Env)
    requires i < |c.dials| && AllShaped(c.dials)
    ensures GuardThenKeeps(c, i, 2, ver, data, env, OnCmd(c, i, data, env))
  {
    hide KeepsTable, EpochOk, Seen, Emit, EchoStateAll;
    KeepsRefl(c);
    var (c1, ok) := EpochOk(c, i, U16(data, 17), env);
    EpochShaped(c, i, U16(data, 17), env);
    KeepsRefl(c1);
    CommandKeeps(c1, i, c.dials[i].bond.mac, env);
  }

  lemma CommandKeeps(c1: Core, i: nat, mac: seq<u8>, env: Env)
    requires i < |c1.dials| && AllShaped(c1.dials)
    ensures var c2 := Emit(Seen(c1, i, env.now), ApplyHook(mac));
            AllShaped(c2.dials) && KeepsTable(c1, c2) && KeepsTable(c1, EchoStateAll(c2, env.later, env))
  {
    hide EchoStateAll;
    var c2 := Emit(Seen(c1, i, env.now), ApplyHook(mac));
    EchoAllKeeps(c2, env.later, env);
    hide KeepsTable;
    KeepsTrans(c1, c2, EchoStateAll(c2, env.later, env));
  }

  lemma SensorReportKeeps(c: Core, i: nat, mac: seq<u8>, data: seq<u8>, env: Env)
    requires i < |c.dials| && |data| >= 7
    ensures KeepsTable(c, SensorReport(c, i, mac, data, env))
  {
  }

  lemma SensorKeeps(c: Core, i: nat, ver: u8, data: seq<u8>, env: Env)
    requires i < |c.dials|
    ensures GuardThenKeeps(c, i, 12, ver, data, env, OnSensor(c, i, ver, data, env))
  {
    hide EpochOk, RoomEpochOk, SensorReport, KeepsTable;
    KeepsRefl(c);
    RoomEpochOutcome(c, i, ver, |data| >= 11, U16(data, 9), env);
    PendKeeps(c, i);
    var c1 := RoomEpochOk(c, i, ver, |data| >= 11, U16(data, 9), env).0;
    KeepsRefl(c1);
    if |data| >= 7 {
      SensorReportKeeps(c1, i, c.dials[i].bond.mac, data, env);
    }
  }

  lemma SourceChoiceKeeps(c: Core, i: nat, data: seq<u8>, env: Env)
    requires i < |c.dials| && |data| >= 16
    ensures KeepsTable(c, SourceChoice(c, i, data, env))
  {
  }

  lemma SourceSetKeeps(c: Core, i: nat, ver: u8, data: seq<u8>, env: Env)
    requires i < |c.dials|
    ensures GuardThenKeeps(c, i, 15, ver, data, env, OnSourceSet(c, i, ver, data, env))
  {
    hide EpochOk, RoomEpochOk, SourceChoice, KeepsTable;
    KeepsRefl(c);
    RoomEpochOutcome(c, i, ver, |data| >= 18, U16(data, 16), env);
    PendKeeps(c, i);
    var c1 := RoomEpochOk(c, i, ver, |data| >= 18, U16(data, 16), env).0;
    KeepsRefl(c1);
    if |data| >= 16 {
      SourceChoiceKeeps(c1, i, data, env);
    }
  }

  lemma SetupFrameKeeps(c: Core, i: nat, ver: u8, data: seq<u8>, env: Env)
    requires i < |c.dials| && AllShaped(c.dials)
    ensures GuardThenKeeps(c, i, 10, ver, data, env, OnWifiSetup(c, i, data, env))
  {
    hide KeepsTable, EpochOk, WifiEpochOk, QueueSetup, Seen;
    KeepsRefl(c);
    var e, session := U16(data, 2), if |data| == 4 then 0 else U32(data, 4);
    EpochShaped(c, i, e, env);
    WifiEpochOutcome(c, i, e, env);
    PendKeeps(c, i);
    var c1 := if |data| == 4 then EpochOk(c, i, e, env).0 else WifiEpochOk(c, i, e, env).0;
    KeepsRefl(c1);
    QueueKeeps(c1, i, session);
    var c2 := QueueSetup(c1, i, session);
    SeenKeeps(c2, i, env.now);
    KeepsTrans(c1, c2, Seen(c2, i, env.now));
    if c1 == Pend(c, i) {
      KeepsTrans(c, c1, Seen(c2, i, env.now));
    }
  }

  lemma CancelFrameKeeps(c: Core, i: nat, ver: u8, data: seq<u8>, env: Env)
    requires i < |c.dials| && AllShaped(c.dials)
    ensures GuardThenKeeps(c, i, 17, ver, data, env, OnWifiCancel(c, i, data, env))
  {
    hide KeepsTable, EpochOk, WifiEpochOk, CancelSession;
    KeepsRefl(c);
    var e, session := U16(data, 2), U32(data, 4);
    EpochShaped(c, i, e, env);
    WifiEpochOutcome(c, i, e, env);
    PendKeeps(c, i);
    var c1 := WifiEpochOk(c, i, e, env).0;
    KeepsRefl(c1);
    SeenKeeps(c1, i, env.now);
    var c2 := Seen(c1, i, env.now);
    CancelKeeps(c2, i, session, env);
    KeepsTrans(c1, c2, CancelSession(c2, i, session, env));
    if c1 == Pend(c, i) {
      KeepsTrans(c, c1, CancelSession(c2, i, session, env));
    }
  }

  lemma ProbeKeeps(c: Core, i: nat, data: seq<u8>, env: Env)
    requires i < |c.dials|
    ensures KeepsTable(c, OnProbe(c, i, data, env))
  {
  }

  lemma CredsKeeps(c: Core, i: nat, data: seq<u8>, env: Env)
    requires i < |c.dials|
    ensures KeepsTable(c, OnWifiReq(c, i, data, env))
  {
  }

  lemma CursorKeeps(c: Core, i: nat, ver: u8, data: seq<u8>, env: Env)
    requires i < |c.dials|
    ensures KeepsTable(c, OnCatalogReq(c, i, ver, data, env))
  {
  }

  // Past the guard no frame touches the table.
  lemma DialFrameKeeps(c: Core, i: nat, kind: u8, ver: u8, data: seq<u8>, env: Env)
    requires i < |c.dials| && AllShaped(c.dials)
    ensures if Guarded(kind) then GuardThenKeeps(c, i, kind, ver, data, env, OnDialFrame(c, i, kind, ver, data, env))
            else KeepsTable(c, OnDialFrame(c, i, kind, ver, data, env))
  {
    hide GuardThenKeeps, KeepsTable, OnCmd, OnWifiSetup, OnSensor, OnSourceSet, OnWifiCancel, OnProbe, OnWifiReq, OnCatalogReq, Seen;
    if kind == 2 {
      CmdKeeps(c, i, ver, data, env);
    } else if kind == 10 {
      SetupFrameKeeps(c, i, ver, data, env);
    } else if kind == 12 {
      SensorKeeps(c, i, ver, data, env);
    } else if kind == 15 {
      SourceSetKeeps(c, i, ver, data, env);
    } else if kind == 17 {
      CancelFrameKeeps(c, i, ver, data, env);
    } else {
      ProbeKeeps(c, i, data, env);
      CredsKeeps(c, i, data, env);
      CursorKeeps(c, i, ver, data, env);
      SeenKeeps(c, i, env.now);
      KeepsRefl(c);
    }
  }
}
