// The Wi-Fi setup session over whole runs: the adapter is asked to cancel only the session that owns the hotspot and
// whose start it carried out, at most one start waits, and a retired session starts nothing.
module LinkWifi {
  import opened Words
  import opened Bonds
  import opened LinkState
  import opened WifiSession
  import opened WifiHistory
  import opened WifiFrame
  import opened LinkSpec
  import opened LinkFrame
  import opened LinkRun
  import opened LinkTable
  import opened LinkHistory
  import opened LinkPeers
  import PairAuth

  // The monitor's story is the core's state.
  predicate Tells(o: Owner, m: Monitor) {
    && m.ok
    && (o.valid <==> m.owner.Some?)
    && (o.valid ==>
          && m.owner == Some((o.mac, o.session))
          && (o.started ==> m.started)
          && m.verdict == if o.cancelled then Some(o.status) else None)
  }

  // A waiting start belongs to the owner, and its session has not been cancelled.
  predicate Queued(c: Core) {
    forall i :: 0 <= i < |c.dials| && c.dials[i].wifiSetupReq ==>
      c.owner.valid && c.dials[i].bond.mac == c.owner.mac && !c.owner.cancelled
  }

  // The owner is bonded, and while it has not been cancelled its session is not among the retired ones of its dial.
  predicate Alive(c: Core) {
    c.owner.valid ==>
      var i := Find(c.dials, c.owner.mac);
      i >= 0 && (!c.owner.cancelled && c.owner.session != 0 ==> c.owner.session !in c.dials[i].retired)
  }

  predicate Rings(ds: seq<Dial>) {
    forall i :: 0 <= i < |ds| ==> RingOk(ds[i])
  }

  // Each dial's array and cursor hold exactly the sessions the log says it has retired, the last eight in order.
  predicate Histories(ds: seq<Dial>, m: Monitor) {
    forall i :: 0 <= i < |ds| ==> Sessions(ds[i]) == QueueOf(m, ds[i].bond.mac)
  }

  ghost predicate Wifi(c: Core) {
    && Apart(c.dials) && Rings(c.dials) && Queued(c) && Alive(c)
    && Tells(c.owner, Watch(c.world.log)) && Histories(c.dials, Watch(c.world.log))
    && (!c.started ==> !c.owner.valid && Watch(c.world.log).queues == map[])
  }

  // At most one start waits.
  lemma OneWaiting(c: Core, i: nat, j: nat)
    requires Wifi(c) && i < |c.dials| && j < |c.dials| && c.dials[i].wifiSetupReq && c.dials[j].wifiSetupReq
    ensures i == j
  {
    hide RingOk, Watch;
  }

  lemma SameFind(a: seq<Dial>, b: seq<Dial>, mac: seq<u8>)
    requires |a| == |b| && forall i :: 0 <= i < |a| ==> a[i].bond.mac == b[i].bond.mac
    ensures Find(a, mac) == Find(b, mac)
  {
    hide Find;
    var i, j := Find(a, mac), Find(b, mac);
  }

  lemma SameRing(a: Dial, b: Dial)
    requires SameWifi(a, b) && RingOk(b)
    ensures RingOk(a) && Sessions(a) == Sessions(b)
  {
  }

  lemma KeptWifi(c: Core, r: Core)
    requires Wifi(c) && KeepsWifi(c, r)
    ensures Wifi(r)
  {
    hide RingOk, Watch, Find, Sessions, QueueOf;
    SameFind(r.dials, c.dials, c.owner.mac);
    forall i | 0 <= i < |r.dials|
      ensures RingOk(r.dials[i]) && Sessions(r.dials[i]) == Sessions(c.dials[i])
    {
      SameRing(r.dials[i], c.dials[i]);
    }
  }

  // --- A start is asked for ---

  lemma SameRingReq(a: Dial, b: Dial)
    requires RingOk(a) && b == a.(wifiSetupReq := b.wifiSetupReq)
    ensures RingOk(b) && Sessions(b) == Sessions(a)
  {
  }

  lemma DropWifi(c: Core)
    requires Wifi(c)
    ensures Wifi(c.(dials := DropRequests(c.dials)))
  {
    hide RingOk, Watch, Find, Sessions, QueueOf;
    var r := c.(dials := DropRequests(c.dials));
    SameFind(r.dials, c.dials, c.owner.mac);
    forall i | 0 <= i < |c.dials|
      ensures RingOk(r.dials[i]) && Sessions(r.dials[i]) == Sessions(c.dials[i])
    {
      SameRingReq(c.dials[i], r.dials[i]);
    }
  }

  // The hotspot is given to a session its dial does not remember as retired.
  lemma OwnedWifi(c: Core, i: nat, session: u32, status: u8)
    requires Wifi(c) && i < |c.dials| && c.started && forall k :: 0 <= k < |c.dials| ==> !c.dials[k].wifiSetupReq
    requires session != 0 ==> session !in c.dials[i].retired
    ensures var mac := c.dials[i].bond.mac;
            Wifi(Emit(c.(owner := Owner(true, mac, session, false, false, status)), Owned(mac, session)))
  {
    hide RingOk, Watch, Find, Sessions;
    WatchMore(c.world.log, Owned(c.dials[i].bond.mac, session));
    FindAt(c.dials, i);
    if session != 0 {
      SessionsAre(c.dials[i], session);
    }
  }

  lemma RetireAdds(d: Dial, s: u32, status: u8, session: u32)
    requires HistoryShaped(d) && session !in d.retired && (s == session ==> session == 0) && session != 0
    ensures session !in Retire(d, s, status).retired
  {
    hide RetiredIndex;
  }

  // Any session but the live owner's may be retired.
  lemma RetireWifi(c: Core, i: nat, session: u32, status: u8)
    requires Wifi(c) && i < |c.dials| && AllShaped(c.dials)
    requires c.started && (session != 0 && IsOwner(c, i, session) ==> c.owner.cancelled)
    ensures Wifi(RetireAt(c, i, session, status))
  {
    hide RingOk, Watch, Find, Retire, Sessions, Push;
    var d := Retire(c.dials[i], session, status);
    var r := RetireAt(c, i, session, status);
    WatchMore(c.world.log, Retired(c.dials[i].bond.mac, session));
    RetirePushes(c.dials[i], session, status);
    RetireSame(c.dials[i], session, status);
    RetireReq(c.dials[i], session, status);
    SameFind(r.dials, c.dials, c.owner.mac);
    if c.owner.valid && !c.owner.cancelled && c.owner.session != 0 && c.owner.mac == d.bond.mac {
      FindAt(c.dials, i);
      RetireAdds(c.dials[i], session, status, c.owner.session);
    }
    RetiredHistories(c, i, d, session);
  }

  lemma RetiredHistories(c: Core, i: nat, d: Dial, session: u32)
    requires Wifi(c) && i < |c.dials| && RingOk(d) && d.bond.mac == c.dials[i].bond.mac
    requires Sessions(d) == Push(Sessions(c.dials[i]), session)
    ensures Rings(c.dials[i := d]) && Histories(c.dials[i := d], Note(Watch(c.world.log), Retired(d.bond.mac, session)))
  {
    hide RingOk, Watch, Find, Sessions, Push, Queued, Alive;
  }

  lemma TakeOverWifi(c: Core, i: nat, session: u32)
    requires Wifi(c) && i < |c.dials| && AllShaped(c.dials) && c.started
    requires session != 0 ==> session !in c.dials[i].retired
    requires session == 0 || !IsOwner(c, i, session)
    ensures Wifi(TakeOver(c, i, session))
  {
    hide Wifi, Find, RetireAt;
    var prior := if c.owner.valid then Find(c.dials, c.owner.mac) else -1;
    var dropped := c.(dials := DropRequests(c.dials));
    var owned := Emit(dropped.(owner := Owner(true, c.dials[i].bond.mac, session, false, false, c.owner.status)),
                      Owned(c.dials[i].bond.mac, session));
    DropShaped(c.dials);
    DropWifi(c);
    OwnedWifi(dropped, i, session, c.owner.status);
    if prior >= 0 {
      RetireWifi(owned, prior, c.owner.session, STALE);
    }
  }

  lemma TakeOverOwner(c: Core, i: nat, session: u32)
    requires i < |c.dials| && AllShaped(c.dials)
    ensures var r := TakeOver(c, i, session);
            && r.owner == Owner(true, c.dials[i].bond.mac, session, false, false, c.owner.status)
            && r.started == c.started && r.dials[i].bond.mac == c.dials[i].bond.mac
  {
    hide Retire, Find;
    DropShaped(c.dials);
    var prior := if c.owner.valid then Find(c.dials, c.owner.mac) else -1;
    if prior >= 0 {
      RetireSame(DropRequests(c.dials)[prior], c.owner.session, STALE);
    }
  }

  lemma RequestWifi(c: Core, i: nat)
    requires Wifi(c) && i < |c.dials| && c.owner.valid && c.dials[i].bond.mac == c.owner.mac && !c.owner.cancelled
    ensures Wifi(SetDial(c, i, c.dials[i].(wifiSetupReq := true)))
  {
    hide RingOk, Watch, Find;
    var r := SetDial(c, i, c.dials[i].(wifiSetupReq := true));
    SameFind(r.dials, c.dials, c.owner.mac);
    SameRingReq(c.dials[i], r.dials[i]);
  }

  lemma QueueWifi(c: Core, i: nat, session: u32)
    requires Wifi(c) && i < |c.dials| && AllShaped(c.dials) && c.started
    ensures Wifi(QueueSetup(c, i, session))
  {
    hide Wifi, TakeOver, RetiredIndex;
    var refused := session != 0 && (RetiredIndex(c.dials[i].retired, session) >= 0 || (IsOwner(c, i, session) && c.owner.cancelled));
    if !refused {
      if !IsOwner(c, i, session) || (session == 0 && c.owner.cancelled) {
        NotRetired(c.dials[i].retired, session);
        TakeOverWifi(c, i, session);
        TakeOverOwner(c, i, session);
        RequestWifi(TakeOver(c, i, session), i);
      } else {
        RequestWifi(c, i);
      }
    }
  }

  lemma NotRetired(retired: seq<u32>, session: u32)
    ensures RetiredIndex(retired, session) < 0 ==> session !in retired
  {
    hide RetiredIndex;
  }

  // --- The hotspot is found closed ---

  lemma SettledLog(c: Core, r: Core, mac: seq<u8>, session: u32, status: u8)
    requires r.world.log == c.world.log + [Settled(mac, session, status)]
    ensures Watch(r.world.log) == Note(Watch(c.world.log), Settled(mac, session, status))
  {
    hide Watch;
    WatchMore(c.world.log, Settled(mac, session, status));
  }

  lemma ObserveWifi(c: Core)
    requires Wifi(c) && AllShaped(c.dials)
    ensures Wifi(ObserveClosed(c))
  {
    hide Wifi, Find, RetireAt;
    var i := Find(c.dials, c.owner.mac);
    if c.owner.valid && c.owner.started && !c.owner.cancelled && i >= 0 && !c.dials[i].wifiSetupReq {
      ClosedWifi(c, i);
      OwnerUp(c);
      RetireWifi(Emit(c.(owner := c.owner.(started := false, cancelled := true, status := CLOSED)),
                      Settled(c.owner.mac, c.owner.session, CLOSED)), i, c.owner.session, CLOSED);
    }
  }

  lemma OwnerUp(c: Core)
    requires Wifi(c) && c.owner.valid
    ensures c.started
  {
    hide Watch, RingOk, Find;
  }

  lemma ClosedWifi(c: Core, i: nat)
    requires Wifi(c) && c.owner.valid && !c.owner.cancelled && i < |c.dials| && i == Find(c.dials, c.owner.mac)
    requires !c.dials[i].wifiSetupReq
    ensures Wifi(Emit(c.(owner := c.owner.(started := false, cancelled := true, status := CLOSED)),
                      Settled(c.owner.mac, c.owner.session, CLOSED)))
  {
    hide RingOk, Watch, Find, Sessions;
    WatchMore(c.world.log, Settled(c.owner.mac, c.owner.session, CLOSED));
  }

  lemma RetireReq(d: Dial, session: u32, status: u8)
    requires HistoryShaped(d)
    ensures Retire(d, session, status).wifiSetupReq == d.wifiSetupReq
  {
    hide RetiredIndex;
  }

  lemma BuildWifi(c: Core, env: Env)
    requires Wifi(c) && AllShaped(c.dials)
    ensures Wifi(BuildState(c, env).0)
  {
    hide Wifi, ObserveClosed;
    ObserveWifi(c);
  }

  // --- A cancel ---

  // The hook is asked only for the owner's own running session with no final verdict.
  lemma AskedForOwner(c: Core, i: nat, session: u32, env: Env)
    requires i < |c.dials| && AllShaped(c.dials)
    ensures CancelVerdict(c, i, session, env).AskHook? ==>
              IsOwner(c, i, session) && c.owner.started && (c.owner.cancelled ==> c.owner.status == WAITING)
    ensures IsOwner(c, i, session) && c.owner.cancelled && c.owner.status != WAITING ==>
              CancelStatus(c, i, session, env) != WAITING
  {
    hide RetiredIndex;
  }

  lemma AskWifi(c: Core, mac: seq<u8>, session: u32, status: u8)
    requires Wifi(c) && c.owner.valid && c.owner.mac == mac && c.owner.session == session != 0 && c.owner.started
    requires c.owner.cancelled ==> c.owner.status == WAITING
    ensures Wifi(PendAll(Emit(c, CancelHook(mac, session, status))))
  {
    hide RingOk, Watch, Find, Rings, Queued, Alive, Apart;
    WatchMore(c.world.log, CancelHook(mac, session, status));
    var m := Emit(c, CancelHook(mac, session, status));
    assert Wifi(m) by { SameStory(c, m); }
    PendAllWifi(m);
    hide Wifi;
    KeptWifi(m, PendAll(m));
  }

  lemma SameStory(c: Core, m: Core)
    requires m.dials == c.dials && m.owner == c.owner
    requires Alive(c) && Queued(c)
    ensures Alive(m) && Queued(m)
  {
  }

  lemma VerdictWifi(c: Core, i: nat, session: u32, status: u8)
    requires Wifi(c) && i < |c.dials| && IsOwner(c, i, session)
    requires c.owner.cancelled && c.owner.status != WAITING ==> status != WAITING
    ensures Wifi(Emit(SetDial(c.(owner := c.owner.(cancelled := true, status := status)), i, c.dials[i].(wifiSetupReq := false)),
                      Settled(c.dials[i].bond.mac, session, status)))
  {
    hide RingOk, Watch, Find, Sessions;
    var m := SetDial(c.(owner := c.owner.(cancelled := true, status := status)), i, c.dials[i].(wifiSetupReq := false));
    var r := Emit(m, Settled(c.dials[i].bond.mac, session, status));
    SettledLog(c, r, c.dials[i].bond.mac, session, status);
    SameFind(r.dials, c.dials, c.owner.mac);
    SameRingReq(c.dials[i], r.dials[i]);
  }

  lemma SettleWifi(c: Core, i: nat, session: u32, env: Env)
    requires Wifi(c) && i < |c.dials| && AllShaped(c.dials) && session != 0
    ensures Wifi(CancelSettle(c, i, session, env))
  {
    hide Wifi, CancelVerdict, CancelStatus, PendAll;
    AskedForOwner(c, i, session, env);
    var mac := c.dials[i].bond.mac;
    var status := CancelStatus(c, i, session, env);
    var ask := CancelVerdict(c, i, session, env).AskHook?;
    var c1 := if ask then PendAll(Emit(c, CancelHook(mac, session, status))) else c;
    if ask {
      AskWifi(c, mac, session, status);
    }
    PendAllKeeps(Emit(c, CancelHook(mac, session, status)));
    if IsOwner(c, i, session) {
      VerdictWifi(c1, i, session, status);
    }
  }

  lemma PendAllKeeps(c: Core)
    ensures var r := PendAll(c);
            r == c.(dials := r.dials) && |r.dials| == |c.dials| && forall i :: 0 <= i < |c.dials| ==> r.dials[i].bond == c.dials[i].bond
  {
  }

  lemma SettleOwner(c: Core, i: nat, session: u32, env: Env)
    requires i < |c.dials| && AllShaped(c.dials)
    ensures var r := CancelSettle(c, i, session, env);
            && r.started == c.started && r.dials[i].bond == c.dials[i].bond
            && (IsOwner(r, i, session) ==> r.owner.cancelled)
  {
    hide CancelVerdict, CancelStatus;
  }

  lemma CancelTailWifi(c: Core, i: nat, session: u32, env: Env)
    requires c.started
    requires Wifi(c) && i < |c.dials| && AllShaped(c.dials) && session != 0
    ensures Wifi(CancelTail(c, i, session, env)) && CancelTail(c, i, session, env).started == c.started
  {
    hide Wifi, CancelSettle, CancelStatus, RetireAt, IsOwner, KeepsWifi;
    SettleWifi(c, i, session, env);
    SettleOwner(c, i, session, env);
    SettleShaped(c, i, session, env);
    var c2 := CancelSettle(c, i, session, env);
    var status := CancelStatus(c, i, session, env);
    RetireWifi(c2, i, session, status);
    var c3 := RetireAt(c2, i, session, status);
    RetireAtKeeps(c2, i, session, status);
    EmitWifi(c3, Sent(c.dials[i].bond.mac, CancelAck(session, status)));
    KeptWifi(c3, Send(c3, c.dials[i].bond.mac, CancelAck(session, status)));
  }

  lemma CancelWifi(c: Core, i: nat, session: u32, env: Env)
    requires c.started
    requires Wifi(c) && i < |c.dials| && AllShaped(c.dials) && session != 0
    ensures Wifi(CancelSession(c, i, session, env))
  {
    hide Wifi, ObserveClosed, CancelTail, AllShaped;
    ObserveWifi(c);
    ObserveKeeps(c);
    ObserveShaped(c);
    CancelTailWifi(if WithoutStart(env.device) == CLOSED then ObserveClosed(c) else c, i, session, env);
  }

  // --- The start is carried out ---

  lemma ServeSetupWifi(c: Core, i: nat, env: Env)
    requires Wifi(c) && i < |c.dials|
    ensures Wifi(ServeSetup(c, i, env))
  {
    hide RingOk, Watch, Find;
    var d := c.dials[i];
    if d.wifiSetupReq {
      var c1 := SetDial(c, i, d.(wifiSetupReq := false));
      SameFind(c1.dials, c.dials, c.owner.mac);
      SameRingReq(d, c1.dials[i]);
      assert Wifi(c1);
      WatchMore(c1.world.log, SetupHook(d.bond.mac, env.setup));
      var r := ServeSetup(c, i, env);
      assert r.dials == c1.dials;
      assert Queued(r) && Alive(r);
    }
  }

  lemma ServePullsWifi(c: Core, i: nat, now: nat, env: Env)
    requires Wifi(c) && i < |c.dials|
    ensures Wifi(ServePulls(c, i, now, env))
  {
    hide Wifi, KeepsWifi, PullInfo, PullCaps, ServeSetup, ServeWifiReq, ServeSource, ServeCatalog;
    var c1 := PullCaps(c, i, now, env);
    CapsWifi(c, i, now, env);
    KeptWifi(c, c1);
    var c2 := PullInfo(c1, i, now);
    InfoWifi(c1, i, now);
    KeptWifi(c1, c2);
    var c3 := ServeWifiReq(c2, i, env);
    CredsWifi(c2, i, env);
    KeptWifi(c2, c3);
    var c4 := ServeSetup(c3, i, env);
    ServeSetupWifi(c3, i, env);
    var c5 := ServeCatalog(c4, i);
    CatalogWifi(c4, i);
    KeptWifi(c4, c5);
    SourceWifi(c5, i, env);
    KeptWifi(c5, ServeSource(c5, i, env));
  }

  lemma TickDialWifi(c: Core, i: nat, p: StatePkt, env: Env)
    requires Wifi(c) && i < |c.dials|
    ensures Wifi(TickDial(c, i, p, env))
  {
    hide Wifi, KeepsWifi, ServePulls, Live, Due, SendState;
    var d := c.dials[i];
    SetWifi(c, i, d.(wasLive := false));
    SetWifi(c, i, d.(wasLive := true));
    KeptWifi(c, SetDial(c, i, d.(wasLive := false)));
    var c1 := SetDial(c, i, d.(wasLive := true));
    KeptWifi(c, c1);
    SendStateWifi(c1, i, p, env.now);
    KeptWifi(c1, SendState(c1, i, p, env.now));
    ServePullsWifi(if Due(d, env.now) then SendState(c1, i, p, env.now) else c1, i, env.now, env);
  }

  lemma {:induction false} TickFromWifi(c: Core, k: nat, p: StatePkt, env: Env)
    requires Wifi(c) && k <= |c.dials|
    ensures Wifi(TickFrom(c, k, p, env))
    decreases |c.dials| - k
  {
    hide Wifi, TickDial;
    if k < |c.dials| {
      TickDialWifi(c, k, p, env);
      TickFromWifi(TickDial(c, k, p, env), k + 1, p, env);
    }
  }

  lemma TickWifi(c: Core, env: Env)
    requires Wifi(c) && AllShaped(c.dials)
    ensures Wifi(Tick(c, env))
  {
    hide PairTimeouts, QuietFrom, BuildState, TickFrom, Wifi, KeepsWifi, AllShaped;
    if c.started {
      var c1 := PairTimeouts(c, env);
      PairingWifi(c, 0, env);
      KeptWifi(c, c1);
      QuietShaped(c1.dials, env.now);
      var (quiet, live) := QuietFrom(c1.dials, env.now);
      var c2 := c1.(dials := quiet);
      QuietKeepsWifi(c1, env.now);
      KeptWifi(c1, c2);
      if live {
        BuildWifi(c2, env);
        var (c3, p) := BuildState(c2, env);
        var c4 := if c3.lastState == Some(p) then c3 else PendAll(c3.(lastState := Some(p)));
        StateWifi(c3, p);
        TickFromWifi(c4, 0, p, env);
      }
    }
  }

  lemma QuietKeepsWifi(c: Core, now: nat)
    ensures KeepsWifi(c, c.(dials := QuietFrom(c.dials, now).0))
  {
    hide Watch, QuietFrom;
    QuietWifi(c.dials, now);
  }

  lemma StateWifi(c: Core, p: StatePkt)
    requires Wifi(c)
    ensures Wifi(c.(lastState := Some(p))) && Wifi(PendAll(c.(lastState := Some(p))))
  {
    hide Wifi, PendAll, KeepsWifi;
    assert KeepsWifi(c, c.(lastState := Some(p))) by { LastStateWifi(c, p); }
    KeptWifi(c, c.(lastState := Some(p)));
    PendAllWifi(c.(lastState := Some(p)));
    KeptWifi(c.(lastState := Some(p)), PendAll(c.(lastState := Some(p))));
  }

  lemma LastStateWifi(c: Core, p: StatePkt)
    ensures KeepsWifi(c, c.(lastState := Some(p)))
  {
    hide Watch;
  }

  // --- Frames ---

  lemma EchoAllWifi(c: Core, now: nat, env: Env)
    requires Wifi(c) && AllShaped(c.dials)
    ensures Wifi(EchoStateAll(c, now, env))
  {
    hide Wifi, KeepsWifi, BuildState, EchoFrom, PendAll;
    var (c1, p) := BuildState(c, env);
    BuildWifi(c, env);
    StateWifi(c1, p);
    EchoWifi(c1.(lastState := Some(p)), 0, p, now);
    KeptWifi(c1.(lastState := Some(p)), EchoFrom(c1.(lastState := Some(p)), 0, p, now));
  }

  lemma CmdWifi(c: Core, i: nat, data: seq<u8>, env: Env)
    requires Wifi(c) && i < |c.dials| && AllShaped(c.dials)
    ensures Wifi(OnCmd(c, i, data, env))
  {
    hide Wifi, KeepsWifi, EpochOk, EchoStateAll, Seen, AllShaped;
    var e := U16(data, 17);
    var c1 := EpochOk(c, i, e, env).0;
    EpochWifi(c, i, e, env);
    EpochShaped(c, i, e, env);
    KeptWifi(c, c1);
    var c2 := Emit(Seen(c1, i, env.now), ApplyHook(c.dials[i].bond.mac));
    SeenWifi(c1, i, env.now);
    KeptWifi(c1, Seen(c1, i, env.now));
    EmitWifi(Seen(c1, i, env.now), ApplyHook(c.dials[i].bond.mac));
    KeptWifi(Seen(c1, i, env.now), c2);
    CommandKeeps(c1, i, c.dials[i].bond.mac, env);
    EchoAllWifi(c2, env.later, env);
  }

  lemma SetupFrameWifi(c: Core, i: nat, data: seq<u8>, env: Env)
    requires Wifi(c) && i < |c.dials| && AllShaped(c.dials) && c.started
    ensures Wifi(OnWifiSetup(c, i, data, env))
  {
    hide KeepsWifi, Wifi, EpochOk, WifiEpochOk, QueueSetup, Seen, AllShaped, Watch;
    var e, session := U16(data, 2), if |data| == 4 then 0 else U32(data, 4);
    EpochShaped(c, i, e, env);
    var c1 := if |data| == 4 then EpochOk(c, i, e, env).0 else WifiEpochOk(c, i, e, env).0;
    EpochWifi(c, i, e, env);
    WifiEpochWifi(c, i, e, env);
    assert c1.started by { WifiStarted(c, c1); }
    KeptWifi(c, c1);
    QueueWifi(c1, i, session);
    var c2 := QueueSetup(c1, i, session);
    SeenWifi(c2, i, env.now);
    KeptWifi(c2, Seen(c2, i, env.now));
  }

  lemma WifiStarted(c: Core, r: Core)
    requires KeepsWifi(c, r)
    ensures r.started == c.started
  {
    hide Watch;
  }

  lemma CancelFrameWifi(c: Core, i: nat, data: seq<u8>, env: Env)
    requires c.started
    requires Wifi(c) && i < |c.dials| && AllShaped(c.dials)
    ensures Wifi(OnWifiCancel(c, i, data, env))
  {
    hide Wifi, EpochOk, WifiEpochOk, CancelSession, Seen, AllShaped, KeepsWifi;
    var e, session := U16(data, 2), U32(data, 4);
    EpochShaped(c, i, e, env);
    var c1 := WifiEpochOk(c, i, e, env).0;
    WifiEpochWifi(c, i, e, env);
    KeptWifi(c, c1);
    SeenWifi(c1, i, env.now);
    KeptWifi(c1, Seen(c1, i, env.now));
    WifiStarted(c, c1);
    WifiStarted(c1, Seen(c1, i, env.now));
    SeenShaped(c1, i, env.now);
    if session != 0 {
      CancelWifi(Seen(c1, i, env.now), i, session, env);
    }
  }

  lemma SeenShaped(c: Core, i: nat, now: nat)
    requires i < |c.dials| && AllShaped(c.dials)
    ensures AllShaped(Seen(c, i, now).dials)
  {
  }

  lemma RoomFrameWifi(c: Core, i: nat, ver: u8, data: seq<u8>, env: Env)
    requires i < |c.dials|
    ensures KeepsWifi(c, OnSensor(c, i, ver, data, env)) && KeepsWifi(c, OnSourceSet(c, i, ver, data, env))
  {
    hide RoomEpochOk, SensorReport, SourceChoice, KeepsWifi;
    WifiRefl(c);
    if |data| >= 7 {
      var c1 := RoomEpochOk(c, i, ver, |data| >= 11, U16(data, 9), env).0;
      RoomEpochWifi(c, i, ver, |data| >= 11, U16(data, 9), env);
      SensorReportWifi(c1, i, c.dials[i].bond.mac, data, env);
      WifiTrans(c, c1, SensorReport(c1, i, c.dials[i].bond.mac, data, env));
    }
    if |data| >= 16 {
      var c1 := RoomEpochOk(c, i, ver, |data| >= 18, U16(data, 16), env).0;
      RoomEpochWifi(c, i, ver, |data| >= 18, U16(data, 16), env);
      SourceChoiceWifi(c1, i, data, env);
      WifiTrans(c, c1, SourceChoice(c1, i, data, env));
    }
  }

  lemma SourceChoiceWifi(c: Core, i: nat, data: seq<u8>, env: Env)
    requires i < |c.dials| && |data| >= 16
    ensures KeepsWifi(c, SourceChoice(c, i, data, env))
  {
    hide Watch, U32, U64;
  }

  lemma SmallFrameWifi(c: Core, i: nat, ver: u8, data: seq<u8>, env: Env)
    requires i < |c.dials|
    ensures KeepsWifi(c, OnProbe(c, i, data, env)) && KeepsWifi(c, OnWifiReq(c, i, data, env))
    ensures KeepsWifi(c, OnCatalogReq(c, i, ver, data, env))
  {
    hide Watch, U16;
  }

  lemma DialFrameWifi(c: Core, i: nat, kind: u8, ver: u8, data: seq<u8>, env: Env)
    requires Wifi(c) && i < |c.dials| && AllShaped(c.dials) && c.started
    ensures Wifi(OnDialFrame(c, i, kind, ver, data, env))
  {
    hide Wifi, KeepsWifi, OnCmd, OnWifiSetup, OnSensor, OnSourceSet, OnWifiCancel, OnProbe, OnWifiReq, OnCatalogReq, Seen, AllShaped;
    var r := OnDialFrame(c, i, kind, ver, data, env);
    if kind == 2 {
      CmdWifi(c, i, data, env);
    } else if kind == 10 {
      SetupFrameWifi(c, i, data, env);
    } else if kind == 17 {
      CancelFrameWifi(c, i, data, env);
    } else {
      RoomFrameWifi(c, i, ver, data, env);
      SmallFrameWifi(c, i, ver, data, env);
      SeenWifi(c, i, env.now);
      WifiRefl(c);
      KeptWifi(c, r);
    }
  }

  // --- The table changes under the session ---

  lemma DisownLog(c: Core, mac: seq<u8>)
    requires Tells(c.owner, Watch(c.world.log))
    ensures var r := Disown(c, mac);
            && Tells(r.owner, Watch(r.world.log)) && (r.owner == c.owner || !r.owner.valid)
            && (r.owner.valid ==> r.owner.mac != mac)
            && Watch(r.world.log).queues == Watch(c.world.log).queues - {mac}
  {
    hide Watch;
    WatchMore(c.world.log, Disowned(mac));
    WatchMore(c.world.log, Wiped(mac));
    WatchMore(c.world.log + [Disowned(mac)], Wiped(mac));
  }

  lemma TableApart(c: Core)
    requires Table(c)
    ensures Apart(c.dials)
  {
    hide Durable, CandidateOk, ValidTable;
    if c.dials != [] {
      assert ValidTable(BondsOf(c.dials));
      ValidApart(c.dials);
    }
  }

  lemma FreshRing(bond: Bond, d: Dial)
    requires d.retired == seq(HISTORY, _ => 0) && d.retiredStatus == seq(HISTORY, _ => 0) && d.retiredNext == 0
    ensures RingOk(d) && Sessions(d) == []
  {
  }

  // A slot whose session state is wiped, for a dial that owns nothing
  lemma WipedWifi(c: Core, r: Core, i: int, d: Dial)
    requires Wifi(c) && i == Find(c.dials, d.bond.mac) && !d.wifiSetupReq && RingOk(d) && Sessions(d) == [] && r.started
    requires Watch(r.world.log).queues == Watch(c.world.log).queues - {d.bond.mac}
    requires r.dials == if i >= 0 then c.dials[i := d] else c.dials + [d]
    requires r.started == c.started && (r.owner == c.owner || !r.owner.valid)
    requires r.owner.valid ==> r.owner.mac != d.bond.mac
    requires !r.owner.valid && c.owner.valid ==> c.owner.mac == d.bond.mac
    requires Tells(r.owner, Watch(r.world.log)) && Apart(r.dials)
    ensures Wifi(r)
  {
    hide RingOk, Watch, Find, Tells, Sessions;
    if i >= 0 {
      FindReplaced(c.dials, i, d, c.owner.mac);
    } else {
      FindAppended(c.dials, d, c.owner.mac);
    }
    assert Queued(r) by {
      forall k | 0 <= k < |r.dials| && r.dials[k].wifiSetupReq
        ensures r.owner.valid && r.dials[k].bond.mac == r.owner.mac && !r.owner.cancelled
      {
        assert k < |c.dials| && r.dials[k] == c.dials[k];
        FindAt(c.dials, k);
      }
    }
  }

  lemma CommitWifi(c: Core, env: Env)
    requires Wifi(c) && Table(c) && c.started && c.pairing.phase.Confirm?
    ensures Wifi(PairCommit(c, env))
  {
    hide Wifi, KeepsWifi, Table, PairEnd, CleanupCandidate, Find, Saves, Tells;
    if Saves(Proposed(c), env.save) {
      CommittedWifi(c, env);
    } else {
      PairEndsWifi(c, env);
      CommitFails(c, env);
      KeptWifi(c, PairCommit(c, env));
    }
  }

  lemma CommittedWifi(c: Core, env: Env)
    requires Wifi(c) && Table(c) && c.started && c.pairing.phase.Confirm? && Saves(Proposed(c), env.save)
    ensures Wifi(PairCommit(c, env))
  {
    hide Table, RingOk, Encode, Watch, Find, Tells, BondsOf, Queued, Alive, Rings, Apart;
    CommitTable(c, env);
    TableApart(PairCommit(c, env));
    var bond := Candidate(c);
    var i := Find(c.dials, bond.mac);
    var d := if i >= 0 then Rekeyed(c.dials[i], bond) else Rekeyed(FreshDial(bond), bond);
    FreshRing(bond, d);
    DisownLog(c, bond.mac);
    var m := Disown(Store(c, Proposed(c)), bond.mac);
    SameDisown(c, Store(c, Proposed(c)), bond.mac);
    WipedWifi(c, PairCommit(c, env), i, d);
  }

  lemma SameDisown(c: Core, m: Core, mac: seq<u8>)
    requires m.owner == c.owner && m.world.log == c.world.log
    ensures Disown(m, mac).owner == Disown(c, mac).owner && Disown(m, mac).world.log == Disown(c, mac).world.log
  {
  }

  lemma ConfirmWifi(c: Core, src: seq<u8>, data: seq<u8>, env: Env)
    requires Wifi(c) && Table(c) && c.started
    ensures Wifi(OnPairConfirm(c, src, data, env))
  {
    hide PairAuth.Make, PairAuth.Proves, PairCommit, Find, Wifi, KeepsWifi, Table;
    var candidate := c.pairing.phase.Confirm? && src == c.pairing.candMac;
    var c1 := if candidate then PairCommit(c, env) else c;
    if candidate {
      CommitWifi(c, env);
    }
    var i := Find(c1.dials, src);
    if i >= 0 {
      var m := SetDial(c1, i, c1.dials[i].(lastProbe := Clock(env.now)));
      SetWifi(c1, i, c1.dials[i].(lastProbe := Clock(env.now)));
      KeptWifi(c1, m);
      forall ack
        ensures Wifi(Send(m, src, ack))
      {
        EmitWifi(m, Sent(src, ack));
        KeptWifi(m, Send(m, src, ack));
      }
    }
  }

  lemma PairReqWifi(c: Core, data: seq<u8>, crypto: Crypto, env: Env)
    ensures KeepsWifi(c, OnPairReq(c, data, crypto, env))
  {
    hide Watch, DeriveLmk, Find, ParseRequest, PairEnd, CleanupCandidate;
    forall m: Core
      ensures forall result :: KeepsWifi(m, PairEnd(CleanupCandidate(m, env), result))
    {
      PairEndsWifi(m, env);
    }
    forall f: Frame
      ensures Watch(c.world.log + [Sent(BCAST, f)]) == Watch(c.world.log)
    {
      WatchMore(c.world.log, Sent(BCAST, f));
    }
  }

  lemma RecvWifi(c: Core, src: seq<u8>, dst: seq<u8>, data: seq<u8>, crypto: Crypto, env: Env)
    requires Wifi(c) && Table(c) && AllShaped(c.dials)
    ensures Wifi(OnRecv(c, src, dst, data, crypto, env))
  {
    hide OnPairReq, OnPairConfirm, OnDialFrame, Wifi, KeepsWifi, Table, AllShaped;
    if c.started && |data| >= 2 {
      PairReqWifi(c, data, crypto, env);
      KeptWifi(c, OnPairReq(c, data, crypto, env));
      ConfirmWifi(c, src, data, env);
      var i := Find(c.dials, src);
      if i >= 0 {
        DialFrameWifi(c, i, data[0], data[1], data, env);
      }
    }
  }

  // A slot is removed, and its ownership with it.
  lemma ForgottenWifi(c: Core, i: nat, mac: seq<u8>, r: Core)
    requires Wifi(c) && i < |c.dials| && i == Find(c.dials, mac)
    requires r.dials == c.dials[..i] + c.dials[i + 1..] && r.started == c.started
    requires r.owner == Disown(c, mac).owner && r.world.log == Disown(c, mac).world.log
    ensures Wifi(r)
  {
    hide Apart, RingOk, Watch, Find, Tells, Sessions, QueueOf;
    DisownLog(c, mac);
    RemovedApart(c.dials, i);
    FindRemoved(c.dials, i, c.owner.mac);
    forall k | 0 <= k < |r.dials|
      ensures RingOk(r.dials[k])
      ensures r.dials[k].wifiSetupReq ==> r.owner.valid && r.dials[k].bond.mac == r.owner.mac && !r.owner.cancelled
      ensures Sessions(r.dials[k]) == QueueOf(Watch(r.world.log), r.dials[k].bond.mac)
    {
      KeptSlot(c, i, k, Watch(r.world.log));
    }
  }

  // A slot that stays when another is removed
  lemma KeptSlot(c: Core, i: nat, k: nat, m: Monitor)
    requires Wifi(c) && i < |c.dials| && k < |c.dials| - 1
    requires m.queues == Watch(c.world.log).queues - {c.dials[i].bond.mac}
    ensures var at := if k < i then k else k + 1;
            && (c.dials[..i] + c.dials[i + 1..])[k] == c.dials[at] && c.dials[at].bond.mac != c.dials[i].bond.mac
            && RingOk(c.dials[at]) && Sessions(c.dials[at]) == QueueOf(m, c.dials[at].bond.mac)
  {
    hide RingOk, Watch, Find, Tells, Sessions, Alive, Queued;
  }

  lemma CancelledWifi(c: Core, env: Env)
    requires Wifi(c)
    ensures Wifi(PairCancel(c, env))
  {
    hide Wifi, KeepsWifi, PairCancel, PairStart, PairTimeouts;
    PairingWifi(c, 0, env);
    KeptWifi(c, PairCancel(c, env));
  }

  lemma ForgetWifi(c: Core, mac: seq<u8>, env: Env)
    requires Wifi(c)
    ensures Wifi(ForgetDial(c, mac, env).0)
  {
    hide Wifi, PairCancel, Find, Without, Forgotten;
    var i := Find(c.dials, mac);
    CancelledWifi(c, env);
    if i >= 0 && Saves(Without(c, i), env.save) {
      ForgottenIs(c, i, mac);
      ForgottenWifi(c, i, mac, Forgotten(c, i, mac));
      CancelledWifi(Forgotten(c, i, mac), env);
    }
  }

  lemma ForgetAllWifi(c: Core, env: Env)
    requires Wifi(c)
    ensures Wifi(ForgetAll(c, env).0)
  {
    hide Wifi, PairCancel, DelPeers, Watch;
    if env.save {
      var c2 := DelPeers(Store(c, []), c.dials);
      DelPeersWorld(Store(c, []), c.dials);
      var c3 := Cleared(c2);
      ClearedWifi(c, c3);
      CancelledWifi(c3, env);
    }
  }

  lemma ClearedWifi(c: Core, r: Core)
    requires Wifi(c) && r.dials == [] && r.started == c.started
    requires r.owner == c.owner.(valid := false)
    requires r.world.log == (if c.owner.valid then c.world.log + [Disowned(c.owner.mac)] else c.world.log) + [AllWiped]
    ensures Wifi(r)
  {
    hide Watch;
    WatchMore(c.world.log, Disowned(c.owner.mac));
    WatchMore(if c.owner.valid then c.world.log + [Disowned(c.owner.mac)] else c.world.log, AllWiped);
  }

  lemma CapsWifiKept(c: Core, env: Env)
    requires Wifi(c)
    ensures Wifi(CapsChanged(c, env))
  {
    hide Wifi, Watch;
    assert KeepsWifi(c, CapsChanged(c, env));
    KeptWifi(c, CapsChanged(c, env));
  }

  lemma StartWifi(c: Core, env: Env)
    requires Wifi(c) && Table(c) && !c.started
    ensures Wifi(Start(c, env))
  {
    hide Table, Watch, Start, Find, RingOk, Apart, Sessions;
    StartTable(c, env);
    TableApart(Start(c, env));
    StartLog(c, env);
  }

  lemma StartLog(c: Core, env: Env)
    requires Wifi(c)
    ensures var r := Start(c, env);
            && r.world.log == c.world.log && r.owner == c.owner
            && (r.dials == c.dials
                || forall i :: 0 <= i < |r.dials| ==>
                     RingOk(r.dials[i]) && Sessions(r.dials[i]) == [] && !r.dials[i].wifiSetupReq)
  {
    hide InstallPeers, FreshDials, Decode, Watch, RingOk, Find;
    if env.ownMac.Some? && c.world.store.Some? && Decode(c.world.store.value).Some? {
      var recs := Decode(c.world.store.value).value;
      InstallWorld(c.(ownMac := env.ownMac.value, dials := FreshDials(recs)), recs, 0, env);
      FreshRings(recs);
    }
  }

  lemma FreshRings(recs: seq<Bond>)
    ensures var ds := FreshDials(recs);
            forall i :: 0 <= i < |ds| ==> RingOk(ds[i]) && Sessions(ds[i]) == [] && !ds[i].wifiSetupReq
  {
    hide RingOk;
    forall i | 0 <= i < |recs|
      ensures RingOk(FreshDial(recs[i]))
    {
      FreshRing(recs[i], FreshDial(recs[i]));
    }
  }

  lemma PowerLossWifi(c: Core, r: Core, saved: bool, shown: nat)
    requires Wifi(r)
    ensures Wifi(PowerLoss(c, r, saved, shown))
  {
    hide Watch;
    var n := |c.world.log| + shown;
    var log := if n <= |r.world.log| then r.world.log[..n] else r.world.log;
    if n <= |r.world.log| {
      WatchPrefix(r.world.log, n);
    }
    WatchMore(log, PowerUp);
  }

  lemma ApplyWifi(c: Core, op: Op, crypto: Crypto, env: Env)
    requires Wifi(c) && Table(c) && AllShaped(c.dials)
    ensures Wifi(Apply(c, op, crypto, env))
  {
    hide OnRecv, Tick, PairStart, PairCancel, PairTimeouts, ForgetDial, ForgetAll, Start, CapsChanged, Wifi, Table, KeepsWifi;
    match op
    case Recv(src, dst, data) => RecvWifi(c, src, dst, data, crypto, env);
    case Loop => TickWifi(c, env);
    case OpenPairing(window) =>
      PairingWifi(c, window, env);
      KeptWifi(c, PairStart(c, window, env));
    case ClosePairing => CancelledWifi(c, env);
    case Forget(mac) => ForgetWifi(c, mac, env);
    case ForgetEvery => ForgetAllWifi(c, env);
    case NewCaps => CapsWifiKept(c, env);
    case StartUp =>
      if !c.started {
        StartWifi(c, env);
      }
  }

  lemma AfterWifi(c: Core, step: Step, crypto: Crypto)
    requires Wifi(c) && Table(c) && AllShaped(c.dials)
    ensures Wifi(After(c, step, crypto))
  {
    hide Apply, Wifi, Table, PowerLoss;
    ApplyWifi(c, step.op, crypto, step.env);
    if step.Cut? {
      PowerLossWifi(c, Apply(c, step.op, crypto, step.env), step.saved, step.shown);
    }
  }

  // Over every run the hooks are called in order, at most the live owner has a start waiting, and its session is not
  // among its dial's retired ones.
  lemma {:induction false} RunWifi(c: Core, steps: seq<Step>, crypto: Crypto)
    requires Wifi(c) && Table(c) && AllShaped(c.dials)
    ensures Wifi(Run(c, steps, crypto))
    decreases |steps|
  {
    hide Wifi, Table, After;
    if steps != [] {
      AfterWifi(c, steps[0], crypto);
      AfterTable(c, steps[0], crypto);
      AfterShaped(c, steps[0], crypto);
      RunWifi(After(c, steps[0], crypto), steps[1..], crypto);
    }
  }
}
