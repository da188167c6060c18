// STATE convergence: every dial either holds the current STATE or is marked for it, and a tick serves the live ones.
module LinkSync {
  import opened Words
  import opened Bonds
  import opened LinkState
  import opened WifiSession
  import opened LinkSpec
  import opened LinkFrame
  import opened LinkRun
  import opened LinkPairing
  import opened LinkTable
  import opened LinkHistory
  import PairAuth

  // What is recorded of the last STATE sent agrees with the throttle's clock, and a dial counted live was sent one.
  predicate Recorded(d: Dial) {
    && (d.heard.Some? ==> d.lastStateTx == Clock(d.heardAt))
    && (d.wasLive ==> d.heard.Some?)
  }

  predicate Synced(d: Dial, last: Option<StatePkt>) {
    Recorded(d) && (last.Some? ==> d.pendState || d.heard == last)
  }

  // Once a STATE has been built, every dial is marked for one or was last sent exactly it.
  predicate Sync(c: Core) {
    && (forall i :: 0 <= i < |c.dials| ==> Synced(c.dials[i], c.lastState))
    && (!c.started ==> c.lastState.None?)
  }

  // At most the mark is added.
  predicate OnlyMarks(a: Dial, b: Dial) {
    a.heard == b.heard && a.heardAt == b.heardAt && a.lastStateTx == b.lastStateTx && a.wasLive == b.wasLive
    && (b.pendState ==> a.pendState)
  }

  predicate KeepsSync(c: Core, r: Core) {
    && |r.dials| == |c.dials| && (forall i :: 0 <= i < |c.dials| ==> OnlyMarks(r.dials[i], c.dials[i]))
    && r.lastState == c.lastState && r.started == c.started
  }

  lemma KeptSync(c: Core, r: Core)
    requires Sync(c) && KeepsSync(c, r)
    ensures Sync(r)
  {
    hide Clock;
  }

  lemma SyncRefl(c: Core)
    ensures KeepsSync(c, c)
  {
  }

  lemma SyncTrans(a: Core, b: Core, c: Core)
    requires KeepsSync(a, b) && KeepsSync(b, c)
    ensures KeepsSync(a, c)
  {
  }

  // Nor does any dial's mark, liveness or wants move.
  predicate SameNeed(a: Dial, b: Dial) {
    OnlyMarks(a, b) && a.pendState == b.pendState && a.lastProbe == b.lastProbe && a.want == b.want
  }

  predicate KeepsTick(c: Core, r: Core) {
    KeepsSync(c, r) && forall i :: 0 <= i < |c.dials| ==> SameNeed(r.dials[i], c.dials[i])
  }

  lemma TickTrans(a: Core, b: Core, c: Core)
    requires KeepsTick(a, b) && KeepsTick(b, c)
    ensures KeepsTick(a, c)
  {
  }

  lemma TickRefl(c: Core)
    ensures KeepsTick(c, c)
  {
  }

  lemma SetSync(c: Core, i: nat, d: Dial)
    requires i < |c.dials| && OnlyMarks(d, c.dials[i])
    ensures KeepsSync(c, SetDial(c, i, d))
  {
  }

  lemma EpochSync(c: Core, i: nat, e: u16, env: Env)
    requires i < |c.dials|
    ensures KeepsSync(c, EpochOk(c, i, e, env).0)
  {
    hide BondsOf, Encode, Latch, Latched;
  }

  lemma WifiEpochSync(c: Core, i: nat, e: u16, env: Env)
    requires i < |c.dials|
    ensures KeepsSync(c, WifiEpochOk(c, i, e, env).0)
  {
    hide EpochOk;
    EpochSync(c, i, e, env);
  }

  lemma RoomEpochSync(c: Core, i: nat, ver: u8, complete: bool, e: u16, env: Env)
    requires i < |c.dials|
    ensures KeepsSync(c, RoomEpochOk(c, i, ver, complete, e, env).0)
  {
    hide EpochOk;
    EpochSync(c, i, if ver >= 5 && complete then e else 0, env);
  }

  lemma SeenSync(c: Core, i: nat, now: nat)
    requires i < |c.dials|
    ensures KeepsSync(c, Seen(c, i, now))
  {
  }

  lemma RetireSync(d: Dial, session: u32, status: u8)
    requires HistoryShaped(d)
    ensures var r := Retire(d, session, status);
            SameNeed(r, d)
  {
    hide RetiredIndex, WithHistory;
    if session != 0 {
      var found := RetiredIndex(d.retired, session);
      var at := if found < 0 then d.retiredNext else found;
      HistorySync(d, d.retired[at := session], d.retiredStatus[at := status],
                  if found < 0 then (at + 1) % HISTORY else d.retiredNext);
    }
  }

  lemma HistorySync(d: Dial, retired: seq<u32>, status: seq<u8>, next: nat)
    ensures var r := WithHistory(d, retired, status, next);
            SameNeed(r, d)
  {
  }

  lemma TakeOverSync(c: Core, i: nat, session: u32)
    requires i < |c.dials| && AllShaped(c.dials)
    ensures KeepsSync(c, TakeOver(c, i, session))
  {
    hide Retire, Find;
    DropShaped(c.dials);
    var prior := if c.owner.valid then Find(c.dials, c.owner.mac) else -1;
    if prior >= 0 {
      RetireSync(DropRequests(c.dials)[prior], c.owner.session, STALE);
    }
  }

  lemma QueueSync(c: Core, i: nat, session: u32)
    requires i < |c.dials| && AllShaped(c.dials)
    ensures KeepsSync(c, QueueSetup(c, i, session))
  {
    hide TakeOver, RetiredIndex, IsOwner, KeepsSync;
    SyncRefl(c);
    TakeOverSync(c, i, session);
    var c1 := TakeOver(c, i, session);
    SetSync(c, i, c.dials[i].(wifiSetupReq := true));
    SetSync(c1, i, c1.dials[i].(wifiSetupReq := true));
    SyncTrans(c, c1, SetDial(c1, i, c1.dials[i].(wifiSetupReq := true)));
  }

  lemma ObserveSync(c: Core)
    requires AllShaped(c.dials)
    ensures KeepsTick(c, ObserveClosed(c))
  {
    hide Retire, Find;
    var i := Find(c.dials, c.owner.mac);
    if i >= 0 {
      RetireSync(c.dials[i], c.owner.session, CLOSED);
    }
  }

  lemma BuildSync(c: Core, env: Env)
    requires AllShaped(c.dials)
    ensures KeepsTick(c, BuildState(c, env).0)
  {
    hide ObserveClosed, KeepsTick;
    ObserveSync(c);
    TickRefl(c);
  }

  lemma SettleSync(c: Core, i: nat, session: u32, env: Env)
    requires i < |c.dials| && AllShaped(c.dials)
    ensures KeepsSync(c, CancelSettle(c, i, session, env))
  {
    hide CancelVerdict, CancelStatus, IsOwner;
  }

  lemma CancelSync(c: Core, i: nat, session: u32, env: Env)
    requires i < |c.dials| && AllShaped(c.dials)
    ensures KeepsSync(c, CancelSession(c, i, session, env))
  {
    hide ObserveClosed, CancelTail, KeepsSync, AllShaped;
    ObserveSync(c);
    ObserveShaped(c);
    SyncRefl(c);
    var c0 := if WithoutStart(env.device) == CLOSED then ObserveClosed(c) else c;
    CancelTailSync(c0, i, session, env);
    SyncTrans(c, c0, CancelTail(c0, i, session, env));
  }

  lemma CancelTailSync(c: Core, i: nat, session: u32, env: Env)
    requires i < |c.dials| && AllShaped(c.dials)
    ensures KeepsSync(c, CancelTail(c, i, session, env))
  {
    hide CancelSettle, CancelStatus, Retire, AllShaped;
    var c2 := CancelSettle(c, i, session, env);
    SettleShaped(c, i, session, env);
    SettleSync(c, i, session, env);
    RetireOne(c2, i, session, CancelStatus(c, i, session, env));
  }

  lemma RetireOne(c: Core, i: nat, session: u32, status: u8)
    requires i < |c.dials| && AllShaped(c.dials)
    ensures OnlyMarks(Retire(c.dials[i], session, status), c.dials[i])
  {
    hide Retire;
    RetireSync(c.dials[i], session, status);
  }

  lemma SensorSync(c: Core, i: nat, mac: seq<u8>, data: seq<u8>, env: Env)
    requires i < |c.dials| && |data| >= 7
    ensures KeepsSync(c, SensorReport(c, i, mac, data, env))
  {
  }

  lemma SourceChoiceSync(c: Core, i: nat, data: seq<u8>, env: Env)
    requires i < |c.dials| && |data| >= 16
    ensures KeepsSync(c, SourceChoice(c, i, data, env))
  {
    hide U32, U64;
  }

  lemma ProbeSync(c: Core, i: nat, data: seq<u8>, env: Env)
    requires i < |c.dials|
    ensures KeepsSync(c, OnProbe(c, i, data, env))
  {
    hide KeepsSync;
    var m := if |data| >= 3 then SetDial(c, i, c.dials[i].(want := data[2])) else c;
    SyncRefl(c);
    if |data| >= 3 {
      SetSync(c, i, c.dials[i].(want := data[2]));
    }
    SeenSync(m, i, env.now);
    SyncTrans(c, m, Seen(m, i, env.now));
  }

  lemma RequestSync(c: Core, i: nat, d: Dial, now: nat)
    requires i < |c.dials| && OnlyMarks(d, c.dials[i])
    ensures KeepsSync(c, Seen(SetDial(c, i, d), i, now))
  {
    hide KeepsSync, OnlyMarks;
    SetSync(c, i, d);
    SeenSync(SetDial(c, i, d), i, now);
    SyncTrans(c, SetDial(c, i, d), Seen(SetDial(c, i, d), i, now));
  }

  lemma RequestsSync(c: Core, i: nat, ver: u8, data: seq<u8>, env: Env)
    requires i < |c.dials|
    ensures KeepsSync(c, OnWifiReq(c, i, data, env)) && KeepsSync(c, OnCatalogReq(c, i, ver, data, env))
  {
    hide KeepsSync, U16, Seen;
    SyncRefl(c);
    RequestSync(c, i, c.dials[i].(wifiReq := true), env.now);
    RequestSync(c, i, c.dials[i].(catalogCursor := U16(data, 2), catalogReq := true), env.now);
  }

  lemma PullsSync(c: Core, i: nat, now: nat, env: Env)
    requires i < |c.dials|
    ensures KeepsTick(c, ServePulls(c, i, now, env))
  {
    hide KeepsTick, PullInfo, PullCaps, ServeSetup, ServeWifiReq, ServeSource, ServeCatalog;
    var c1 := PullCaps(c, i, now, env);
    CapsSync(c, i, now, env);
    var c2 := PullInfo(c1, i, now);
    InfoSync(c1, i, now);
    TickTrans(c, c1, c2);
    var c3 := ServeWifiReq(c2, i, env);
    CredsSync(c2, i, env);
    TickTrans(c, c2, c3);
    var c4 := ServeSetup(c3, i, env);
    SetupSync(c3, i, env);
    TickTrans(c, c3, c4);
    var c5 := ServeCatalog(c4, i);
    CatalogSync(c4, i);
    TickTrans(c, c4, c5);
    SourceSync(c5, i, env);
    TickTrans(c, c5, ServeSource(c5, i, env));
  }

  lemma CapsSync(c: Core, i: nat, now: nat, env: Env)
    requires i < |c.dials|
    ensures KeepsTick(c, PullCaps(c, i, now, env))
  {
    hide Wants, Since, Clock;
  }

  lemma InfoSync(c: Core, i: nat, now: nat)
    requires i < |c.dials|
    ensures KeepsTick(c, PullInfo(c, i, now))
  {
    hide Wants, Since, Clock;
  }

  lemma CredsSync(c: Core, i: nat, env: Env)
    requires i < |c.dials|
    ensures KeepsTick(c, ServeWifiReq(c, i, env))
  {
  }

  lemma SetupSync(c: Core, i: nat, env: Env)
    requires i < |c.dials|
    ensures KeepsTick(c, ServeSetup(c, i, env))
  {
  }

  lemma CatalogSync(c: Core, i: nat)
    requires i < |c.dials|
    ensures KeepsTick(c, ServeCatalog(c, i))
  {
  }

  lemma SourceSync(c: Core, i: nat, env: Env)
    requires i < |c.dials|
    ensures KeepsTick(c, ServeSource(c, i, env))
  {
    hide OtherInfo, KeepsTick;
    var d := c.dials[i];
    TickRefl(c);
    if d.sourceReq {
      var c1 := SetDial(c, i, d.(sourceReq := false));
      var result := if env.sourceSet.Some? then env.sourceSet.value else 3;
      var c2 := if env.sourceSet.Some? then Emit(c1, SourceHook(d.bond.mac, d.sourceRevision, d.sourceId)) else c1;
      var c3 := Send(c2, d.bond.mac, SourceAck(d.sourceRequestId, result));
      SourceAnswered(c, i, c3);
      OtherInfoSync(c3, i);
      TickTrans(c, c3, c3.(dials := OtherInfo(c3.dials, i)));
    }
  }

  lemma SourceAnswered(c: Core, i: nat, r: Core)
    requires i < |c.dials| && r.dials == c.dials[i := c.dials[i].(sourceReq := false)]
    requires r.lastState == c.lastState && r.started == c.started
    ensures KeepsTick(c, r)
  {
  }

  lemma OtherInfoSync(c: Core, i: nat)
    ensures KeepsTick(c, c.(dials := OtherInfo(c.dials, i)))
  {
  }

  // --- Sending ---

  // Every slot is settled from k on, whatever was pending, so a new STATE needs no marks beforehand.
  lemma {:induction false} EchoSync(c: Core, k: nat, p: StatePkt, now: nat)
    requires k <= |c.dials| && c.lastState == Some(p) && c.started
    requires forall i :: 0 <= i < |c.dials| ==> Recorded(c.dials[i])
    requires forall i :: 0 <= i < k ==> Synced(c.dials[i], Some(p))
    ensures Sync(EchoFrom(c, k, p, now))
    decreases |c.dials| - k
  {
    hide Live, Wants;
    if k < |c.dials| {
      var c1 := if Live(c.dials[k], now) then SendState(c, k, p, now) else Pend(c, k);
      EchoSync(c1, k + 1, p, now);
    }
  }

  lemma EchoAllSync(c: Core, now: nat, env: Env)
    requires Sync(c) && AllShaped(c.dials) && c.started
    ensures Sync(EchoStateAll(c, now, env))
  {
    hide BuildState, EchoFrom, Clock;
    var (c1, p) := BuildState(c, env);
    BuildSync(c, env);
    KeptSync(c, c1);
    EchoSync(c1.(lastState := Some(p)), 0, p, now);
  }

  // --- One tick ---

  // How a tick at time now leaves a dial that was live, or not: a live one holds the current STATE or was sent one
  // less than 250 ms ago, and was sent one less than 10 s ago in any case.
  predicate Ticked(d: Dial, live: bool, last: Option<StatePkt>, now: nat) {
    && d.wasLive == live
    && (live ==>
          && d.heard.Some?
          && (d.heard == last || Since(Clock(now), d.lastStateTx) < STATE_MIN_INTERVAL_MS)
          && Since(Clock(now), d.lastStateTx) < STATE_HEARTBEAT_MS)
  }

  // A live dial that was due has been sent the current STATE on this tick, and no other has been sent any.
  predicate SentIfDue(was: Dial, d: Dial, last: Option<StatePkt>, now: nat) {
    if Live(was, now) && Due(was, now) then d.heard == last && d.heardAt == now && d.lastStateTx == Clock(now)
    else d.heard == was.heard && d.heardAt == was.heardAt && d.lastStateTx == was.lastStateTx
  }

  // Not served yet on this tick, and in need of a STATE exactly as before it
  predicate Readied(a: Dial, b: Dial, now: nat) {
    && a.lastProbe == b.lastProbe && a.want == b.want && a.lastStateTx == b.lastStateTx
    && a.heard == b.heard && a.heardAt == b.heardAt && a.pendState == b.pendState
    && (Live(b, now) ==> a.wasLive == b.wasLive)
  }

  // The STATE a pass builds
  function Reported(c: Core, env: Env): StatePkt {
    StatePkt(c.capsSeq, c.epoch, if env.device.Unavailable? then NO_DEVICE else env.device.payload)
  }

  // A slot, marked if that STATE is not the last one
  function Claimed(d: Dial, last: Option<StatePkt>, p: StatePkt): Dial {
    d.(pendState := d.pendState || last != Some(p))
  }

  // The slots as the pass serves them
  function Claims(c: Core, env: Env): (r: seq<Dial>)
    ensures |r| == |c.dials|
  {
    seq(|c.dials|, i requires 0 <= i < |c.dials| => Claimed(c.dials[i], c.lastState, Reported(c, env)))
  }

  lemma ReadiedTrans(a: Dial, b: Dial, c: Dial, now: nat)
    requires Readied(a, b, now) && Readied(b, c, now)
    ensures Readied(a, c, now)
  {
  }

  lemma ReadiedDue(a: Dial, b: Dial, now: nat)
    requires Readied(a, b, now)
    ensures Live(a, now) == Live(b, now) && (Live(b, now) ==> Due(a, now) == Due(b, now))
  {
    hide Wants, Since, Clock;
  }

  lemma ServedDial(d: Dial, p: StatePkt, now: nat, r: Dial)
    requires Synced(d, Some(p)) && Live(d, now)
    requires var w := d.(wasLive := true);
             r == if Due(d, now)
                  then w.(lastStateTx := Clock(now), pendState := false,
                          want := if Wants(w.want, 4) then w.want - 4 else w.want, heard := Some(p), heardAt := now)
                  else w
    ensures Synced(r, Some(p)) && Ticked(r, true, Some(p), now) && SentIfDue(d, r, Some(p), now) && r.lastProbe == d.lastProbe
  {
    hide Wants, Clock;
  }

  lemma TickedMarks(d: Dial, r: Dial, was: Dial, live: bool, last: Option<StatePkt>, now: nat)
    requires Ticked(d, live, last, now) && SentIfDue(was, d, last, now) && OnlyMarks(r, d)
    ensures Ticked(r, live, last, now) && SentIfDue(was, r, last, now)
  {
    hide Since, Clock, Live, Due;
  }

  lemma TickDialSync(c: Core, i: nat, p: StatePkt, env: Env)
    requires i < |c.dials| && Sync(c) && c.lastState == Some(p) && c.started
    ensures var r := TickDial(c, i, p, env);
            && Sync(r) && r.lastState == Some(p) && r.started
            && Ticked(r.dials[i], Live(c.dials[i], env.now), Some(p), env.now)
            && SentIfDue(c.dials[i], r.dials[i], Some(p), env.now)
            && (forall k :: 0 <= k < |c.dials| && k != i ==>
                  SameNeed(r.dials[k], c.dials[k]))
  {
    hide Live, Due, ServePulls, Wants, Clock, Since;
    var d := c.dials[i];
    if Live(d, env.now) {
      var c1 := SetDial(c, i, d.(wasLive := true));
      var c2 := if Due(d, env.now) then SendState(c1, i, p, env.now) else c1;
      ServedDial(d, p, env.now, c2.dials[i]);
      PullsSync(c2, i, env.now, env);
      TickedMarks(c2.dials[i], ServePulls(c2, i, env.now, env).dials[i], d, true, Some(p), env.now);
      KeptSync(c2, ServePulls(c2, i, env.now, env));
    }
  }

  // The slots before k have had their turn, the others wait for it.
  predicate Turn(c: Core, was: seq<Dial>, k: nat, now: nat)
    requires |c.dials| == |was|
  {
    && (forall i :: 0 <= i < k && i < |was| ==>
          Ticked(c.dials[i], Live(was[i], now), c.lastState, now) && SentIfDue(was[i], c.dials[i], c.lastState, now))
    && (forall i :: k <= i < |was| ==> Readied(c.dials[i], was[i], now))
  }

  lemma TurnNext(c: Core, was: seq<Dial>, k: nat, p: StatePkt, env: Env)
    requires k < |c.dials| == |was| && Sync(c) && c.lastState == Some(p) && c.started && Turn(c, was, k, env.now)
    ensures var r := TickDial(c, k, p, env);
            Sync(r) && r.lastState == Some(p) && r.started && Turn(r, was, k + 1, env.now)
  {
    hide TickDial, Ticked, Live, Due, Synced;
    var r := TickDial(c, k, p, env);
    TickDialSync(c, k, p, env);
    ReadiedDue(c.dials[k], was[k], env.now);
    forall i | 0 <= i < k
      ensures Ticked(r.dials[i], Live(was[i], env.now), Some(p), env.now) && SentIfDue(was[i], r.dials[i], Some(p), env.now)
    {
      TickedMarks(c.dials[i], r.dials[i], was[i], Live(was[i], env.now), Some(p), env.now);
    }
    forall i | k < i < |was|
      ensures Readied(r.dials[i], was[i], env.now)
    {
      NeedReadied(r.dials[i], c.dials[i], env.now);
      ReadiedTrans(r.dials[i], c.dials[i], was[i], env.now);
    }
  }

  lemma {:induction false} TickFromSync(c: Core, was: seq<Dial>, k: nat, p: StatePkt, env: Env)
    requires k <= |c.dials| == |was| && Sync(c) && c.lastState == Some(p) && c.started && Turn(c, was, k, env.now)
    ensures var r := TickFrom(c, k, p, env);
            Sync(r) && r.lastState == Some(p) && Turn(r, was, |was|, env.now)
    decreases |c.dials| - k
  {
    hide TickDial, Turn, Sync;
    if k < |c.dials| {
      TurnNext(c, was, k, p, env);
      TickFromSync(TickDial(c, k, p, env), was, k + 1, p, env);
    }
  }

  lemma {:induction false} QuietReadied(ds: seq<Dial>, last: Option<StatePkt>, now: nat)
    requires forall i :: 0 <= i < |ds| ==> Synced(ds[i], last)
    ensures var (r, live) := QuietFrom(ds, now);
            && (forall i :: 0 <= i < |ds| ==> Synced(r[i], last) && Readied(r[i], ds[i], now))
            && (!live ==> forall i :: 0 <= i < |ds| ==> !Live(ds[i], now) && !r[i].wasLive)
  {
    hide Live, Clock;
    if ds != [] && !Live(ds[0], now) {
      QuietReadied(ds[1..], last, now);
      var (r, live) := QuietFrom(ds, now);
      forall i | 0 <= i < |ds|
        ensures Synced(r[i], last) && Readied(r[i], ds[i], now) && (!live ==> !Live(ds[i], now) && !r[i].wasLive)
      {
        if i > 0 {
          assert ds[i] == ds[1..][i - 1] && r[i] == QuietFrom(ds[1..], now).0[i - 1];
        }
      }
    }
  }

  lemma TimeoutsSync(c: Core, env: Env)
    ensures var r := PairTimeouts(c, env);
            && r.dials == c.dials && r.lastState == c.lastState && r.started == c.started
            && r.capsSeq == c.capsSeq && r.epoch == c.epoch
  {
    hide Find;
  }

  // The state the slots are served from
  lemma ShareState(c: Core, p: StatePkt)
    requires Sync(c) && c.started
    ensures var r := if c.lastState == Some(p) then c else PendAll(c.(lastState := Some(p)));
            && Sync(r) && r.lastState == Some(p) && r.started && |r.dials| == |c.dials|
            && forall i :: 0 <= i < |c.dials| ==> r.dials[i] == Claimed(c.dials[i], c.lastState, p)
  {
    hide Clock;
  }

  // After every tick, each live dial holds the current STATE or was sent one less than 250 ms ago, was sent one less
  // than 10 s ago, and was sent one on this tick exactly if it was due; the others are not counted live.
  lemma TickConverges(c: Core, env: Env)
    requires Sync(c) && AllShaped(c.dials) && c.started
    ensures var r := Tick(c, env);
            && Sync(r) && Turn(r, Claims(c, env), |c.dials|, env.now)
            && forall i :: 0 <= i < |c.dials| && Live(c.dials[i], env.now) ==> r.lastState == Some(Reported(c, env))
  {
    hide PairTimeouts, QuietFrom, BuildState, TickFrom, AllShaped, Sync, Readied, PendAll, Live, SentIfDue, Claimed, Reported;
    var c1 := PairTimeouts(c, env);
    TimeoutsSync(c, env);
    SyncDials(c);
    QuietReadied(c1.dials, c1.lastState, env.now);
    QuietShaped(c1.dials, env.now);
    var (quiet, live) := QuietFrom(c1.dials, env.now);
    var c2 := c1.(dials := quiet);
    DialsSync(c2);
    if !live {
      forall i | 0 <= i < |c.dials|
        ensures !Live(Claims(c, env)[i], env.now) && SentIfDue(Claims(c, env)[i], c2.dials[i], c2.lastState, env.now)
      {
        NotDue(c.dials[i], c2.dials[i], c.lastState, Reported(c, env), env.now);
      }
    } else {
      var (c3, p) := BuildState(c2, env);
      BuildSync(c2, env);
      BuildIs(c, c2, env);
      KeptSync(c2, c3);
      ShareState(c3, p);
      var c4 := if c3.lastState == Some(p) then c3 else PendAll(c3.(lastState := Some(p)));
      forall i | 0 <= i < |c.dials|
        ensures Readied(c4.dials[i], Claims(c, env)[i], env.now)
      {
        NeedReadied(c3.dials[i], c2.dials[i], env.now);
        ReadiedTrans(c3.dials[i], c2.dials[i], c.dials[i], env.now);
        ClaimedReadied(c3.dials[i], c.dials[i], c.lastState, p, env.now);
      }
      TickFromSync(c4, Claims(c, env), 0, p, env);
    }
  }

  lemma BuildIs(c: Core, m: Core, env: Env)
    requires AllShaped(m.dials) && m.capsSeq == c.capsSeq && m.epoch == c.epoch
    ensures BuildState(m, env).1 == Reported(c, env)
  {
    hide ObserveClosed;
  }

  lemma SyncDials(c: Core)
    requires Sync(c)
    ensures forall i :: 0 <= i < |c.dials| ==> Synced(c.dials[i], c.lastState)
  {
  }

  lemma DialsSync(c: Core)
    requires c.started && forall i :: 0 <= i < |c.dials| ==> Synced(c.dials[i], c.lastState)
    ensures Sync(c)
  {
  }

  lemma NotDue(was: Dial, d: Dial, last: Option<StatePkt>, p: StatePkt, now: nat)
    requires !Live(was, now) && Readied(d, was, now)
    ensures !Live(Claimed(was, last, p), now) && SentIfDue(Claimed(was, last, p), d, last, now)
  {
    hide Clock, Since;
  }

  lemma NeedReadied(a: Dial, b: Dial, now: nat)
    requires SameNeed(a, b)
    ensures Readied(a, b, now)
  {
  }

  lemma ClaimedReadied(a: Dial, b: Dial, last: Option<StatePkt>, p: StatePkt, now: nat)
    requires Readied(a, b, now)
    ensures Readied(Claimed(a, last, p), Claimed(b, last, p), now)
  {
    hide Clock, Since;
  }

  // --- The other calls ---

  lemma CmdSync(c: Core, i: nat, data: seq<u8>, env: Env)
    requires Sync(c) && c.started && i < |c.dials| && AllShaped(c.dials)
    ensures Sync(OnCmd(c, i, data, env))
  {
    hide Sync, KeepsSync, EpochOk, EchoStateAll, Seen, AllShaped;
    var e := U16(data, 17);
    var c1 := EpochOk(c, i, e, env).0;
    EpochSync(c, i, e, env);
    EpochShaped(c, i, e, env);
    KeptSync(c, c1);
    var c2 := Emit(Seen(c1, i, env.now), ApplyHook(c.dials[i].bond.mac));
    SeenSync(c1, i, env.now);
    KeptSync(c1, Seen(c1, i, env.now));
    CommandKeeps(c1, i, c.dials[i].bond.mac, env);
    EmittedSync(Seen(c1, i, env.now), ApplyHook(c.dials[i].bond.mac));
    KeepsStarted(c, c1);
    KeepsStarted(c1, Seen(c1, i, env.now));
    EchoAllSync(c2, env.later, env);
  }

  lemma KeepsStarted(c: Core, r: Core)
    requires KeepsSync(c, r)
    ensures r.started == c.started
  {
  }

  lemma EmittedSync(c: Core, e: Event)
    requires Sync(c)
    ensures Sync(Emit(c, e)) && Emit(c, e).started == c.started
  {
    hide Clock;
  }

  lemma WifiFramesSync(c: Core, i: nat, data: seq<u8>, env: Env)
    requires i < |c.dials| && AllShaped(c.dials)
    ensures KeepsSync(c, OnWifiSetup(c, i, data, env)) && KeepsSync(c, OnWifiCancel(c, i, data, env))
  {
    hide KeepsSync, EpochOk, WifiEpochOk, QueueSetup, CancelSession, Seen, AllShaped;
    SyncRefl(c);
    var e, session := U16(data, 2), if |data| == 4 then 0 else U32(data, 4);
    EpochShaped(c, i, e, env);
    EpochSync(c, i, e, env);
    WifiEpochSync(c, i, e, env);
    var c1 := if |data| == 4 then EpochOk(c, i, e, env).0 else WifiEpochOk(c, i, e, env).0;
    var c2 := QueueSetup(c1, i, session);
    QueueSync(c1, i, session);
    SyncTrans(c, c1, c2);
    SeenSync(c2, i, env.now);
    SyncTrans(c, c2, Seen(c2, i, env.now));
    var m := WifiEpochOk(c, i, e, env).0;
    var n := Seen(m, i, env.now);
    SeenSync(m, i, env.now);
    SyncTrans(c, m, n);
    SeenStays(m, i, env.now);
    CancelSync(n, i, U32(data, 4), env);
    SyncTrans(c, n, CancelSession(n, i, U32(data, 4), env));
  }

  lemma SeenStays(c: Core, i: nat, now: nat)
    requires i < |c.dials| && AllShaped(c.dials)
    ensures AllShaped(Seen(c, i, now).dials)
  {
  }

  lemma RoomFramesSync(c: Core, i: nat, ver: u8, data: seq<u8>, env: Env)
    requires i < |c.dials|
    ensures KeepsSync(c, OnSensor(c, i, ver, data, env)) && KeepsSync(c, OnSourceSet(c, i, ver, data, env))
  {
    hide RoomEpochOk, SensorReport, SourceChoice, KeepsSync;
    SyncRefl(c);
    if |data| >= 7 {
      var c1 := RoomEpochOk(c, i, ver, |data| >= 11, U16(data, 9), env).0;
      RoomEpochSync(c, i, ver, |data| >= 11, U16(data, 9), env);
      SensorSync(c1, i, c.dials[i].bond.mac, data, env);
      SyncTrans(c, c1, SensorReport(c1, i, c.dials[i].bond.mac, data, env));
    }
    if |data| >= 16 {
      var c1 := RoomEpochOk(c, i, ver, |data| >= 18, U16(data, 16), env).0;
      RoomEpochSync(c, i, ver, |data| >= 18, U16(data, 16), env);
      SourceChoiceSync(c1, i, data, env);
      SyncTrans(c, c1, SourceChoice(c1, i, data, env));
    }
  }

  lemma DialFrameSync(c: Core, i: nat, kind: u8, ver: u8, data: seq<u8>, env: Env)
    requires Sync(c) && c.started && i < |c.dials| && AllShaped(c.dials)
    ensures Sync(OnDialFrame(c, i, kind, ver, data, env))
  {
    hide Sync, KeepsSync, OnCmd, OnWifiSetup, OnSensor, OnSourceSet, OnWifiCancel, OnProbe, OnWifiReq, OnCatalogReq, Seen, AllShaped;
    if kind == 2 {
      CmdSync(c, i, data, env);
    } else {
      WifiFramesSync(c, i, data, env);
      RoomFramesSync(c, i, ver, data, env);
      ProbeSync(c, i, data, env);
      RequestsSync(c, i, ver, data, env);
      SeenSync(c, i, env.now);
      SyncRefl(c);
      KeptSync(c, OnDialFrame(c, i, kind, ver, data, env));
    }
  }

  // Same slots, same STATE, whatever became of the handshake
  lemma PairingSync(c: Core, r: Core)
    requires Sync(c) && r.dials == c.dials && r.lastState == c.lastState && r.started == c.started
    ensures Sync(r)
  {
    hide Clock;
  }

  lemma PairingOpsSync(c: Core, window: u32, env: Env)
    ensures PairStart(c, window, env).lastState == c.lastState && PairCancel(c, env).lastState == c.lastState
    ensures PairStart(c, window, env).started == c.started && PairCancel(c, env).started == c.started
  {
    hide Find;
  }

  lemma PairReqSync(c: Core, data: seq<u8>, crypto: Crypto, env: Env)
    requires Sync(c)
    ensures Sync(OnPairReq(c, data, crypto, env))
  {
    hide OnPairReq, Sync;
    var r := OnPairReq(c, data, crypto, env);
    PairReqState(c, data, crypto, env);
    PairingSync(c, r);
  }

  lemma PairReqState(c: Core, data: seq<u8>, crypto: Crypto, env: Env)
    ensures var r := OnPairReq(c, data, crypto, env);
            r.lastState == c.lastState && r.started == c.started
  {
    hide DeriveLmk, Find, ParseRequest;
  }

  // A slot taken or re-keyed by pairing is marked.
  lemma CommitSync(c: Core, env: Env)
    requires Sync(c) && c.started
    ensures Sync(PairCommit(c, env)) && PairCommit(c, env).started
  {
    hide Find, Encode, Candidate, CleanupCandidate, Clock, BondsOf;
    CleanupState(c, env);
  }

  lemma CleanupState(c: Core, env: Env)
    ensures var r := CleanupCandidate(c, env);
            r.lastState == c.lastState && r.started == c.started
  {
    hide Find;
  }

  lemma ConfirmSync(c: Core, src: seq<u8>, data: seq<u8>, env: Env)
    requires Sync(c) && c.started
    ensures Sync(OnPairConfirm(c, src, data, env))
  {
    hide PairAuth.Make, PairAuth.Proves, PairCommit, Find, Sync, KeepsSync;
    var candidate := c.pairing.phase.Confirm? && src == c.pairing.candMac;
    var c1 := if candidate then PairCommit(c, env) else c;
    CommitSync(c, env);
    var i := Find(c1.dials, src);
    if i >= 0 {
      var m := SetDial(c1, i, c1.dials[i].(lastProbe := Clock(env.now)));
      SetSync(c1, i, c1.dials[i].(lastProbe := Clock(env.now)));
      KeptSync(c1, m);
      forall ack
        ensures Sync(Send(m, src, ack))
      {
        PairingSync(m, Send(m, src, ack));
      }
    }
  }

  lemma RecvSync(c: Core, src: seq<u8>, dst: seq<u8>, data: seq<u8>, crypto: Crypto, env: Env)
    requires Sync(c) && AllShaped(c.dials)
    ensures Sync(OnRecv(c, src, dst, data, crypto, env))
  {
    hide OnPairReq, OnPairConfirm, OnDialFrame, Sync, AllShaped;
    if c.started && |data| >= 2 {
      PairReqSync(c, data, crypto, env);
      ConfirmSync(c, src, data, env);
      var i := Find(c.dials, src);
      if i >= 0 {
        DialFrameSync(c, i, data[0], data[1], data, env);
      }
    }
  }

  lemma FewerSync(c: Core, i: nat, r: Core)
    requires Sync(c) && i < |c.dials| && r.dials == c.dials[..i] + c.dials[i + 1..]
    requires r.lastState == c.lastState && r.started == c.started
    ensures Sync(r)
  {
    hide Clock;
  }

  lemma CancelledSync(c: Core, env: Env)
    requires Sync(c)
    ensures Sync(PairCancel(c, env))
  {
    hide PairCancel, PairStart, Sync;
    PairingOpsSync(c, 0, env);
    PairCancelDials(c, env);
    PairingSync(c, PairCancel(c, env));
  }

  lemma ForgetSync(c: Core, mac: seq<u8>, env: Env)
    requires Sync(c)
    ensures Sync(ForgetDial(c, mac, env).0)
  {
    hide Find, Without, Forgotten, PairCancel, Sync;
    CancelledSync(c, env);
    var i := Find(c.dials, mac);
    if i >= 0 && Saves(Without(c, i), env.save) {
      ForgottenIs(c, i, mac);
      FewerSync(c, i, Forgotten(c, i, mac));
      CancelledSync(Forgotten(c, i, mac), env);
    }
  }

  lemma ForgetAllSync(c: Core, env: Env)
    requires Sync(c)
    ensures Sync(ForgetAll(c, env).0)
  {
    hide Encode, PairCancel, Sync, DelPeers;
    if env.save {
      var c2 := DelPeers(Store(c, []), c.dials);
      DelPeersWorld(Store(c, []), c.dials);
      NoneSync(c, Cleared(c2));
      CancelledSync(Cleared(c2), env);
    }
  }

  lemma NoneSync(c: Core, r: Core)
    requires Sync(c) && r.dials == [] && r.lastState == c.lastState && r.started == c.started
    ensures Sync(r)
  {
  }

  lemma CapsSynced(c: Core, env: Env)
    requires Sync(c)
    ensures Sync(CapsChanged(c, env))
  {
    hide Clock;
  }

  lemma StartSync(c: Core, env: Env)
    requires Sync(c) && !c.started
    ensures Sync(Start(c, env))
  {
    hide InstallPeers, FreshDials, Decode, Clock;
    if env.ownMac.Some? && c.world.store.Some? && Decode(c.world.store.value).Some? {
      var recs := Decode(c.world.store.value).value;
      InstallWorld(c.(ownMac := env.ownMac.value, dials := FreshDials(recs)), recs, 0, env);
      FreshRecorded(recs);
    }
  }

  lemma FreshRecorded(recs: seq<Bond>)
    ensures var ds := FreshDials(recs);
            forall i :: 0 <= i < |ds| ==> Recorded(ds[i])
  {
  }

  lemma ApplySync(c: Core, op: Op, crypto: Crypto, env: Env)
    requires Sync(c) && AllShaped(c.dials)
    ensures Sync(Apply(c, op, crypto, env))
  {
    hide OnRecv, Tick, PairStart, PairCancel, ForgetDial, ForgetAll, Start, CapsChanged, Sync, Turn;
    match op
    case Recv(src, dst, data) => RecvSync(c, src, dst, data, crypto, env);
    case Loop => TickSync(c, env);
    case OpenPairing(window) =>
      PairingShaped(c, window, env);
      PairingOpsSync(c, window, env);
      PairingSync(c, PairStart(c, window, env));
    case ClosePairing =>
      PairingShaped(c, 0, env);
      PairingOpsSync(c, 0, env);
      PairingSync(c, PairCancel(c, env));
    case Forget(mac) => ForgetSync(c, mac, env);
    case ForgetEvery => ForgetAllSync(c, env);
    case NewCaps => CapsSynced(c, env);
    case StartUp =>
      if !c.started {
        StartSync(c, env);
      }
  }

  lemma TickSync(c: Core, env: Env)
    requires Sync(c) && AllShaped(c.dials)
    ensures Sync(Tick(c, env))
  {
    if c.started {
      TickConverges(c, env);
    }
  }

  lemma AfterSync(c: Core, step: Step, crypto: Crypto)
    requires Sync(c) && AllShaped(c.dials)
    ensures Sync(After(c, step, crypto))
  {
    hide Apply, Clock;
    ApplySync(c, step.op, crypto, step.env);
  }

  // Over every run, once a STATE has been built every dial is marked for one or was last sent exactly it.
  lemma {:induction false} RunSync(c: Core, steps: seq<Step>, crypto: Crypto)
    requires Sync(c) && AllShaped(c.dials)
    ensures Sync(Run(c, steps, crypto))
    decreases |steps|
  {
    hide Sync, After;
    if steps != [] {
      AfterSync(c, steps[0], crypto);
      AfterShaped(c, steps[0], crypto);
      RunSync(After(c, steps[0], crypto), steps[1..], crypto);
    }
  }
}
