// What every accepted frame of a bonded dial does, and that the dial is live from then on: commands, the Wi-Fi setup, and
// all kinds together, told of whole calls.
module LinkAccept {
  import opened Words
  import opened Bonds
  import opened LinkState
  import opened WifiSession
  import opened WifiHistory
  import opened WifiFrame
  import opened WifiStory
  import opened LinkSpec
  import opened LinkFrame
  import opened LinkRun
  import opened LinkTable
  import opened LinkPeers
  import opened LinkWifi
  import opened LinkService
  import opened LinkReceive
  import LinkSays
  import LinkSync
  import LinkAge
  import LinkGuard

  // --- Commands ---

  lemma {:induction false} StatesSame(a: seq<Dial>, b: seq<Dial>, p: StatePkt, now: nat)
    requires SameHeads(a, b)
    ensures LinkSays.StatesTo(a, p, now) == LinkSays.StatesTo(b, p, now)
    decreases |a|
  {
    if a != [] {
      StatesSame(a[1..], b[1..], p, now);
    }
  }

  // What follows a command of dial i that took: the marks of a hotspot found closed, and the STATE to every live dial
  function FanOut(c: Core, i: nat, env: Env): seq<Event>
    requires i < |c.dials|
  {
    var heard := c.dials[i := c.dials[i].(lastProbe := Clock(env.now))];
    LinkSays.ClosedMarks(c, env) + LinkSays.StatesTo(heard, LinkSync.Reported(c, env), env.later)
  }

  // An accepted command reaches the adapter, and if it took, the STATE goes to every live dial at once.
  lemma CommandHeard(c: Core, i: nat, data: seq<u8>, env: Env)
    requires i < |c.dials| <= MAX_DIALS && AllShaped(c.dials)
    ensures var r := OnCmd(c, i, data, env);
            if |data| >= 19 && Passes(c, i, U16(data, 17), env) then
              && HeardNow(r.dials, c.dials, i, env.now)
              && r.world.log
                 == c.world.log + [ApplyHook(c.dials[i].bond.mac)]
                    + (if env.apply then FanOut(c, i, env) else [])
            else SameHeads(r.dials, c.dials) && r.world.log == c.world.log
  {
    hide EpochOk, EchoStateAll, Passes, Seen, SameHeads, FanOut, Clock;
    SameAgain(c.dials);
    if |data| >= 19 {
      var e := U16(data, 17);
      GuardVerdict(c, i, e, env);
      GuardHeads(c, i, e, env);
      GuardLog(c, i, e, env);
      var c1 := EpochOk(c, i, e, env).0;
      if Passes(c, i, e, env) {
        EpochShaped(c, i, e, env);
        var c2 := Emit(Seen(c1, i, env.now), ApplyHook(c.dials[i].bond.mac));
        SeenHeads(c, c1, i, env.now);
        SeenRest(c1, i, env.now);
        if env.apply {
          CommandSays(c, i, c2, e, env);
          EchoAllHeads(c2, env.later, env);
          AfterSeen(c.dials, c2.dials, EchoStateAll(c2, env.later, env).dials, i, env.now);
        }
      }
    }
  }

  lemma SeenRest(c: Core, i: nat, now: nat)
    requires i < |c.dials| && AllShaped(c.dials)
    ensures var r := Seen(c, i, now);
            && r == c.(dials := r.dials) && AllShaped(r.dials)
            && forall j :: 0 <= j < |c.dials| ==> r.dials[j].wifiSetupReq == c.dials[j].wifiSetupReq
  {
  }

  lemma CommandSays(c: Core, i: nat, c2: Core, e: u16, env: Env)
    requires i < |c.dials| && AllShaped(c.dials)
    requires c2 == Emit(Seen(EpochOk(c, i, e, env).0, i, env.now), ApplyHook(c.dials[i].bond.mac))
    requires HeardNow(c2.dials, c.dials, i, env.now) && AllShaped(c2.dials)
    requires c2.world.log == c.world.log + [ApplyHook(c.dials[i].bond.mac)]
    ensures EchoStateAll(c2, env.later, env).world.log
            == c2.world.log + FanOut(c, i, env)
  {
    hide EpochOk, BuildState, EchoFrom, LinkSays.StatesTo, LinkSays.ClosedMarks, LinkSync.Reported, Clock, KeepsWifi;
    var c1 := EpochOk(c, i, e, env).0;
    var seen := c.dials[i := c.dials[i].(lastProbe := Clock(env.now))];
    var (c3, p) := BuildState(c2, env);
    EpochWifi(c, i, e, env);
    SeenWifi(c1, i, env.now);
    WifiTrans(c, c1, Seen(c1, i, env.now));
    SameClosed(c, c2, env);
    EpochStamps(c, i, e, env);
    LinkSync.BuildIs(c, c2, env);
    LinkSays.BuildSays(c2, env);
    BuildHeads(c2, env);
    LinkSays.EchoSays(c3.(lastState := Some(p)), 0, p, env.later);
    assert c3.dials[0..] == c3.dials;
    HeadsTrans(c3.dials, c2.dials, seen);
    StatesSame(c3.dials, seen, p, env.later);
  }

  lemma BuildHeads(c: Core, env: Env)
    requires AllShaped(c.dials)
    ensures SameHeads(BuildState(c, env).0.dials, c.dials)
  {
    hide ObserveClosed, SameHeads;
    ObserveHeads(c);
    SameAgain(c.dials);
  }

  lemma EpochStamps(c: Core, i: nat, e: u16, env: Env)
    requires i < |c.dials|
    ensures var r := EpochOk(c, i, e, env).0;
            r.epoch == c.epoch && r.capsSeq == c.capsSeq && r.world.log == c.world.log
  {
    hide BondsOf, Encode, Latch, Latched;
  }

  lemma SameClosed(c: Core, m: Core, env: Env)
    requires |m.dials| == |c.dials| && m.owner == c.owner
    requires forall j :: 0 <= j < |c.dials| ==> SameWifi(m.dials[j], c.dials[j])
    ensures LinkSays.ClosedMarks(m, env) == LinkSays.ClosedMarks(c, env)
  {
    hide LinkSays.ClosedMarks;
    LinkSays.ClosedSame(m, c, env);
  }

  // --- The Wi-Fi setup ---

  // The session a setup frame names, 0 for the short form
  function SessionOf(data: seq<u8>): u32 {
    if |data| == 4 then 0 else U32(data, 4)
  }

  predicate SetupPasses(c: Core, i: nat, data: seq<u8>, env: Env)
    requires i < |c.dials|
  {
    (|data| == 4 && Passes(c, i, U16(data, 2), env)) || SessionPasses(c, i, data, env)
  }

  // An accepted setup frame makes its dial's start wait and own the hotspot, unless its session is retired or cancelled.
  lemma SetupHeard(c: Core, i: nat, data: seq<u8>, env: Env)
    requires i < |c.dials| <= MAX_DIALS && AllShaped(c.dials)
    ensures var r := OnWifiSetup(c, i, data, env);
            var session := SessionOf(data);
            if SetupPasses(c, i, data, env) then
              && HeardNow(r.dials, c.dials, i, env.now)
              && if Refused(c, i, session) then r.owner == c.owner && r.dials[i].wifiSetupReq == c.dials[i].wifiSetupReq
                 else r.dials[i].wifiSetupReq && IsOwner(r, i, session) && !r.owner.cancelled
            else SameHeads(r.dials, c.dials) && r.owner == c.owner
  {
    hide EpochOk, WifiEpochOk, QueueSetup, Passes, SameHeads, KeepsWifi, U16, U32;
    var e := U16(data, 2);
    SameAgain(c.dials);
    GuardHeads(c, i, e, env);
    EpochShaped(c, i, e, env);
    EpochWifi(c, i, e, env);
    WifiEpochWifi(c, i, e, env);
    GuardVerdict(c, i, e, env);
    SessionVerdict(c, i, data, env);
    if SetupPasses(c, i, data, env) {
      QueueHeard(c, if |data| == 4 then EpochOk(c, i, e, env).0 else WifiEpochOk(c, i, e, env).0, i, SessionOf(data), env.now);
    } else {
      OwnerSame(c, EpochOk(c, i, e, env).0);
      OwnerSame(c, WifiEpochOk(c, i, e, env).0);
    }
  }

  lemma OwnerSame(c: Core, m: Core)
    requires KeepsWifi(c, m)
    ensures m.owner == c.owner
  {
    hide Watch;
  }

  lemma QueueHeard(c: Core, m: Core, i: nat, session: u32, now: nat)
    requires i < |c.dials| && SameHeads(m.dials, c.dials) && KeepsWifi(c, m) && AllShaped(m.dials)
    ensures |QueueSetup(m, i, session).dials| == |m.dials|
    ensures var r := Seen(QueueSetup(m, i, session), i, now);
            && HeardNow(r.dials, c.dials, i, now)
            && if Refused(c, i, session) then r.owner == c.owner && r.dials[i].wifiSetupReq == c.dials[i].wifiSetupReq
               else r.dials[i].wifiSetupReq && IsOwner(r, i, session) && !r.owner.cancelled
  {
    hide QueueSetup, Watch, SameHeads;
    StartRefused(m, i, session);
    QueueHeads(m, i, session);
    HeadsTrans(QueueSetup(m, i, session).dials, m.dials, c.dials);
    SeenHeads(c, QueueSetup(m, i, session), i, now);
  }

  // The session is among those the dial has retired, with this status.
  predicate RemembersAs(d: Dial, session: u32, status: u8) {
    var at := RetiredIndex(d.retired, session);
    0 <= at < |d.retiredStatus| && d.retiredStatus[at] == status
  }

  lemma RetireRemembers(d: Dial, session: u32, status: u8)
    requires RingOk(d) && session != 0
    ensures RemembersAs(Retire(d, session, status), session, status)
    ensures RemembersAs(Retire(d, session, status).(wifiSetupReq := true), session, status)
  {
    hide RingOk, Retire, RetiredIndex;
    RingSized(d);
    RetirePushes(d, session, status);
    RingSized(Retire(d, session, status));
  }

  lemma RingSized(d: Dial)
    requires RingOk(d)
    ensures |d.retiredStatus| == |d.retired| && HistoryShaped(d)
  {
  }

  // A start that takes the hotspot over leaves the session it replaces remembered as stale.
  lemma ReplacedIsStale(c: Core, i: nat, session: u32)
    requires i < |c.dials| && AllShaped(c.dials) && Rings(c.dials) && !Refused(c, i, session)
    requires c.owner.valid && c.owner.session != 0 && Find(c.dials, c.owner.mac) >= 0 && !IsOwner(c, i, session)
    ensures RemembersAs(QueueSetup(c, i, session).dials[Find(c.dials, c.owner.mac)], c.owner.session, STALE)
  {
    hide RetiredIndex, Retire, RingOk, RemembersAs, Find;
    DropShaped(c.dials);
    var j := Find(c.dials, c.owner.mac);
    var d := DropRequests(c.dials)[j];
    SameHistoryRing(c.dials[j], d);
    RetireRemembers(d, c.owner.session, STALE);
    if session != 0 {
      NotRetired(c.dials[i].retired, session);
    }
  }

  lemma NotRetired(retired: seq<u32>, session: u32)
    requires session !in retired
    ensures RetiredIndex(retired, session) < 0
  {
    hide RetiredIndex;
  }

  // A session whose hotspot is found closed is remembered as closed.
  lemma ClosedIsRemembered(c: Core, env: Env)
    requires AllShaped(c.dials) && Rings(c.dials) && LinkSays.ClosedMarks(c, env) != [] && c.owner.session != 0
    ensures Find(c.dials, c.owner.mac) >= 0
    ensures RemembersAs(BuildState(c, env).0.dials[Find(c.dials, c.owner.mac)], c.owner.session, CLOSED)
  {
    hide Retire, RingOk, RemembersAs, Find;
    var j := Find(c.dials, c.owner.mac);
    RetireRemembers(c.dials[j], c.owner.session, CLOSED);
  }

  // The last thing that left the core is the acknowledgement of a cancel, with the status remembered for its session.
  predicate CancelAnswered(r: Core, i: nat, mac: seq<u8>, session: u32, status: u8)
    requires i < |r.dials|
  {
    && r.world.log != [] && r.world.log[|r.world.log| - 1] == Sent(mac, CancelAck(session, status))
    && RemembersAs(r.dials[i], session, status)
  }

  // The session's own start is carried out and not settled, the hotspot is open, and the adapter can cancel.
  predicate HoldsHotspot(c: Core, i: nat, session: u32, env: Env)
    requires i < |c.dials|
  {
    IsOwner(c, i, session) && c.owner.started && !c.owner.cancelled && env.hasCancel && WithoutStart(env.device) == RECOVERY
  }

  // The next thing that happens is this.
  predicate Asked(c: Core, r: Core, e: Event) {
    |r.world.log| > |c.world.log| && r.world.log[|c.world.log|] == e
  }

  // An accepted cancel is answered, and remembered as it was answered; the session that holds the hotspot is cancelled with
  // the adapter, whose verdict is the answer.
  lemma CancelHeard(c: Core, i: nat, data: seq<u8>, env: Env) returns (status: u8)
    requires i < |c.dials| <= MAX_DIALS && AllShaped(c.dials) && Wifi(c)
    ensures var r := OnWifiCancel(c, i, data, env);
            if SessionPasses(c, i, data, env) then
              && HeardNow(r.dials, c.dials, i, env.now) && CancelAnswered(r, i, c.dials[i].bond.mac, U32(data, 4), status)
              && (HoldsHotspot(c, i, U32(data, 4), env) ==>
                    Asked(c, r, CancelHook(c.dials[i].bond.mac, U32(data, 4), status)) && status == (if env.cancel > 4 then 4 else env.cancel))
            else SameHeads(r.dials, c.dials) && r.world.log == c.world.log
  {
    hide WifiEpochOk, EpochOk, CancelSession, SameHeads, KeepsWifi, U16, U32, Wifi, CancelAnswered, Passes;
    var e, session := U16(data, 2), U32(data, 4);
    var c1 := WifiEpochOk(c, i, e, env).0;
    status := 0;
    SameAgain(c.dials);
    GuardHeads(c, i, e, env);
    GuardLog(c, i, e, env);
    EpochShaped(c, i, e, env);
    WifiEpochWifi(c, i, e, env);
    SessionVerdict(c, i, data, env);
    if SessionPasses(c, i, data, env) {
      var m := Seen(c1, i, env.now);
      SeenHeads(c, c1, i, env.now);
      SeenRest(c1, i, env.now);
      SeenWifi(c1, i, env.now);
      WifiTrans(c, c1, m);
      KeptWifi(c, m);
      CancelHeads(m, i, session, env);
      AfterSeen(c.dials, m.dials, CancelSession(m, i, session, env).dials, i, env.now);
      HeardMac(m.dials, c.dials, i, env.now);
      status := SessionCancelled(m, i, session, env);
      OwnerSame(c, m);
    }
  }

  lemma HeardMac(a: seq<Dial>, b: seq<Dial>, i: nat, now: nat)
    requires i < |b| && HeardNow(a, b, i, now)
    ensures |a| == |b| && forall j :: 0 <= j < |a| ==> a[j].bond.mac == b[j].bond.mac
  {
  }

  lemma SessionCancelled(m: Core, i: nat, session: u32, env: Env) returns (status: u8)
    requires i < |m.dials| && AllShaped(m.dials) && Wifi(m) && session != 0
    ensures var r := CancelSession(m, i, session, env);
            && CancelAnswered(r, i, m.dials[i].bond.mac, session, status)
            && (HoldsHotspot(m, i, session, env) ==>
                  Asked(m, r, CancelHook(m.dials[i].bond.mac, session, status)) && status == (if env.cancel > 4 then 4 else env.cancel))
  {
    hide ObserveClosed, CancelTail, Wifi, Rings, CancelAnswered, Asked, CancelStatus;
    ObserveShaped(m);
    ObserveWifi(m);
    ObserveHeads(m);
    var c0 := if WithoutStart(env.device) == CLOSED then ObserveClosed(m) else m;
    WifiRings(c0);
    status := CancelStatus(c0, i, session, env);
    TailAnswers(c0, i, session, env);
    if HoldsHotspot(m, i, session, env) {
      OwnerAsks(m, i, session, env);
    }
  }

  lemma OwnerAsks(c: Core, i: nat, session: u32, env: Env)
    requires i < |c.dials| && AllShaped(c.dials) && Wifi(c) && session != 0 && HoldsHotspot(c, i, session, env)
    ensures CancelStatus(c, i, session, env) == HookStatus(env.cancel)
    ensures Asked(c, CancelTail(c, i, session, env), CancelHook(c.dials[i].bond.mac, session, HookStatus(env.cancel)))
  {
    OwnerFresh(c, i, session);
    VerdictAsks(c, i, session, env);
    hide CancelVerdict, CancelStatus, Retire, Wifi;
    SettleShaped(c, i, session, env);
  }

  lemma OwnerFresh(c: Core, i: nat, session: u32)
    requires i < |c.dials| && Wifi(c) && session != 0 && IsOwner(c, i, session) && !c.owner.cancelled
    ensures session !in c.dials[i].retired
  {
    hide RingOk, Watch, Find, Sessions;
    FindAt(c.dials, i);
  }

  lemma VerdictAsks(c: Core, i: nat, session: u32, env: Env)
    requires i < |c.dials| && AllShaped(c.dials) && session !in c.dials[i].retired && HoldsHotspot(c, i, session, env)
    ensures CancelVerdict(c, i, session, env).AskHook?
  {
    hide RetiredIndex;
  }

  lemma WifiRings(c: Core)
    requires Wifi(c)
    ensures Rings(c.dials)
  {
    hide RingOk, Watch;
  }

  lemma TailAnswers(c: Core, i: nat, session: u32, env: Env)
    requires i < |c.dials| && Rings(c.dials) && AllShaped(c.dials) && session != 0
    ensures CancelAnswered(CancelTail(c, i, session, env), i, c.dials[i].bond.mac, session, CancelStatus(c, i, session, env))
  {
    hide CancelTail, CancelStatus, Rings;
    CancelRemembered(c, i, session, env);
    TailShaped(c, i, session, env);
  }

  lemma TailShaped(c: Core, i: nat, session: u32, env: Env)
    requires i < |c.dials| && AllShaped(c.dials)
    ensures HistoryShaped(CancelTail(c, i, session, env).dials[i])
  {
    hide CancelSettle, CancelStatus, Retire;
    SettleShaped(c, i, session, env);
  }

  // --- All kinds ---

  lemma FrameHeard(c: Core, i: nat, data: seq<u8>, env: Env)
    requires i < |c.dials| <= MAX_DIALS && AllShaped(c.dials) && Wifi(c) && |data| >= 2 && (data[0] == 3 || data[1] >= 1)
    ensures var r := OnDialFrame(c, i, data[0], data[1], data, env).dials;
            if Accepted(c, i, data, env) then HeardNow(r, c.dials, i, env.now) else SameHeads(r, c.dials)
  {
    hide OnCmd, OnProbe, OnWifiReq, OnWifiSetup, OnSensor, OnCatalogReq, OnSourceSet, OnWifiCancel, Seen, SameHeads, Wifi,
         Passes, RoomPasses, SessionPasses, HeardNow, AllShaped;
    SameAgain(c.dials);
    ProbeHeard(c, i, data, env);
    NotedHeard(c, i, data[1], data, env);
    match data[0]
    case 2 => CommandHeard(c, i, data, env);
    case 10 => SetupHeard(c, i, data, env);
    case 12 => SensorHeard(c, i, data[1], data, env);
    case 15 => ChoiceHeard(c, i, data[1], data, env);
    case 17 => var status := CancelHeard(c, i, data, env);
    case _ =>
  }

  // The frame reaches the controller from a bonded dial that is not the candidate, and is neither of the handshake's.
  predicate FromDial(c: Core, src: seq<u8>, dst: seq<u8>, data: seq<u8>) {
    && c.started && |data| >= 2 && data[0] != 4 && data[0] != 19 && dst == c.ownMac
    && !(c.pairing.phase.Confirm? && src == c.pairing.candMac) && Find(c.dials, src) >= 0
  }

  // Each frame of a bonded dial is a proof that it lives exactly if it is accepted: the dial keeps its slot, and was last heard
  // now, or when it was before.
  lemma AcceptedIsHeard(c: Core, src: seq<u8>, dst: seq<u8>, data: seq<u8>, crypto: Crypto, env: Env)
    requires AllShaped(c.dials) && Table(c) && Wifi(c) && FromDial(c, src, dst, data)
    ensures var r := Apply(c, Recv(src, dst, data), crypto, env);
            var i := Find(c.dials, src);
            && |r.dials| == |c.dials| && Find(r.dials, src) == i
            && r.dials[i].lastProbe == if Accepted(c, i, data, env) then Clock(env.now) else c.dials[i].lastProbe
  {
    hide OnPairReq, OnPairConfirm, OnDialFrame, Find, Table, Wifi, AllShaped, Accepted, Clock;
    var i := Find(c.dials, src);
    TableFits(c);
    var r := OnRecv(c, src, dst, data, crypto, env);
    if data[0] == 3 || data[1] >= 1 {
      FrameHeard(c, i, data, env);
      SameFind(r.dials, c.dials, src);
    } else {
      TooOld(c, i, data, env);
    }
  }

  lemma TooOld(c: Core, i: nat, data: seq<u8>, env: Env)
    requires i < |c.dials| && |data| >= 2 && data[0] != 3 && data[1] < 1
    ensures !Accepted(c, i, data, env)
  {
    hide Passes, RoomPasses, SessionPasses;
  }

  // --- From the frame to the pass ---

  // An accepted frame makes its dial live for exactly 12.5 s, unless the clock reads 0.
  lemma HeardLives(c: Core, src: seq<u8>, dst: seq<u8>, data: seq<u8>, crypto: Crypto, env: Env, t: nat)
    requires AllShaped(c.dials) && Table(c) && Wifi(c) && FromDial(c, src, dst, data)
    requires Accepted(c, Find(c.dials, src), data, env) && env.now <= t < env.now + B32
    ensures var r := Apply(c, Recv(src, dst, data), crypto, env);
            var i := Find(c.dials, src);
            0 <= Find(r.dials, src) == i < |r.dials|
            && (Live(r.dials[i], t) <==> Clock(env.now) != 0 && t < env.now + 12500)
  {
    hide OnRecv, Find, Table, Wifi, AllShaped, Accepted, Clock, Since;
    AcceptedIsHeard(c, src, dst, data, crypto, env);
    TrueAge(t, env.now);
  }

  // So a pass within that time leaves it holding the STATE the pass builds, or sent one truly less than 250 ms ago, and one truly
  // less than 10 s ago in any case, if the last one is not a whole wrap of the clock old.
  lemma HeardServed(c: Core, src: seq<u8>, dst: seq<u8>, data: seq<u8>, crypto: Crypto, env: Env, pass: Env)
    requires AllShaped(c.dials) && Table(c) && Wifi(c) && LinkSync.Sync(c) && FromDial(c, src, dst, data)
    requires Accepted(c, Find(c.dials, src), data, env) && Clock(env.now) != 0
    requires env.now <= pass.now < env.now + 12500
    ensures var r := Apply(c, Recv(src, dst, data), crypto, env);
            var i := Find(c.dials, src);
            0 <= Find(r.dials, src) == i < |r.dials| && AllShaped(r.dials)
            && (r.dials[i].heardAt <= pass.now < r.dials[i].heardAt + B32 ==>
                  LinkAge.Young(Tick(r, pass).dials[i], Some(LinkSync.Reported(r, pass)), pass.now))
  {
    hide Apply, Find, Table, Wifi, AllShaped, Accepted, FromDial, Clock, Live, LinkSync.Sync, Tick, LinkAge.Young, LinkSync.Reported,
         LinkSpec.Due;
    var r := Apply(c, Recv(src, dst, data), crypto, env);
    var i := Find(c.dials, src);
    HeardLives(c, src, dst, data, crypto, env, pass.now);
    ApplyShaped(c, Recv(src, dst, data), crypto, env);
    LinkSync.ApplySync(c, Recv(src, dst, data), crypto, env);
    StillUp(c, src, dst, data, crypto, env);
    if r.dials[i].heardAt <= pass.now < r.dials[i].heardAt + B32 {
      LinkAge.TickAge(r, pass, i);
      LinkAge.TickServes(r, pass, i);
    }
  }

  lemma StillUp(c: Core, src: seq<u8>, dst: seq<u8>, data: seq<u8>, crypto: Crypto, env: Env)
    requires AllShaped(c.dials) && Table(c) && FromDial(c, src, dst, data)
    ensures Apply(c, Recv(src, dst, data), crypto, env).started
  {
    hide OnRecv, Find, Table;
    LinkGuard.RecvBoot(c, src, dst, data, crypto, env);
  }

  // What an accepted frame asks of the controller, or has it do
  predicate Takes(c: Core, r: Core, i: nat, data: seq<u8>, env: Env)
    requires i < |c.dials| == |r.dials| && |data| >= 2
  {
    var was, d, kind, mac := c.dials[i], r.dials[i], data[0], c.dials[i].bond.mac;
    && (kind == 2 ==>
          r.world.log
          == c.world.log + [ApplyHook(mac)] + (if env.apply then FanOut(c, i, env) else []))
    && (kind == 3 ==> d.want == if |data| >= 3 then data[2] else was.want)
    && (kind == 8 ==> d.wifiReq)
    && (kind == 10 ==>
          if Refused(c, i, SessionOf(data)) then r.owner == c.owner && d.wifiSetupReq == was.wifiSetupReq
          else d.wifiSetupReq && IsOwner(r, i, SessionOf(data)) && !r.owner.cancelled)
    && (kind == 12 && |data| >= 7 ==>
          && r.world.log == c.world.log + (if env.hasSensor then [SensorHook(mac, |data| > 7 && data[7] != 0xFF)] else [])
          && d.screenValid == (data[2] / 2 % 2 == 1) && d.screenOn == (data[2] / 4 % 2 == 1))
    && (kind == 13 ==> d.catalogReq && d.catalogCursor == U16(data, 2))
    && (kind == 15 && |data| >= 16 ==>
          d.sourceReq && d.sourceRequestId == data[2] && d.sourceRevision == U32(data, 4) && d.sourceId == U64(data, 8))
    && (kind == 17 ==>
          exists status ::
            && CancelAnswered(r, i, mac, U32(data, 4), status)
            && (HoldsHotspot(c, i, U32(data, 4), env) ==>
                  Asked(c, r, CancelHook(mac, U32(data, 4), status)) && status == (if env.cancel > 4 then 4 else env.cancel)))
  }

  lemma FrameTakes(c: Core, i: nat, data: seq<u8>, env: Env)
    requires i < |c.dials| <= MAX_DIALS && AllShaped(c.dials) && Wifi(c) && |data| >= 2 && Accepted(c, i, data, env)
    ensures Takes(c, OnDialFrame(c, i, data[0], data[1], data, env), i, data, env)
  {
    hide OnCmd, OnProbe, OnWifiReq, OnWifiSetup, OnSensor, OnCatalogReq, OnSourceSet, OnWifiCancel, Seen, SameHeads, Wifi,
         Passes, RoomPasses, SessionPasses, HeardNow, AllShaped, Refused, CancelAnswered, HoldsHotspot, Asked, FanOut;
    match data[0]
    case 2 => CommandHeard(c, i, data, env);
    case 3 => ProbeHeard(c, i, data, env);
    case 8 => NotedHeard(c, i, data[1], data, env);
    case 10 => SetupHeard(c, i, data, env);
    case 12 => SensorHeard(c, i, data[1], data, env);
    case 13 => NotedHeard(c, i, data[1], data, env);
    case 15 => ChoiceHeard(c, i, data[1], data, env);
    case 17 => var status := CancelHeard(c, i, data, env);
    case _ =>
  }

  // Each accepted frame does what its kind is for.
  lemma AcceptedTakes(c: Core, src: seq<u8>, dst: seq<u8>, data: seq<u8>, crypto: Crypto, env: Env)
    requires AllShaped(c.dials) && Table(c) && Wifi(c) && FromDial(c, src, dst, data)
    requires Accepted(c, Find(c.dials, src), data, env)
    ensures var r := Apply(c, Recv(src, dst, data), crypto, env);
            var i := Find(c.dials, src);
            |r.dials| == |c.dials| && c.dials[i].bond.mac == src && Takes(c, r, i, data, env)
  {
    hide OnPairReq, OnPairConfirm, OnDialFrame, Find, Table, Wifi, AllShaped, Takes, Accepted;
    var i := Find(c.dials, src);
    TableFits(c);
    if data[0] != 3 && data[1] < 1 {
      TooOld(c, i, data, env);
    }
    FrameTakes(c, i, data, env);
  }

  // This has left the core since.
  predicate Left(c: Core, r: Core, e: Event) {
    |c.world.log| <= |r.world.log| && e in r.world.log[|c.world.log|..]
  }

  // What the request in a frame is answered with on the next pass
  predicate Answer(src: seq<u8>, data: seq<u8>, pass: Env, e: Event)
    requires |data| >= 2
  {
    || (data[0] == 8 && e == Sent(src, WifiResp(pass.creds)))
    || (data[0] == 10 && pass.hasSetup && e == SetupHook(src, pass.setup))
    || (data[0] == 13 && e == Sent(src, Catalog(U16(data, 2))))
    || (data[0] == 15 && |data| >= 16 && pass.sourceSet.Some? && e == SourceHook(src, U32(data, 4), U64(data, 8)))
    || (data[0] == 15 && |data| >= 16 && e == Sent(src, SourceAck(data[2], if pass.sourceSet.Some? then pass.sourceSet.value else 3)))
  }

  // An accepted request is answered on the next pass within the dial's 12.5 s, and a start that is not refused is carried out.
  lemma RequestAnswered(c: Core, src: seq<u8>, dst: seq<u8>, data: seq<u8>, crypto: Crypto, env: Env, pass: Env, e: Event)
    requires AllShaped(c.dials) && Table(c) && Wifi(c) && FromDial(c, src, dst, data)
    requires Accepted(c, Find(c.dials, src), data, env) && Clock(env.now) != 0
    requires env.now <= pass.now < env.now + 12500
    requires Answer(src, data, pass, e) && (data[0] == 10 ==> !Refused(c, Find(c.dials, src), SessionOf(data)))
    ensures var r := Apply(c, Recv(src, dst, data), crypto, env);
            AllShaped(r.dials) && Left(r, Tick(r, pass), e)
  {
    hide Apply, Find, Table, Wifi, AllShaped, Accepted, Clock, Live, Tick, Refused, LinkSync.Reported, LinkSpec.Due, U16, U32, U64;
    var r := Apply(c, Recv(src, dst, data), crypto, env);
    var i := Find(c.dials, src);
    HeardLives(c, src, dst, data, crypto, env, pass.now);
    ApplyShaped(c, Recv(src, dst, data), crypto, env);
    AcceptedTakes(c, src, dst, data, crypto, env);
    StillUp(c, src, dst, data, crypto, env);
    TakesReplies(c, r, i, src, data, env, pass, e);
    LinkSays.RepliesSaid(r.dials[i], r.lastState, LinkSync.Reported(r, pass), pass, e);
    LinkSays.TickSaysTo(r, pass, i, e);
  }

  lemma TakesReplies(c: Core, r: Core, i: nat, src: seq<u8>, data: seq<u8>, env: Env, pass: Env, e: Event)
    requires i < |c.dials| == |r.dials| && |data| >= 2 && Takes(c, r, i, data, env) && r.dials[i].bond.mac == src
    requires Answer(src, data, pass, e) && (data[0] == 10 ==> !Refused(c, i, SessionOf(data)))
    ensures var d := r.dials[i];
            || e in LinkSays.CredsReply(d, pass) || e in LinkSays.SetupReply(d, pass) || e in LinkSays.CatalogReply(d)
            || e in LinkSays.SourceReply(d, pass)
  {
    hide Refused, U16, U32, U64, FanOut, CancelAnswered, HoldsHotspot, Asked;
  }
}
