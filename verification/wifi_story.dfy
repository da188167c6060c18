// What the session's invariants mean: for the log of hook calls, and for starts that arrive late.
module WifiStory {
  import opened Words
  import opened Bonds
  import opened LinkState
  import opened WifiSession
  import opened WifiHistory
  import opened WifiFrame
  import opened LinkSpec
  import opened LinkFrame
  import opened LinkRun
  import opened LinkTable
  import opened LinkWifi

  // Ownership changes hands
  predicate Hands(e: Event) {
    e.Owned? || e.Disowned? || e.PowerUp?
  }

  // Event j gave (mac, session) the hotspot, and it has kept it to the end of the log.
  predicate Holds(log: seq<Event>, j: nat, mac: seq<u8>, session: u32) {
    && j < |log| && log[j] == Owned(mac, session)
    && forall k :: j < k < |log| ==> !Hands(log[k])
  }

  predicate StartedSince(log: seq<Event>, j: nat, mac: seq<u8>) {
    exists k :: j < k < |log| && log[k] == SetupHook(mac, true)
  }

  predicate OpenSince(log: seq<Event>, j: nat) {
    forall k :: j < k < |log| && log[k].Settled? ==> log[k].status == WAITING
  }

  // Only the monitor's owner can carry on from one event to the next.
  lemma NoteOwner(m: Monitor, e: Event)
    requires Note(m, e).owner.Some? && !e.Owned?
    ensures !Hands(e) && m.owner == Note(m, e).owner
  {
  }

  // The monitor's owner has an event that gave it the hotspot; its start and its verdicts came after that one.
  lemma {:induction false} OwnerStory(log: seq<Event>) returns (j: nat)
    requires Watch(log).ok && Watch(log).owner.Some?
    ensures var m := Watch(log);
            && Holds(log, j, m.owner.value.0, m.owner.value.1)
            && (m.started ==> StartedSince(log, j, m.owner.value.0))
            && (m.verdict in {None, Some(WAITING)} ==> OpenSince(log, j))
    decreases |log|
  {
    var rest, e := log[..|log| - 1], log[|log| - 1];
    if e.Owned? {
      j := |log| - 1;
    } else {
      NoteOwner(Watch(rest), e);
      j := OwnerStory(rest);
      LongerStory(rest, j, e);
      assert log == rest + [e];
    }
  }

  lemma LongerStory(rest: seq<Event>, j: nat, e: Event)
    requires Watch(rest).ok && Note(Watch(rest), e).ok && Watch(rest).owner.Some? && !Hands(e)
    requires var m := Watch(rest);
             && Holds(rest, j, m.owner.value.0, m.owner.value.1)
             && (m.started ==> StartedSince(rest, j, m.owner.value.0))
             && (m.verdict in {None, Some(WAITING)} ==> OpenSince(rest, j))
    ensures var m := Note(Watch(rest), e);
            && Holds(rest + [e], j, m.owner.value.0, m.owner.value.1)
            && (m.started ==> StartedSince(rest + [e], j, m.owner.value.0))
            && (m.verdict in {None, Some(WAITING)} ==> OpenSince(rest + [e], j))
  {
    hide Watch;
    var m, now, log := Watch(rest), Note(Watch(rest), e), rest + [e];
    if m.started {
      var k :| j < k < |rest| && rest[k] == SetupHook(m.owner.value.0, true);
      assert log[k] == rest[k];
    } else if now.started {
      assert log[|rest|] == SetupHook(m.owner.value.0, true);
    }
  }

  // Every cancel the adapter was ever asked for named a session that owned the hotspot at that moment, whose own start
  // it had carried out since, and which had no final verdict yet.
  lemma CancelStory(log: seq<Event>, k: nat) returns (j: nat)
    requires Watch(log).ok && k < |log| && log[k].CancelHook?
    ensures log[k].session != 0
    ensures Holds(log[..k], j, log[k].mac, log[k].session)
    ensures StartedSince(log[..k], j, log[k].mac) && OpenSince(log[..k], j)
  {
    hide Holds, StartedSince, OpenSince;
    WatchPrefix(log, k + 1);
    assert log[..k + 1][..k] == log[..k];
    WatchPrefix(log, k);
    j := OwnerStory(log[..k]);
  }

  // Every start the adapter carried out was asked for by the session that owned the hotspot then.
  lemma SetupStory(log: seq<Event>, k: nat) returns (j: nat)
    requires Watch(log).ok && k < |log| && log[k].SetupHook?
    ensures exists session: u32 :: Holds(log[..k], j, log[k].mac, session)
    ensures OpenSince(log[..k], j)
  {
    hide Holds, StartedSince, OpenSince;
    WatchPrefix(log, k + 1);
    assert log[..k + 1][..k] == log[..k];
    WatchPrefix(log, k);
    j := OwnerStory(log[..k]);
    assert Holds(log[..k], j, log[k].mac, Watch(log[..k]).owner.value.1);
  }

  // The same over every run of the controller.
  lemma RunStory(c: Core, steps: seq<Step>, crypto: Crypto, k: nat) returns (j: nat)
    requires Wifi(c) && Table(c) && AllShaped(c.dials)
    requires var log := Run(c, steps, crypto).world.log;
             k < |log| && log[k].CancelHook?
    ensures var log := Run(c, steps, crypto).world.log;
            && log[k].session != 0
            && Holds(log[..k], j, log[k].mac, log[k].session)
            && StartedSince(log[..k], j, log[k].mac) && OpenSince(log[..k], j)
  {
    hide Run, Wifi, Table, Holds, StartedSince, OpenSince, Watch;
    RunWifi(c, steps, crypto);
    WifiOk(Run(c, steps, crypto));
    j := CancelStory(Run(c, steps, crypto).world.log, k);
  }

  lemma WifiOk(c: Core)
    requires Wifi(c)
    ensures Watch(c.world.log).ok
  {
    hide Watch;
  }

  // --- Late starts ---

  predicate Refused(c: Core, i: nat, session: u32)
    requires i < |c.dials|
  {
    session != 0 && (session in c.dials[i].retired || (IsOwner(c, i, session) && c.owner.cancelled))
  }

  // A start is refused exactly when its session is retired or cancelled; any other start waits, and owns the hotspot.
  lemma StartRefused(c: Core, i: nat, session: u32)
    requires i < |c.dials| && AllShaped(c.dials)
    ensures Refused(c, i, session) ==> QueueSetup(c, i, session) == c
    ensures !Refused(c, i, session) ==>
              var r := QueueSetup(c, i, session);
              r.dials[i].wifiSetupReq && IsOwner(r, i, session) && !r.owner.cancelled
  {
    hide RetiredIndex, DropRequests, TakeOver;
    var prior := if c.owner.valid then Find(c.dials, c.owner.mac) else -1;
    InRetired(c.dials[i].retired, session);
    if !Refused(c, i, session) {
      TakenOver(c, i, session);
    }
  }

  lemma InRetired(retired: seq<u32>, session: u32)
    ensures RetiredIndex(retired, session) >= 0 <==> session in retired
  {
    hide RetiredIndex;
  }

  lemma TakenOver(c: Core, i: nat, session: u32)
    requires i < |c.dials| && AllShaped(c.dials)
    ensures var r := TakeOver(c, i, session);
            IsOwner(r, i, session) && !r.owner.cancelled
  {
    hide TakeOver, Find;
    TakeOverOwner(c, i, session);
  }

  // A setup frame that names a retired session of its dial, or the cancelled owner's, changes nothing about the setup.
  lemma LateStart(c: Core, src: seq<u8>, dst: seq<u8>, data: seq<u8>, crypto: Crypto, env: Env)
    requires AllShaped(c.dials) && Find(c.dials, src) >= 0
    requires |data| >= 8 && data[0] == 10 && Refused(c, Find(c.dials, src), U32(data, 4))
    ensures KeepsWifi(c, OnRecv(c, src, dst, data, crypto, env))
  {
    hide KeepsWifi, OnPairReq, OnPairConfirm, EpochOk, WifiEpochOk, QueueSetup, Seen, Find, IsOwner;
    var i, e, session := Find(c.dials, src), U16(data, 2), U32(data, 4);
    var c1 := WifiEpochOk(c, i, e, env).0;
    WifiRefl(c);
    WifiEpochWifi(c, i, e, env);
    EpochShaped(c, i, e, env);
    StillRefused(c, c1, i, session);
    StartRefused(c1, i, session);
    SeenWifi(c1, i, env.now);
    WifiTrans(c, c1, Seen(c1, i, env.now));
  }

  lemma StillRefused(c: Core, c1: Core, i: nat, session: u32)
    requires KeepsWifi(c, c1) && i < |c.dials| && Refused(c, i, session)
    ensures Refused(c1, i, session)
  {
    hide Watch;
  }

  // A cancel retires its session, so a start of it that arrives later is refused.
  lemma CancelRetires(c: Core, i: nat, session: u32, env: Env)
    requires i < |c.dials| && AllShaped(c.dials) && session != 0
    ensures Refused(CancelSession(c, i, session, env), i, session)
  {
    hide ObserveClosed, CancelSettle, CancelStatus, Retire, IsOwner;
    ObserveShaped(c);
    var c0 := if WithoutStart(env.device) == CLOSED then ObserveClosed(c) else c;
    SettleShaped(c0, i, session, env);
    var c2 := CancelSettle(c0, i, session, env);
    RetireContains(c2.dials[i], session, CancelStatus(c0, i, session, env));
  }

  lemma RetireContains(d: Dial, session: u32, status: u8)
    requires HistoryShaped(d) && session != 0
    ensures session in Retire(d, session, status).retired
  {
    hide RetiredIndex;
    var found := RetiredIndex(d.retired, session);
    var at := if found < 0 then d.retiredNext else found;
    assert Retire(d, session, status).retired[at] == session;
  }
}
