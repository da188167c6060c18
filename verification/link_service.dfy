// What single calls promise: a command reaches every live dial, a cancel is answered truthfully, a handshake ends in
// time, a start loads what is stored, new capabilities are told, a forgotten dial is gone.
module LinkService {
  import opened Words
  import opened Bonds
  import opened LinkState
  import opened WifiSession
  import opened WifiHistory
  import opened LinkSpec
  import opened LinkFrame
  import opened LinkTable
  import opened LinkPeers
  import opened LinkWifi
  import opened LinkSteps

  // --- Commands ---

  // A live dial has been sent the packet now; any other is marked for it.
  predicate Reached(was: Dial, d: Dial, p: StatePkt, now: nat) {
    if Live(was, now) then d.heard == Some(p) && d.heardAt == now && !d.pendState else d.pendState
  }

  lemma {:induction false} EchoReaches(c: Core, k: nat, p: StatePkt, now: nat)
    requires k <= |c.dials|
    ensures var r := EchoFrom(c, k, p, now);
            && r.lastState == c.lastState
            && (forall i :: 0 <= i < k ==> r.dials[i] == c.dials[i])
            && (forall i :: k <= i < |c.dials| ==> Reached(c.dials[i], r.dials[i], p, now))
    decreases |c.dials| - k
  {
    hide Live, Wants;
    if k < |c.dials| {
      var c1 := if Live(c.dials[k], now) then SendState(c, k, p, now) else Pend(c, k);
      EchoReaches(c1, k + 1, p, now);
    }
  }

  // An accepted command that took is followed by the new STATE to every live dial, and the others are marked for it.
  lemma CommandReaches(c: Core, i: nat, data: seq<u8>, env: Env)
    requires i < |c.dials| && AllShaped(c.dials) && |data| >= 19 && env.apply
    requires EpochOk(c, i, U16(data, 17), env).1
    ensures var r := OnCmd(c, i, data, env);
            && r.lastState.Some?
            && forall j :: 0 <= j < |c.dials| ==>
                 var was := if j == i then c.dials[j].(lastProbe := Clock(env.now)) else c.dials[j];
                 Reached(was, r.dials[j], r.lastState.value, env.later)
  {
    hide EpochOk, EchoFrom, BuildState, Live;
    var e := U16(data, 17);
    var c1 := EpochOk(c, i, e, env).0;
    EpochShaped(c, i, e, env);
    EpochLives(c, i, e, env);
    var c2 := Emit(Seen(c1, i, env.now), ApplyHook(c.dials[i].bond.mac));
    CommandKeeps(c1, i, c.dials[i].bond.mac, env);
    var (c3, p) := BuildState(c2, env);
    BuildLives(c2, env);
    EchoReaches(c3.(lastState := Some(p)), 0, p, env.later);
    forall j | 0 <= j < |c.dials|
      ensures var was := if j == i then c.dials[j].(lastProbe := Clock(env.now)) else c.dials[j];
              Live(c3.dials[j], env.later) == Live(was, env.later)
    {
      SameLive(c3.dials[j], if j == i then c.dials[j].(lastProbe := Clock(env.now)) else c.dials[j], env.later);
    }
  }

  lemma SameLive(a: Dial, b: Dial, now: nat)
    requires a.lastProbe == b.lastProbe
    ensures Live(a, now) == Live(b, now)
  {
  }

  lemma EpochLives(c: Core, i: nat, e: u16, env: Env)
    requires i < |c.dials|
    ensures var r := EpochOk(c, i, e, env).0;
            forall j :: 0 <= j < |c.dials| ==> r.dials[j].lastProbe == c.dials[j].lastProbe
  {
    hide EpochOk;
    EpochOutcome(c, i, e, env);
  }

  lemma BuildLives(c: Core, env: Env)
    requires AllShaped(c.dials)
    ensures var r := BuildState(c, env).0;
            forall j :: 0 <= j < |c.dials| ==> r.dials[j].lastProbe == c.dials[j].lastProbe
  {
    hide Retire, Find;
    var i := Find(c.dials, c.owner.mac);
    if i >= 0 {
      RetireLives(c.dials[i], c.owner.session, CLOSED);
    }
  }

  lemma RetireLives(d: Dial, session: u32, status: u8)
    requires HistoryShaped(d)
    ensures Retire(d, session, status).lastProbe == d.lastProbe
  {
    hide RetiredIndex;
  }

  // --- Cancels ---

  // Without asking the adapter, CLOSED is answered only while the hotspot is closed and RECOVERY only while it is open;
  // another session that holds it makes the answer STALE, and without the adapter's hook it is UNSUPPORTED. A session that was
  // retired for good is answered as it was then, an open or closed hotspot as it is now.
  lemma CancelHonest(c: Core, i: nat, session: u32, env: Env)
    requires i < |c.dials| && AllShaped(c.dials)
    ensures var verdict := CancelVerdict(c, i, session, env);
            && (verdict == Known(CLOSED) ==> WithoutStart(env.device) == CLOSED)
            && (verdict == Known(RECOVERY) ==> WithoutStart(env.device) == RECOVERY)
            && (env.hasCancel && c.owner.valid && !IsOwner(c, i, session) && !c.owner.cancelled ==> verdict == Known(STALE))
            && (!env.hasCancel ==> verdict == Known(UNSUPPORTED))
            && (env.hasCancel && !c.owner.valid ==>
                  var at := RetiredIndex(c.dials[i].retired, session);
                  if at >= 0 && c.dials[i].retiredStatus[at] in {STALE, UNSUPPORTED} then
                    verdict == Known(c.dials[i].retiredStatus[at])
                  else verdict == Known(WithoutStart(env.device)) || (at >= 0 && c.dials[i].retiredStatus[at] > UNSUPPORTED))
            && (verdict == Known(UNSUPPORTED) && env.hasCancel ==>
                  || (IsOwner(c, i, session) && c.owner.status == UNSUPPORTED)
                  || UNSUPPORTED in c.dials[i].retiredStatus)
  {
    hide RetiredIndex;
  }

  // A cancel is acknowledged to its dial with the status that is remembered for its session, and the session waits for
  // nothing any more if it was the owner's.
  lemma CancelRemembered(c: Core, i: nat, session: u32, env: Env)
    requires i < |c.dials| && Rings(c.dials) && AllShaped(c.dials) && session != 0
    ensures var r := CancelTail(c, i, session, env);
            var status := CancelStatus(c, i, session, env);
            && r.world.log != [] && r.world.log[|r.world.log| - 1] == Sent(c.dials[i].bond.mac, CancelAck(session, status))
            && RetiredIndex(r.dials[i].retired, session) >= 0
            && r.dials[i].retiredStatus[RetiredIndex(r.dials[i].retired, session)] == status
            && (IsOwner(c, i, session) ==> r.owner.cancelled && r.owner.status == status && !r.dials[i].wifiSetupReq)
  {
    hide CancelVerdict, CancelStatus, Retire, RingOk, RetiredIndex;
    SettleShaped(c, i, session, env);
    SettledRing(c, i, session, env);
    var c2 := CancelSettle(c, i, session, env);
    var status := CancelStatus(c, i, session, env);
    RetirePushes(c2.dials[i], session, status);
    RetireReq(c2.dials[i], session, status);
  }

  lemma SettledRing(c: Core, i: nat, session: u32, env: Env)
    requires i < |c.dials| && Rings(c.dials) && AllShaped(c.dials)
    ensures RingOk(CancelSettle(c, i, session, env).dials[i])
  {
    hide CancelVerdict, CancelStatus, RingOk;
    var d := CancelSettle(c, i, session, env).dials[i];
    SameHistoryRing(c.dials[i], d);
  }

  lemma SameHistoryRing(a: Dial, b: Dial)
    requires RingOk(a) && b.retired == a.retired && b.retiredStatus == a.retiredStatus && b.retiredNext == a.retiredNext
    ensures RingOk(b)
  {
  }

  // --- Pairing in time ---

  // A handshake ends on a pass of the loop exactly when its window, or the candidate's time to confirm, has run out.
  lemma PairingExpires(c: Core, env: Env)
    requires c.started && AllShaped(c.dials) && !c.pairing.phase.Off?
    ensures Tick(c, env).pairing.phase.Off? <==>
              || LinkState.Reached(Clock(env.now), c.pairing.deadline)
              || (c.pairing.phase.Confirm? && LinkState.Reached(Clock(env.now), c.pairing.confirmDeadline))
  {
    hide Tick, Clock, Since, Find;
    TickKeeps(c, env);
  }

  // A slot taken or re-keyed by pairing is marked, whatever it held of the STATE before.
  lemma CommitMarks(c: Core, env: Env)
    requires Saves(Proposed(c), env.save)
    ensures var r := PairCommit(c, env);
            var i := Find(r.dials, c.pairing.candMac);
            && i >= 0 && r.dials[i].pendState && r.dials[i].bond == Candidate(c)
            && !r.dials[i].epochSeen && !r.dials[i].wifiSetupReq && r.dials[i].retiredNext == 0
            && r.dials[i].retired == seq(HISTORY, _ => 0) && r.dials[i].retiredStatus == seq(HISTORY, _ => 0)
  {
    hide Find, Encode, Store, ZeroBytes, FreshDial, BondsOf;
    var bond := Candidate(c);
    var i := Find(c.dials, bond.mac);
    var d := if i >= 0 then Rekeyed(c.dials[i], bond) else Rekeyed(FreshDial(bond), bond);
    if i >= 0 {
      FindReplaced(c.dials, i, d, bond.mac);
    } else {
      FindAppended(c.dials, d, bond.mac);
    }
  }

  // --- Starting and forgetting ---

  // A start succeeds exactly if the radio has an address, the identity is there and every stored dial can be installed. Then
  // the slots are the stored table, the sequence number is the saved one, and the boot's epoch is the random number, 1 for 0,
  // and none if there is no random number.
  lemma Starts(c: Core, env: Env)
    requires Table(c) && !c.started
    ensures var r := Start(c, env);
            && (r.started <==> env.ownMac.Some? && env.identity && env.failAt >= |Durable(c.world)|)
            && (r.started ==>
                  && r.ownMac == env.ownMac.value
                  && r.dials == (if Durable(c.world) == [] then c.dials else FreshDials(Durable(c.world)))
                  && r.capsSeq == (if c.world.capsStore.Some? then c.world.capsStore.value else c.capsSeq)
                  && r.epoch == (if env.rand.None? then 0 else if env.rand.value == 0 then 1 else env.rand.value)
                  && r.world == c.world.(peers := r.world.peers))
  {
    hide Table, ValidTable, InstallPeers, Decode, FreshDials;
    if env.ownMac.Some? && env.identity && Durable(c.world) != [] {
      var recs := Durable(c.world);
      var c2 := c.(ownMac := env.ownMac.value, dials := FreshDials(recs));
      InstallWorld(c2, recs, 0, env);
      Installs(c2, recs, 0, env);
    }
  }

  lemma {:induction false} Installs(c: Core, recs: seq<Bond>, k: nat, env: Env)
    requires k <= |recs|
    ensures InstallPeers(c, recs, k, env).1 <==> !(k <= env.failAt < |recs|)
    decreases |recs| - k
  {
    if k < |recs| && k != env.failAt {
      Installs(AddPeer(c, recs[k].mac, Keyed(recs[k].lmk), true), recs, k + 1, env);
    }
  }

  // New capabilities get the next sequence number, saved if the store takes it, and every dial is marked to be told.
  lemma CapsTold(c: Core, env: Env)
    ensures var r := CapsChanged(c, env);
            && r.capsSeq == (c.capsSeq + 1) % 0x100
            && r.world == c.world.(capsStore := if env.saveCaps then Some(r.capsSeq) else c.world.capsStore)
            && |r.dials| == |c.dials| && forall i :: 0 <= i < |c.dials| ==> r.dials[i] == c.dials[i].(pendState := true)
  {
  }

  // Forgetting all reports exactly whether it happened. If it did not, nothing changed; if it did, there is no bond left in RAM or
  // in the store, no ownership and no handshake.
  lemma ForgetAllReports(c: Core, env: Env)
    ensures var (r, gone) := ForgetAll(c, env);
            && (gone <==> env.save)
            && (!gone ==> r == c)
            && (gone ==> r.dials == [] && Durable(r.world) == [] && !r.owner.valid && r.pairing.phase.Off?)
  {
    hide PairCancel, DelPeers, Encode, Decode;
    if env.save {
      var c2 := DelPeers(Store(c, []), c.dials);
      DelPeersWorld(Store(c, []), c.dials);
      Cancelled(Cleared(c2), env);
      CancelKeepsStore(Cleared(c2), env);
      DecodeEncode([], []);
      assert Encode([]) + [] == Encode([]);
    }
  }

  lemma CancelKeepsStore(c: Core, env: Env)
    ensures PairCancel(c, env).world.store == c.world.store
  {
    hide Find;
  }

  // In no slot, no candidate
  predicate Gone(c: Core, mac: seq<u8>) {
    Find(c.dials, mac) < 0 && !(c.pairing.phase.Confirm? && c.pairing.candMac == mac)
  }

  // A forget reports exactly whether it happened. If it did not, nothing changed; if it did, the dial is in no slot and
  // is no candidate.
  lemma ForgetReports(c: Core, mac: seq<u8>, env: Env)
    requires Table(c)
    ensures var (r, gone) := ForgetDial(c, mac, env);
            && (gone <==> if Find(c.dials, mac) >= 0 then env.save else c.pairing.phase.Confirm? && c.pairing.candMac == mac)
            && (!gone ==> r == c)
            && (gone ==> Gone(r, mac))
  {
    hide Table, Apart, Find, Gone, PairCancel, Without, Forgotten;
    TableApart(c);
    TableFits(c);
    var i := Find(c.dials, mac);
    if i < 0 {
      CancelGone(c, mac, env);
    } else {
      OneLess(c, i);
      RemovedGone(c, i, mac, env);
    }
  }

  lemma OneLess(c: Core, i: nat)
    requires i < |c.dials| <= MAX_DIALS
    ensures |Without(c, i)| <= MAX_DIALS
  {
  }

  lemma CancelGone(c: Core, mac: seq<u8>, env: Env)
    requires Find(c.dials, mac) < 0
    ensures Gone(PairCancel(c, env), mac)
  {
    hide Find, PairCancel;
    Cancelled(c, env);
  }

  lemma RemovedGone(c: Core, i: nat, mac: seq<u8>, env: Env)
    requires i < |c.dials| && i == Find(c.dials, mac) && Apart(c.dials) && |Without(c, i)| <= MAX_DIALS
    ensures var r := Forgotten(c, i, mac);
            && Gone(PairCancel(r, env), mac) && !(r.owner.valid && r.owner.mac == mac)
            && (!(c.pairing.phase.Confirm? && c.pairing.candMac == mac) ==> Gone(r, mac))
  {
    hide Find, PairCancel, Apart, Without, Forgotten, Disown;
    ForgottenIs(c, i, mac);
    FindRemoved(c.dials, i, mac);
    DisownedBy(c, mac);
    CancelGone(Forgotten(c, i, mac), mac, env);
  }

  lemma DisownedBy(c: Core, mac: seq<u8>)
    ensures var r := Disown(c, mac);
            r.dials == c.dials && r.pairing == c.pairing && !(r.owner.valid && r.owner.mac == mac)
  {
  }

  lemma Cancelled(c: Core, env: Env)
    ensures var r := PairCancel(c, env);
            r.pairing.phase.Off? && r.dials == c.dials && r.owner == c.owner
  {
    hide Find;
  }

  lemma TableFits(c: Core)
    requires Table(c)
    ensures |c.dials| <= MAX_DIALS
  {
    hide Durable, CandidateOk, AllSized;
    assert |BondsOf(c.dials)| == |c.dials|;
  }
}
