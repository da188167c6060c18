// What a received frame achieves: a proof completes the pairing, whatever is accepted makes its dial live, and each kind of
// request is noted, applied or answered. Told of whole calls, from the frame's bytes and the state before.
module LinkReceive {
  import opened Words
  import opened Bonds
  import opened LinkState
  import opened WifiSession
  import opened LinkSpec
  import opened LinkFrame
  import opened LinkRun
  import opened LinkTable
  import opened LinkPeers
  import opened LinkService
  import opened LinkPairing
  import opened LinkCandidate
  import PairAuth

  // --- Proofs of a key ---

  // The frame is addressed to the controller and proves this key for this dial.
  predicate ProvesKey(c: Core, dst: seq<u8>, data: seq<u8>, key: seq<u8>, mac: seq<u8>) {
    dst == c.ownMac && PairAuth.Proves(data, PairAuth.Make(19, key, mac, c.ownMac))
  }

  // The acknowledgement under the same key
  function Acknowledgement(c: Core, key: seq<u8>, mac: seq<u8>): Event {
    Sent(mac, PairAck(PairAuth.Make(20, key, mac, c.ownMac).tag))
  }

  // Marked for a STATE, and with no Wi-Fi session and no echo left from before
  predicate Renewed(d: Dial) {
    && d.pendState && !d.epochSeen && !d.wifiSetupReq
    && d.retired == seq(HISTORY, _ => 0) && d.retiredStatus == seq(HISTORY, _ => 0) && d.retiredNext == 0
  }

  // The candidate holds a slot, is live from now on, and has been told.
  predicate Joined(c: Core, r: Core, now: nat) {
    var i := Find(r.dials, c.pairing.candMac);
    && r.pairing.phase.Off? && r.pairing.result.Paired?
    && i >= 0 && r.dials[i].bond == Candidate(c) && r.dials[i].lastProbe == Clock(now) && Renewed(r.dials[i])
    && r.world.log != [] && r.world.log[|r.world.log| - 1] == Acknowledgement(c, c.pairing.candLmk, c.pairing.candMac)
  }

  // A frame from the candidate completes the pairing if and only if it proves the candidate's key and the table can be saved.
  // If it cannot the handshake ends without an acknowledgement; without a proof nothing is stored and the handshake stands.
  lemma PairingCompletes(c: Core, dst: seq<u8>, data: seq<u8>, crypto: Crypto, env: Env)
    requires Table(c) && AllShaped(c.dials) && c.started && c.pairing.phase.Confirm?
    ensures var r := Apply(c, Recv(c.pairing.candMac, dst, data), crypto, env);
            var proved := ProvesKey(c, dst, data, c.pairing.candLmk, c.pairing.candMac);
            && (r.world.writes == c.world.writes + [Encode(Proposed(c))] <==> proved && env.save)
            && (proved && env.save ==> Durable(r.world) == Proposed(c) == BondsOf(r.dials) && Joined(c, r, env.now))
            && (proved && !env.save ==> r.pairing.phase.Off? && r.pairing.result.StorageError?)
            && (!(proved && env.save) ==> Untouched(c, r) && r.dials == c.dials)
            && (proved && !env.save ==> r.world.log == c.world.log)
            && (!proved ==> r.pairing.(result := c.pairing.result) == c.pairing)
  {
    hide PairAuth.Make, PairAuth.Proves, OnRecv, Table, Proposed, Durable, Encode, Joined, BondsOf, ProvesKey, ValidTable;
    ProposedValid(c);
    ValidSize(Proposed(c));
    if ProvesKey(c, dst, data, c.pairing.candLmk, c.pairing.candMac) {
      ProofReceived(c, dst, data, crypto, env);
      if env.save {
        CommitSaved(c, env);
        CommitJoins(c, data, env);
      } else {
        CommitRefused(c, data, env);
      }
    } else {
      NoProof(c, dst, data, crypto, env);
    }
    LongerWrites(c.world.writes, Encode(Proposed(c)));
  }

  lemma LongerWrites(writes: seq<seq<u8>>, blob: seq<u8>)
    ensures writes != writes + [blob]
  {
    assert |writes + [blob]| == |writes| + 1;
  }

  lemma ProofReceived(c: Core, dst: seq<u8>, data: seq<u8>, crypto: Crypto, env: Env)
    requires AllShaped(c.dials) && c.started && ProvesKey(c, dst, data, c.pairing.candLmk, c.pairing.candMac)
    ensures OnRecv(c, c.pairing.candMac, dst, data, crypto, env) == OnPairConfirm(c, c.pairing.candMac, data, env)
    ensures PairAuth.Proves(data, PairAuth.Make(19, c.pairing.candLmk, c.pairing.candMac, c.ownMac))
  {
    hide OnPairReq, OnPairConfirm, OnDialFrame, Find, PairAuth.Tag;
  }

  lemma NoProof(c: Core, dst: seq<u8>, data: seq<u8>, crypto: Crypto, env: Env)
    requires AllShaped(c.dials) && c.pairing.phase.Confirm? && !ProvesKey(c, dst, data, c.pairing.candLmk, c.pairing.candMac)
    ensures var r := OnRecv(c, c.pairing.candMac, dst, data, crypto, env);
            Untouched(c, r) && r.dials == c.dials && r.pairing.(result := c.pairing.result) == c.pairing
  {
    hide OnRecv, PairAuth.Make, PairAuth.Proves, Replied;
    if dst == c.ownMac {
      CandidateSilent(c, dst, data, crypto, env);
    } else {
      Misaddressed(c, dst, data, crypto, env);
      CandidateAsks(c, data, crypto, env);
    }
  }

  // Only requests are taken from another address than the controller's own.
  lemma Misaddressed(c: Core, dst: seq<u8>, data: seq<u8>, crypto: Crypto, env: Env)
    requires AllShaped(c.dials) && dst != c.ownMac
    ensures var r := OnRecv(c, c.pairing.candMac, dst, data, crypto, env);
            r == c || r == OnPairReq(c, data, crypto, env)
  {
    hide OnPairReq, OnPairConfirm, OnDialFrame, Find;
  }

  lemma CandidateAsks(c: Core, data: seq<u8>, crypto: Crypto, env: Env)
    requires c.pairing.phase.Confirm?
    ensures OnPairReq(c, data, crypto, env) == c || Answers(c, OnPairReq(c, data, crypto, env))
  {
    hide OnPairReq, Answers;
    PairReqOutcome(c, data, crypto, env);
    WindowOnly(c, data, crypto, env, OnPairReq(c, data, crypto, env));
  }

  lemma CommitSaved(c: Core, env: Env)
    requires Table(c) && c.started && c.pairing.phase.Confirm? && env.save
    ensures var r := PairCommit(c, env);
            var i := Find(r.dials, c.pairing.candMac);
            && BondsOf(r.dials) == Proposed(c) == Durable(r.world) && r.world.writes == c.world.writes + [Encode(Proposed(c))]
            && r.pairing.phase.Off? && r.pairing.result.Paired? && r.ownMac == c.ownMac
            && i >= 0 && r.dials[i].bond == Candidate(c) && Renewed(r.dials[i])
  {
    hide Table, Proposed, Durable, Encode, Find, BondsOf, ValidTable, Candidate;
    ProposedValid(c);
    ValidSize(Proposed(c));
    CommitDials(c, env);
    CommitMarks(c, env);
    WrotePaired(c, PairCommit(c, env), Proposed(c));
    WroteDurable(c, PairCommit(c, env), Proposed(c));
    CommitResult(c, env);
  }

  lemma CommitResult(c: Core, env: Env)
    requires Saves(Proposed(c), env.save)
    ensures PairCommit(c, env).pairing.result.Paired? && PairCommit(c, env).ownMac == c.ownMac
  {
    hide Encode, Find, BondsOf;
  }

  lemma CommitJoins(c: Core, data: seq<u8>, env: Env)
    requires c.pairing.phase.Confirm?
    requires PairAuth.Proves(data, PairAuth.Make(19, c.pairing.candLmk, c.pairing.candMac, c.ownMac))
    requires var c1 := PairCommit(c, env);
             var i := Find(c1.dials, c.pairing.candMac);
             && c1.pairing.phase.Off? && c1.pairing.result.Paired? && i >= 0 && c1.dials[i].bond == Candidate(c) && Renewed(c1.dials[i])
    ensures var c1 := PairCommit(c, env);
            var r := OnPairConfirm(c, c.pairing.candMac, data, env);
            Joined(c, r, env.now) && r.world.writes == c1.world.writes && r.world.store == c1.world.store
            && BondsOf(r.dials) == BondsOf(c1.dials) && Durable(r.world) == Durable(c1.world)
  {
    hide PairAuth.Make, PairAuth.Proves, PairCommit, Find, BondsOf;
    var c1 := PairCommit(c, env);
    var i := Find(c1.dials, c.pairing.candMac);
    SeenSlot(c1.dials, i, c1.dials[i].(lastProbe := Clock(env.now)));
  }

  // The slot the dial is in, marked seen, is still the one found.
  lemma SeenSlot(ds: seq<Dial>, i: nat, d: Dial)
    requires i < |ds| && d.bond == ds[i].bond && i == Find(ds, d.bond.mac)
    ensures Find(ds[i := d], d.bond.mac) == i && BondsOf(ds[i := d]) == BondsOf(ds)
  {
    hide Find;
    FindReplaced(ds, i, d, d.bond.mac);
  }

  lemma CommitRefused(c: Core, data: seq<u8>, env: Env)
    requires c.pairing.phase.Confirm? && !env.save
    requires PairAuth.Proves(data, PairAuth.Make(19, c.pairing.candLmk, c.pairing.candMac, c.ownMac))
    ensures var r := OnPairConfirm(c, c.pairing.candMac, data, env);
            && r.pairing.phase.Off? && r.pairing.result.StorageError?
            && Untouched(c, r) && r.dials == c.dials && r.world.log == c.world.log
  {
    hide PairAuth.Make, PairAuth.Proves, Find, BondsOf;
  }

  // Any other proof frame is acknowledged if and only if it proves the key its dial is bonded under, and changes nothing but
  // when the dial was last heard.
  lemma ProofRepeated(c: Core, src: seq<u8>, dst: seq<u8>, data: seq<u8>, crypto: Crypto, env: Env)
    requires AllShaped(c.dials) && c.started && |data| >= 2 && data[0] == 19
    requires !(c.pairing.phase.Confirm? && src == c.pairing.candMac)
    ensures var r := Apply(c, Recv(src, dst, data), crypto, env);
            var i := Find(c.dials, src);
            if i >= 0 && ProvesKey(c, dst, data, c.dials[i].bond.lmk, src) then
              && r.dials == c.dials[i := c.dials[i].(lastProbe := Clock(env.now))]
              && r == c.(dials := r.dials, world := c.world.(log := c.world.log + [Acknowledgement(c, c.dials[i].bond.lmk, src)]))
            else r == c
  {
    hide PairAuth.Make, PairAuth.Proves, OnPairReq, OnDialFrame, PairCommit, Find, Clock;
  }

  // --- What is accepted ---

  // The replay guard lets an echo of e pass: there is no epoch, or it is this boot's and latched or can be, or it is another
  // one and the dial has never echoed this boot's.
  predicate Passes(c: Core, i: nat, e: u16, env: Env)
    requires i < |c.dials|
  {
    var d := c.dials[i];
    || c.epoch == 0
    || (e == c.epoch && (Latched(d.bond) || env.save))
    || (e != c.epoch && !Latched(d.bond) && !d.epochSeen)
  }

  // Room frames need an epoch, and from version 5 on must echo it.
  predicate RoomPasses(c: Core, i: nat, ver: u8, complete: bool, e: u16, env: Env)
    requires i < |c.dials|
  {
    && c.epoch != 0
    && if ver >= 5 then complete && e == c.epoch && (Latched(c.dials[i].bond) || env.save) else Passes(c, i, 0, env)
  }

  // Session frames name a session and echo the epoch.
  predicate SessionPasses(c: Core, i: nat, data: seq<u8>, env: Env)
    requires i < |c.dials|
  {
    |data| >= 8 && U32(data, 4) != 0 && U16(data, 2) == c.epoch && Passes(c, i, c.epoch, env)
  }

  predicate Accepted(c: Core, i: nat, data: seq<u8>, env: Env)
    requires i < |c.dials| && |data| >= 2
  {
    var kind, ver := data[0], data[1];
    || kind == 3
    || (ver >= 1 &&
        (|| (kind == 2 && |data| >= 19 && Passes(c, i, U16(data, 17), env))
         || (kind == 8 && |data| >= 4)
         || (kind == 10 && ((|data| == 4 && Passes(c, i, U16(data, 2), env)) || SessionPasses(c, i, data, env)))
         || (kind == 11 && |data| >= 3)
         || (kind == 12 && |data| >= 7 && ver >= 3 && RoomPasses(c, i, ver, |data| >= 11, U16(data, 9), env))
         || (kind == 13 && |data| >= 8 && ver >= 4)
         || (kind == 15 && |data| >= 16 && ver >= 4 && RoomPasses(c, i, ver, |data| >= 18, U16(data, 16), env))
         || (kind == 17 && SessionPasses(c, i, data, env))))
  }

  lemma GuardVerdict(c: Core, i: nat, e: u16, env: Env)
    requires i < |c.dials| <= MAX_DIALS
    ensures EpochOk(c, i, e, env).1 <==> Passes(c, i, e, env)
  {
    hide Encode;
  }

  lemma RoomVerdict(c: Core, i: nat, ver: u8, complete: bool, e: u16, env: Env)
    requires i < |c.dials| <= MAX_DIALS
    ensures RoomEpochOk(c, i, ver, complete, e, env).1 <==> RoomPasses(c, i, ver, complete, e, env)
  {
    hide EpochOk;
    GuardVerdict(c, i, if ver >= 5 && complete then e else 0, env);
  }

  lemma SessionVerdict(c: Core, i: nat, data: seq<u8>, env: Env)
    requires i < |c.dials| <= MAX_DIALS
    ensures |data| >= 8 && U32(data, 4) != 0 && WifiEpochOk(c, i, U16(data, 2), env).1 <==> SessionPasses(c, i, data, env)
  {
    hide EpochOk;
    GuardVerdict(c, i, U16(data, 2), env);
  }

  // --- Who is live ---

  // Every slot is still its dial's, and was last heard when it was.
  predicate SameHeads(a: seq<Dial>, b: seq<Dial>) {
    |a| == |b| && forall j :: 0 <= j < |a| ==> a[j].bond.mac == b[j].bond.mac && a[j].lastProbe == b[j].lastProbe
  }

  // The same but for dial i, heard now
  predicate HeardNow(a: seq<Dial>, b: seq<Dial>, i: nat, now: nat)
    requires i < |b|
  {
    SameHeads(a, b[i := b[i].(lastProbe := Clock(now))])
  }

  lemma HeadsTrans(a: seq<Dial>, b: seq<Dial>, c: seq<Dial>)
    requires SameHeads(a, b) && SameHeads(b, c)
    ensures SameHeads(a, c)
  {
  }

  lemma SeenHeads(c: Core, m: Core, i: nat, now: nat)
    requires i < |c.dials| && SameHeads(m.dials, c.dials)
    ensures HeardNow(Seen(m, i, now).dials, c.dials, i, now)
  {
    hide Clock;
  }

  // What follows a frame that was heard leaves the heads alone.
  lemma AfterSeen(was: seq<Dial>, m: seq<Dial>, r: seq<Dial>, i: nat, now: nat)
    requires i < |was| && HeardNow(m, was, i, now) && SameHeads(r, m)
    ensures HeardNow(r, was, i, now)
  {
    hide Clock;
  }

  lemma EpochHeads(c: Core, i: nat, e: u16, env: Env)
    requires i < |c.dials|
    ensures SameHeads(EpochOk(c, i, e, env).0.dials, c.dials) && SameHeads(Pend(c, i).dials, c.dials)
  {
    hide EpochOk;
    EpochOutcome(c, i, e, env);
  }

  lemma GuardHeads(c: Core, i: nat, e: u16, env: Env)
    requires i < |c.dials|
    ensures SameHeads(EpochOk(c, i, e, env).0.dials, c.dials) && SameHeads(WifiEpochOk(c, i, e, env).0.dials, c.dials)
  {
    hide EpochOk, Pend, SameHeads;
    EpochHeads(c, i, e, env);
  }

  lemma RetireHeads(d: Dial, session: u32, status: u8)
    requires HistoryShaped(d)
    ensures var r := Retire(d, session, status);
            r.bond == d.bond && r.lastProbe == d.lastProbe
  {
    hide RetiredIndex;
  }

  lemma TakeOverHeads(c: Core, i: nat, session: u32)
    requires i < |c.dials| && AllShaped(c.dials)
    ensures SameHeads(TakeOver(c, i, session).dials, c.dials)
  {
    hide Retire, Find;
    DropShaped(c.dials);
    var prior := if c.owner.valid then Find(c.dials, c.owner.mac) else -1;
    if prior >= 0 {
      RetireHeads(DropRequests(c.dials)[prior], c.owner.session, STALE);
    }
  }

  lemma QueueHeads(c: Core, i: nat, session: u32)
    requires i < |c.dials| && AllShaped(c.dials)
    ensures SameHeads(QueueSetup(c, i, session).dials, c.dials)
  {
    hide TakeOver, RetiredIndex;
    TakeOverHeads(c, i, session);
  }

  lemma ObserveHeads(c: Core)
    requires AllShaped(c.dials)
    ensures SameHeads(ObserveClosed(c).dials, c.dials)
  {
    hide Retire, Find;
    var i := Find(c.dials, c.owner.mac);
    if i >= 0 {
      RetireHeads(c.dials[i], c.owner.session, CLOSED);
    }
  }

  lemma CancelHeads(c: Core, i: nat, session: u32, env: Env)
    requires i < |c.dials| && AllShaped(c.dials)
    ensures SameHeads(CancelSession(c, i, session, env).dials, c.dials)
  {
    hide ObserveClosed, CancelTail, SameHeads;
    ObserveHeads(c);
    ObserveShaped(c);
    CancelTailHeads(c, i, session, env);
    if WithoutStart(env.device) == CLOSED {
      CancelTailHeads(ObserveClosed(c), i, session, env);
      HeadsTrans(CancelSession(c, i, session, env).dials, ObserveClosed(c).dials, c.dials);
    }
  }

  lemma CancelTailHeads(c: Core, i: nat, session: u32, env: Env)
    requires i < |c.dials| && AllShaped(c.dials)
    ensures SameHeads(CancelTail(c, i, session, env).dials, c.dials)
  {
    hide CancelSettle, CancelVerdict, CancelStatus, Retire;
    var c2 := CancelSettle(c, i, session, env);
    SettleShaped(c, i, session, env);
    SettleHeads(c, i, session, env);
    RetireHeads(c2.dials[i], session, CancelStatus(c, i, session, env));
  }

  lemma SettleHeads(c: Core, i: nat, session: u32, env: Env)
    requires i < |c.dials| && AllShaped(c.dials)
    ensures SameHeads(CancelSettle(c, i, session, env).dials, c.dials)
  {
    hide CancelVerdict, CancelStatus;
  }

  lemma {:induction false} EchoHeads(c: Core, k: nat, p: StatePkt, now: nat)
    requires k <= |c.dials|
    ensures SameHeads(EchoFrom(c, k, p, now).dials, c.dials)
    decreases |c.dials| - k
  {
    hide Live, Wants, Clock;
    if k < |c.dials| {
      EchoHeads(if Live(c.dials[k], now) then SendState(c, k, p, now) else Pend(c, k), k + 1, p, now);
    }
  }

  lemma EchoAllHeads(c: Core, now: nat, env: Env)
    requires AllShaped(c.dials)
    ensures SameHeads(EchoStateAll(c, now, env).dials, c.dials)
  {
    hide ObserveClosed, EchoFrom, SameHeads;
    var (c1, p) := BuildState(c, env);
    ObserveHeads(c);
    EchoHeads(c1.(lastState := Some(p)), 0, p, now);
    SameAgain(c.dials);
    HeadsTrans(EchoStateAll(c, now, env).dials, c1.dials, c.dials);
  }

  lemma SameAgain(ds: seq<Dial>)
    ensures SameHeads(ds, ds)
  {
  }

  // --- Each kind of frame ---

  // A PROBE says what the dial wants.
  lemma ProbeHeard(c: Core, i: nat, data: seq<u8>, env: Env)
    requires i < |c.dials| && |data| >= 2
    ensures var r := OnProbe(c, i, data, env);
            && HeardNow(r.dials, c.dials, i, env.now) && r.world.log == c.world.log
            && r.dials[i].want == if |data| >= 3 then data[2] else c.dials[i].want
  {
    hide Clock;
  }

  // A request for credentials, for a catalog page or for DIAL_INFO's sake is noted.
  lemma NotedHeard(c: Core, i: nat, ver: u8, data: seq<u8>, env: Env)
    requires i < |c.dials| && AllShaped(c.dials) && |data| >= 2
    ensures var r := OnWifiReq(c, i, data, env);
            if |data| >= 4 then HeardNow(r.dials, c.dials, i, env.now) && r.dials[i].wifiReq && r.world.log == c.world.log
            else r == c
    ensures var r := OnCatalogReq(c, i, ver, data, env);
            if |data| >= 8 && ver >= 4 then
              && HeardNow(r.dials, c.dials, i, env.now) && r.world.log == c.world.log
              && r.dials[i].catalogReq && r.dials[i].catalogCursor == U16(data, 2)
            else r == c
    ensures HeardNow(Seen(c, i, env.now).dials, c.dials, i, env.now)
  {
    hide Clock;
  }

  // A choice of the room source is noted as it was made.
  lemma ChoiceHeard(c: Core, i: nat, ver: u8, data: seq<u8>, env: Env)
    requires i < |c.dials| <= MAX_DIALS && AllShaped(c.dials)
    ensures var r := OnSourceSet(c, i, ver, data, env);
            var d := r.dials[i];
            if |data| >= 16 && ver >= 4 && RoomPasses(c, i, ver, |data| >= 18, U16(data, 16), env) then
              && HeardNow(r.dials, c.dials, i, env.now) && r.world.log == c.world.log && d.sourceReq
              && d.sourceRequestId == data[2] && d.sourceRevision == U32(data, 4) && d.sourceId == U64(data, 8)
            else SameHeads(r.dials, c.dials)
  {
    hide RoomEpochOk, EpochOk, Clock, U64, U32, U16, SameHeads;
    var (c1, ok) := RoomEpochOk(c, i, ver, |data| >= 18, U16(data, 16), env);
    RoomVerdict(c, i, ver, |data| >= 18, U16(data, 16), env);
    RoomHeads(c, i, ver, |data| >= 18, U16(data, 16), env);
    SameAgain(c.dials);
    if ok && |data| >= 16 {
      var d := c1.dials[i].(sourceRequestId := data[2], sourceRevision := U32(data, 4), sourceId := U64(data, 8), sourceReq := true);
      PutHeads(c1, i, d, c.dials);
      SeenHeads(c, SetDial(c1, i, d), i, env.now);
    }
  }

  lemma PutHeads(c: Core, i: nat, d: Dial, was: seq<Dial>)
    requires i < |c.dials| && SameHeads(c.dials, was) && d.bond == c.dials[i].bond && d.lastProbe == c.dials[i].lastProbe
    ensures SameHeads(SetDial(c, i, d).dials, was)
  {
  }

  lemma RoomHeads(c: Core, i: nat, ver: u8, complete: bool, e: u16, env: Env)
    requires i < |c.dials|
    ensures var r := RoomEpochOk(c, i, ver, complete, e, env).0;
            SameHeads(r.dials, c.dials) && r.world.log == c.world.log
  {
    hide EpochOk, SameHeads;
    EpochHeads(c, i, if ver >= 5 && complete then e else 0, env);
    GuardLog(c, i, if ver >= 5 && complete then e else 0, env);
  }

  lemma GuardLog(c: Core, i: nat, e: u16, env: Env)
    requires i < |c.dials|
    ensures EpochOk(c, i, e, env).0.world.log == c.world.log && WifiEpochOk(c, i, e, env).0.world.log == c.world.log
  {
    hide BondsOf, Encode;
  }

  // A sensor report shows the dial's screen, and reaches the adapter if it has the hook.
  lemma SensorHeard(c: Core, i: nat, ver: u8, data: seq<u8>, env: Env)
    requires i < |c.dials| <= MAX_DIALS && AllShaped(c.dials)
    ensures var r := OnSensor(c, i, ver, data, env);
            var d := r.dials[i];
            if |data| >= 7 && ver >= 3 && RoomPasses(c, i, ver, |data| >= 11, U16(data, 9), env) then
              && HeardNow(r.dials, c.dials, i, env.now)
              && r.world.log
                 == c.world.log
                    + (if env.hasSensor then [SensorHook(c.dials[i].bond.mac, |data| > 7 && data[7] != 0xFF)] else [])
              && d.screenValid == (data[2] / 2 % 2 == 1) && d.screenOn == (data[2] / 4 % 2 == 1)
            else SameHeads(r.dials, c.dials)
  {
    hide RoomEpochOk, EpochOk, Clock, U16, SameHeads;
    var (c1, ok) := RoomEpochOk(c, i, ver, |data| >= 11, U16(data, 9), env);
    RoomVerdict(c, i, ver, |data| >= 11, U16(data, 9), env);
    RoomHeads(c, i, ver, |data| >= 11, U16(data, 9), env);
    SameAgain(c.dials);
    if ok && |data| >= 7 {
      var d := c1.dials[i].(screenValid := data[2] / 2 % 2 == 1, screenOn := data[2] / 4 % 2 == 1);
      PutHeads(c1, i, d, c.dials);
      var m := SetDial(c1, i, d);
      var e := SensorHook(c.dials[i].bond.mac, |data| > 7 && data[7] != 0xFF);
      SeenHeads(c, if env.hasSensor then Emit(m, e) else m, i, env.now);
    }
  }
}
