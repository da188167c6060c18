// The specification of each operation, split where the source's functions are, and what keeps the slots well formed.
module LinkSteps {
  import opened Words
  import opened Bonds
  import opened LinkState
  import opened WifiSession
  import opened LinkSpec
  import opened LinkFrame
  import opened LinkRun
  import opened LinkTable
  import PairAuth

  // Widths the source's types fix
  predicate WellFormed(c: Core) {
    && AllShaped(c.dials) && AllSized(BondsOf(c.dials)) && |c.dials| <= MAX_DIALS
    && |c.ownMac| == 6 && Sized(Candidate(c))
  }

  lemma KeptWellFormed(c: Core, r: Core)
    requires WellFormed(c) && KeepsTable(c, r)
    ensures WellFormed(r)
  {
    KeepsBonds(c, r);
  }

  lemma StoredSized(c: Core)
    ensures |Durable(c.world)| <= MAX_DIALS && AllSized(Durable(c.world))
  {
    hide Decode;
    if c.world.store.Some? && Decode(c.world.store.value).Some? {
      EncodeDecode(c.world.store.value);
    }
  }

  lemma FreshFormed(c: Core, recs: seq<Bond>)
    requires WellFormed(c) && AllSized(recs) && |recs| <= MAX_DIALS
    ensures WellFormed(c.(dials := FreshDials(recs)))
  {
    hide FreshDials;
    FreshBonds(recs);
    FreshShaped(recs);
  }

  lemma InstallStep(c: Core, recs: seq<Bond>, k: nat, env: Env)
    requires k < |recs|
    ensures InstallPeers(c, recs, k, env)
            == if k == env.failAt then (c, false)
               else InstallPeers(AddPeer(c, recs[k].mac, Keyed(recs[k].lmk), true), recs, k + 1, env)
  {
  }

  lemma InstallEnd(c: Core, recs: seq<Bond>, env: Env)
    ensures InstallPeers(c, recs, |recs|, env) == (c, true)
  {
  }

  lemma OwnMacFormed(c: Core, mac: seq<u8>)
    requires WellFormed(c) && |mac| == 6
    ensures WellFormed(c.(ownMac := mac))
  {
    SameWellFormed(c, c.(ownMac := mac));
  }

  function Awake(c: Core, env: Env): Core {
    var c4 := if c.world.capsStore.Some? then c.(capsSeq := c.world.capsStore.value) else c;
    c4.(epoch := if env.rand.None? then 0 else if env.rand.value == 0 then 1 else env.rand.value, started := true)
  }

  lemma StartSteps(c: Core, env: Env)
    ensures Start(c, env)
            == if env.ownMac.None? then c
               else
                 var c1 := c.(ownMac := env.ownMac.value);
                 if !env.identity then c1
                 else
                   var recs := Durable(c.world);
                   if recs == [] then Awake(c1, env)
                   else
                     var (c3, installed) := InstallPeers(c1.(dials := FreshDials(recs)), recs, 0, env);
                     if installed then Awake(c3, env) else c3
  {
    hide Decode, InstallPeers, FreshDials;
  }

  lemma FewerFormed(c: Core, i: nat)
    requires WellFormed(c) && i < |c.dials|
    ensures WellFormed(c.(dials := c.dials[..i] + c.dials[i + 1..]))
  {
    BondsWithout(c.dials, i);
  }

  lemma FewerSized(recs: seq<Bond>, i: nat)
    requires AllSized(recs) && i < |recs|
    ensures AllSized(recs[..i] + recs[i + 1..])
  {
    hide Sized;
  }

  lemma DelPeersStep(c: Core, ds: seq<Dial>)
    requires ds != []
    ensures DelPeers(c, ds) == DelPeers(DelPeer(c, ds[0].bond.mac), ds[1..])
  {
  }

  lemma DelPeersEnd(c: Core)
    ensures DelPeers(c, []) == c
  {
  }

  lemma ClearedFormed(c: Core, r: Core)
    requires WellFormed(c) && r == c.(dials := [])
    ensures WellFormed(r)
  {
    assert Candidate(r) == Candidate(c);
  }

  // The slot a candidate would be appended to is there.
  lemma CandidateFits(c: Core)
    requires CandidateOk(c)
    ensures c.pairing.phase.Confirm? ==> Find(c.dials, c.pairing.candMac) >= 0 || |c.dials| < MAX_DIALS
  {
    hide Find;
    var k := Find(c.dials, c.pairing.candMac);
    assert forall i :: 0 <= i < |c.dials| ==> BondsOf(c.dials)[i].mac == c.dials[i].bond.mac;
  }

  lemma CandidateMac(c: Core)
    ensures Candidate(c).mac == c.pairing.candMac
  {
  }

  // The table in RAM after a commit
  function Placed(c: Core, known: int, bond: Bond): Core
    requires -1 <= known < |c.dials|
  {
    if known >= 0 then SetDial(c, known, Rekeyed(c.dials[known], bond))
    else c.(dials := c.dials + [Rekeyed(FreshDial(bond), bond)])
  }

  lemma PlacedFormed(c: Core, known: int, bond: Bond)
    requires WellFormed(c) && -1 <= known < |c.dials| && Sized(bond) && (known < 0 ==> |c.dials| < MAX_DIALS)
    ensures WellFormed(Placed(c, known, bond))
  {
    var r := Placed(c, known, bond);
    forall j | 0 <= j < |r.dials|
      ensures Sized(BondsOf(r.dials)[j]) && HistoryShaped(r.dials[j])
    {
      assert j < |c.dials| && j != known ==> BondsOf(r.dials)[j] == BondsOf(c.dials)[j];
    }
  }

  function Committed(c: Core, known: int, bond: Bond): Core
    requires -1 <= known < |c.dials|
  {
    var c3 := Placed(Disown(c, bond.mac), known, bond);
    PairEnd(c3.(pairing := c3.pairing.(candLmk := ZeroBytes(16), ephPriv := ZeroBytes(32))), Paired)
  }

  lemma StoreRest(c: Core, recs: seq<Bond>, env: Env)
    requires Saves(recs, env.save)
    ensures Store(c, recs).pairing == c.pairing && Store(c, recs).dials == c.dials
  {
    hide Encode;
  }

  lemma CandidateFormed(c: Core)
    requires WellFormed(c)
    ensures Sized(Candidate(c))
    ensures Candidate(c) == Bond(c.pairing.candMac, c.pairing.candLmk, c.pairing.candIdPub, 1, ZeroBytes(7))
  {
  }

  lemma KeylessFormed(c: Core)
    requires WellFormed(c)
    ensures |c.pairing.candMac| == 6 && |c.pairing.candIdPub| == 32 && |ZeroBytes(16)| == 16
  {
  }

  lemma CommitSteps(c: Core, env: Env)
    ensures PairCommit(c, env)
            == if !Saves(Proposed(c), env.save) then PairEnd(CleanupCandidate(c, env), StorageError)
               else Committed(Store(c, Proposed(c)), Find(c.dials, c.pairing.candMac), Candidate(c))
  {
    hide Find, Store, CleanupCandidate, PairEnd, BondsOf;
  }

  function ConfirmKey(c: Core, src: seq<u8>): seq<u8> {
    if c.pairing.phase.Confirm? && src == c.pairing.candMac then c.pairing.candLmk
    else
      var bonded := Find(c.dials, src);
      if bonded >= 0 then c.dials[bonded].bond.lmk else []
  }

  lemma ConfirmKeyIs(c: Core, src: seq<u8>)
    ensures var bonded := Find(c.dials, src);
            var candidate := c.pairing.phase.Confirm? && src == c.pairing.candMac;
            candidate || bonded >= 0 ==>
              ConfirmKey(c, src) == if candidate then c.pairing.candLmk else c.dials[bonded].bond.lmk
  {
    hide Find;
  }

  function Acked(c: Core, src: seq<u8>, tag: seq<u8>, env: Env): Core {
    var i := Find(c.dials, src);
    if i < 0 then c else Send(SetDial(c, i, c.dials[i].(lastProbe := Clock(env.now))), src, PairAck(tag))
  }

  predicate Proved(c: Core, src: seq<u8>, data: seq<u8>) {
    && ((c.pairing.phase.Confirm? && src == c.pairing.candMac) || Find(c.dials, src) >= 0)
    && PairAuth.Proves(data, PairAuth.Make(19, ConfirmKey(c, src), src, c.ownMac))
  }

  lemma ConfirmSteps(c: Core, src: seq<u8>, data: seq<u8>, env: Env)
    ensures
      var candidate := c.pairing.phase.Confirm? && src == c.pairing.candMac;
      OnPairConfirm(c, src, data, env)
      == if !Proved(c, src, data) then c
         else
           var tag := PairAuth.Make(20, ConfirmKey(c, src), src, c.ownMac).tag;
           var c1 := if candidate then PairCommit(c, env) else c;
           if candidate && !c1.pairing.result.Paired? then c1 else Acked(c1, src, tag, env)
  {
    hide PairAuth.Make, PairAuth.Proves, PairCommit, Find, SetDial, Clock;
  }

  lemma HandshakeSized(c: Core)
    requires WellFormed(c)
    ensures |c.ownMac| == 6 && |c.pairing.candMac| == 6 && |c.pairing.candLmk| == 16 && |c.pairing.candIdPub| == 32
  {
  }

  function Offered(c: Core, req: Request, lmk: seq<u8>, answer: Frame, env: Env): Core {
    var c1 := c.(pairing := c.pairing.(candEphPub := req.ephPub, candMac := req.mac, candLmk := lmk, candIdPub := req.idPub));
    var c2 := DelPeer(c1, req.mac);
    if !env.install then PairEnd(CleanupCandidate(c2, env), Cancelled)
    else
      var c3 := Send(AddPeer(c2, req.mac, Keyed(lmk), true), BCAST, answer);
      c3.(pairing := c3.pairing.(phase := Confirm, result := Confirming,
                                 confirmDeadline := (Clock(env.now) + PAIR_CONFIRM_MS) % B32))
  }

  function Responded(c: Core, req: Request, crypto: Crypto, env: Env): Core {
    hide DeriveLmk, Offered;
    var lmk := DeriveLmk(crypto, c.pairing.ephPriv, req.ephPub, req.ephPub, c.pairing.ephPub);
    if lmk.None? || env.sign.None? then c
    else
      var answer := PairResp(c.pairing.ephPub, env.channel, env.sign.value);
      if c.pairing.phase.Confirm? then Send(c, BCAST, answer) else Offered(c, req, lmk.value, answer, env)
  }

  // on_pair_req, test by test
  lemma OfferSteps(c: Core, data: seq<u8>, crypto: Crypto, env: Env)
    ensures
      OnPairReq(c, data, crypto, env)
      == if c.pairing.phase.Off? || |data| < 136 || data[1] < PairAuth.VERSION then c
         else
           var req := ParseRequest(data);
           var known := Find(c.dials, req.mac);
           var repeating := c.pairing.phase.Confirm?;
           if repeating && req.mac != c.pairing.candMac then c
           else if !crypto.verify(req.idPub, req.transcript, req.sig) then c
           else if known >= 0 && c.dials[known].bond.idPub != req.idPub then c.(pairing := c.pairing.(result := PinMismatch))
           else if known < 0 && |c.dials| >= MAX_DIALS then c.(pairing := c.pairing.(result := Full))
           else if repeating && (req.ephPub != c.pairing.candEphPub || req.idPub != c.pairing.candIdPub) then c
           else Responded(c, req, crypto, env)
  {
    hide DeriveLmk, Find, ParseRequest, CleanupCandidate, PairEnd;
  }

  predicate SameHistory(a: Dial, b: Dial) {
    a.bond == b.bond && a.retired == b.retired && a.retiredStatus == b.retiredStatus && a.retiredNext == b.retiredNext
  }

  lemma TickStep(c: Core, k: nat, p: StatePkt, env: Env)
    requires k < |c.dials|
    ensures TickFrom(c, k, p, env) == TickFrom(TickDial(c, k, p, env), k + 1, p, env)
  {
    hide TickDial;
  }

  lemma TickEnd(c: Core, p: StatePkt, env: Env)
    ensures TickFrom(c, |c.dials|, p, env) == c
  {
  }

  lemma {:induction false} QuietIs(ds: seq<Dial>, k: nat, now: nat)
    requires k <= |ds| && (forall j :: 0 <= j < k ==> !Live(ds[j], now)) && (k < |ds| ==> Live(ds[k], now))
    ensures var (quiet, live) := QuietFrom(ds, now);
            && live == (k < |ds|)
            && forall j :: 0 <= j < |ds| ==> quiet[j] == if j < k then ds[j].(wasLive := false) else ds[j]
  {
    hide Live;
    if k > 0 {
      QuietIs(ds[1..], k - 1, now);
      var quiet := QuietFrom(ds, now).0;
      forall j | 1 <= j < |ds|
        ensures quiet[j] == if j < k then ds[j].(wasLive := false) else ds[j]
      {
        assert quiet[j] == QuietFrom(ds[1..], now).0[j - 1] && ds[1..][j - 1] == ds[j];
      }
    }
  }

  lemma QuietWellFormed(c: Core, now: nat)
    requires WellFormed(c)
    ensures WellFormed(c.(dials := QuietFrom(c.dials, now).0))
  {
    hide QuietFrom, WellFormed;
    QuietSame(c.dials, now);
    KeptWellFormed(c, c.(dials := QuietFrom(c.dials, now).0));
  }

  // The slot a STATE has just gone to
  function StateSent(d: Dial, p: StatePkt, now: nat): Dial {
    d.(lastStateTx := Clock(now), pendState := false, want := if Wants(d.want, 4) then d.want - 4 else d.want,
       heard := Some(p), heardAt := now)
  }

  lemma StateSentFormed(d: Dial, p: StatePkt, now: nat)
    requires HistoryShaped(d) && Sized(d.bond)
    ensures HistoryShaped(StateSent(d, p, now)) && Sized(StateSent(d, p, now).bond)
  {
  }

  lemma LastWellFormed(c: Core, p: StatePkt)
    requires WellFormed(c)
    ensures WellFormed(c.(lastState := Some(p)))
  {
    SameWellFormed(c, c.(lastState := Some(p)));
  }

  lemma EchoStep(c: Core, k: nat, p: StatePkt, now: nat)
    requires k < |c.dials|
    ensures EchoFrom(c, k, p, now) == EchoFrom(if Live(c.dials[k], now) then SendState(c, k, p, now) else Pend(c, k), k + 1, p, now)
  {
    hide Live, SendState;
  }

  lemma EchoEnd(c: Core, p: StatePkt, now: nat)
    ensures EchoFrom(c, |c.dials|, p, now) == c
  {
  }

  function Asked(c: Core, i: nat, session: u32, env: Env): (r: Core)
    requires i < |c.dials| && AllShaped(c.dials)
    ensures |r.dials| == |c.dials|
  {
    hide CancelVerdict, CancelStatus;
    if CancelVerdict(c, i, session, env).AskHook? then
      PendAll(Emit(c, CancelHook(c.dials[i].bond.mac, session, CancelStatus(c, i, session, env))))
    else c
  }

  function OwnerSettled(c: Core, i: nat, session: u32, status: u8): (r: Core)
    requires i < |c.dials|
    ensures |r.dials| == |c.dials|
  {
    Emit(SetDial(c.(owner := c.owner.(cancelled := true, status := status)), i, c.dials[i].(wifiSetupReq := false)),
         Settled(c.dials[i].bond.mac, session, status))
  }

  lemma RetireDropped(d: Dial, session: u32, status: u8)
    requires HistoryShaped(d)
    ensures HistoryShaped(Dropped(d)) && Retire(Dropped(d), session, status) == Dropped(Retire(d, session, status))
  {
    hide RetiredIndex, WithHistory, Dropped;
    DroppedHistory(d);
    forall retired, statuses, next
      ensures WithHistory(Dropped(d), retired, statuses, next) == Dropped(WithHistory(d, retired, statuses, next))
    {
      WithDropped(d, retired, statuses, next);
    }
  }

  function Dropped(d: Dial): Dial {
    d.(wifiSetupReq := false)
  }

  lemma DroppedHistory(d: Dial)
    ensures var r := Dropped(d);
            r.retired == d.retired && r.retiredStatus == d.retiredStatus && r.retiredNext == d.retiredNext
  {
  }

  lemma WithDropped(d: Dial, retired: seq<u32>, statuses: seq<u8>, next: nat)
    ensures WithHistory(Dropped(d), retired, statuses, next) == Dropped(WithHistory(d, retired, statuses, next))
  {
  }

  // The takeover in the order of the source: the old session retired, the starts dropped, the ownership set.
  lemma TakeOverSteps(c: Core, i: nat, session: u32)
    requires i < |c.dials| && WellFormed(c)
    ensures AllShaped(c.dials)
    ensures var prior := if c.owner.valid then Find(c.dials, c.owner.mac) else -1;
            var ds := if prior < 0 then c.dials else c.dials[prior := Retire(c.dials[prior], c.owner.session, STALE)];
            var m := Emit(c.(dials := DropRequests(ds),
                             owner := Owner(true, c.dials[i].bond.mac, session, false, false, c.owner.status)),
                          Owned(c.dials[i].bond.mac, session));
            TakeOver(c, i, session) == if prior < 0 then m else Emit(m, Retired(c.owner.mac, c.owner.session))
  {
    hide Retire, Find;
    SlotsShaped(c);
    DropShaped(c.dials);
    var prior := if c.owner.valid then Find(c.dials, c.owner.mac) else -1;
    if prior >= 0 {
      RetireDropped(c.dials[prior], c.owner.session, STALE);
      var d := Retire(c.dials[prior], c.owner.session, STALE);
      assert DropRequests(c.dials)[prior := Dropped(d)] == DropRequests(c.dials[prior := d]);
    }
  }

  lemma TailSteps(c: Core, i: nat, session: u32, env: Env)
    requires i < |c.dials| && WellFormed(c)
    ensures AllShaped(c.dials)
    ensures var status := CancelStatus(c, i, session, env);
            var c1 := Asked(c, i, session, env);
            var c2 := if IsOwner(c, i, session) then OwnerSettled(c1, i, session, status) else c1;
            && AllShaped(c2.dials)
            && CancelTail(c, i, session, env)
               == Send(RetireAt(c2, i, session, status), c.dials[i].bond.mac, CancelAck(session, status))
  {
    hide CancelStatus, CancelVerdict, RetireAt, AllShaped;
    SlotsShaped(c);
    SettleShaped(c, i, session, env);
    SettleSteps(c, i, session, env);
  }

  lemma SettleSteps(c: Core, i: nat, session: u32, env: Env)
    requires i < |c.dials| && AllShaped(c.dials)
    ensures var status := CancelStatus(c, i, session, env);
            var c1 := Asked(c, i, session, env);
            CancelSettle(c, i, session, env) == if IsOwner(c, i, session) then OwnerSettled(c1, i, session, status) else c1
  {
    hide PendAll, CancelStatus, CancelVerdict;
    PendAllMac(Emit(c, CancelHook(c.dials[i].bond.mac, session, CancelStatus(c, i, session, env))));
  }

  lemma PendAllMac(c: Core)
    ensures var r := PendAll(c);
            |r.dials| == |c.dials| && forall i :: 0 <= i < |c.dials| ==> r.dials[i].bond == c.dials[i].bond
  {
  }

  lemma TableSized(c: Core)
    requires WellFormed(c)
    ensures AllSized(BondsOf(c.dials))
  {
  }

  lemma SlotsShaped(c: Core)
    requires WellFormed(c)
    ensures AllShaped(c.dials)
  {
  }

  // Noting the echo first leaves the table to be saved the same.
  lemma LatchedTable(c: Core, m: Core, i: nat)
    requires i < |c.dials| && m.dials == c.dials[i := Echoed(c.dials[i])]
    ensures BondsOf(m.dials) == BondsOf(c.dials)
  {
  }

  lemma LatchSized(c: Core, i: nat)
    requires WellFormed(c) && i < |c.dials|
    ensures BondsOf(c.dials)[i] == c.dials[i].bond
    ensures AllSized(BondsOf(c.dials)[i := Latch(c.dials[i].bond)]) && Sized(Latch(c.dials[i].bond))
  {
  }

  lemma SetDialAt(c: Core, i: nat, d: Dial)
    requires i < |c.dials|
    ensures SetDial(c, i, d).dials == c.dials[i := d]
  {
  }

  lemma SetTwice(c: Core, i: nat, a: Dial, b: Dial, recs: seq<Bond>)
    requires i < |c.dials| && |recs| <= MAX_DIALS
    ensures SetDial(SetDial(c, i, a), i, b) == SetDial(c, i, b)
    ensures SetDial(Store(SetDial(c, i, a), recs), i, b) == SetDial(Store(c, recs), i, b)
  {
    hide Encode;
    assert c.dials[i := a][i := b] == c.dials[i := b];
  }

  function Echoed(d: Dial): Dial {
    d.(epochSeen := true)
  }

  function Marked(d: Dial): Dial {
    d.(pendState := true)
  }

  function Rebonded(d: Dial, bond: Bond): Dial {
    d.(bond := bond)
  }

  lemma StepsFormed(d: Dial)
    requires HistoryShaped(d) && Sized(d.bond) && Sized(Latch(d.bond))
    ensures Echoed(d).bond == d.bond
    ensures HistoryShaped(Echoed(d)) && HistoryShaped(Marked(Echoed(d))) && Sized(Marked(Echoed(d)).bond)
    ensures HistoryShaped(Rebonded(Echoed(d), Latch(d.bond))) && Sized(Rebonded(Echoed(d), Latch(d.bond)).bond)
  {
  }

  lemma EpochFirst(c: Core, i: nat, env: Env)
    requires i < |c.dials| && c.epoch != 0 && !Latched(c.dials[i].bond)
    ensures var d := c.dials[i];
            var recs := BondsOf(c.dials)[i := Latch(d.bond)];
            EpochOk(c, i, c.epoch, env)
            == if Saves(recs, env.save) then (SetDial(Store(c, recs), i, Rebonded(Echoed(d), Latch(d.bond))), true)
               else (SetDial(c, i, Marked(Echoed(d))), false)
  {
    hide BondsOf, Latch, Store, SetDial;
  }

  lemma LatchSteps(c: Core, i: nat, env: Env)
    requires i < |c.dials| && c.epoch != 0 && !Latched(c.dials[i].bond)
    ensures var d := c.dials[i];
            var c1 := SetDial(c, i, Echoed(d));
            var recs := BondsOf(c.dials)[i := Latch(d.bond)];
            EpochOk(c, i, c.epoch, env)
            == if Saves(recs, env.save) then (SetDial(Store(c1, recs), i, Rebonded(Echoed(d), Latch(d.bond))), true)
               else (SetDial(c1, i, Marked(Echoed(d))), false)
  {
    hide EpochOk, BondsOf, Latch, Latched, Store, SetDial, Echoed, Marked, Rebonded;
    var d := c.dials[i];
    var recs := BondsOf(c.dials)[i := Latch(d.bond)];
    EpochFirst(c, i, env);
    if Saves(recs, env.save) {
      SetTwice(c, i, Echoed(d), Rebonded(Echoed(d), Latch(d.bond)), recs);
    } else {
      SetTwice(c, i, Echoed(d), Marked(Echoed(d)), []);
    }
  }

  // The other ways through the guard
  lemma EpochCases(c: Core, i: nat, e: u16, env: Env)
    requires i < |c.dials|
    ensures c.epoch == 0 || (e == c.epoch && Latched(c.dials[i].bond)) ==> EpochOk(c, i, e, env) == (c, true)
    ensures c.epoch != 0 && e != c.epoch ==>
              EpochOk(c, i, e, env)
              == if !Latched(c.dials[i].bond) && !c.dials[i].epochSeen then (c, true) else (Pend(c, i), false)
  {
  }

  lemma DropWellFormed(c: Core)
    requires WellFormed(c)
    ensures WellFormed(c.(dials := DropRequests(c.dials)))
  {
    KeptWellFormed(c, c.(dials := DropRequests(c.dials)));
  }

  lemma DropKeepsMac(ds: seq<Dial>, i: nat)
    requires i < |ds|
    ensures DropRequests(ds)[i].bond.mac == ds[i].bond.mac
  {
  }

  lemma RetireKeepsMac(c: Core, prior: nat, session: u32, i: nat)
    requires i < |c.dials| && prior < |c.dials| && AllShaped(c.dials)
    ensures c.dials[prior := Retire(c.dials[prior], session, STALE)][i].bond.mac == c.dials[i].bond.mac
  {
    hide Retire;
    RetireSame(c.dials[prior], session, STALE);
  }

  lemma OwnerWellFormed(c: Core, o: Owner)
    requires WellFormed(c)
    ensures WellFormed(c.(owner := o))
  {
    SameWellFormed(c, c.(owner := o));
  }

  lemma FindFirst(ds: seq<Dial>, k: nat, mac: seq<u8>)
    requires k < |ds| && ds[k].bond.mac == mac && forall j :: 0 <= j < k ==> ds[j].bond.mac != mac
    ensures Find(ds, mac) == k
  {
    hide Find;
  }

  lemma PutWellFormed(c: Core, i: nat, d: Dial)
    requires WellFormed(c) && i < |c.dials| && HistoryShaped(d) && Sized(d.bond)
    ensures WellFormed(SetDial(c, i, d))
  {
    var r := SetDial(c, i, d);
    forall j | 0 <= j < |r.dials|
      ensures Sized(BondsOf(r.dials)[j]) && HistoryShaped(r.dials[j])
    {
      assert BondsOf(r.dials)[j] == if j == i then d.bond else BondsOf(c.dials)[j];
    }
  }

  // Same slots, same widths
  lemma SameWellFormed(c: Core, r: Core)
    requires WellFormed(c) && r.dials == c.dials && |r.ownMac| == 6 && Sized(Candidate(r))
    ensures WellFormed(r)
  {
    assert BondsOf(r.dials) == BondsOf(c.dials);
  }

  lemma SlotFormed(c: Core, i: nat)
    requires WellFormed(c) && i < |c.dials|
    ensures HistoryShaped(c.dials[i]) && Sized(c.dials[i].bond)
  {
    assert BondsOf(c.dials)[i] == c.dials[i].bond;
  }

  lemma EmitWellFormed(c: Core, e: Event)
    requires WellFormed(c)
    ensures WellFormed(Emit(c, e))
  {
    SameWellFormed(c, Emit(c, e));
  }

  lemma StoreWellFormed(c: Core, recs: seq<Bond>)
    requires WellFormed(c) && |recs| <= MAX_DIALS
    ensures WellFormed(Store(c, recs))
  {
  }

  lemma PendAllWellFormed(c: Core)
    requires WellFormed(c)
    ensures WellFormed(PendAll(c))
  {
    KeptWellFormed(c, PendAll(c));
  }

  lemma OtherWellFormed(c: Core, except: nat)
    requires WellFormed(c)
    ensures WellFormed(c.(dials := OtherInfo(c.dials, except)))
  {
    KeptWellFormed(c, c.(dials := OtherInfo(c.dials, except)));
  }

  lemma CandidateIn(c: Core)
    requires Table(c)
    ensures CandidateOk(c)
  {
  }
}
