// What every call does to the bond table in RAM and to the stored one: nothing, or one write of a whole table that a
// latch, a commit or a forget has changed.
module LinkTable {
  import opened Words
  import opened Bonds
  import opened LinkState
  import opened WifiSession
  import opened LinkSpec
  import opened LinkFrame
  import opened LinkRun
  import opened LinkPairing
  import PairAuth

  // --- The stored table ---

  predicate ValidTable(recs: seq<Bond>) {
    && |recs| <= MAX_DIALS && AllSized(recs)
    && (forall i, j :: 0 <= i < j < |recs| ==> recs[i].mac != recs[j].mac)
  }

  // What the next start loads.
  function Durable(w: World): seq<Bond> {
    var recs := if w.store.Some? then Decode(w.store.value) else None;
    if recs.Some? then recs.value else []
  }

  // A candidate presents the pinned identity of the bond it would replace, or there is room for it.
  predicate Fits(recs: seq<Bond>, mac: seq<u8>, idPub: seq<u8>) {
    && (forall i :: 0 <= i < |recs| && recs[i].mac == mac ==> recs[i].idPub == idPub)
    && (|recs| < MAX_DIALS || exists i :: 0 <= i < |recs| && recs[i].mac == mac)
  }

  predicate CandidateOk(c: Core) {
    c.pairing.phase.Confirm? ==>
      && Sized(Candidate(c))
      && Fits(BondsOf(c.dials), c.pairing.candMac, c.pairing.candIdPub)
  }

  // RAM holds the stored table, or nothing yet before a start has loaded it.
  predicate Table(c: Core) {
    && ValidTable(Durable(c.world))
    && (BondsOf(c.dials) == Durable(c.world) || (!c.started && c.dials == []))
    && (!c.started ==> c.pairing.phase.Off?)
    && CandidateOk(c)
  }

  predicate Untouched(c: Core, r: Core) {
    r.world.store == c.world.store && r.world.writes == c.world.writes
  }

  // One value was written, the whole of the new table, and RAM agrees with it.
  predicate Wrote(c: Core, r: Core, recs: seq<Bond>) {
    && ValidTable(recs)
    && r.world.store == Some(Encode(recs))
    && r.world.writes == c.world.writes + [Encode(recs)]
    && BondsOf(r.dials) == recs
  }

  lemma WroteDurable(c: Core, r: Core, recs: seq<Bond>)
    requires Wrote(c, r, recs)
    ensures Durable(r.world) == recs
  {
    DecodeEncode(recs, []);
    assert Encode(recs) + [] == Encode(recs);
  }

  // --- The four ways a table can change ---

  // A guarded unicast frame from dial i echoed this boot's epoch: its guard is latched.
  predicate IsLatch(c: Core, op: Op, recs: seq<Bond>) {
    && op.Recv? && op.dst == c.ownMac && |op.data| >= 2 && Guarded(op.data[0])
    && c.epoch != 0 && EchoOf(op.data[0], op.data[1], op.data) == c.epoch
    && var i := Find(c.dials, op.src);
       i >= 0 && recs == BondsOf(c.dials)[i := Latch(c.dials[i].bond)]
  }

  // The table a commit proposes
  function Proposed(c: Core): (recs: seq<Bond>) {
    var i := Find(c.dials, c.pairing.candMac);
    if i >= 0 then BondsOf(c.dials)[i := Candidate(c)] else BondsOf(c.dials) + [Candidate(c)]
  }

  // A unicast PAIR_CONFIRM from the candidate proved the candidate's key.
  predicate IsCommit(c: Core, op: Op, recs: seq<Bond>) {
    && op.Recv? && op.dst == c.ownMac && c.pairing.phase.Confirm? && op.src == c.pairing.candMac
    && PairAuth.Proves(op.data, PairAuth.Make(19, c.pairing.candLmk, c.pairing.candMac, c.ownMac))
    && recs == Proposed(c)
  }

  predicate IsForget(c: Core, op: Op, recs: seq<Bond>) {
    && op.Forget?
    && var i := Find(c.dials, op.mac);
       i >= 0 && recs == BondsOf(c.dials)[..i] + BondsOf(c.dials)[i + 1..]
  }

  predicate IsClear(op: Op, recs: seq<Bond>) {
    op.ForgetEvery? && recs == []
  }

  predicate Changes(c: Core, op: Op, env: Env, r: Core) {
    var recs := Durable(r.world);
    && env.save && Wrote(c, r, recs)
    && (IsLatch(c, op, recs) || IsCommit(c, op, recs) || IsForget(c, op, recs) || IsClear(op, recs))
  }

  // --- Each kind of call ---

  lemma KeptTable(c: Core, r: Core)
    requires Table(c) && KeepsTable(c, r)
    ensures Table(r) && Untouched(c, r)
  {
    hide Decode, Fits, ValidTable;
    KeepsBonds(c, r);
  }

  lemma LatchValid(recs: seq<Bond>, i: nat)
    requires ValidTable(recs) && i < |recs|
    ensures ValidTable(recs[i := Latch(recs[i])])
  {
  }

  lemma LatchFits(recs: seq<Bond>, i: nat, mac: seq<u8>, idPub: seq<u8>)
    requires i < |recs| && Fits(recs, mac, idPub)
    ensures Fits(recs[i := Latch(recs[i])], mac, idPub)
  {
    var now := recs[i := Latch(recs[i])];
    assert forall j :: 0 <= j < |recs| ==> now[j].mac == recs[j].mac && now[j].idPub == recs[j].idPub;
    if j :| 0 <= j < |recs| && recs[j].mac == mac {
      assert now[j].mac == mac;
    }
  }

  // The guard saves the latched table, and nothing on a failed save.
  lemma EpochTable(c: Core, i: nat, e: u16, env: Env)
    requires i < |c.dials| && Table(c) && c.started
    ensures var r := EpochOk(c, i, e, env).0;
            && Table(r)
            && (Untouched(c, r) || (env.save && e == c.epoch != 0
                                    && Wrote(c, r, BondsOf(c.dials)[i := Latch(c.dials[i].bond)])))
  {
    hide Encode, Decode, Fits, ValidTable, Durable;
    var r := EpochOk(c, i, e, env).0;
    var recs := BondsOf(c.dials)[i := Latch(c.dials[i].bond)];
    LatchValid(BondsOf(c.dials), i);
    if c.pairing.phase.Confirm? {
      LatchFits(BondsOf(c.dials), i, c.pairing.candMac, c.pairing.candIdPub);
    }
    if c.epoch != 0 && e == c.epoch && !Latched(c.dials[i].bond) && Saves(recs, env.save) {
      assert BondsOf(r.dials) == recs;
      WroteDurable(c, r, recs);
    } else {
      assert BondsOf(r.dials) == BondsOf(c.dials);
    }
  }

  lemma WroteKept(c: Core, m: Core, r: Core, recs: seq<Bond>)
    requires Wrote(c, m, recs) && KeepsTable(m, r)
    ensures Wrote(c, r, recs)
  {
    KeepsBonds(m, r);
  }

  lemma DialTable(c: Core, i: nat, kind: u8, ver: u8, data: seq<u8>, env: Env)
    requires i < |c.dials| && AllShaped(c.dials) && Table(c) && c.started
    ensures var r := OnDialFrame(c, i, kind, ver, data, env);
            && Table(r)
            && (Untouched(c, r) || (env.save && Guarded(kind) && EchoOf(kind, ver, data) == c.epoch != 0
                                    && Wrote(c, r, BondsOf(c.dials)[i := Latch(c.dials[i].bond)])))
  {
    hide OnDialFrame, Table, KeepsTable, Guarded, EchoOf, Echoes, EpochOk, Wrote;
    var r := OnDialFrame(c, i, kind, ver, data, env);
    DialFrameKeeps(c, i, kind, ver, data, env);
    if KeepsTable(c, r) {
      KeptTable(c, r);
    } else {
      var e := EchoOf(kind, ver, data);
      EpochTable(c, i, e, env);
      KeptTable(EpochOk(c, i, e, env).0, r);
      var recs := BondsOf(c.dials)[i := Latch(c.dials[i].bond)];
      if Wrote(c, EpochOk(c, i, e, env).0, recs) {
        WroteKept(c, EpochOk(c, i, e, env).0, r, recs);
      }
    }
  }

  // Pairing ends, or never got to a candidate.
  lemma ClosedTable(c: Core, r: Core)
    requires Table(c) && r.dials == c.dials && Untouched(c, r) && r.started == c.started
    requires if c.started then !r.pairing.phase.Confirm? else r.pairing.phase.Off?
    ensures Table(r)
  {
    hide Decode, Fits, ValidTable;
  }

  lemma PairEndsTable(c: Core, result: PairResult, env: Env)
    requires Table(c)
    ensures Untouched(c, PairEnd(c, result)) && Table(PairEnd(c, result))
    ensures Untouched(c, PairEnd(CleanupCandidate(c, env), result)) && Table(PairEnd(CleanupCandidate(c, env), result))
  {
    hide Table, Find;
    ClosedTable(c, PairEnd(c, result));
    ClosedTable(c, PairEnd(CleanupCandidate(c, env), result));
  }

  lemma PairStartTable(c: Core, window: u32, env: Env)
    requires Table(c)
    ensures Untouched(c, PairStart(c, window, env)) && Table(PairStart(c, window, env))
  {
    hide Decode, Fits, ValidTable;
  }

  lemma PairCancelTable(c: Core, env: Env)
    requires Table(c)
    ensures Untouched(c, PairCancel(c, env)) && Table(PairCancel(c, env))
  {
    hide Table, PairEnd, CleanupCandidate;
    PairEndsTable(c, Cancelled, env);
  }

  lemma TimeoutsTable(c: Core, env: Env)
    requires Table(c)
    ensures Untouched(c, PairTimeouts(c, env)) && Table(PairTimeouts(c, env))
  {
    hide Table, PairEnd, CleanupCandidate;
    PairEndsTable(c, Timeout, env);
    PairEndsTable(c, Full, env);
  }

  lemma TickTable(c: Core, env: Env)
    requires Table(c) && AllShaped(c.dials)
    ensures Untouched(c, Tick(c, env)) && Table(Tick(c, env))
  {
    hide Table, PairTimeouts, Tick, KeepsTable;
    TickKeeps(c, env);
    TimeoutsTable(c, env);
    KeptTable(if c.started then PairTimeouts(c, env) else c, Tick(c, env));
  }

  lemma EntersFits(c: Core, data: seq<u8>, crypto: Crypto)
    requires Table(c) && c.started && Acceptable(c, data, crypto)
    ensures var p := WithCandidate(c, data, crypto);
            |p.candMac| == 6 && |p.candLmk| == 16 && |p.candIdPub| == 32 && Fits(BondsOf(c.dials), p.candMac, p.candIdPub)
  {
    hide DeriveLmk, CandidateOk, Durable, AllSized;
    var p := WithCandidate(c, data, crypto);
    var known := Find(c.dials, p.candMac);
    var recs := BondsOf(c.dials);
    if known >= 0 {
      assert recs[known].mac == p.candMac;
    }
  }

  lemma PairReqTable(c: Core, data: seq<u8>, crypto: Crypto, env: Env)
    requires Table(c) && c.started
    ensures Untouched(c, OnPairReq(c, data, crypto, env)) && Table(OnPairReq(c, data, crypto, env))
  {
    hide OnPairReq, Acceptable, WithCandidate, PairEnd, CleanupCandidate, Fits, ValidTable, Decode;
    var r := OnPairReq(c, data, crypto, env);
    PairReqOutcome(c, data, crypto, env);
    if Enters(c, data, crypto, env, r) {
      EntersFits(c, data, crypto);
    } else if Refused(c, data, crypto, env, r) {
      RefusedTable(c, data, crypto, env);
    }
  }

  lemma RefusedTable(c: Core, data: seq<u8>, crypto: Crypto, env: Env)
    requires Table(c) && c.started && c.pairing.phase.Window? && Acceptable(c, data, crypto)
    ensures var p := WithCandidate(c, data, crypto);
            var r := PairEnd(CleanupCandidate(DelPeer(c.(pairing := p), p.candMac), env), Cancelled);
            Untouched(c, r) && Table(r)
  {
    hide Acceptable, Fits, ValidTable, PairEnd, CleanupCandidate;
    var p := WithCandidate(c, data, crypto);
    var m := DelPeer(c.(pairing := p), p.candMac);
    assert Table(m) by { hide Decode; }
    PairEndsTable(m, Cancelled, env);
  }

  lemma CommitValid(recs: seq<Bond>, i: int, bond: Bond)
    requires ValidTable(recs) && -1 <= i < |recs| && Sized(bond)
    requires if i >= 0 then recs[i].mac == bond.mac else |recs| < MAX_DIALS && forall j :: 0 <= j < |recs| ==> recs[j].mac != bond.mac
    ensures ValidTable(if i >= 0 then recs[i := bond] else recs + [bond])
  {
  }

  lemma ProposedValid(c: Core)
    requires Table(c) && c.started && c.pairing.phase.Confirm?
    ensures ValidTable(Proposed(c))
  {
    hide Durable, ValidTable;
    CommitValid(BondsOf(c.dials), Find(c.dials, c.pairing.candMac), Candidate(c));
  }

  lemma CommitDials(c: Core, env: Env)
    requires Table(c) && c.started && c.pairing.phase.Confirm? && Saves(Proposed(c), env.save)
    ensures var r := PairCommit(c, env);
            && BondsOf(r.dials) == Proposed(c) && r.started && r.pairing.phase.Off?
            && r.world.store == Some(Encode(Proposed(c))) && r.world.writes == c.world.writes + [Encode(Proposed(c))]
  {
    hide Table, Encode;
  }

  lemma CommitTable(c: Core, env: Env)
    requires Table(c) && c.started && c.pairing.phase.Confirm?
    ensures var r := PairCommit(c, env);
            Table(r) && r.started && (Untouched(c, r) || (env.save && Wrote(c, r, Proposed(c))))
  {
    ProposedValid(c);
    if Saves(Proposed(c), env.save) {
      CommitDials(c, env);
      hide *;
      WrotePaired(c, PairCommit(c, env), Proposed(c));
    } else {
      hide Table, PairEnd, CleanupCandidate, Proposed, Find;
      PairEndsTable(c, StorageError, env);
      CommitFails(c, env);
    }
  }

  lemma CommitFails(c: Core, env: Env)
    requires !Saves(Proposed(c), env.save)
    ensures PairCommit(c, env) == PairEnd(CleanupCandidate(c, env), StorageError)
    ensures PairCommit(c, env).started == c.started
  {
    hide Candidate, Find;
  }

  // A new table, saved and in RAM, with no candidate left
  lemma WrotePaired(c: Core, r: Core, recs: seq<Bond>)
    requires ValidTable(recs) && BondsOf(r.dials) == recs && r.pairing.phase.Off?
    requires r.world.store == Some(Encode(recs)) && r.world.writes == c.world.writes + [Encode(recs)]
    ensures Table(r) && Wrote(c, r, recs)
  {
    hide ValidTable, Durable, Encode;
    assert |recs| <= MAX_DIALS by { ValidSize(recs); }
    WroteDurable(c, r, recs);
  }

  lemma ValidSize(recs: seq<Bond>)
    requires ValidTable(recs)
    ensures |recs| <= MAX_DIALS && AllSized(recs)
  {
  }

  lemma ConfirmTable(c: Core, src: seq<u8>, data: seq<u8>, env: Env)
    requires Table(c) && c.started
    ensures var r := OnPairConfirm(c, src, data, env);
            && Table(r)
            && (Untouched(c, r)
                || (&& env.save && Wrote(c, r, Proposed(c)) && c.pairing.phase.Confirm? && src == c.pairing.candMac
                    && PairAuth.Proves(data, PairAuth.Make(19, c.pairing.candLmk, src, c.ownMac))))
  {
    hide PairAuth.Make, PairAuth.Proves, PairCommit, Find, Table, Proposed, Wrote;
    var candidate := c.pairing.phase.Confirm? && src == c.pairing.candMac;
    var c1 := if candidate then PairCommit(c, env) else c;
    if candidate {
      CommitTable(c, env);
    }
    var i := Find(c1.dials, src);
    if i >= 0 {
      ProbedTable(c, c1, src, i, env);
    }
  }

  // The acknowledged dial is marked seen.
  lemma ProbedTable(c: Core, c1: Core, src: seq<u8>, i: nat, env: Env)
    requires i < |c1.dials| && Table(c1)
    ensures forall ack :: var r := Send(SetDial(c1, i, c1.dials[i].(lastProbe := Clock(env.now))), src, ack);
                          && Table(r)
                          && (Untouched(c, c1) ==> Untouched(c, r))
                          && (Wrote(c, c1, Proposed(c)) ==> Wrote(c, r, Proposed(c)))
  {
    hide Table, Wrote, Proposed, KeepsTable;
    forall ack
      ensures var r := Send(SetDial(c1, i, c1.dials[i].(lastProbe := Clock(env.now))), src, ack);
              && Table(r)
              && (Untouched(c, c1) ==> Untouched(c, r))
              && (Wrote(c, c1, Proposed(c)) ==> Wrote(c, r, Proposed(c)))
    {
      var m := SetDial(c1, i, c1.dials[i].(lastProbe := Clock(env.now)));
      var r := Send(m, src, ack);
      SetKeeps(c1, i, c1.dials[i].(lastProbe := Clock(env.now)));
      EmitKeeps(m, Sent(src, ack));
      KeepsTrans(c1, m, r);
      KeptTable(c1, r);
      if Wrote(c, c1, Proposed(c)) {
        WroteKept(c, c1, r, Proposed(c));
      }
    }
  }

  lemma RecvTable(c: Core, src: seq<u8>, dst: seq<u8>, data: seq<u8>, crypto: Crypto, env: Env)
    requires Table(c) && AllShaped(c.dials)
    ensures var r := OnRecv(c, src, dst, data, crypto, env);
            Table(r) && (Untouched(c, r) || Changes(c, Recv(src, dst, data), env, r))
  {
    hide OnPairReq, OnPairConfirm, OnDialFrame, Table, Wrote, PairAuth.Make, PairAuth.Proves, Proposed, Guarded, EchoOf, Durable;
    var r := OnRecv(c, src, dst, data, crypto, env);
    if c.started && |data| >= 2 {
      PairReqTable(c, data, crypto, env);
      ConfirmTable(c, src, data, env);
      var i := Find(c.dials, src);
      if Wrote(c, OnPairConfirm(c, src, data, env), Proposed(c)) {
        WroteDurable(c, OnPairConfirm(c, src, data, env), Proposed(c));
      }
      if i >= 0 {
        DialTable(c, i, data[0], data[1], data, env);
        var recs := BondsOf(c.dials)[i := Latch(c.dials[i].bond)];
        if Wrote(c, OnDialFrame(c, i, data[0], data[1], data, env), recs) {
          WroteDurable(c, OnDialFrame(c, i, data[0], data[1], data, env), recs);
        }
      }
    }
  }

  lemma RemoveValid(recs: seq<Bond>, i: nat)
    requires ValidTable(recs) && i < |recs|
    ensures ValidTable(recs[..i] + recs[i + 1..])
  {
  }

  lemma RemoveFits(recs: seq<Bond>, i: nat, mac: seq<u8>, idPub: seq<u8>)
    requires i < |recs| && ValidTable(recs) && Fits(recs, mac, idPub)
    ensures Fits(recs[..i] + recs[i + 1..], mac, idPub)
  {
  }

  lemma BondsWithout(ds: seq<Dial>, i: nat)
    requires i < |ds|
    ensures BondsOf(ds[..i] + ds[i + 1..]) == BondsOf(ds)[..i] + BondsOf(ds)[i + 1..]
  {
  }

  // A table with one slot less, saved and in RAM
  lemma ForgottenTable(c: Core, i: nat, r: Core)
    requires Table(c) && i < |c.dials| && r.started == c.started && r.pairing == c.pairing
    requires r.dials == c.dials[..i] + c.dials[i + 1..]
    requires var recs := Without(c, i);
             |recs| <= MAX_DIALS && r.world.store == Some(Encode(recs)) && r.world.writes == c.world.writes + [Encode(recs)]
    ensures Table(r) && Wrote(c, r, Without(c, i))
  {
    hide ValidTable, Fits, Durable, Encode, BondsOf;
    var recs := Without(c, i);
    BondsWithout(c.dials, i);
    RemoveValid(BondsOf(c.dials), i);
    if c.pairing.phase.Confirm? {
      RemoveFits(BondsOf(c.dials), i, c.pairing.candMac, c.pairing.candIdPub);
    }
    WroteDurable(c, r, recs);
  }

  // Closing the handshake afterwards leaves the new table alone.
  lemma WroteThenCancelled(c: Core, m: Core, recs: seq<Bond>, env: Env)
    requires Table(m) && Wrote(c, m, recs)
    ensures Table(PairCancel(m, env)) && Wrote(c, PairCancel(m, env), recs)
  {
    hide ValidTable, Encode, PairCancel, Table;
    PairCancelTable(m, env);
    PairCancelDials(m, env);
  }

  lemma PairCancelDials(c: Core, env: Env)
    ensures PairCancel(c, env).dials == c.dials
  {
    hide PairEnd, CleanupCandidate;
  }

  lemma ForgetTable(c: Core, mac: seq<u8>, env: Env)
    requires Table(c)
    ensures var r := ForgetDial(c, mac, env).0;
            && Table(r)
            && (Untouched(c, r)
                || (&& env.save && Find(c.dials, mac) >= 0
                    && Wrote(c, r, Without(c, Find(c.dials, mac)))))
  {
    hide Table, Wrote, PairCancel, Find, Without, Forgotten, Encode;
    PairCancelTable(c, env);
    var i := Find(c.dials, mac);
    if i >= 0 && Saves(Without(c, i), env.save) {
      var r := Forgotten(c, i, mac);
      ForgottenIs(c, i, mac);
      ForgottenTable(c, i, r);
      WroteThenCancelled(c, r, Without(c, i), env);
    }
  }

  lemma {:induction false} DelPeersWorld(c: Core, ds: seq<Dial>)
    ensures var r := DelPeers(c, ds);
            r == c.(world := c.world.(peers := r.world.peers))
    decreases |ds|
  {
    if ds != [] {
      DelPeersWorld(DelPeer(c, ds[0].bond.mac), ds[1..]);
    }
  }

  lemma ForgetAllTable(c: Core, env: Env)
    requires Table(c)
    ensures var r := ForgetAll(c, env).0;
            Table(r) && (Untouched(c, r) || (env.save && Wrote(c, r, [])))
  {
    hide Table, Wrote, PairCancel, DelPeers;
    if env.save {
      DelPeersWorld(Store(c, []), c.dials);
      var c2 := DelPeers(Store(c, []), c.dials);
      var c3 := Cleared(c2);
      EmptyTable(c, c3);
      WroteThenCancelled(c, c3, [], env);
    }
  }

  lemma EmptyTable(c: Core, r: Core)
    requires Table(c) && r.dials == [] && r.started == c.started && r.pairing == c.pairing
    requires r.world.store == Some(Encode([])) && r.world.writes == c.world.writes + [Encode([])]
    ensures Table(r) && Wrote(c, r, [])
  {
    hide Durable;
    WroteDurable(c, r, []);
  }

  lemma CapsTable(c: Core, env: Env)
    requires Table(c)
    ensures Table(CapsChanged(c, env)) && Untouched(c, CapsChanged(c, env))
  {
    hide Decode, Fits, ValidTable;
    assert BondsOf(CapsChanged(c, env).dials) == BondsOf(c.dials);
  }

  lemma FreshBonds(recs: seq<Bond>)
    ensures BondsOf(FreshDials(recs)) == recs
  {
  }

  lemma {:induction false} InstallWorld(c: Core, recs: seq<Bond>, k: nat, env: Env)
    requires k <= |recs|
    ensures var r := InstallPeers(c, recs, k, env).0;
            r == c.(world := c.world.(peers := r.world.peers))
    decreases |recs| - k
  {
    if k < |recs| && k != env.failAt {
      InstallWorld(AddPeer(c, recs[k].mac, Keyed(recs[k].lmk), true), recs, k + 1, env);
    }
  }

  // A start loads the stored table.
  lemma StartTable(c: Core, env: Env)
    requires Table(c) && !c.started
    ensures Table(Start(c, env)) && Untouched(c, Start(c, env))
  {
    hide Decode, ValidTable, InstallPeers, FreshDials, BondsOf;
    var c1 := c.(ownMac := if env.ownMac.Some? then env.ownMac.value else []);
    var recs := Durable(c.world);
    FreshBonds(recs);
    InstallWorld(c1.(dials := FreshDials(recs)), recs, 0, env);
    assert c.dials == [] ==> BondsOf(c.dials) == [];
  }

  lemma PowerLossTable(c: Core, r: Core, saved: bool, shown: nat)
    requires Table(c) && Table(r)
    ensures Table(PowerLoss(c, r, saved, shown))
    ensures Durable(PowerLoss(c, r, saved, shown).world) == Durable((if saved then r else c).world)
  {
    hide Decode, ValidTable, Fits;
  }

  lemma ApplyTable(c: Core, op: Op, crypto: Crypto, env: Env)
    requires Table(c) && AllShaped(c.dials)
    ensures var r := Apply(c, op, crypto, env);
            Table(r) && (Untouched(c, r) || Changes(c, op, env, r))
  {
    hide Table, Wrote, OnRecv, Tick, PairStart, PairCancel, ForgetDial, ForgetAll, CapsChanged, Start, Find, BondsOf, Durable;
    match op
    case Recv(src, dst, data) => RecvTable(c, src, dst, data, crypto, env);
    case Loop => TickTable(c, env);
    case OpenPairing(window) => PairStartTable(c, window, env);
    case ClosePairing => PairCancelTable(c, env);
    case Forget(mac) =>
      ForgetTable(c, mac, env);
      var i := Find(c.dials, mac);
      if i >= 0 && Wrote(c, ForgetDial(c, mac, env).0, Without(c, i)) {
        WroteDurable(c, ForgetDial(c, mac, env).0, Without(c, i));
      }
    case ForgetEvery =>
      ForgetAllTable(c, env);
      if Wrote(c, ForgetAll(c, env).0, []) {
        WroteDurable(c, ForgetAll(c, env).0, []);
      }
    case NewCaps => CapsTable(c, env);
    case StartUp =>
      if !c.started {
        StartTable(c, env);
      }
  }
}
