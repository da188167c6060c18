// The replay guard over whole runs: which frames it stops, when it starts for a dial, and that it never loosens.
module LinkGuard {
  import opened Words
  import opened Bonds
  import opened LinkState
  import opened WifiSession
  import opened LinkSpec
  import opened LinkFrame
  import opened LinkRun
  import opened LinkTable
  import opened LinkHistory
  import PairAuth

  // Every slot of this dial is latched, durably or for this boot.
  predicate Enforcing(c: Core, mac: seq<u8>) {
    forall i :: 0 <= i < |c.dials| && c.dials[i].bond.mac == mac ==> Latched(c.dials[i].bond) || c.dials[i].epochSeen
  }

  // Frames that must echo the epoch even from a dial that never did: session packets, and room packets from v5 on.
  predicate Strict(kind: u8, ver: u8, data: seq<u8>) {
    kind == 17 || (kind == 10 && |data| != 4) || ((kind == 12 || kind == 15) && ver >= 5)
  }

  // Nothing happened, or the dial was marked for a STATE that tells it the epoch.
  predicate Inert(c: Core, src: seq<u8>, r: Core) {
    r == c || (Find(c.dials, src) >= 0 && r == Pend(c, Find(c.dials, src)))
  }

  lemma GuardRejects(c: Core, i: nat, e: u16, env: Env)
    requires i < |c.dials| && c.epoch != 0 && e != c.epoch
    ensures WifiEpochOk(c, i, e, env) == (Pend(c, i), false)
    ensures Latched(c.dials[i].bond) || c.dials[i].epochSeen ==> EpochOk(c, i, e, env) == (Pend(c, i), false)
  {
  }

  lemma RoomGuardRejects(c: Core, i: nat, ver: u8, complete: bool, e: u16, env: Env)
    requires i < |c.dials| && c.epoch != 0 && (if ver >= 5 && complete then e else 0) != c.epoch
    requires Latched(c.dials[i].bond) || c.dials[i].epochSeen || ver >= 5
    ensures RoomEpochOk(c, i, ver, complete, e, env) == (Pend(c, i), false)
  {
  }

  lemma StaleDialFrame(c: Core, i: nat, kind: u8, ver: u8, data: seq<u8>, env: Env)
    requires i < |c.dials| && AllShaped(c.dials) && Guarded(kind)
    requires c.epoch != 0 && EchoOf(kind, ver, data) != c.epoch
    requires Latched(c.dials[i].bond) || c.dials[i].epochSeen || Strict(kind, ver, data)
    ensures var r := OnDialFrame(c, i, kind, ver, data, env);
            r == c || r == Pend(c, i)
  {
    hide EpochOk, WifiEpochOk, RoomEpochOk, QueueSetup, CancelSession, Seen, SensorReport, SourceChoice, EchoStateAll, Emit, Pend;
    GuardRejects(c, i, EchoOf(kind, ver, data), env);
    if kind == 12 {
      RoomGuardRejects(c, i, ver, |data| >= 11, U16(data, 9), env);
    } else if kind == 15 {
      RoomGuardRejects(c, i, ver, |data| >= 18, U16(data, 16), env);
    }
  }

  // A command, setup, cancel, source choice or sensor report that does not echo this boot's epoch has no effect when
  // it comes from a dial the guard holds for, or is of a kind the guard always holds for.
  lemma StaleFrame(c: Core, src: seq<u8>, dst: seq<u8>, data: seq<u8>, crypto: Crypto, env: Env)
    requires AllShaped(c.dials) && c.epoch != 0
    requires |data| >= 2 && Guarded(data[0]) && EchoOf(data[0], data[1], data) != c.epoch
    requires Enforcing(c, src) || Strict(data[0], data[1], data)
    ensures Inert(c, src, OnRecv(c, src, dst, data, crypto, env))
  {
    hide OnDialFrame, EchoOf, Pend, Strict, OnPairReq, OnPairConfirm;
    var i := Find(c.dials, src);
    if i >= 0 {
      StaleDialFrame(c, i, data[0], data[1], data, env);
    }
  }

  // --- When it starts ---

  // A first correct echo turns the guard on for this boot even when it cannot be saved; the packet is then dropped.
  lemma EchoEnforces(c: Core, i: nat, env: Env)
    requires i < |c.dials| && c.epoch != 0
    ensures var (r, ok) := EpochOk(c, i, c.epoch, env);
            && (Latched(r.dials[i].bond) || r.dials[i].epochSeen)
            && (!Latched(r.dials[i].bond) ==> !ok)
            && (ok <==> Latched(c.dials[i].bond) || Saves(BondsOf(c.dials), env.save))
  {
    var d := c.dials[i];
    LatchLatches(d.bond);
    var recs := BondsOf(c.dials)[i := Latch(d.bond)];
    hide BondsOf, Latch, Latched;
    if !Latched(d.bond) && Saves(recs, env.save) {
      SavedLatch(c, i, recs);
    }
    hide Store, SetDial;
  }

  lemma LatchLatches(b: Bond)
    ensures Latched(Latch(b))
  {
  }

  lemma SavedLatch(c: Core, i: nat, recs: seq<Bond>)
    requires i < |c.dials| && |recs| <= MAX_DIALS
    ensures forall d :: SetDial(Store(c, recs), i, d).dials[i] == d
  {
  }

  lemma KeptEnforcing(c: Core, r: Core, mac: seq<u8>)
    requires KeepsTable(c, r) && Enforcing(c, mac)
    ensures Enforcing(r, mac)
  {
  }

  lemma EpochEnforcing(c: Core, i: nat, e: u16, env: Env, mac: seq<u8>)
    requires i < |c.dials| && Enforcing(c, mac)
    ensures Enforcing(EpochOk(c, i, e, env).0, mac)
  {
    hide EpochOk;
    EpochOutcome(c, i, e, env);
    LatchLatches(c.dials[i].bond);
  }

  lemma DistinctEnforcing(c: Core, i: nat)
    requires Table(c) && i < |c.dials| && (Latched(c.dials[i].bond) || c.dials[i].epochSeen)
    ensures Enforcing(c, c.dials[i].bond.mac)
  {
    hide Durable, CandidateOk, AllSized;
    assert forall j :: 0 <= j < |c.dials| ==> c.dials[j].bond == BondsOf(c.dials)[j];
  }

  // From the first frame with a correct echo on, the guard holds for the dial that sent it.
  lemma EchoFrameEnforces(c: Core, i: nat, kind: u8, ver: u8, data: seq<u8>, env: Env)
    requires i < |c.dials| && AllShaped(c.dials) && Table(c) && c.started && Guarded(kind) && Echoes(kind, ver, data)
    requires c.epoch != 0 && EchoOf(kind, ver, data) == c.epoch
    ensures Enforcing(OnDialFrame(c, i, kind, ver, data, env), c.dials[i].bond.mac)
  {
    hide OnDialFrame, EpochOk, EchoOf, Echoes, Guarded, KeepsTable, Table, Enforcing;
    var m := EpochOk(c, i, c.epoch, env).0;
    DialFrameKeeps(c, i, kind, ver, data, env);
    EchoEnforces(c, i, env);
    EpochTable(c, i, c.epoch, env);
    DistinctEnforcing(m, i);
    EpochMac(c, i, c.epoch, env);
    KeptEnforcing(m, OnDialFrame(c, i, kind, ver, data, env), c.dials[i].bond.mac);
  }

  lemma EpochMac(c: Core, i: nat, e: u16, env: Env)
    requires i < |c.dials|
    ensures EpochOk(c, i, e, env).0.dials[i].bond.mac == c.dials[i].bond.mac
  {
    hide EpochOk;
    EpochOutcome(c, i, e, env);
  }

  // --- That it never loosens ---

  lemma SameDialsEnforcing(c: Core, r: Core, mac: seq<u8>)
    requires r.dials == c.dials && Enforcing(c, mac)
    ensures Enforcing(r, mac)
  {
  }

  lemma CommitEnforcing(c: Core, env: Env, mac: seq<u8>)
    requires Enforcing(c, mac)
    ensures Enforcing(PairCommit(c, env), mac)
  {
    hide Store, CleanupCandidate, Find, ZeroBytes;
  }

  lemma ConfirmEnforcing(c: Core, src: seq<u8>, data: seq<u8>, env: Env, mac: seq<u8>)
    requires Enforcing(c, mac)
    ensures Enforcing(OnPairConfirm(c, src, data, env), mac)
  {
    hide PairCommit, Find, PairAuth.Make, PairAuth.Proves;
    CommitEnforcing(c, env, mac);
  }

  lemma RecvEnforcing(c: Core, src: seq<u8>, dst: seq<u8>, data: seq<u8>, crypto: Crypto, env: Env, mac: seq<u8>)
    requires Enforcing(c, mac) && AllShaped(c.dials)
    ensures Enforcing(OnRecv(c, src, dst, data, crypto, env), mac)
  {
    hide OnPairReq, OnPairConfirm, OnDialFrame, Enforcing, KeepsTable, Guarded, EchoOf, Echoes, EpochOk;
    if |data| >= 2 {
      ConfirmEnforcing(c, src, data, env, mac);
      SameDialsEnforcing(c, OnPairReq(c, data, crypto, env), mac);
      var i := Find(c.dials, src);
      if i >= 0 {
        var r := OnDialFrame(c, i, data[0], data[1], data, env);
        DialFrameKeeps(c, i, data[0], data[1], data, env);
        if KeepsTable(c, r) {
          KeptEnforcing(c, r, mac);
        } else {
          var e := EchoOf(data[0], data[1], data);
          EpochEnforcing(c, i, e, env, mac);
          KeptEnforcing(EpochOk(c, i, e, env).0, r, mac);
        }
      }
    }
  }

  lemma ForgetEnforcing(c: Core, gone: seq<u8>, env: Env, mac: seq<u8>)
    requires Enforcing(c, mac)
    ensures Enforcing(ForgetDial(c, gone, env).0, mac)
  {
    hide Enforcing, PairCancel, Find, Without, Forgotten;
    CancelEnforcing(c, env, mac);
    var i := Find(c.dials, gone);
    if i >= 0 && Saves(Without(c, i), env.save) {
      ForgottenIs(c, i, gone);
      FewerEnforcing(c, i, Forgotten(c, i, gone), mac);
      CancelEnforcing(Forgotten(c, i, gone), env, mac);
    }
  }

  lemma ForgetAllEnforcing(c: Core, env: Env, mac: seq<u8>)
    requires Enforcing(c, mac)
    ensures Enforcing(ForgetAll(c, env).0, mac)
  {
    hide Enforcing, PairCancel, Cleared, DelPeers, Store;
    if env.save {
      NoneEnforcing(DelPeers(Store(c, []), c.dials), mac);
      CancelEnforcing(Cleared(DelPeers(Store(c, []), c.dials)), env, mac);
    }
  }

  lemma CancelEnforcing(c: Core, env: Env, mac: seq<u8>)
    requires Enforcing(c, mac)
    ensures Enforcing(PairCancel(c, env), mac)
  {
    hide Enforcing, PairCancel;
    PairCancelDials(c, env);
    SameDialsEnforcing(c, PairCancel(c, env), mac);
  }

  lemma FewerEnforcing(c: Core, i: nat, r: Core, mac: seq<u8>)
    requires Enforcing(c, mac) && i < |c.dials| && r.dials == c.dials[..i] + c.dials[i + 1..]
    ensures Enforcing(r, mac)
  {
    hide Latched;
  }

  lemma NoneEnforcing(c: Core, mac: seq<u8>)
    ensures Enforcing(Cleared(c), mac)
  {
  }

  lemma TickEnforcing(c: Core, env: Env, mac: seq<u8>)
    requires Enforcing(c, mac) && AllShaped(c.dials)
    ensures Enforcing(Tick(c, env), mac)
  {
    hide Tick, PairTimeouts, KeepsTable, Enforcing;
    TickKeeps(c, env);
    var m := if c.started then PairTimeouts(c, env) else c;
    SameDialsEnforcing(c, m, mac);
    KeptEnforcing(m, Tick(c, env), mac);
  }

  // Within a boot the guard, once it holds for a dial, holds for it until the power is lost, even after a forget and
  // a new pairing.
  lemma ApplyEnforcing(c: Core, op: Op, crypto: Crypto, env: Env, mac: seq<u8>)
    requires c.started && Enforcing(c, mac) && AllShaped(c.dials)
    ensures Enforcing(Apply(c, op, crypto, env), mac)
  {
    hide OnRecv, Tick, PairStart, PairCancel, ForgetDial, ForgetAll, Enforcing;
    match op
    case Recv(src, dst, data) => RecvEnforcing(c, src, dst, data, crypto, env, mac);
    case Loop => TickEnforcing(c, env, mac);
    case OpenPairing(window) =>
      PairingShaped(c, window, env);
      SameDialsEnforcing(c, PairStart(c, window, env), mac);
    case ClosePairing =>
      PairingShaped(c, 0, env);
      SameDialsEnforcing(c, PairCancel(c, env), mac);
    case Forget(gone) => ForgetEnforcing(c, gone, env, mac);
    case ForgetEvery => ForgetAllEnforcing(c, env, mac);
    case NewCaps => CapsEnforcing(c, env, mac);
    case StartUp =>
  }

  lemma CapsEnforcing(c: Core, env: Env, mac: seq<u8>)
    requires Enforcing(c, mac)
    ensures Enforcing(CapsChanged(c, env), mac)
  {
  }

  // --- Over whole runs ---

  // Still up, in the same boot
  predicate SameBoot(c: Core, r: Core) {
    r.started == c.started && r.epoch == c.epoch && r.ownMac == c.ownMac
  }

  lemma PairingBoot(c: Core, window: u32, env: Env)
    ensures SameBoot(c, PairStart(c, window, env)) && SameBoot(c, PairCancel(c, env)) && SameBoot(c, PairTimeouts(c, env))
  {
    hide Find;
  }

  lemma PairReqBoot(c: Core, data: seq<u8>, crypto: Crypto, env: Env)
    ensures SameBoot(c, OnPairReq(c, data, crypto, env))
  {
    hide DeriveLmk, Find, ParseRequest;
  }

  lemma CommitBoot(c: Core, env: Env)
    ensures SameBoot(c, PairCommit(c, env))
  {
    hide Find, BondsOf, Encode, Candidate;
  }

  lemma ConfirmBoot(c: Core, src: seq<u8>, data: seq<u8>, env: Env)
    ensures SameBoot(c, OnPairConfirm(c, src, data, env))
  {
    hide PairCommit, Find, PairAuth.Make, PairAuth.Proves;
    CommitBoot(c, env);
  }

  lemma RecvBoot(c: Core, src: seq<u8>, dst: seq<u8>, data: seq<u8>, crypto: Crypto, env: Env)
    requires AllShaped(c.dials)
    ensures SameBoot(c, OnRecv(c, src, dst, data, crypto, env))
  {
    hide OnPairReq, OnPairConfirm, OnDialFrame, EpochOk, Guarded, EchoOf, Echoes;
    if |data| >= 2 {
      PairReqBoot(c, data, crypto, env);
      ConfirmBoot(c, src, data, env);
      var i := Find(c.dials, src);
      if i >= 0 {
        DialFrameKeeps(c, i, data[0], data[1], data, env);
        EpochBoot(c, i, EchoOf(data[0], data[1], data), env);
      }
    }
  }

  lemma EpochBoot(c: Core, i: nat, e: u16, env: Env)
    requires i < |c.dials|
    ensures SameBoot(c, EpochOk(c, i, e, env).0)
  {
    hide BondsOf, Encode;
  }

  lemma CancelBoot(c: Core, m: Core, env: Env)
    requires SameBoot(c, m)
    ensures SameBoot(c, PairCancel(m, env))
  {
    hide PairCancel, PairStart, PairTimeouts;
    PairingBoot(m, 0, env);
  }

  lemma ForgetBoot(c: Core, gone: seq<u8>, env: Env)
    ensures SameBoot(c, ForgetDial(c, gone, env).0)
  {
    hide PairCancel, Find, Without, Forgotten;
    CancelBoot(c, c, env);
    var i := Find(c.dials, gone);
    if i >= 0 && Saves(Without(c, i), env.save) {
      ForgottenIs(c, i, gone);
      CancelBoot(c, Forgotten(c, i, gone), env);
    }
  }

  lemma ForgetAllBoot(c: Core, env: Env)
    ensures SameBoot(c, ForgetAll(c, env).0)
  {
    hide PairCancel, DelPeers, Encode;
    if env.save {
      var c2 := DelPeers(Store(c, []), c.dials);
      DelPeersWorld(Store(c, []), c.dials);
      CancelBoot(c, Cleared(c2), env);
    }
  }

  lemma ApplyBoot(c: Core, op: Op, crypto: Crypto, env: Env)
    requires c.started && AllShaped(c.dials)
    ensures SameBoot(c, Apply(c, op, crypto, env))
  {
    hide OnRecv, Tick, PairStart, PairCancel, ForgetDial, ForgetAll, PairTimeouts;
    match op
    case Recv(src, dst, data) => RecvBoot(c, src, dst, data, crypto, env);
    case Loop =>
      PairingBoot(c, 0, env);
      TickKeeps(c, env);
    case OpenPairing(window) => PairingBoot(c, window, env);
    case ClosePairing => PairingBoot(c, 0, env);
    case Forget(gone) => ForgetBoot(c, gone, env);
    case ForgetEvery => ForgetAllBoot(c, env);
    case NewCaps =>
    case StartUp =>
  }

  // Once the guard holds for a dial, whether or not its latch could be saved, then through the rest of the boot, and
  // however many calls it takes, its frames with another epoch stay without effect.
  lemma {:induction false} GuardedBoot(c: Core, steps: seq<Step>, crypto: Crypto, mac: seq<u8>)
    requires c.started && Enforcing(c, mac) && AllShaped(c.dials)
    requires forall k :: 0 <= k < |steps| ==> steps[k].Done?
    ensures var r := Run(c, steps, crypto);
            Enforcing(r, mac) && SameBoot(c, r)
    decreases |steps|
  {
    hide Apply, Enforcing;
    if steps != [] {
      var c1 := After(c, steps[0], crypto);
      ApplyEnforcing(c, steps[0].op, crypto, steps[0].env, mac);
      ApplyBoot(c, steps[0].op, crypto, steps[0].env);
      AfterShaped(c, steps[0], crypto);
      GuardedBoot(c1, steps[1..], crypto, mac);
    }
  }

  lemma DurableEnforcing(c: Core, mac: seq<u8>)
    requires Table(c) && c.started
    requires exists j :: 0 <= j < |Durable(c.world)| && Durable(c.world)[j].mac == mac && Latched(Durable(c.world)[j])
    ensures Enforcing(c, mac)
  {
    hide Durable, CandidateOk, AllSized, Latched;
    assert forall j :: 0 <= j < |c.dials| ==> c.dials[j].bond == BondsOf(c.dials)[j];
  }

  // Once the latch is durable, then in every later boot with an epoch, until the dial is forgotten, a recorded frame
  // with another epoch has no effect, whatever re-pairings, power losses and failed saves come between.
  lemma ReplayDead(c0: Core, steps: seq<Step>, crypto: Crypto, j: nat, dst: seq<u8>, data: seq<u8>, env: Env)
    requires Table(c0) && AllShaped(c0.dials) && j < |Durable(c0.world)| && Latched(Durable(c0.world)[j])
    requires forall k :: 0 <= k < |steps| ==> !Forgets(steps[k], Durable(c0.world)[j].mac)
    requires var c := Run(c0, steps, crypto);
             && c.started && c.epoch != 0
             && |data| >= 2 && Guarded(data[0]) && EchoOf(data[0], data[1], data) != c.epoch
    ensures var c := Run(c0, steps, crypto);
            var mac := Durable(c0.world)[j].mac;
            Inert(c, mac, OnRecv(c, mac, dst, data, crypto, env))
  {
    hide Table, Run, Durable, Forgets, Enforcing, Guarded, EchoOf, Inert, OnRecv, Latched;
    var c := Run(c0, steps, crypto);
    var mac := Durable(c0.world)[j].mac;
    RunTable(c0, steps, crypto);
    Pinned(c0, steps, crypto, mac);
    DurableEnforcing(c, mac);
    StaleFrame(c, mac, dst, data, crypto, env);
  }
}
