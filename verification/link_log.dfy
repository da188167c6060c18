// What has happened stays in the log: every step of a run only adds to it, a power loss included; and a dial's session
// history is wiped only by a power loss, a forget, or a commit that pairs it again.
module LinkLog {
  import opened Words
  import opened Bonds
  import opened LinkState
  import opened WifiSession
  import opened LinkSpec
  import opened LinkFrame
  import opened LinkRun
  import opened LinkPairing
  import opened LinkTable
  import opened LinkHistory
  import PairAuth

  lemma GrowsRefl(log: seq<Event>)
    ensures Grows(log, log)
  {
  }

  lemma DisownGrows(c: Core, mac: seq<u8>)
    ensures Grows(c.world.log, Disown(c, mac).world.log)
  {
  }

  // Closing a handshake says nothing.
  lemma PairingLog(c: Core, window: u32, env: Env)
    ensures PairStart(c, window, env).world.log == c.world.log
    ensures PairCancel(c, env).world.log == c.world.log && PairTimeouts(c, env).world.log == c.world.log
  {
    hide Find;
  }

  lemma EndLog(c: Core, result: PairResult, env: Env)
    ensures PairEnd(CleanupCandidate(c, env), result).world.log == c.world.log && PairEnd(c, result).world.log == c.world.log
  {
    hide Find;
  }

  lemma RefusedLog(c: Core, data: seq<u8>, crypto: Crypto, env: Env, r: Core)
    requires Refused(c, data, crypto, env, r)
    ensures r.world.log == c.world.log
  {
    hide Acceptable, WithCandidate, PairEnd, CleanupCandidate;
    var p := WithCandidate(c, data, crypto);
    EndLog(DelPeer(c.(pairing := p), p.candMac), Cancelled, env);
  }

  lemma PairReqGrows(c: Core, data: seq<u8>, crypto: Crypto, env: Env)
    ensures Grows(c.world.log, OnPairReq(c, data, crypto, env).world.log)
  {
    hide OnPairReq, Acceptable, WithCandidate, Refused;
    var r := OnPairReq(c, data, crypto, env);
    PairReqOutcome(c, data, crypto, env);
    if Refused(c, data, crypto, env, r) {
      RefusedLog(c, data, crypto, env, r);
    }
  }

  lemma CommitGrows(c: Core, env: Env)
    ensures Grows(c.world.log, PairCommit(c, env).world.log)
  {
    hide Find, BondsOf, Candidate, CleanupCandidate, Encode;
    EndLog(c, StorageError, env);
    CleanupLog(c, env);
  }

  lemma CleanupLog(c: Core, env: Env)
    ensures CleanupCandidate(c, env).world.log == c.world.log
  {
    hide Find;
  }

  lemma ConfirmGrows(c: Core, src: seq<u8>, data: seq<u8>, env: Env)
    ensures Grows(c.world.log, OnPairConfirm(c, src, data, env).world.log)
  {
    hide PairCommit, Find, PairAuth.Make, PairAuth.Proves;
    CommitGrows(c, env);
  }

  lemma EpochLog(c: Core, i: nat, e: u16, env: Env)
    requires i < |c.dials|
    ensures EpochOk(c, i, e, env).0.world.log == c.world.log
  {
    hide BondsOf, Encode, Latch, Latched;
  }

  lemma DialFrameGrows(c: Core, i: nat, kind: u8, ver: u8, data: seq<u8>, env: Env)
    requires i < |c.dials| && AllShaped(c.dials)
    ensures Grows(c.world.log, OnDialFrame(c, i, kind, ver, data, env).world.log)
  {
    hide OnDialFrame, EpochOk, Guarded, EchoOf, Echoes, Grows;
    DialFrameKeeps(c, i, kind, ver, data, env);
    EpochLog(c, i, EchoOf(kind, ver, data), env);
  }

  lemma RecvGrows(c: Core, src: seq<u8>, dst: seq<u8>, data: seq<u8>, crypto: Crypto, env: Env)
    requires AllShaped(c.dials)
    ensures Grows(c.world.log, OnRecv(c, src, dst, data, crypto, env).world.log)
  {
    hide OnPairReq, OnPairConfirm, OnDialFrame, Grows;
    GrowsRefl(c.world.log);
    if |data| >= 2 {
      PairReqGrows(c, data, crypto, env);
      ConfirmGrows(c, src, data, env);
      var i := Find(c.dials, src);
      if i >= 0 {
        DialFrameGrows(c, i, data[0], data[1], data, env);
      }
    }
  }

  lemma TickGrows(c: Core, env: Env)
    requires AllShaped(c.dials)
    ensures Grows(c.world.log, Tick(c, env).world.log)
  {
    hide Tick, PairTimeouts, Grows;
    PairingLog(c, 0, env);
    TickKeeps(c, env);
  }

  lemma ForgetGrows(c: Core, mac: seq<u8>, env: Env)
    ensures Grows(c.world.log, ForgetDial(c, mac, env).0.world.log)
  {
    hide Find, Without, Forgotten, PairCancel, PairStart, PairTimeouts, Grows, Disown;
    GrowsRefl(c.world.log);
    PairingLog(c, 0, env);
    var i := Find(c.dials, mac);
    if i >= 0 && Saves(Without(c, i), env.save) {
      ForgottenIs(c, i, mac);
      DisownGrows(c, mac);
      PairingLog(Forgotten(c, i, mac), 0, env);
    }
  }

  lemma ForgetAllGrows(c: Core, env: Env)
    ensures Grows(c.world.log, ForgetAll(c, env).0.world.log)
  {
    hide PairCancel, DelPeers, Encode, PairStart, PairTimeouts;
    if env.save {
      var c2 := DelPeers(Store(c, []), c.dials);
      DelPeersWorld(Store(c, []), c.dials);
      PairingLog(Cleared(c2), 0, env);
    }
  }

  lemma StartLog(c: Core, env: Env)
    ensures Start(c, env).world.log == c.world.log
  {
    hide InstallPeers, FreshDials, Decode;
    if env.ownMac.Some? && c.world.store.Some? && Decode(c.world.store.value).Some? {
      var recs := Decode(c.world.store.value).value;
      InstallWorld(c.(ownMac := env.ownMac.value, dials := FreshDials(recs)), recs, 0, env);
    }
  }

  lemma ApplyGrows(c: Core, op: Op, crypto: Crypto, env: Env)
    requires AllShaped(c.dials)
    ensures Grows(c.world.log, Apply(c, op, crypto, env).world.log)
  {
    hide OnRecv, Tick, PairStart, PairCancel, PairTimeouts, ForgetDial, ForgetAll, Start, Grows;
    GrowsRefl(c.world.log);
    match op
    case Recv(src, dst, data) => RecvGrows(c, src, dst, data, crypto, env);
    case Loop => TickGrows(c, env);
    case OpenPairing(window) => PairingLog(c, window, env);
    case ClosePairing => PairingLog(c, 0, env);
    case Forget(mac) => ForgetGrows(c, mac, env);
    case ForgetEvery => ForgetAllGrows(c, env);
    case NewCaps =>
    case StartUp => StartLog(c, env);
  }

  lemma PowerLossGrows(c: Core, r: Core, saved: bool, shown: nat)
    requires Grows(c.world.log, r.world.log)
    ensures Grows(c.world.log, PowerLoss(c, r, saved, shown).world.log)
  {
    var n := |c.world.log| + shown;
    if n <= |r.world.log| {
      assert r.world.log[..n][..|c.world.log|] == r.world.log[..|c.world.log|];
    }
  }

  lemma AfterGrows(c: Core, step: Step, crypto: Crypto)
    requires AllShaped(c.dials)
    ensures Grows(c.world.log, After(c, step, crypto).world.log)
  {
    hide Apply, PowerLoss, Grows;
    ApplyGrows(c, step.op, crypto, step.env);
    if step.Cut? {
      PowerLossGrows(c, Apply(c, step.op, crypto, step.env), step.saved, step.shown);
    }
  }

  lemma {:induction false} RunGrows(c: Core, steps: seq<Step>, crypto: Crypto)
    requires AllShaped(c.dials)
    ensures Grows(c.world.log, Run(c, steps, crypto).world.log)
    decreases |steps|
  {
    hide After, Grows;
    GrowsRefl(c.world.log);
    if steps != [] {
      AfterGrows(c, steps[0], crypto);
      AfterShaped(c, steps[0], crypto);
      RunGrows(After(c, steps[0], crypto), steps[1..], crypto);
      GrowsTrans(c.world.log, After(c, steps[0], crypto).world.log, Run(c, steps, crypto).world.log);
    }
  }

  // --- Wiping ---

  predicate Wipes(e: Event, mac: seq<u8>) {
    e.PowerUp? || e.AllWiped? || e == Wiped(mac)
  }

  // Nothing that has happened since wiped this dial's history.
  predicate CalmFor(was: seq<Event>, now: seq<Event>, mac: seq<u8>) {
    Grows(was, now) && forall k :: |was| <= k < |now| ==> !Wipes(now[k], mac)
  }

  // The steps that may wipe it: a power loss, a forget of it or of all that reached the store, a proof that pairs it again
  predicate Clears(c: Core, step: Step, mac: seq<u8>) {
    || step.Cut?
    || Forgets(step, mac)
    || (step.env.save && c.pairing.candMac == mac && IsCommit(c, step.op, Proposed(c)))
  }

  lemma CalmIs(was: seq<Event>, now: seq<Event>, mac: seq<u8>)
    requires Calm(was, now)
    ensures CalmFor(was, now, mac)
  {
  }

  lemma CalmForTrans(a: seq<Event>, b: seq<Event>, c: seq<Event>, mac: seq<u8>)
    requires CalmFor(a, b, mac) && CalmFor(b, c, mac)
    ensures CalmFor(a, c, mac)
  {
    GrowsTrans(a, b, c);
    assert forall k :: |a| <= k < |b| ==> c[k] == c[..|b|][k];
  }

  lemma SameCalm(log: seq<Event>, mac: seq<u8>)
    ensures CalmFor(log, log, mac)
  {
  }

  lemma PairReqCalm(c: Core, data: seq<u8>, crypto: Crypto, env: Env, mac: seq<u8>)
    ensures CalmFor(c.world.log, OnPairReq(c, data, crypto, env).world.log, mac)
  {
    hide OnPairReq, Acceptable, WithCandidate, Refused;
    var r := OnPairReq(c, data, crypto, env);
    PairReqOutcome(c, data, crypto, env);
    if Refused(c, data, crypto, env, r) {
      RefusedLog(c, data, crypto, env, r);
    }
  }

  lemma DisownCalm(c: Core, gone: seq<u8>, mac: seq<u8>)
    requires gone != mac
    ensures CalmFor(c.world.log, Disown(c, gone).world.log, mac)
  {
  }

  lemma CommitCalm(c: Core, env: Env, mac: seq<u8>)
    requires env.save ==> c.pairing.candMac != mac
    ensures CalmFor(c.world.log, PairCommit(c, env).world.log, mac)
  {
    hide Find, BondsOf, Candidate, CleanupCandidate, Encode, Disown, CalmFor;
    SameCalm(c.world.log, mac);
    EndLog(c, StorageError, env);
    CleanupLog(c, env);
    if env.save {
      forall m: Core
        ensures CalmFor(m.world.log, Disown(m, c.pairing.candMac).world.log, mac)
      {
        DisownCalm(m, c.pairing.candMac, mac);
      }
    }
  }

  lemma ConfirmCalm(c: Core, src: seq<u8>, data: seq<u8>, env: Env, mac: seq<u8>)
    requires (env.save && c.pairing.candMac == mac && c.pairing.phase.Confirm? && src == mac) ==>
               !PairAuth.Proves(data, PairAuth.Make(19, c.pairing.candLmk, src, c.ownMac))
    ensures CalmFor(c.world.log, OnPairConfirm(c, src, data, env).world.log, mac)
  {
    hide PairCommit, Find, PairAuth.Make, PairAuth.Proves, CalmFor;
    SameCalm(c.world.log, mac);
    var candidate := c.pairing.phase.Confirm? && src == c.pairing.candMac;
    var c1 := if candidate then PairCommit(c, env) else c;
    if candidate && PairAuth.Proves(data, PairAuth.Make(19, c.pairing.candLmk, src, c.ownMac)) {
      CommitCalm(c, env, mac);
    }
    AckCalm(c.world.log, c1.world.log, src, mac);
  }

  lemma AckCalm(was: seq<Event>, now: seq<Event>, src: seq<u8>, mac: seq<u8>)
    ensures forall tag :: CalmFor(was, now, mac) ==> CalmFor(was, now + [Sent(src, PairAck(tag))], mac)
  {
  }

  lemma DialFrameCalm(c: Core, i: nat, kind: u8, ver: u8, data: seq<u8>, env: Env, mac: seq<u8>)
    requires i < |c.dials| && AllShaped(c.dials)
    ensures CalmFor(c.world.log, OnDialFrame(c, i, kind, ver, data, env).world.log, mac)
  {
    hide OnDialFrame, EpochOk, Guarded, EchoOf, Echoes, Calm, CalmFor;
    DialFrameKeeps(c, i, kind, ver, data, env);
    EpochLog(c, i, EchoOf(kind, ver, data), env);
    CalmIs(c.world.log, OnDialFrame(c, i, kind, ver, data, env).world.log, mac);
  }

  lemma RecvCalm(c: Core, src: seq<u8>, dst: seq<u8>, data: seq<u8>, crypto: Crypto, env: Env, mac: seq<u8>)
    requires AllShaped(c.dials) && !Clears(c, Done(Recv(src, dst, data), env), mac)
    ensures CalmFor(c.world.log, OnRecv(c, src, dst, data, crypto, env).world.log, mac)
  {
    hide OnPairReq, OnPairConfirm, OnDialFrame, CalmFor, PairAuth.Make, PairAuth.Proves, Proposed;
    SameCalm(c.world.log, mac);
    if |data| >= 2 {
      PairReqCalm(c, data, crypto, env, mac);
      if data[0] == 19 && dst == c.ownMac {
        ConfirmCalm(c, src, data, env, mac);
      }
      var i := Find(c.dials, src);
      if i >= 0 {
        DialFrameCalm(c, i, data[0], data[1], data, env, mac);
      }
    }
  }

  lemma TickCalm(c: Core, env: Env, mac: seq<u8>)
    requires AllShaped(c.dials)
    ensures CalmFor(c.world.log, Tick(c, env).world.log, mac)
  {
    hide Tick, PairTimeouts, Calm, CalmFor;
    PairingLog(c, 0, env);
    TickKeeps(c, env);
    CalmIs(c.world.log, Tick(c, env).world.log, mac);
  }

  lemma ForgetCalm(c: Core, gone: seq<u8>, env: Env, mac: seq<u8>)
    requires env.save ==> gone != mac
    ensures CalmFor(c.world.log, ForgetDial(c, gone, env).0.world.log, mac)
  {
    hide Find, Without, Forgotten, PairCancel, PairStart, PairTimeouts, CalmFor, Disown;
    SameCalm(c.world.log, mac);
    PairingLog(c, 0, env);
    var i := Find(c.dials, gone);
    if i >= 0 && Saves(Without(c, i), env.save) {
      ForgottenIs(c, i, gone);
      DisownCalm(c, gone, mac);
      PairingLog(Forgotten(c, i, gone), 0, env);
    }
  }

  // A step that does not clear a dial's history leaves no wipe of it in the log.
  lemma StepCalm(c: Core, step: Step, crypto: Crypto, mac: seq<u8>)
    requires AllShaped(c.dials) && !Clears(c, step, mac)
    ensures CalmFor(c.world.log, After(c, step, crypto).world.log, mac)
  {
    hide OnRecv, Tick, PairStart, PairCancel, PairTimeouts, ForgetDial, Start, CalmFor, IsCommit;
    SameCalm(c.world.log, mac);
    match step.op
    case Recv(src, dst, data) => RecvCalm(c, src, dst, data, crypto, step.env, mac);
    case Loop => TickCalm(c, step.env, mac);
    case OpenPairing(window) => PairingLog(c, window, step.env);
    case ClosePairing => PairingLog(c, 0, step.env);
    case Forget(gone) => ForgetCalm(c, gone, step.env, mac);
    case ForgetEvery =>
    case NewCaps =>
    case StartUp => StartLog(c, step.env);
  }

  // No step of the run clears the dial's history.
  predicate Undisturbed(c: Core, steps: seq<Step>, crypto: Crypto, mac: seq<u8>)
    requires AllShaped(c.dials)
    decreases |steps|
  {
    hide After;
    steps != [] ==>
      && !Clears(c, steps[0], mac)
      && (AfterShaped(c, steps[0], crypto); Undisturbed(After(c, steps[0], crypto), steps[1..], crypto, mac))
  }

  lemma {:induction false} RunCalm(c: Core, steps: seq<Step>, crypto: Crypto, mac: seq<u8>)
    requires AllShaped(c.dials) && Undisturbed(c, steps, crypto, mac)
    ensures CalmFor(c.world.log, Run(c, steps, crypto).world.log, mac)
    decreases |steps|
  {
    hide After, CalmFor, Clears;
    SameCalm(c.world.log, mac);
    if steps != [] {
      StepCalm(c, steps[0], crypto, mac);
      AfterShaped(c, steps[0], crypto);
      RunCalm(After(c, steps[0], crypto), steps[1..], crypto, mac);
      CalmForTrans(c.world.log, After(c, steps[0], crypto).world.log, Run(c, steps, crypto).world.log, mac);
    }
  }
}
