// Runs of the controller core: every call a host can make, in any order, with any answers of the world, and with the
// power lost at any point.
module LinkRun {
  import opened Words
  import opened Bonds
  import opened LinkState
  import opened WifiSession
  import opened LinkSpec
  import opened LinkFrame
  import PairAuth

  datatype Op =
    | Recv(src: seq<u8>, dst: seq<u8>, data: seq<u8>)
    | Loop
    | OpenPairing(window: u32)
    | ClosePairing
    | Forget(mac: seq<u8>)
    | ForgetEvery
    | NewCaps
    | StartUp

  function Apply(c: Core, op: Op, crypto: Crypto, env: Env): Core
    requires AllShaped(c.dials)
  {
    match op
    case Recv(src, dst, data) => OnRecv(c, src, dst, data, crypto, env)
    case Loop => Tick(c, env)
    case OpenPairing(window) => PairStart(c, window, env)
    case ClosePairing => PairCancel(c, env)
    case Forget(mac) => ForgetDial(c, mac, env).0
    case ForgetEvery => ForgetAll(c, env).0
    case NewCaps => CapsChanged(c, env)
    case StartUp => if c.started then c else Start(c, env)
  }

  // A step is a call that returns, or one the power is lost in: the store then holds what it held before or after the
  // call, some of the call's events have happened, and everything else is gone.
  datatype Step = Done(op: Op, env: Env) | Cut(op: Op, env: Env, saved: bool, shown: nat)

  function PowerLoss(c: Core, r: Core, saved: bool, shown: nat): Core {
    var kept := if saved then r.world else c.world;
    var log := if |c.world.log| + shown <= |r.world.log| then r.world.log[..|c.world.log| + shown] else r.world.log;
    Reset(r.(world := World(kept.store, kept.capsStore, kept.writes, r.world.peers, log)))
  }

  function After(c: Core, step: Step, crypto: Crypto): Core
    requires AllShaped(c.dials)
  {
    var r := Apply(c, step.op, crypto, step.env);
    if step.Done? then r else PowerLoss(c, r, step.saved, step.shown)
  }

  lemma EpochAllShaped(c: Core, i: nat, kind: u8, ver: u8, data: seq<u8>, env: Env, r: Core)
    requires i < |c.dials| && AllShaped(c.dials) && GuardThenKeeps(c, i, kind, ver, data, env, r)
    ensures AllShaped(r.dials)
  {
    hide EpochOk, EchoOf, Echoes;
    EpochShaped(c, i, EchoOf(kind, ver, data), env);
  }

  lemma PairingRecvShaped(c: Core, src: seq<u8>, data: seq<u8>, env: Env)
    requires AllShaped(c.dials)
    ensures AllShaped(OnPairConfirm(c, src, data, env).dials)
  {
    hide PairAuth.Make, PairAuth.Proves, PairCommit, Find;
    CommitShaped(c, env);
  }

  lemma CommitShaped(c: Core, env: Env)
    requires AllShaped(c.dials)
    ensures AllShaped(PairCommit(c, env).dials)
  {
    hide Find, BondsOf, CleanupCandidate, Candidate, Store;
  }

  lemma RecvShaped(c: Core, src: seq<u8>, dst: seq<u8>, data: seq<u8>, crypto: Crypto, env: Env)
    requires AllShaped(c.dials)
    ensures AllShaped(OnRecv(c, src, dst, data, crypto, env).dials)
  {
    hide OnDialFrame, OnPairConfirm, OnPairReq, GuardThenKeeps, Guarded;
    PairingRecvShaped(c, src, data, env);
    var i := Find(c.dials, src);
    if |data| >= 2 && i >= 0 {
      var kind, ver := data[0], data[1];
      DialFrameKeeps(c, i, kind, ver, data, env);
      if Guarded(kind) {
        EpochAllShaped(c, i, kind, ver, data, env, OnDialFrame(c, i, kind, ver, data, env));
      }
    }
  }

  lemma ForgetShaped(c: Core, mac: seq<u8>, env: Env)
    requires AllShaped(c.dials)
    ensures AllShaped(ForgetDial(c, mac, env).0.dials)
  {
    hide AllShaped, PairCancel, PairStart, Find, Without, Forgotten;
    PairingShaped(c, 0, env);
    var i := Find(c.dials, mac);
    if i >= 0 && Saves(Without(c, i), env.save) {
      var r := Forgotten(c, i, mac);
      ForgottenIs(c, i, mac);
      FewerShaped(c.dials, i);
      PairingShaped(r, 0, env);
    }
  }

  lemma ForgetAllShaped(c: Core, env: Env)
    requires AllShaped(c.dials)
    ensures AllShaped(ForgetAll(c, env).0.dials)
  {
    hide AllShaped, PairCancel, PairStart, Cleared, DelPeers, Store;
    if env.save {
      var r := Cleared(DelPeers(Store(c, []), c.dials));
      NoneShaped(DelPeers(Store(c, []), c.dials));
      PairingShaped(r, 0, env);
    }
  }

  lemma FewerShaped(ds: seq<Dial>, i: nat)
    requires AllShaped(ds) && i < |ds|
    ensures AllShaped(ds[..i] + ds[i + 1..])
  {
    hide HistoryShaped;
  }

  lemma NoneShaped(c: Core)
    ensures AllShaped(Cleared(c).dials)
  {
  }

  lemma StartShaped(c: Core, env: Env)
    requires AllShaped(c.dials)
    ensures AllShaped(Start(c, env).dials)
  {
    hide InstallPeers, Decode, FreshDials;
    if c.world.store.Some? {
      var recs := Decode(c.world.store.value);
      if recs.Some? {
        FreshShaped(recs.value);
      }
    }
  }

  lemma FreshShaped(recs: seq<Bond>)
    ensures AllShaped(FreshDials(recs))
  {
  }

  lemma TickShaped(c: Core, env: Env)
    requires AllShaped(c.dials)
    ensures AllShaped(Tick(c, env).dials)
  {
    hide Tick, PairTimeouts;
    TickKeeps(c, env);
  }

  lemma ApplyShaped(c: Core, op: Op, crypto: Crypto, env: Env)
    requires AllShaped(c.dials)
    ensures AllShaped(Apply(c, op, crypto, env).dials)
  {
    hide OnRecv, Tick, PairStart, PairCancel, ForgetDial, ForgetAll, Start;
    match op
    case Recv(src, dst, data) => RecvShaped(c, src, dst, data, crypto, env);
    case Loop => TickShaped(c, env);
    case OpenPairing(window) => PairingShaped(c, window, env);
    case ClosePairing => PairingShaped(c, 0, env);
    case Forget(mac) => ForgetShaped(c, mac, env);
    case ForgetEvery => ForgetAllShaped(c, env);
    case NewCaps =>
    case StartUp => StartShaped(c, env);
  }

  lemma PairingShaped(c: Core, window: u32, env: Env)
    ensures PairStart(c, window, env).dials == c.dials && PairCancel(c, env).dials == c.dials
  {
    hide CleanupCandidate, PairEnd;
  }

  lemma AfterShaped(c: Core, step: Step, crypto: Crypto)
    requires AllShaped(c.dials)
    ensures AllShaped(After(c, step, crypto).dials)
  {
    hide Apply;
    ApplyShaped(c, step.op, crypto, step.env);
  }

  // The states of a run, the first one included.
  function Run(c: Core, steps: seq<Step>, crypto: Crypto): (r: Core)
    requires AllShaped(c.dials)
    ensures AllShaped(r.dials)
    decreases |steps|
  {
    hide After, AllShaped;
    if steps == [] then c
    else
      AfterShaped(c, steps[0], crypto);
      Run(After(c, steps[0], crypto), steps[1..], crypto)
  }
}
