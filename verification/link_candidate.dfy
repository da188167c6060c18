// The pairing candidate over whole runs: it takes the window only by a signed request, nothing replaces it or moves
// its deadline while it is being confirmed, and only it can put a new key in the table.
module LinkCandidate {
  import opened Words
  import opened Bonds
  import opened LinkState
  import opened WifiSession
  import opened LinkSpec
  import opened LinkFrame
  import opened LinkRun
  import opened LinkPairing
  import opened LinkTable
  import opened LinkHistory
  import PairAuth

  // Same candidate, same ephemeral key, same confirmation deadline
  predicate SameCandidate(p: Pairing, q: Pairing) {
    q == p.(deadline := q.deadline, result := q.result)
  }

  // If a candidate is being confirmed afterwards, it was before, or this request has just made it one.
  predicate Continues(c: Core, op: Op, crypto: Crypto, env: Env, r: Core) {
    r.pairing.phase.Confirm? ==>
      || (c.pairing.phase.Confirm? && SameCandidate(c.pairing, r.pairing))
      || (op.Recv? && |op.data| >= 2 && op.data[0] == 4 && Enters(c, op.data, crypto, env, r))
  }

  predicate OffOrSame(p: Pairing, q: Pairing) {
    !q.phase.Confirm? || q == p
  }

  lemma CommitOff(c: Core, env: Env)
    ensures PairCommit(c, env).pairing.phase.Off?
  {
    hide Store, Find, Candidate, CleanupCandidate;
  }

  lemma ConfirmPairing(c: Core, src: seq<u8>, data: seq<u8>, env: Env)
    ensures OffOrSame(c.pairing, OnPairConfirm(c, src, data, env).pairing)
  {
    hide PairCommit, Find, PairAuth.Make, PairAuth.Proves;
    CommitOff(c, env);
  }

  lemma EpochPairing(c: Core, i: nat, e: u16, env: Env)
    requires i < |c.dials|
    ensures EpochOk(c, i, e, env).0.pairing == c.pairing
  {
    hide BondsOf, Encode;
  }

  lemma DialFramePairing(c: Core, i: nat, kind: u8, ver: u8, data: seq<u8>, env: Env)
    requires i < |c.dials| && AllShaped(c.dials)
    ensures OnDialFrame(c, i, kind, ver, data, env).pairing == c.pairing
  {
    hide OnDialFrame, EpochOk, Guarded, EchoOf, Echoes;
    DialFrameKeeps(c, i, kind, ver, data, env);
    EpochPairing(c, i, EchoOf(kind, ver, data), env);
  }

  lemma RefusedOff(c: Core, data: seq<u8>, crypto: Crypto, env: Env, r: Core)
    requires Refused(c, data, crypto, env, r)
    ensures r.pairing.phase.Off?
  {
    hide Acceptable, WithCandidate, CleanupCandidate;
  }

  lemma PairReqPairing(c: Core, data: seq<u8>, crypto: Crypto, env: Env)
    ensures var r := OnPairReq(c, data, crypto, env);
            || Enters(c, data, crypto, env, r)
            || r.pairing.phase.Off?
            || Answers(c, r)
  {
    hide OnPairReq, Enters, Refused;
    var r := OnPairReq(c, data, crypto, env);
    PairReqOutcome(c, data, crypto, env);
    if Refused(c, data, crypto, env, r) {
      RefusedOff(c, data, crypto, env, r);
    }
  }

  lemma RecvContinues(c: Core, src: seq<u8>, dst: seq<u8>, data: seq<u8>, crypto: Crypto, env: Env)
    requires AllShaped(c.dials)
    ensures Continues(c, Recv(src, dst, data), crypto, env, OnRecv(c, src, dst, data, crypto, env))
  {
    hide OnPairReq, OnPairConfirm, OnDialFrame, Enters;
    if |data| >= 2 {
      PairReqPairing(c, data, crypto, env);
      ConfirmPairing(c, src, data, env);
      var i := Find(c.dials, src);
      if i >= 0 {
        DialFramePairing(c, i, data[0], data[1], data, env);
      }
    }
  }

  lemma PairingOps(c: Core, window: u32, env: Env)
    ensures var r := PairStart(c, window, env).pairing;
            !r.phase.Confirm? || (c.pairing.phase.Confirm? && SameCandidate(c.pairing, r))
    ensures OffOrSame(c.pairing, PairTimeouts(c, env).pairing) && PairCancel(c, env).pairing.phase.Off?
  {
    hide CleanupCandidate;
  }

  lemma CancelsOff(env: Env)
    ensures forall m :: PairCancel(m, env).pairing.phase.Off?
  {
    forall m: Core
      ensures PairCancel(m, env).pairing.phase.Off?
    {
      PairingOps(m, 0, env);
    }
  }

  lemma ForgetPairing(c: Core, gone: seq<u8>, env: Env)
    ensures OffOrSame(c.pairing, ForgetDial(c, gone, env).0.pairing)
  {
    hide PairCancel, Find, Without, Forgotten;
    CancelsOff(env);
    var i := Find(c.dials, gone);
    if i >= 0 && Saves(Without(c, i), env.save) {
      ForgottenIs(c, i, gone);
    }
  }

  lemma ForgetAllPairing(c: Core, env: Env)
    ensures OffOrSame(c.pairing, ForgetAll(c, env).0.pairing)
  {
    hide PairCancel, Cleared, DelPeers, Store;
    CancelsOff(env);
  }

  lemma StartPairing(c: Core, env: Env)
    ensures Start(c, env).pairing == c.pairing
  {
    hide InstallPeers, FreshDials, Decode;
    if env.ownMac.Some? && c.world.store.Some? && Decode(c.world.store.value).Some? {
      var recs := Decode(c.world.store.value).value;
      InstallWorld(c.(ownMac := env.ownMac.value, dials := FreshDials(recs)), recs, 0, env);
    }
  }

  // A candidate's key, identity and deadline never change while it is being confirmed.
  lemma CandidateFixed(c: Core, op: Op, crypto: Crypto, env: Env)
    requires AllShaped(c.dials)
    ensures Continues(c, op, crypto, env, Apply(c, op, crypto, env))
  {
    hide OnRecv, Tick, PairStart, PairCancel, ForgetDial, ForgetAll, PairTimeouts, Enters, Start;
    match op
    case Recv(src, dst, data) => RecvContinues(c, src, dst, data, crypto, env);
    case Loop =>
      PairingOps(c, 0, env);
      TickKeeps(c, env);
    case OpenPairing(window) => PairingOps(c, window, env);
    case ClosePairing => PairingOps(c, 0, env);
    case Forget(gone) => ForgetPairing(c, gone, env);
    case ForgetEvery => ForgetAllPairing(c, env);
    case NewCaps =>
    case StartUp => StartPairing(c, env);
  }

  // While a candidate is being confirmed, nothing it sends is acted on but its proof; a repeated request is at most
  // answered again.
  lemma CandidateSilent(c: Core, dst: seq<u8>, data: seq<u8>, crypto: Crypto, env: Env)
    requires AllShaped(c.dials) && c.pairing.phase.Confirm?
    requires !(|data| >= 2 && data[0] == 19 && PairAuth.Proves(data, PairAuth.Make(19, c.pairing.candLmk, c.pairing.candMac, c.ownMac)))
    ensures var r := OnRecv(c, c.pairing.candMac, dst, data, crypto, env);
            r == c || (data[0] == 4 && Answers(c, r))
  {
    hide OnPairReq, OnDialFrame, PairCommit, PairAuth.Make, PairAuth.Proves, Enters, Refused, Answers;
    if |data| >= 2 {
      PairReqOutcome(c, data, crypto, env);
      WindowOnly(c, data, crypto, env, OnPairReq(c, data, crypto, env));
    }
  }

  lemma WindowOnly(c: Core, data: seq<u8>, crypto: Crypto, env: Env, r: Core)
    ensures Enters(c, data, crypto, env, r) || Refused(c, data, crypto, env, r) ==> c.pairing.phase.Window?
  {
  }

  // --- Where candidates come from ---

  // The request names this candidate, is signed by the identity in it, and agrees on this key.
  predicate Backs(data: seq<u8>, p: Pairing, crypto: Crypto) {
    && |data| >= 136 && data[1] >= PairAuth.VERSION
    && var req := ParseRequest(data);
       && crypto.verify(req.idPub, req.transcript, req.sig)
       && p.candMac == req.mac && p.candIdPub == req.idPub && p.candEphPub == req.ephPub
       && DeriveLmk(crypto, p.ephPriv, req.ephPub, req.ephPub, p.ephPub) == Some(p.candLmk)
  }

  // Among these steps is one that received such a request.
  predicate Backed(p: Pairing, crypto: Crypto, steps: seq<Step>) {
    p.phase.Confirm? ==>
      exists k :: 0 <= k < |steps| && steps[k].Done? && steps[k].op.Recv? && Backs(steps[k].op.data, p, crypto)
  }

  lemma EntersBacks(c: Core, data: seq<u8>, crypto: Crypto, env: Env, r: Core)
    requires Enters(c, data, crypto, env, r)
    ensures Backs(data, r.pairing, crypto)
  {
    hide DeriveLmk, ParseRequest, Find;
  }

  lemma SameBacks(data: seq<u8>, p: Pairing, q: Pairing, crypto: Crypto)
    requires SameCandidate(p, q)
    ensures Backs(data, p, crypto) ==> Backs(data, q, crypto)
  {
    hide DeriveLmk, ParseRequest;
  }

  lemma StepBacked(c: Core, step: Step, crypto: Crypto, past: seq<Step>)
    requires AllShaped(c.dials) && Backed(c.pairing, crypto, past)
    ensures Backed(After(c, step, crypto).pairing, crypto, past + [step])
  {
    hide Apply, Backs, Enters, SameCandidate;
    var r := Apply(c, step.op, crypto, step.env);
    CandidateFixed(c, step.op, crypto, step.env);
    if After(c, step, crypto).pairing.phase.Confirm? && step.Done? {
      if c.pairing.phase.Confirm? && SameCandidate(c.pairing, r.pairing) {
        var k :| 0 <= k < |past| && past[k].Done? && past[k].op.Recv? && Backs(past[k].op.data, c.pairing, crypto);
        SameBacks(past[k].op.data, c.pairing, r.pairing, crypto);
        assert (past + [step])[k] == past[k];
      } else {
        EntersBacks(c, step.op.data, crypto, step.env, r);
        assert (past + [step])[|past|] == step;
      }
    }
  }

  lemma {:induction false} RunBacks(c: Core, steps: seq<Step>, crypto: Crypto, past: seq<Step>)
    requires AllShaped(c.dials) && Backed(c.pairing, crypto, past)
    ensures Backed(Run(c, steps, crypto).pairing, crypto, past + steps)
    decreases |steps|
  {
    hide After, Backed;
    if steps == [] {
      assert past + [] == past;
    } else {
      StepBacked(c, steps[0], crypto, past);
      AfterShaped(c, steps[0], crypto);
      RunBacks(After(c, steps[0], crypto), steps[1..], crypto, past + [steps[0]]);
      assert past + [steps[0]] + steps[1..] == past + steps;
    }
  }

  // From a state in which no candidate is being confirmed, every candidate of a run is backed by a request the
  // controller received in that run.
  lemma RunBacked(c: Core, steps: seq<Step>, crypto: Crypto)
    requires AllShaped(c.dials) && !c.pairing.phase.Confirm?
    ensures Backed(Run(c, steps, crypto).pairing, crypto, steps)
  {
    hide Run, Backs;
    RunBacks(c, steps, crypto, []);
    assert [] + steps == steps;
  }

  // Every key that enters the table over a run was agreed in a request the controller received in that run, signed by
  // the identity stored with the key, and then proved by the dial itself.
  lemma EveryKeyProved(c0: Core, steps: seq<Step>, op: Op, crypto: Crypto, env: Env, j: nat)
    requires Table(c0) && AllShaped(c0.dials) && !c0.pairing.phase.Confirm?
    requires var c := Run(c0, steps, crypto);
             var recs := Durable(Apply(c, op, crypto, env).world);
             j < |recs| && !HasKey(Durable(c.world), recs[j])
    ensures var c := Run(c0, steps, crypto);
            var b := Durable(Apply(c, op, crypto, env).world)[j];
            && op.Recv? && op.src == b.mac && op.dst == c.ownMac
            && PairAuth.Proves(op.data, PairAuth.Make(19, b.lmk, b.mac, c.ownMac))
            && b == Candidate(c)
            && exists k :: 0 <= k < |steps| && steps[k].Done? && steps[k].op.Recv? && Backs(steps[k].op.data, c.pairing, crypto)
  {
    hide Run, Apply, Table, Durable, HasKey, Backs, PairAuth.Make, PairAuth.Proves, Proposed;
    var c := Run(c0, steps, crypto);
    RunTable(c0, steps, crypto);
    RunBacked(c0, steps, crypto);
    NewKey(c, op, crypto, env, j);
  }
}
