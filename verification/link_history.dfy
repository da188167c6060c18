// What holds of the bond table over whole runs, power losses and failed saves included: a restart finds the table as
// it was before or after the interrupted call, a pinned identity and a latched replay guard last until the dial is
// forgotten, and a key changes only on a proof.
module LinkHistory {
  import opened Words
  import opened Bonds
  import opened LinkState
  import opened WifiSession
  import opened LinkSpec
  import opened LinkFrame
  import opened LinkRun
  import opened LinkTable
  import PairAuth

  lemma AfterTable(c: Core, step: Step, crypto: Crypto)
    requires Table(c) && AllShaped(c.dials)
    ensures Table(After(c, step, crypto))
  {
    hide Table, Apply, PowerLoss, Changes;
    ApplyTable(c, step.op, crypto, step.env);
    if step.Cut? {
      PowerLossTable(c, Apply(c, step.op, crypto, step.env), step.saved, step.shown);
    }
  }

  // RAM, the stored table and the candidate stay in order over every run.
  lemma {:induction false} RunTable(c: Core, steps: seq<Step>, crypto: Crypto)
    requires Table(c) && AllShaped(c.dials)
    ensures Table(Run(c, steps, crypto))
    decreases |steps|
  {
    hide Table, After;
    if steps != [] {
      AfterTable(c, steps[0], crypto);
      AfterShaped(c, steps[0], crypto);
      RunTable(After(c, steps[0], crypto), steps[1..], crypto);
    }
  }

  // Recovery: whenever the power is lost during a call, the call has written at most one value, and a start that
  // succeeds afterwards runs on the table before the call or the table after it. Between calls a controller that is
  // up runs on exactly the stored table.
  lemma Recovery(c0: Core, steps: seq<Step>, op: Op, env: Env, saved: bool, shown: nat, boot: Env, crypto: Crypto)
    requires Table(c0) && AllShaped(c0.dials)
    ensures var c := Run(c0, steps, crypto);
            var r := Apply(c, op, crypto, env);
            var up := Start(PowerLoss(c, r, saved, shown), boot);
            && (c.started ==> BondsOf(c.dials) == Durable(c.world))
            && |c.world.writes| <= |r.world.writes| <= |c.world.writes| + 1
            && (up.started ==> BondsOf(up.dials) == if saved then Durable(r.world) else Durable(c.world))
  {
    hide Apply, ValidTable, CandidateOk, PowerLoss, Start, Durable, Wrote;
    var c := Run(c0, steps, crypto);
    RunTable(c0, steps, crypto);
    ApplyTable(c, op, crypto, env);
    var r := Apply(c, op, crypto, env);
    var off := PowerLoss(c, r, saved, shown);
    PowerLossTable(c, r, saved, shown);
    PowerLossOff(c, r, saved, shown);
    StartTable(off, boot);
    UntouchedDurable(off, Start(off, boot));
    WroteOne(c, r);
  }

  lemma PowerLossOff(c: Core, r: Core, saved: bool, shown: nat)
    ensures !PowerLoss(c, r, saved, shown).started
  {
  }

  lemma UntouchedDurable(c: Core, r: Core)
    requires Untouched(c, r)
    ensures Durable(r.world) == Durable(c.world)
  {
  }

  lemma WroteOne(c: Core, r: Core)
    ensures Untouched(c, r) || Wrote(c, r, Durable(r.world)) ==> |c.world.writes| <= |r.world.writes| <= |c.world.writes| + 1
  {
    hide Encode, Durable, ValidTable;
  }

  // --- Trust on first use, and the durable guard ---

  // A forget of this dial, or of all, that reached the store
  predicate Forgets(step: Step, mac: seq<u8>) {
    && (step.op == Forget(mac) || step.op == ForgetEvery)
    && step.env.save && (step.Cut? ==> step.saved)
  }

  // The dial's bond is still there with its identity, its guard no looser than before.
  predicate Held(was: seq<Bond>, now: seq<Bond>, mac: seq<u8>) {
    forall i :: 0 <= i < |was| && was[i].mac == mac ==>
      exists j :: 0 <= j < |now| && now[j].mac == mac && now[j].idPub == was[i].idPub
                  && (Latched(was[i]) ==> Latched(now[j]))
  }

  lemma HeldRefl(recs: seq<Bond>, mac: seq<u8>)
    ensures Held(recs, recs, mac)
  {
  }

  lemma HeldTrans(a: seq<Bond>, b: seq<Bond>, c: seq<Bond>, mac: seq<u8>)
    requires Held(a, b, mac) && Held(b, c, mac)
    ensures Held(a, c, mac)
  {
    hide Latched;
  }

  lemma HeldReplaced(recs: seq<Bond>, i: nat, bond: Bond, mac: seq<u8>)
    requires ValidTable(recs) && i < |recs| && bond.mac == recs[i].mac && bond.idPub == recs[i].idPub && Latched(bond)
    ensures Held(recs, recs[i := bond], mac)
  {
    var now := recs[i := bond];
    forall k | 0 <= k < |recs| && recs[k].mac == mac
      ensures now[k].mac == mac && now[k].idPub == recs[k].idPub && (Latched(recs[k]) ==> Latched(now[k]))
    {
    }
  }

  lemma HeldAppended(recs: seq<Bond>, bond: Bond, mac: seq<u8>)
    ensures Held(recs, recs + [bond], mac)
  {
    var now := recs + [bond];
    forall k | 0 <= k < |recs| && recs[k].mac == mac
      ensures now[k] == recs[k]
    {
    }
  }

  lemma HeldRemoved(recs: seq<Bond>, i: nat, mac: seq<u8>)
    requires i < |recs| && recs[i].mac != mac
    ensures Held(recs, recs[..i] + recs[i + 1..], mac)
  {
    var now := recs[..i] + recs[i + 1..];
    forall k | 0 <= k < |recs| && recs[k].mac == mac
      ensures now[if k < i then k else k - 1] == recs[k]
    {
    }
  }

  lemma ChangeHeld(c: Core, op: Op, env: Env, r: Core, mac: seq<u8>)
    requires Table(c) && Changes(c, op, env, r) && op != Forget(mac) && op != ForgetEvery
    ensures Held(Durable(c.world), Durable(r.world), mac)
  {
    hide Held, Durable, Decode, Encode, Wrote, Guarded, EchoOf;
    var recs := Durable(r.world);
    var was := Durable(c.world);
    if IsLatch(c, op, recs) {
      HeldReplaced(was, Find(c.dials, op.src), Latch(was[Find(c.dials, op.src)]), mac);
    } else if IsCommit(c, op, recs) {
      CommitHeld(c, mac);
    } else {
      HeldRemoved(was, Find(c.dials, op.mac), mac);
    }
  }

  lemma CommitHeld(c: Core, mac: seq<u8>)
    requires Table(c) && c.pairing.phase.Confirm?
    ensures Held(Durable(c.world), Proposed(c), mac)
  {
    hide Held, Durable, Decode;
    var was := Durable(c.world);
    var i := Find(c.dials, c.pairing.candMac);
    if i >= 0 {
      assert was[i].mac == c.pairing.candMac;
      HeldReplaced(was, i, Candidate(c), mac);
    } else {
      HeldAppended(was, Candidate(c), mac);
    }
  }

  lemma StepHeld(c: Core, step: Step, crypto: Crypto, mac: seq<u8>)
    requires Table(c) && AllShaped(c.dials) && !Forgets(step, mac)
    ensures Held(Durable(c.world), Durable(After(c, step, crypto).world), mac)
  {
    hide Table, Apply, Held, Durable, PowerLoss;
    var r := Apply(c, step.op, crypto, step.env);
    ApplyTable(c, step.op, crypto, step.env);
    HeldRefl(Durable(c.world), mac);
    if step.Cut? {
      PowerLossTable(c, r, step.saved, step.shown);
    }
    if Untouched(c, r) {
      UntouchedDurable(c, r);
    } else if step.Done? || step.saved {
      hide Wrote, IsLatch, IsCommit, IsForget;
      ChangeHeld(c, step.op, step.env, r, mac);
    }
  }

  // A bonded dial keeps its pinned identity over every run without a successful forget of it, and a latched guard
  // stays latched.
  lemma {:induction false} Pinned(c: Core, steps: seq<Step>, crypto: Crypto, mac: seq<u8>)
    requires Table(c) && AllShaped(c.dials)
    requires forall k :: 0 <= k < |steps| ==> !Forgets(steps[k], mac)
    ensures Held(Durable(c.world), Durable(Run(c, steps, crypto).world), mac)
    decreases |steps|
  {
    hide Table, After, Held, Durable, Forgets;
    if steps == [] {
      HeldRefl(Durable(c.world), mac);
    } else {
      var c1 := After(c, steps[0], crypto);
      StepHeld(c, steps[0], crypto, mac);
      AfterTable(c, steps[0], crypto);
      AfterShaped(c, steps[0], crypto);
      assert forall k :: 0 <= k < |steps[1..]| ==> steps[1..][k] == steps[k + 1];
      Pinned(c1, steps[1..], crypto, mac);
      HeldTrans(Durable(c.world), Durable(c1.world), Durable(Run(c, steps, crypto).world), mac);
    }
  }

  // --- Keys ---

  // The dial has a bond with this key and identity.
  predicate HasKey(recs: seq<Bond>, b: Bond) {
    exists i :: 0 <= i < |recs| && recs[i].mac == b.mac && recs[i].lmk == b.lmk && recs[i].idPub == b.idPub
  }

  lemma LatchedKeys(recs: seq<Bond>, i: nat, j: nat)
    requires i < |recs| && j < |recs|
    ensures HasKey(recs, recs[i := Latch(recs[i])][j])
  {
    var now := recs[i := Latch(recs[i])];
    assert recs[j].mac == now[j].mac && recs[j].lmk == now[j].lmk && recs[j].idPub == now[j].idPub;
  }

  lemma RemovedKeys(recs: seq<Bond>, i: nat, j: nat)
    requires i < |recs| && j < |recs| - 1
    ensures HasKey(recs, (recs[..i] + recs[i + 1..])[j])
  {
    var k := if j < i then j else j + 1;
    assert recs[k] == (recs[..i] + recs[i + 1..])[j];
  }

  lemma ProposedKeys(c: Core, j: nat)
    requires j < |Proposed(c)|
    ensures Proposed(c)[j] == Candidate(c) || HasKey(BondsOf(c.dials), Proposed(c)[j])
  {
    hide HasKey, Candidate, Find;
    if Proposed(c)[j] != Candidate(c) {
      assert Proposed(c)[j] == BondsOf(c.dials)[j];
      OwnKey(BondsOf(c.dials), j);
    }
  }

  lemma OwnKey(recs: seq<Bond>, j: nat)
    requires j < |recs|
    ensures HasKey(recs, recs[j])
  {
  }

  // A stored bond whose key or identity was not stored before is the candidate's, and the call was its proof.
  lemma NewKey(c: Core, op: Op, crypto: Crypto, env: Env, j: nat)
    requires Table(c) && AllShaped(c.dials)
    requires var recs := Durable(Apply(c, op, crypto, env).world);
             j < |recs| && !HasKey(Durable(c.world), recs[j])
    ensures var recs := Durable(Apply(c, op, crypto, env).world);
            IsCommit(c, op, recs) && recs[j] == Candidate(c)
  {
    hide Apply, Durable, HasKey, Wrote, Guarded, EchoOf, CandidateOk, Candidate, PairAuth.Make, PairAuth.Proves, Proposed;
    var r := Apply(c, op, crypto, env);
    ApplyTable(c, op, crypto, env);
    var recs := Durable(r.world);
    if Untouched(c, r) {
      UntouchedDurable(c, r);
      OwnKey(recs, j);
    } else if IsLatch(c, op, recs) {
      LatchedKeys(BondsOf(c.dials), Find(c.dials, op.src), j);
    } else if IsForget(c, op, recs) {
      RemovedKeys(BondsOf(c.dials), Find(c.dials, op.mac), j);
    } else if IsCommit(c, op, recs) {
      ProposedKeys(c, j);
    }
  }
}
