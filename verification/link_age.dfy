// STATE convergence in true time. The core sees a clock that wraps; a tick leaves a live dial as young as it should be
// exactly when the dial is due or its last STATE is not a whole wrap of the clock old, and it never is that old while the
// loop keeps running.
module LinkAge {
  import opened Words
  import opened Bonds
  import opened LinkState
  import opened WifiSession
  import opened LinkSpec
  import opened LinkFrame
  import opened LinkRun
  import opened LinkPairing
  import opened LinkTable
  import opened LinkHistory
  import opened LinkGuard
  import opened LinkSync
  import PairAuth

  // Holds the current STATE, or was sent one less than 250 ms ago; was sent one less than 10 s ago in any case
  predicate Young(d: Dial, last: Option<StatePkt>, now: nat) {
    && d.heard.Some?
    && (d.heard == last || now - d.heardAt < 250)
    && now - d.heardAt < 10000
  }

  lemma TickedAge(d: Dial, last: Option<StatePkt>, now: nat)
    requires Ticked(d, true, last, now) && Recorded(d) && d.heardAt <= now
    ensures Young(d, last, now) <==> now - d.heardAt < B32
  {
    hide Clock, Since;
    if now - d.heardAt < B32 {
      TrueAge(now, d.heardAt);
    }
  }

  // A pass sends a slot the current STATE exactly if it is live and, marked where the STATE has changed, due.
  lemma TickServes(c: Core, env: Env, i: nat)
    requires Sync(c) && AllShaped(c.dials) && c.started && i < |c.dials|
    ensures var r := Tick(c, env);
            var due := Live(c.dials[i], env.now) && Due(Claimed(c.dials[i], c.lastState, Reported(c, env)), env.now);
            && r.dials[i].heardAt == (if due then env.now else c.dials[i].heardAt)
            && r.dials[i].heard == (if due then Some(Reported(c, env)) else c.dials[i].heard)
            && (Live(c.dials[i], env.now) ==> r.lastState == Some(Reported(c, env)))
  {
    hide Tick, Due, Ticked, Recorded, Reported, Clock, Since;
    TickConverges(c, env);
    assert Claims(c, env)[i] == Claimed(c.dials[i], c.lastState, Reported(c, env));
  }

  // A pass serves a live dial in true time if and only if the dial, marked where the STATE has changed, is due on this pass
  // or was last sent one less than 2^32 ms ago.
  lemma TickAge(c: Core, env: Env, i: nat)
    requires Sync(c) && AllShaped(c.dials) && c.started && i < |c.dials| && Live(c.dials[i], env.now)
    requires c.dials[i].heardAt <= env.now
    ensures var r := Tick(c, env);
            Young(r.dials[i], r.lastState, env.now)
            <==> Due(Claimed(c.dials[i], c.lastState, Reported(c, env)), env.now) || env.now - c.dials[i].heardAt < B32
  {
    hide Tick, Due, Ticked, Young, Recorded, Reported, Clock, Since;
    TickConverges(c, env);
    TickServes(c, env, i);
    assert Live(Claims(c, env)[i], env.now);
    TickedAge(Tick(c, env).dials[i], Tick(c, env).lastState, env.now);
  }

  // --- Over runs ---

  // No STATE is recorded as sent in the future, and a dial counted live was sent one since ten seconds before the last
  // pass of the loop.
  predicate Aged(c: Core, loop: nat, t: nat) {
    && (forall i :: 0 <= i < |c.dials| ==>
          && c.dials[i].heardAt <= t
          && (c.dials[i].wasLive ==> loop < c.dials[i].heardAt + STATE_HEARTBEAT_MS))
    && (!c.started ==> forall i :: 0 <= i < |c.dials| ==> !c.dials[i].wasLive)
  }

  lemma LaterAged(c: Core, loop: nat, t: nat, later: nat)
    requires Aged(c, loop, t) && t <= later
    ensures Aged(c, loop, later)
  {
  }

  lemma KeptAged(c: Core, r: Core, loop: nat, t: nat)
    requires Aged(c, loop, t) && KeepsSync(c, r)
    ensures Aged(r, loop, t)
  {
  }

  lemma SameDialsAged(c: Core, r: Core, loop: nat, t: nat)
    requires Aged(c, loop, t) && r.dials == c.dials && r.started == c.started
    ensures Aged(r, loop, t)
  {
  }

  // A fan-out sends now, and counts nobody live.
  lemma {:induction false} EchoTimes(c: Core, k: nat, p: StatePkt, now: nat)
    requires k <= |c.dials|
    ensures var r := EchoFrom(c, k, p, now);
            && r.started == c.started
            && forall i :: 0 <= i < |c.dials| ==>
                 r.dials[i].wasLive == c.dials[i].wasLive
                 && (r.dials[i].heardAt == c.dials[i].heardAt || r.dials[i].heardAt == now)
    decreases |c.dials| - k
  {
    hide Live, Wants, Clock;
    if k < |c.dials| {
      EchoTimes(if Live(c.dials[k], now) then SendState(c, k, p, now) else Pend(c, k), k + 1, p, now);
    }
  }

  lemma EchoAged(c: Core, r: Core, loop: nat, t: nat, now: nat)
    requires Aged(c, loop, t) && loop <= t <= now && |r.dials| == |c.dials| && r.started == c.started
    requires forall i :: 0 <= i < |c.dials| ==>
               r.dials[i].wasLive == c.dials[i].wasLive
               && (r.dials[i].heardAt == c.dials[i].heardAt || r.dials[i].heardAt == now)
    ensures Aged(r, loop, now)
  {
  }

  lemma EchoAllAged(c: Core, loop: nat, t: nat, now: nat, env: Env)
    requires Aged(c, loop, t) && loop <= t <= now && AllShaped(c.dials)
    ensures Aged(EchoStateAll(c, now, env), loop, now)
  {
    hide Aged, BuildState, EchoFrom, KeepsSync, AllShaped;
    var (c1, p) := BuildState(c, env);
    BuildSync(c, env);
    KeptAged(c, c1, loop, t);
    var c2 := c1.(lastState := Some(p));
    SameDialsAged(c1, c2, loop, t);
    EchoTimes(c2, 0, p, now);
    EchoAged(c2, EchoFrom(c2, 0, p, now), loop, t, now);
  }

  lemma CmdAged(c: Core, i: nat, data: seq<u8>, env: Env, loop: nat, t: nat)
    requires Aged(c, loop, t) && loop <= t <= env.later && i < |c.dials| && AllShaped(c.dials)
    ensures Aged(OnCmd(c, i, data, env), loop, env.later)
  {
    hide Aged, KeepsSync, EpochOk, EchoStateAll, Seen, AllShaped;
    var e := U16(data, 17);
    var c1 := EpochOk(c, i, e, env).0;
    EpochSync(c, i, e, env);
    EpochShaped(c, i, e, env);
    KeptAged(c, c1, loop, t);
    LaterAged(c, loop, t, env.later);
    LaterAged(c1, loop, t, env.later);
    var c2 := Emit(Seen(c1, i, env.now), ApplyHook(c.dials[i].bond.mac));
    SeenSync(c1, i, env.now);
    KeptAged(c1, Seen(c1, i, env.now), loop, t);
    SameDialsAged(Seen(c1, i, env.now), c2, loop, t);
    CommandKeeps(c1, i, c.dials[i].bond.mac, env);
    LaterAged(c2, loop, t, env.later);
    EchoAllAged(c2, loop, t, env.later, env);
  }

  lemma DialFrameAged(c: Core, i: nat, kind: u8, ver: u8, data: seq<u8>, env: Env, loop: nat, t: nat)
    requires Aged(c, loop, t) && loop <= t <= env.later && i < |c.dials| && AllShaped(c.dials)
    ensures Aged(OnDialFrame(c, i, kind, ver, data, env), loop, env.later)
  {
    hide Aged, KeepsSync, OnCmd, OnWifiSetup, OnSensor, OnSourceSet, OnWifiCancel, OnProbe, OnWifiReq, OnCatalogReq, Seen, AllShaped;
    if kind == 2 {
      CmdAged(c, i, data, env, loop, t);
    } else {
      WifiFramesSync(c, i, data, env);
      RoomFramesSync(c, i, ver, data, env);
      ProbeSync(c, i, data, env);
      RequestsSync(c, i, ver, data, env);
      SeenSync(c, i, env.now);
      SyncRefl(c);
      var r := OnDialFrame(c, i, kind, ver, data, env);
      KeptAged(c, r, loop, t);
      LaterAged(r, loop, t, env.later);
    }
  }

  lemma CommitAged(c: Core, env: Env, loop: nat, t: nat)
    requires Aged(c, loop, t) && c.started
    ensures Aged(PairCommit(c, env), loop, t) && PairCommit(c, env).started
  {
    hide Find, Encode, Candidate, CleanupCandidate, Clock, BondsOf;
    CleanupState(c, env);
  }

  lemma ConfirmAged(c: Core, src: seq<u8>, data: seq<u8>, env: Env, loop: nat, t: nat)
    requires Aged(c, loop, t) && c.started
    ensures Aged(OnPairConfirm(c, src, data, env), loop, t)
  {
    hide PairAuth.Make, PairAuth.Proves, PairCommit, Find, Aged, KeepsSync;
    var candidate := c.pairing.phase.Confirm? && src == c.pairing.candMac;
    var c1 := if candidate then PairCommit(c, env) else c;
    CommitAged(c, env, loop, t);
    var i := Find(c1.dials, src);
    if i >= 0 {
      var m := SetDial(c1, i, c1.dials[i].(lastProbe := Clock(env.now)));
      SetSync(c1, i, c1.dials[i].(lastProbe := Clock(env.now)));
      KeptAged(c1, m, loop, t);
      forall ack
        ensures Aged(Send(m, src, ack), loop, t)
      {
        SameDialsAged(m, Send(m, src, ack), loop, t);
      }
    }
  }

  lemma RecvAged(c: Core, src: seq<u8>, dst: seq<u8>, data: seq<u8>, crypto: Crypto, env: Env, loop: nat, t: nat)
    requires Aged(c, loop, t) && loop <= t <= env.later && AllShaped(c.dials)
    ensures Aged(OnRecv(c, src, dst, data, crypto, env), loop, env.later)
  {
    hide OnPairReq, OnPairConfirm, OnDialFrame, Aged, AllShaped;
    LaterAged(c, loop, t, env.later);
    if c.started && |data| >= 2 {
      PairReqState(c, data, crypto, env);
      SameDialsAged(c, OnPairReq(c, data, crypto, env), loop, env.later);
      ConfirmAged(c, src, data, env, loop, env.later);
      var i := Find(c.dials, src);
      if i >= 0 {
        DialFrameAged(c, i, data[0], data[1], data, env, loop, t);
      }
    }
  }

  lemma ForgetAged(c: Core, mac: seq<u8>, env: Env, loop: nat, t: nat)
    requires Aged(c, loop, t)
    ensures Aged(ForgetDial(c, mac, env).0, loop, t)
  {
    hide Find, Without, Forgotten, PairCancel, Aged;
    CancelAged(c, env, loop, t);
    var i := Find(c.dials, mac);
    if i >= 0 && Saves(Without(c, i), env.save) {
      ForgottenIs(c, i, mac);
      FewerAged(c, i, Forgotten(c, i, mac), loop, t);
      CancelAged(Forgotten(c, i, mac), env, loop, t);
    }
  }

  lemma FewerAged(c: Core, i: nat, r: Core, loop: nat, t: nat)
    requires Aged(c, loop, t) && i < |c.dials| && r.dials == c.dials[..i] + c.dials[i + 1..] && r.started == c.started
    ensures Aged(r, loop, t)
  {
  }

  lemma CancelAged(c: Core, env: Env, loop: nat, t: nat)
    requires Aged(c, loop, t)
    ensures Aged(PairCancel(c, env), loop, t)
  {
    hide PairCancel, PairStart, Aged;
    PairingOpsSync(c, 0, env);
    PairCancelDials(c, env);
    SameDialsAged(c, PairCancel(c, env), loop, t);
  }

  lemma ForgetAllAged(c: Core, env: Env, loop: nat, t: nat)
    requires Aged(c, loop, t)
    ensures Aged(ForgetAll(c, env).0, loop, t)
  {
    hide Encode, PairCancel, DelPeers, Aged;
    if env.save {
      var c2 := DelPeers(Store(c, []), c.dials);
      DelPeersWorld(Store(c, []), c.dials);
      var c3 := Cleared(c2);
      NoneAged(c3, loop, t);
      CancelAged(c3, env, loop, t);
    }
  }

  lemma NoneAged(c: Core, loop: nat, t: nat)
    requires c.dials == []
    ensures Aged(c, loop, t)
  {
  }

  lemma CapsAged(c: Core, env: Env, loop: nat, t: nat)
    requires Aged(c, loop, t)
    ensures Aged(CapsChanged(c, env), loop, t)
  {
  }

  lemma StartAged(c: Core, env: Env, loop: nat, t: nat)
    requires Aged(c, loop, t) && !c.started
    ensures Aged(Start(c, env), loop, t)
  {
    hide InstallPeers, FreshDials, Decode, Clock;
    if env.ownMac.Some? && c.world.store.Some? && Decode(c.world.store.value).Some? {
      var recs := Decode(c.world.store.value).value;
      InstallWorld(c.(ownMac := env.ownMac.value, dials := FreshDials(recs)), recs, 0, env);
      FreshTimes(recs);
    }
  }

  lemma FreshTimes(recs: seq<Bond>)
    ensures var ds := FreshDials(recs);
            forall i :: 0 <= i < |ds| ==> ds[i].heardAt == 0 && !ds[i].wasLive
  {
  }

  // A pass that follows the last one by less than a wrap of the clock leaves every live dial truly young.
  lemma TickAged(c: Core, env: Env, loop: nat, t: nat)
    requires Sync(c) && Aged(c, loop, t) && AllShaped(c.dials) && loop <= t <= env.now
    requires env.now - loop < B32 - STATE_HEARTBEAT_MS
    ensures var r := Tick(c, env);
            && Aged(r, env.now, env.now)
            && (c.started ==> forall i :: 0 <= i < |c.dials| && Live(c.dials[i], env.now) ==> Young(r.dials[i], r.lastState, env.now))
  {
    hide Tick, Live, Sync, AllShaped;
    var r := Tick(c, env);
    if c.started {
      TickConverges(c, env);
      TickUp(c, env);
      forall i | 0 <= i < |c.dials|
        ensures r.dials[i].heardAt <= env.now
        ensures r.dials[i].wasLive ==> env.now < r.dials[i].heardAt + STATE_HEARTBEAT_MS
        ensures Live(c.dials[i], env.now) ==> Young(r.dials[i], r.lastState, env.now)
      {
        DialAged(c, env, i, loop, t);
      }
    } else {
      StoppedTick(c, env);
    }
  }

  lemma StoppedTick(c: Core, env: Env)
    requires AllShaped(c.dials) && !c.started
    ensures Tick(c, env) == c
  {
  }

  lemma TickUp(c: Core, env: Env)
    requires AllShaped(c.dials) && c.started
    ensures Tick(c, env).started
  {
    hide Tick, PairTimeouts, PairStart, PairCancel;
    PairingBoot(c, 0, env);
    TickKeeps(c, env);
  }

  lemma DialAged(c: Core, env: Env, i: nat, loop: nat, t: nat)
    requires Sync(c) && Aged(c, loop, t) && AllShaped(c.dials) && loop <= t <= env.now && c.started && i < |c.dials|
    requires env.now - loop < B32 - STATE_HEARTBEAT_MS
    requires Sync(Tick(c, env)) && Turn(Tick(c, env), Claims(c, env), |c.dials|, env.now)
    ensures var r := Tick(c, env);
            && r.dials[i].heardAt <= env.now
            && (r.dials[i].wasLive ==> env.now < r.dials[i].heardAt + STATE_HEARTBEAT_MS)
            && (Live(c.dials[i], env.now) ==> Young(r.dials[i], r.lastState, env.now))
  {
    hide Tick, Clock, Since, AllShaped, Reported;
    var d := Tick(c, env).dials[i];
    assert Recorded(d);
    assert SentIfDue(Claims(c, env)[i], d, Tick(c, env).lastState, env.now);
    if Live(c.dials[i], env.now) {
      TickedAge(d, Tick(c, env).lastState, env.now);
    }
  }

  // --- Paced runs ---

  // When the loop last passed, or the controller came up, after this step
  function NextLoop(c: Core, s: Step, loop: nat): nat {
    if c.started && s.Done? then if s.op.Loop? then s.env.now else loop else s.env.now
  }

  // The clock never runs back, and while the controller is up the loop passes at least every 2^32 - 10000 ms.
  predicate Paced(c: Core, steps: seq<Step>, crypto: Crypto, loop: nat, t: nat)
    requires AllShaped(c.dials)
    decreases |steps|
  {
    hide After;
    steps != [] ==>
      var s := steps[0];
      && t <= s.env.now <= s.env.later
      && (c.started && s.op.Loop? ==> s.env.now - loop < B32 - STATE_HEARTBEAT_MS)
      && (AfterShaped(c, s, crypto); Paced(After(c, s, crypto), steps[1..], crypto, NextLoop(c, s, loop), s.env.later))
  }

  // The time of the last pass of the loop, and of the last reading of the clock
  function EndLoop(c: Core, steps: seq<Step>, crypto: Crypto, loop: nat): nat
    requires AllShaped(c.dials)
    decreases |steps|
  {
    hide After;
    if steps == [] then loop
    else
      AfterShaped(c, steps[0], crypto);
      EndLoop(After(c, steps[0], crypto), steps[1..], crypto, NextLoop(c, steps[0], loop))
  }

  function EndTime(steps: seq<Step>, t: nat): nat
    decreases |steps|
  {
    if steps == [] then t else EndTime(steps[1..], steps[0].env.later)
  }

  lemma ApplyAged(c: Core, op: Op, crypto: Crypto, env: Env, loop: nat, t: nat)
    requires Sync(c) && Aged(c, loop, t) && AllShaped(c.dials) && loop <= t <= env.now <= env.later
    requires op.Loop? ==> env.now - loop < B32 - STATE_HEARTBEAT_MS
    ensures Aged(Apply(c, op, crypto, env), if op.Loop? then env.now else loop, env.later)
  {
    hide OnRecv, Tick, PairStart, PairCancel, ForgetDial, ForgetAll, Start, CapsChanged, Sync, Aged, AllShaped;
    LaterAged(c, loop, t, env.later);
    match op
    case Recv(src, dst, data) => RecvAged(c, src, dst, data, crypto, env, loop, t);
    case Loop =>
      TickAged(c, env, loop, t);
      LaterAged(Tick(c, env), env.now, env.now, env.later);
    case OpenPairing(window) =>
      PairingShaped(c, window, env);
      PairingOpsSync(c, window, env);
      SameDialsAged(c, PairStart(c, window, env), loop, env.later);
    case ClosePairing => CancelAged(c, env, loop, env.later);
    case Forget(mac) => ForgetAged(c, mac, env, loop, env.later);
    case ForgetEvery => ForgetAllAged(c, env, loop, env.later);
    case NewCaps => CapsAged(c, env, loop, env.later);
    case StartUp =>
      if !c.started {
        StartAged(c, env, loop, env.later);
      }
  }

  // Before the controller is up no dial counts as live, so any pass of the loop is recent enough.
  lemma DownAged(c: Core, loop: nat, t: nat, loop': nat)
    requires Aged(c, loop, t) && !c.started
    ensures Aged(c, loop', t)
  {
  }

  lemma StepAged(c: Core, s: Step, crypto: Crypto, loop: nat, t: nat)
    requires Sync(c) && Aged(c, loop, t) && AllShaped(c.dials) && loop <= t <= s.env.now <= s.env.later
    requires c.started && s.op.Loop? ==> s.env.now - loop < B32 - STATE_HEARTBEAT_MS
    ensures Aged(After(c, s, crypto), NextLoop(c, s, loop), s.env.later)
  {
    hide Sync, Apply, Aged;
    if s.Cut? {
      NoneAged(After(c, s, crypto), s.env.now, s.env.later);
    } else if c.started {
      ApplyAged(c, s.op, crypto, s.env, loop, t);
    } else {
      DownAged(c, loop, t, s.env.now);
      LaterAged(c, s.env.now, t, s.env.now);
      ApplyAged(c, s.op, crypto, s.env, s.env.now, s.env.now);
    }
  }

  lemma {:induction false} RunAged(c: Core, steps: seq<Step>, crypto: Crypto, loop: nat, t: nat)
    requires Sync(c) && Aged(c, loop, t) && AllShaped(c.dials) && loop <= t && Paced(c, steps, crypto, loop, t)
    ensures Aged(Run(c, steps, crypto), EndLoop(c, steps, crypto, loop), EndTime(steps, t))
    ensures EndLoop(c, steps, crypto, loop) <= EndTime(steps, t)
    decreases |steps|
  {
    hide Sync, After, Aged;
    if steps != [] {
      var s := steps[0];
      StepAged(c, s, crypto, loop, t);
      AfterSync(c, s, crypto);
      AfterShaped(c, s, crypto);
      RunAged(After(c, s, crypto), steps[1..], crypto, NextLoop(c, s, loop), s.env.later);
    }
  }

  // From power-up on, with a clock that never runs back and a loop that keeps running, every pass leaves each live dial
  // holding the current STATE or sent one truly less than 250 ms ago, and sent one truly less than 10 s ago in any case.
  lemma AlwaysYoung(c0: Core, steps: seq<Step>, crypto: Crypto, start: nat, env: Env)
    requires c0.dials == [] && Sync(c0) && Paced(c0, steps, crypto, start, start)
    requires EndTime(steps, start) <= env.now
    requires env.now - EndLoop(c0, steps, crypto, start) < B32 - STATE_HEARTBEAT_MS
    ensures var c := Run(c0, steps, crypto);
            var r := Tick(c, env);
            c.started ==>
              forall i :: 0 <= i < |c.dials| && Live(c.dials[i], env.now) ==> Young(r.dials[i], r.lastState, env.now)
  {
    hide Sync, Run, Aged, Tick, Young, Live, Paced, EndTime, EndLoop;
    NoneAged(c0, start, start);
    RunAged(c0, steps, crypto, start, start);
    RunSync(c0, steps, crypto);
    TickAged(Run(c0, steps, crypto), env, EndLoop(c0, steps, crypto, start), EndTime(steps, start));
  }

  // --- A clock gone round ---

  // A controller whose one dial was last sent STATE p at time 0, is marked for the newer q, and is heard until the clock is
  // back at its first value
  function WrappedCore(p: StatePkt, q: StatePkt): Core {
    var d := FreshDial(Bond(ZeroBytes(6), ZeroBytes(16), ZeroBytes(32), 0, ZeroBytes(7)))
             .(lastProbe := B32 - 1, wasLive := true, pendState := true, heard := Some(p));
    Core(true, 1, 0, ZeroBytes(6), [d], Owner(false, ZeroBytes(6), 0, false, false, 0), Some(q),
         Pairing(Off, 0, 0, ZeroBytes(32), ZeroBytes(32), ZeroBytes(6), ZeroBytes(16), ZeroBytes(32), ZeroBytes(32), Idle),
         World(None, None, [], map[], []))
  }

  // A whole wrap is not told from no time at all: the controller is in order and the dial live and marked, and a pass at 2^32
  // leaves it with the old STATE of time 0.
  lemma WrapHides(p: StatePkt, q: StatePkt, env: Env)
    requires env.now == B32
    ensures var c := WrappedCore(p, q);
            && Sync(c) && AllShaped(c.dials) && c.started && Live(c.dials[0], env.now)
            && var r := Tick(c, env);
               r.dials[0].heard == Some(p) && r.dials[0].heardAt == 0 && !Young(r.dials[0], r.lastState, env.now)
  {
    hide Tick, Young, Reported;
    var c := WrappedCore(p, q);
    assert !Due(Claimed(c.dials[0], c.lastState, Reported(c, env)), env.now);
    TickServes(c, env, 0);
    TickAge(c, env, 0);
  }
}
