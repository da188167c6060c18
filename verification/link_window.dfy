// The pairing window: when it opens, what is answered in it, and for how long it stays open.
module LinkWindow {
  import opened Words
  import opened Bonds
  import opened LinkState
  import opened WifiSession
  import opened LinkSpec
  import opened LinkFrame
  import opened LinkRun
  import opened LinkPairing
  import opened LinkTable
  import opened LinkCandidate
  import opened LinkService
  import opened LinkReceive
  import PairAuth
  import Sha256

  // --- Opening and extending ---

  // With no handshake a call opens the window if and only if the controller is up, a key pair can be made and the radio takes the
  // broadcast peer; otherwise nothing but the displayed result, or an unused key, changes.
  lemma WindowOpens(c: Core, window: u32, crypto: Crypto, env: Env)
    requires AllShaped(c.dials) && c.pairing.phase.Off?
    ensures var r := Apply(c, OpenPairing(window), crypto, env);
            && (r.pairing.phase.Window? <==> c.started && env.keypair.Some? && env.install)
            && r == c.(pairing := r.pairing, world := c.world.(peers := r.world.peers))
            && if r.pairing.phase.Window? then
                 && r.pairing.result.Listening? && r.world.peers == c.world.peers[BCAST := Plain]
                 && (r.pairing.ephPriv, r.pairing.ephPub) == env.keypair.value
                 && r.pairing == c.pairing.(phase := Window, result := Listening, deadline := r.pairing.deadline,
                                            ephPriv := r.pairing.ephPriv, ephPub := r.pairing.ephPub)
               else r.pairing.phase.Off? && r.pairing.result.Idle? && r.world.peers == c.world.peers
  {
    hide Clock;
  }

  // A window of this length from this moment on has run out.
  predicate RunsOut(start: nat, window: nat, t: nat) {
    t >= start + window
  }

  // By the 32-bit clock it has exactly then, for half the clock's range.
  lemma DeadlineMet(start: nat, window: u32, t: nat)
    requires start <= t < start + window + 0x8000_0000 && window < 0x8000_0000
    ensures LinkState.Reached(Clock(t), (Clock(start) + window) % B32) <==> RunsOut(start, window, t)
  {
    hide Clock;
    ModSame(t, start + window);
    DeadlineIs(start, window);
    AheadOrBehind(t - start - window);
  }

  lemma AheadOrBehind(d: int)
    requires -0x8000_0000 < d < 0x8000_0000
    ensures d % B32 < 0x8000_0000 <==> d >= 0
  {
    ModUnique(d, if d >= 0 then 0 else -1, if d >= 0 then d else d + B32, B32);
  }

  lemma ModSame(a: nat, b: nat)
    ensures (Clock(a) - b % B32) % B32 == (a - b) % B32
  {
    ModDifference(a, b);
  }

  // The window just opened ends on a pass of the loop exactly when its time is over, as a timeout.
  lemma WindowLasts(c: Core, window: u32, crypto: Crypto, env: Env, pass: Env)
    requires AllShaped(c.dials) && c.pairing.phase.Off? && c.started && env.keypair.Some? && env.install
    requires window < 0x8000_0000 && env.now <= pass.now < env.now + window + 0x8000_0000
    ensures var r := Apply(c, OpenPairing(window), crypto, env);
            && AllShaped(r.dials)
            && var after := Tick(r, pass);
               if RunsOut(env.now, window, pass.now) then after.pairing.phase.Off? && after.pairing.result.Timeout?
               else after.pairing == r.pairing
  {
    hide Tick, Clock, PairTimeouts;
    var r := Apply(c, OpenPairing(window), crypto, env);
    DeadlineIs(env.now, window);
    DeadlineMet(env.now, window, pass.now);
    TimeoutIs(r, pass);
    TickKeeps(r, pass);
  }

  lemma DeadlineIs(start: nat, window: u32)
    ensures (Clock(start) + window) % B32 == (start + window) % B32
  {
  }

  // What the timeouts do to the handshake
  lemma TimeoutIs(c: Core, env: Env)
    ensures var r := PairTimeouts(c, env).pairing;
            var ended := LinkState.Reached(Clock(env.now), c.pairing.deadline);
            && (c.pairing.phase.Window? ==>
                  if ended then r.phase.Off? && r.result == (if c.pairing.result.Full? then Full else Timeout) else r == c.pairing)
            && (c.pairing.phase.Confirm? ==>
                  if ended || LinkState.Reached(Clock(env.now), c.pairing.confirmDeadline) then r.phase.Off? && r.result.Timeout?
                  else r == c.pairing)
  {
    hide Find, Since, Clock;
  }

  // On an open handshake a call moves the deadline and nothing else, and the new window is as long as asked for.
  lemma WindowExtends(c: Core, window: u32, crypto: Crypto, env: Env, pass: Env)
    requires AllShaped(c.dials) && !c.pairing.phase.Off? && c.started
    requires window < 0x8000_0000 && env.now <= pass.now < env.now + window + 0x8000_0000
    ensures var r := Apply(c, OpenPairing(window), crypto, env);
            && r == c.(pairing := c.pairing.(deadline := r.pairing.deadline))
            && (Tick(r, pass).pairing.phase.Off?
                <==> RunsOut(env.now, window, pass.now)
                     || (c.pairing.phase.Confirm? && LinkState.Reached(Clock(pass.now), c.pairing.confirmDeadline)))
            && (!Tick(r, pass).pairing.phase.Off? ==> Tick(r, pass).pairing == r.pairing)
  {
    hide Tick, Clock, PairTimeouts;
    var r := Apply(c, OpenPairing(window), crypto, env);
    DeadlineMet(env.now, window, pass.now);
    TimeoutIs(r, pass);
    TickKeeps(r, pass);
  }

  // --- Requests ---

  // A pairing is on, and this is a complete, current request of the dial it is open to, signed by the identity it names.
  predicate Genuine(c: Core, data: seq<u8>, crypto: Crypto) {
    && !c.pairing.phase.Off? && |data| >= 136 && data[1] >= PairAuth.VERSION
    && var req := ParseRequest(data);
       && (c.pairing.phase.Confirm? ==> req.mac == c.pairing.candMac)
       && crypto.verify(req.idPub, req.transcript, req.sig)
  }

  // The dial presents its pinned identity, or there is room for it.
  datatype Place = Welcome | OtherIdentity | NoRoom

  function PlaceOf(c: Core, req: Request): Place {
    var known := Find(c.dials, req.mac);
    if known >= 0 then if c.dials[known].bond.idPub == req.idPub then Welcome else OtherIdentity
    else if |c.dials| < MAX_DIALS then Welcome else NoRoom
  }

  // The controller's answer, if it has a key to agree on and a signature
  function AnswerTo(c: Core, req: Request, crypto: Crypto, env: Env): Option<Event> {
    hide DeriveLmk;
    if env.sign.None? || DeriveLmk(crypto, c.pairing.ephPriv, req.ephPub, req.ephPub, c.pairing.ephPub).None? then None
    else Some(Sent(BCAST, PairResp(c.pairing.ephPub, env.channel, env.sign.value)))
  }

  // What comes of every request: nothing, a displayed refusal, the same answer again to the candidate that asks again, or to
  // the first that asks its place as the candidate and an answer. Each happens exactly when it should.
  lemma RequestOutcome(c: Core, src: seq<u8>, dst: seq<u8>, data: seq<u8>, crypto: Crypto, env: Env)
    requires AllShaped(c.dials) && c.started && |data| >= 2 && data[0] == 4
    ensures var r := Apply(c, Recv(src, dst, data), crypto, env);
            if !Genuine(c, data, crypto) then r == c
            else
              var req := ParseRequest(data);
              var answer := AnswerTo(c, req, crypto, env);
              match PlaceOf(c, req)
              case OtherIdentity => r == c.(pairing := c.pairing.(result := PinMismatch))
              case NoRoom => r == c.(pairing := c.pairing.(result := Full))
              case Welcome =>
                if answer.None? then r == c
                else if c.pairing.phase.Confirm? then
                  if req.ephPub == c.pairing.candEphPub && req.idPub == c.pairing.candIdPub then r == Emit(c, answer.value) else r == c
                else if env.install then
                  Enters(c, data, crypto, env, r) && r.world.log == c.world.log + [answer.value]
                else Refused(c, data, crypto, env, r)
  {
    hide DeriveLmk, Find, ParseRequest, Enters, Refused, Acceptable, PlaceOf, AnswerTo, Genuine;
    if !Genuine(c, data, crypto) {
      NotGenuine(c, data, crypto, env);
    } else {
      Considered(c, data, crypto, env);
    }
  }

  lemma NotGenuine(c: Core, data: seq<u8>, crypto: Crypto, env: Env)
    requires !Genuine(c, data, crypto)
    ensures OnPairReq(c, data, crypto, env) == c
  {
    hide DeriveLmk, Find, ParseRequest;
  }

  lemma Considered(c: Core, data: seq<u8>, crypto: Crypto, env: Env)
    requires Genuine(c, data, crypto)
    ensures var r := OnPairReq(c, data, crypto, env);
            var req := ParseRequest(data);
            var answer := AnswerTo(c, req, crypto, env);
            match PlaceOf(c, req)
            case OtherIdentity => r == c.(pairing := c.pairing.(result := PinMismatch))
            case NoRoom => r == c.(pairing := c.pairing.(result := Full))
            case Welcome =>
              if answer.None? then r == c
              else if c.pairing.phase.Confirm? then
                if req.ephPub == c.pairing.candEphPub && req.idPub == c.pairing.candIdPub then r == Emit(c, answer.value) else r == c
              else if env.install then
                Enters(c, data, crypto, env, r) && r.world.log == c.world.log + [answer.value]
              else Refused(c, data, crypto, env, r)
  {
    hide DeriveLmk, Find, ParseRequest, Enters, Refused, CleanupCandidate, PairEnd;
    if PlaceOf(c, ParseRequest(data)).Welcome? && AnswerTo(c, ParseRequest(data), crypto, env).Some? && c.pairing.phase.Window? {
      if env.install {
        EntersOutcome(c, data, crypto, env);
      } else {
        RefusedOutcome(c, data, crypto, env);
      }
    }
  }

  // A candidate has 15 s from the request that made it one, and no longer than its window: a pass of the loop ends the handshake
  // exactly then.
  lemma ConfirmLasts(c: Core, data: seq<u8>, crypto: Crypto, env: Env, r: Core, pass: Env)
    requires c.started && Enters(c, data, crypto, env, r) && AllShaped(c.dials)
    requires env.now <= pass.now < env.now + 15000 + 0x8000_0000
    ensures AllShaped(r.dials)
    ensures var after := Tick(r, pass);
            if RunsOut(env.now, 15000, pass.now) || LinkState.Reached(Clock(pass.now), c.pairing.deadline) then
              after.pairing.phase.Off? && after.pairing.result.Timeout?
            else after.pairing == r.pairing
  {
    hide Tick, Clock, PairTimeouts, Acceptable, DeriveLmk, ParseRequest, Find, Replied;
    DeadlineMet(env.now, 15000, pass.now);
    TimeoutIs(r, pass);
    TickKeeps(r, pass);
  }

  // What is signed fixes every field of the request but the signature.
  lemma TranscriptBinds(a: seq<u8>, b: seq<u8>)
    requires |a| >= 136 && |b| >= 136 && ParseRequest(a).transcript == ParseRequest(b).transcript
    ensures a[..72] == b[..72]
  {
    var x, y := ParseRequest(a).transcript, ParseRequest(b).transcript;
    assert x == REQ_DOMAIN + a[..72] && y == REQ_DOMAIN + b[..72];
    assert x[8..] == a[..72] && y[8..] == b[..72];
  }

  // The byte strings that keep the uses of the keys apart, as text
  lemma Labels()
    ensures Spells(REQ_DOMAIN, "SLv2-req") && Spells(LMK_INFO, "serin-link-v2-lmk") && Spells(PairAuth.DOMAIN, "SLv5-pair-auth")
  {
  }

  predicate Spells(bytes: seq<u8>, text: string) {
    |bytes| == |text| && forall i :: 0 <= i < |text| ==> bytes[i] as int == text[i] as int
  }

  // Both ends derive the same key from the same shared secret, each with the dial's ephemeral key before the controller's.
  lemma KeyAgreement(crypto: Crypto, ctrlPriv: seq<u8>, ctrlPub: seq<u8>, dialPriv: seq<u8>, dialPub: seq<u8>)
    requires crypto.shared(ctrlPriv, dialPub) == crypto.shared(dialPriv, ctrlPub)
    ensures var lmk := DeriveLmk(crypto, ctrlPriv, dialPub, dialPub, ctrlPub);
            && lmk == DeriveLmk(crypto, dialPriv, ctrlPub, dialPub, ctrlPub)
            && (lmk.Some? ==> lmk.value == Sha256.Hkdf(crypto.shared(dialPriv, ctrlPub).value, dialPub + ctrlPub, LMK_INFO, 16))
  {
    hide Sha256.Hkdf;
  }

  // --- The end ---

  // The candidate is still being confirmed, or its key and the ephemeral one are gone.
  predicate KeptOrWiped(p: Pairing) {
    p.phase.Confirm? || (p.candLmk == ZeroBytes(16) && p.ephPriv == ZeroBytes(32))
  }

  // However a handshake with a candidate ends, no key of it is left.
  lemma KeysWiped(c: Core, op: Op, crypto: Crypto, env: Env)
    requires AllShaped(c.dials) && c.pairing.phase.Confirm?
    ensures KeptOrWiped(Apply(c, op, crypto, env).pairing)
  {
    hide OnRecv, Tick, PairStart, PairCancel, PairTimeouts, ForgetDial, ForgetAll, Start, KeptOrWiped;
    StillKept(c.pairing);
    TimeoutWiped(c, env);
    CancelWiped(c, env);
    match op
    case Recv(src, dst, data) => RecvWiped(c, src, dst, data, crypto, env);
    case Loop => TickKeeps(c, env);
    case OpenPairing(window) => OpenWiped(c, window, env);
    case ClosePairing =>
    case Forget(gone) => ForgetWiped(c, gone, env);
    case ForgetEvery => ForgetAllWiped(c, env);
    case NewCaps =>
    case StartUp => StartPairing(c, env);
  }

  lemma StillKept(p: Pairing)
    requires p.phase.Confirm?
    ensures KeptOrWiped(p)
  {
  }

  lemma TimeoutWiped(c: Core, env: Env)
    requires c.pairing.phase.Confirm?
    ensures KeptOrWiped(PairTimeouts(c, env).pairing)
  {
    hide Find, Clock, Since;
  }

  lemma CancelWiped(c: Core, env: Env)
    requires c.pairing.phase.Confirm?
    ensures KeptOrWiped(PairCancel(c, env).pairing)
  {
    hide Find;
  }

  lemma CommitWiped(c: Core, env: Env)
    requires c.pairing.phase.Confirm?
    ensures KeptOrWiped(PairCommit(c, env).pairing)
  {
    hide Find, Encode, BondsOf;
  }

  lemma OpenWiped(c: Core, window: u32, env: Env)
    requires c.pairing.phase.Confirm?
    ensures KeptOrWiped(PairStart(c, window, env).pairing)
  {
    hide Clock;
  }

  lemma ForgetWiped(c: Core, gone: seq<u8>, env: Env)
    requires c.pairing.phase.Confirm?
    ensures KeptOrWiped(ForgetDial(c, gone, env).0.pairing)
  {
    hide PairCancel, Find, Without, Forgotten, KeptOrWiped;
    StillKept(c.pairing);
    CancelWiped(c, env);
    var i := Find(c.dials, gone);
    if i >= 0 && Saves(Without(c, i), env.save) {
      ForgottenPairing(c, i, gone);
      CancelWiped(Forgotten(c, i, gone), env);
    }
  }

  lemma ForgottenPairing(c: Core, i: nat, mac: seq<u8>)
    requires i < |c.dials| && |Without(c, i)| <= MAX_DIALS
    ensures Forgotten(c, i, mac).pairing == c.pairing
  {
    hide Forgotten, Without;
    ForgottenIs(c, i, mac);
  }

  lemma ForgetAllWiped(c: Core, env: Env)
    requires c.pairing.phase.Confirm?
    ensures KeptOrWiped(ForgetAll(c, env).0.pairing)
  {
    hide PairCancel, DelPeers, Encode, KeptOrWiped;
    StillKept(c.pairing);
    if env.save {
      DelPeersWorld(Store(c, []), c.dials);
      CancelWiped(Cleared(DelPeers(Store(c, []), c.dials)), env);
    }
  }

  lemma RecvWiped(c: Core, src: seq<u8>, dst: seq<u8>, data: seq<u8>, crypto: Crypto, env: Env)
    requires AllShaped(c.dials) && c.pairing.phase.Confirm?
    ensures KeptOrWiped(OnRecv(c, src, dst, data, crypto, env).pairing)
  {
    hide OnPairReq, OnPairConfirm, OnDialFrame, KeptOrWiped;
    StillKept(c.pairing);
    ConfirmWiped(c, src, data, env);
    CandidateAsks(c, data, crypto, env);
    AnswersKept(c, OnPairReq(c, data, crypto, env));
    var i := Find(c.dials, src);
    if |data| >= 2 && i >= 0 {
      DialFramePairing(c, i, data[0], data[1], data, env);
    }
  }

  lemma AnswersKept(c: Core, r: Core)
    requires c.pairing.phase.Confirm? && (r == c || Answers(c, r))
    ensures KeptOrWiped(r.pairing)
  {
  }

  lemma ConfirmWiped(c: Core, src: seq<u8>, data: seq<u8>, env: Env)
    requires c.pairing.phase.Confirm?
    ensures KeptOrWiped(OnPairConfirm(c, src, data, env).pairing)
  {
    hide PairAuth.Make, PairAuth.Proves, PairCommit, Find, KeptOrWiped;
    StillKept(c.pairing);
    CommitWiped(c, env);
  }
}
