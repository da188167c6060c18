// What a pairing request can do, and what stays fixed while a candidate is being confirmed.
module LinkPairing {
  import opened Words
  import opened Bonds
  import opened LinkState
  import opened WifiSession
  import opened LinkSpec
  import opened LinkFrame
  import PairAuth

  // The request is complete, current, signed by the identity it names, presents the pinned identity if its dial is
  // bonded, finds room if it is not, and agrees on a key.
  predicate Acceptable(c: Core, data: seq<u8>, crypto: Crypto) {
    && |data| >= 136 && data[1] >= PairAuth.VERSION
    && var req := ParseRequest(data);
       && crypto.verify(req.idPub, req.transcript, req.sig)
       && var known := Find(c.dials, req.mac);
          && (if known >= 0 then c.dials[known].bond.idPub == req.idPub else |c.dials| < MAX_DIALS)
          && DeriveLmk(crypto, c.pairing.ephPriv, req.ephPub, req.ephPub, c.pairing.ephPub).Some?
  }

  // The handshake with the request's candidate in place of the one before
  function WithCandidate(c: Core, data: seq<u8>, crypto: Crypto): Pairing
    requires Acceptable(c, data, crypto)
  {
    hide DeriveLmk;
    var req := ParseRequest(data);
    var lmk := DeriveLmk(crypto, c.pairing.ephPriv, req.ephPub, req.ephPub, c.pairing.ephPub).value;
    c.pairing.(candEphPub := req.ephPub, candMac := req.mac, candLmk := lmk, candIdPub := req.idPub)
  }

  // One more thing has happened: the controller's answer was broadcast.
  predicate Replied(was: seq<Event>, now: seq<Event>, ephPub: seq<u8>) {
    && |now| == |was| + 1 && now[..|was|] == was
    && var e := now[|was|];
       e.Sent? && e.mac == BCAST && e.frame.PairResp? && e.frame.ephPub == ephPub
  }

  // Only the displayed result changes, or only an answer is broadcast.
  predicate Answers(c: Core, r: Core) {
    || r == c.(pairing := c.pairing.(result := r.pairing.result))
    || (r == c.(world := c.world.(log := r.world.log)) && Replied(c.world.log, r.world.log, c.pairing.ephPub))
  }

  // A candidate takes the window: its key is on the radio, its answer is out, its confirmation is awaited.
  predicate Enters(c: Core, data: seq<u8>, crypto: Crypto, env: Env, r: Core) {
    && c.pairing.phase.Window? && env.install && Acceptable(c, data, crypto)
    && var p := WithCandidate(c, data, crypto);
       && r.pairing == p.(phase := Confirm, result := Confirming,
                          confirmDeadline := (Clock(env.now) + PAIR_CONFIRM_MS) % B32)
       && r == c.(pairing := r.pairing,
                  world := c.world.(log := r.world.log, peers := c.world.peers[p.candMac := Keyed(p.candLmk)]))
       && Replied(c.world.log, r.world.log, c.pairing.ephPub)
  }

  // The radio refused the candidate, and the window closes.
  predicate Refused(c: Core, data: seq<u8>, crypto: Crypto, env: Env, r: Core) {
    && c.pairing.phase.Window? && !env.install && Acceptable(c, data, crypto)
    && var p := WithCandidate(c, data, crypto);
       r == PairEnd(CleanupCandidate(DelPeer(c.(pairing := p), p.candMac), env), Cancelled)
  }

  lemma PairReqOutcome(c: Core, data: seq<u8>, crypto: Crypto, env: Env)
    ensures var r := OnPairReq(c, data, crypto, env);
            c == r || Answers(c, r) || Enters(c, data, crypto, env, r) || Refused(c, data, crypto, env, r)
  {
    hide DeriveLmk, Find, ParseRequest, PairEnd, CleanupCandidate, Answers, Enters, Refused;
    var r := OnPairReq(c, data, crypto, env);
    if !c.pairing.phase.Off? && |data| >= 136 && data[1] >= PairAuth.VERSION {
      var req := ParseRequest(data);
      var known := Find(c.dials, req.mac);
      var repeating := c.pairing.phase.Confirm?;
      var lmk := DeriveLmk(crypto, c.pairing.ephPriv, req.ephPub, req.ephPub, c.pairing.ephPub);
      if repeating && req.mac != c.pairing.candMac {
      } else if !crypto.verify(req.idPub, req.transcript, req.sig) {
      } else if known >= 0 && c.dials[known].bond.idPub != req.idPub {
        AnswersResult(c, PinMismatch);
      } else if known < 0 && |c.dials| >= MAX_DIALS {
        AnswersResult(c, Full);
      } else if repeating && (req.ephPub != c.pairing.candEphPub || req.idPub != c.pairing.candIdPub) {
      } else if lmk.None? || env.sign.None? {
      } else if repeating {
        AnswersSend(c, PairResp(c.pairing.ephPub, env.channel, env.sign.value));
      } else if env.install {
        EntersOutcome(c, data, crypto, env);
      } else {
        RefusedOutcome(c, data, crypto, env);
      }
    }
  }

  lemma AnswersResult(c: Core, result: PairResult)
    ensures Answers(c, c.(pairing := c.pairing.(result := result)))
  {
  }

  lemma AnswersSend(c: Core, frame: Frame)
    requires frame.PairResp? && frame.ephPub == c.pairing.ephPub
    ensures Answers(c, Send(c, BCAST, frame))
  {
  }

  lemma EntersOutcome(c: Core, data: seq<u8>, crypto: Crypto, env: Env)
    requires c.pairing.phase.Window? && env.install && env.sign.Some? && Acceptable(c, data, crypto)
    ensures Enters(c, data, crypto, env, OnPairReq(c, data, crypto, env))
  {
    hide DeriveLmk, Find, ParseRequest;
    var r := OnPairReq(c, data, crypto, env);
    var p := WithCandidate(c, data, crypto);
    assert (c.world.peers - {p.candMac})[p.candMac := Keyed(p.candLmk)] == c.world.peers[p.candMac := Keyed(p.candLmk)];
  }

  lemma RefusedOutcome(c: Core, data: seq<u8>, crypto: Crypto, env: Env)
    requires c.pairing.phase.Window? && !env.install && env.sign.Some? && Acceptable(c, data, crypto)
    ensures Refused(c, data, crypto, env, OnPairReq(c, data, crypto, env))
  {
    hide DeriveLmk, Find, ParseRequest, PairEnd, CleanupCandidate;
  }
}
