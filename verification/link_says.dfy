// Exactly what leaves the core when it speaks to the dials: the fan-out of a STATE, the replies to a dial's requests, and
// the whole of a pass of the loop, told from the slots alone.
module LinkSays {
  import opened Words
  import opened Bonds
  import opened LinkState
  import opened WifiSession
  import opened LinkSpec
  import opened LinkFrame
  import opened LinkSync
  import LinkWifi

  // --- The fan-out ---

  // A STATE to each live dial, in slot order
  function StatesTo(ds: seq<Dial>, p: StatePkt, now: nat): seq<Event> {
    if ds == [] then []
    else (if Live(ds[0], now) then [Sent(ds[0].bond.mac, State(p))] else []) + StatesTo(ds[1..], p, now)
  }

  lemma {:induction false} EchoSays(c: Core, k: nat, p: StatePkt, now: nat)
    requires k <= |c.dials|
    ensures EchoFrom(c, k, p, now).world.log == c.world.log + StatesTo(c.dials[k..], p, now)
    decreases |c.dials| - k
  {
    hide Live, Wants, Clock;
    if k < |c.dials| {
      var c1 := if Live(c.dials[k], now) then SendState(c, k, p, now) else Pend(c, k);
      EchoSays(c1, k + 1, p, now);
      assert c1.dials[k + 1..] == c.dials[k..][1..] && c.dials[k..][0] == c.dials[k];
    }
  }

  // The hotspot is found closed: the owner that had started it is settled and its session retired. Both are marks.
  function ClosedMarks(c: Core, env: Env): seq<Event> {
    var i := Find(c.dials, c.owner.mac);
    if env.device.Reports? && !env.device.setupAp && c.owner.valid && c.owner.started && !c.owner.cancelled && i >= 0
       && !c.dials[i].wifiSetupReq then
      [Settled(c.owner.mac, c.owner.session, CLOSED), Retired(c.owner.mac, c.owner.session)]
    else []
  }

  lemma BuildSays(c: Core, env: Env)
    requires AllShaped(c.dials)
    ensures BuildState(c, env).0.world.log == c.world.log + ClosedMarks(c, env)
    ensures ClosedMarks(c, env) != [] ==>
              var r := BuildState(c, env).0;
              r.owner == c.owner.(started := false, cancelled := true, status := CLOSED)
  {
    hide Retire, Find;
  }

  // --- The replies ---

  // Whether a throttled pull may be served now
  predicate Ready(sent: u32, now: nat) {
    sent == 0 || Since(Clock(now), sent) >= 2000
  }

  function CapsReply(d: Dial, capsSeq: u8, env: Env): seq<Event> {
    if Wants(d.want, 2) && Ready(d.lastCapsTx, env.now) && env.caps then [Sent(d.bond.mac, Caps(capsSeq))] else []
  }

  function InfoReply(d: Dial, env: Env): seq<Event> {
    if Wants(d.want, 1) && Ready(d.lastInfoTx, env.now) then [Sent(d.bond.mac, Info)] else []
  }

  function CredsReply(d: Dial, env: Env): seq<Event> {
    if d.wifiReq then [Sent(d.bond.mac, WifiResp(env.creds))] else []
  }

  function SetupReply(d: Dial, env: Env): seq<Event> {
    if d.wifiSetupReq && env.hasSetup then [SetupHook(d.bond.mac, env.setup)] else []
  }

  function CatalogReply(d: Dial): seq<Event> {
    if d.catalogReq then [Sent(d.bond.mac, Catalog(d.catalogCursor))] else []
  }

  function SourceReply(d: Dial, env: Env): seq<Event> {
    if !d.sourceReq then []
    else if env.sourceSet.None? then [Sent(d.bond.mac, SourceAck(d.sourceRequestId, 3))]
    else [SourceHook(d.bond.mac, d.sourceRevision, d.sourceId), Sent(d.bond.mac, SourceAck(d.sourceRequestId, env.sourceSet.value))]
  }

  // What the requests of a dial are answered with on its turn, each once, in this order
  function Replies(d: Dial, capsSeq: u8, env: Env): seq<Event> {
    CapsReply(d, capsSeq, env) + InfoReply(d, env) + CredsReply(d, env) + SetupReply(d, env) + CatalogReply(d)
    + SourceReply(d, env)
  }

  // The slot once they are: nothing asked for is left, and what was sent is throttled from now.
  function Throttled(d: Dial, capsSeq: u8, env: Env): Dial {
    d.(lastCapsTx := if CapsReply(d, capsSeq, env) != [] then Clock(env.now) else d.lastCapsTx,
       lastInfoTx := if InfoReply(d, env) != [] then Clock(env.now) else d.lastInfoTx)
  }

  function Answered(d: Dial, capsSeq: u8, env: Env): Dial {
    Throttled(d, capsSeq, env).(wifiReq := false, wifiSetupReq := false, catalogReq := false, sourceReq := false)
  }

  // The dial chose the room source, and the choice took: the others are to hear of it at once.
  predicate Chose(d: Dial, env: Env) {
    d.sourceReq && env.sourceSet == Some(0)
  }

  function Unthrottled(d: Dial): Dial {
    d.(lastInfoTx := 0)
  }

  // Only slot i changes, to d, and this is said.
  predicate Says(c: Core, r: Core, i: nat, d: Dial, said: seq<Event>)
    requires i < |c.dials|
  {
    r.dials == c.dials[i := d] && r.world.log == c.world.log + said && r.capsSeq == c.capsSeq
  }

  lemma SaysTrans(a: Core, b: Core, c: Core, i: nat, d: Dial, e: Dial, said: seq<Event>, more: seq<Event>)
    requires i < |a.dials| && Says(a, b, i, d, said) && Says(b, c, i, e, more)
    ensures Says(a, c, i, e, said + more)
  {
  }

  lemma CapsSay(c: Core, i: nat, env: Env)
    requires i < |c.dials|
    ensures var d := c.dials[i];
            var r := PullCaps(c, i, env.now, env);
            var said := CapsReply(d, c.capsSeq, env);
            Says(c, r, i, d.(lastCapsTx := if said != [] then Clock(env.now) else d.lastCapsTx), said) && r.owner == c.owner
  {
    hide Wants, Since, Clock;
  }

  lemma InfoSay(c: Core, i: nat, env: Env)
    requires i < |c.dials|
    ensures var d := c.dials[i];
            var r := PullInfo(c, i, env.now);
            var said := InfoReply(d, env);
            Says(c, r, i, d.(lastInfoTx := if said != [] then Clock(env.now) else d.lastInfoTx), said) && r.owner == c.owner
  {
    hide Wants, Since, Clock;
  }

  lemma ThrottledSay(c: Core, i: nat, env: Env)
    requires i < |c.dials|
    ensures var d := c.dials[i];
            var r := PullInfo(PullCaps(c, i, env.now, env), i, env.now);
            Says(c, r, i, Throttled(d, c.capsSeq, env), CapsReply(d, c.capsSeq, env) + InfoReply(d, env)) && r.owner == c.owner
  {
    hide PullCaps, PullInfo, Says, Wants, Ready, Clock;
    var d := c.dials[i];
    var c1 := PullCaps(c, i, env.now, env);
    CapsSay(c, i, env);
    SaidSlot(c, c1, i, d.(lastCapsTx := if CapsReply(d, c.capsSeq, env) != [] then Clock(env.now) else d.lastCapsTx),
             CapsReply(d, c.capsSeq, env));
    InfoSay(c1, i, env);
    SaysTrans(c, c1, PullInfo(c1, i, env.now), i, c1.dials[i], Throttled(d, c.capsSeq, env), CapsReply(d, c.capsSeq, env),
              InfoReply(d, env));
  }

  lemma SaidSlot(c: Core, r: Core, i: nat, d: Dial, said: seq<Event>)
    requires i < |c.dials| && Says(c, r, i, d, said)
    ensures |r.dials| == |c.dials| && r.dials[i] == d && r.capsSeq == c.capsSeq
  {
  }

  lemma CredsSay(c: Core, i: nat, env: Env)
    requires i < |c.dials|
    ensures var r := ServeWifiReq(c, i, env);
            Says(c, r, i, c.dials[i].(wifiReq := false), CredsReply(c.dials[i], env)) && r.owner == c.owner
  {
  }

  lemma SetupSay(c: Core, i: nat, env: Env)
    requires i < |c.dials|
    ensures var d := c.dials[i];
            var r := ServeSetup(c, i, env);
            && Says(c, r, i, d.(wifiSetupReq := false), SetupReply(d, env))
            && r.owner == if d.wifiSetupReq && env.hasSetup && env.setup then c.owner.(started := true) else c.owner
  {
  }

  lemma WifiSay(c: Core, i: nat, env: Env)
    requires i < |c.dials|
    ensures var d := c.dials[i];
            var r := ServeSetup(ServeWifiReq(c, i, env), i, env);
            && Says(c, r, i, d.(wifiReq := false, wifiSetupReq := false), CredsReply(d, env) + SetupReply(d, env))
            && r.owner == if d.wifiSetupReq && env.hasSetup && env.setup then c.owner.(started := true) else c.owner
  {
    hide ServeWifiReq, ServeSetup, Says;
    var d := c.dials[i];
    var c1 := ServeWifiReq(c, i, env);
    CredsSay(c, i, env);
    SaidSlot(c, c1, i, d.(wifiReq := false), CredsReply(d, env));
    SetupSay(c1, i, env);
    SaysTrans(c, c1, ServeSetup(c1, i, env), i, c1.dials[i], c1.dials[i].(wifiSetupReq := false), CredsReply(d, env),
              SetupReply(d, env));
  }

  lemma CatalogSay(c: Core, i: nat)
    requires i < |c.dials|
    ensures var r := ServeCatalog(c, i);
            Says(c, r, i, c.dials[i].(catalogReq := false), CatalogReply(c.dials[i])) && r.owner == c.owner
  {
  }

  lemma SourceSay(c: Core, i: nat, env: Env)
    requires i < |c.dials|
    ensures var d := c.dials[i];
            var r := ServeSource(c, i, env);
            && r.world.log == c.world.log + SourceReply(d, env) && r.capsSeq == c.capsSeq && r.owner == c.owner
            && r.dials[i] == d.(sourceReq := false)
            && forall j :: 0 <= j < |c.dials| && j != i ==>
                 r.dials[j] == if Chose(d, env) then Unthrottled(c.dials[j]) else c.dials[j]
  {
  }

  // A turn's replies: exactly these, the slot answered, and the others' throttle lifted if the dial's choice took.
  lemma PullsSay(c: Core, i: nat, env: Env)
    requires i < |c.dials|
    ensures var d := c.dials[i];
            var r := ServePulls(c, i, env.now, env);
            && r.world.log == c.world.log + Replies(d, c.capsSeq, env) && r.capsSeq == c.capsSeq
            && r.dials[i] == Answered(d, c.capsSeq, env)
            && (forall j :: 0 <= j < |c.dials| && j != i ==>
                  r.dials[j] == if Chose(d, env) then Unthrottled(c.dials[j]) else c.dials[j])
            && r.owner == if d.wifiSetupReq && env.hasSetup && env.setup then c.owner.(started := true) else c.owner
  {
    hide PullCaps, PullInfo, ServeWifiReq, ServeSetup, ServeCatalog, ServeSource, CapsReply, InfoReply, Clock;
    var d := c.dials[i];
    var c2 := PullInfo(PullCaps(c, i, env.now, env), i, env.now);
    ThrottledSay(c, i, env);
    var c4 := ServeSetup(ServeWifiReq(c2, i, env), i, env);
    WifiSay(c2, i, env);
    CatalogSay(c4, i);
    SourceSay(ServeCatalog(c4, i), i, env);
    Joined(c.world.log, CapsReply(d, c.capsSeq, env), InfoReply(d, env), CredsReply(d, env), SetupReply(d, env), CatalogReply(d),
           SourceReply(d, env));
  }

  lemma Joined(log: seq<Event>, a: seq<Event>, b: seq<Event>, c: seq<Event>, d: seq<Event>, e: seq<Event>, f: seq<Event>)
    ensures log + (a + b) + (c + d) + e + f == log + (a + b + c + d + e + f)
  {
  }

  // --- A pass of the loop ---

  // What a slot's turn sends: the STATE if the dial is live and due, then the replies
  function Turn(d: Dial, p: StatePkt, env: Env): seq<Event> {
    if !Live(d, env.now) then []
    else (if Due(d, env.now) then [Sent(d.bond.mac, State(p))] else []) + Replies(d, p.capsSeq, env)
  }

  // The turns one after the other; a choice that took lifts the throttle of the slots still to come.
  function Turns(ds: seq<Dial>, p: StatePkt, env: Env): seq<Event>
    decreases |ds|
  {
    if ds == [] then []
    else
      Turn(ds[0], p, env)
      + Turns(if Live(ds[0], env.now) && Chose(ds[0], env) then AllUnthrottled(ds[1..]) else ds[1..], p, env)
  }

  function AllUnthrottled(ds: seq<Dial>): (r: seq<Dial>)
    ensures |r| == |ds|
  {
    seq(|ds|, i requires 0 <= i < |ds| => Unthrottled(ds[i]))
  }

  // Sending the STATE answers the want for it and no other.
  lemma SentReplies(d: Dial, s: Dial, capsSeq: u8, env: Env)
    requires s == d.(wasLive := s.wasLive, lastStateTx := s.lastStateTx, pendState := s.pendState, heard := s.heard,
                     heardAt := s.heardAt, want := s.want)
    requires s.want == d.want || (Wants(d.want, 4) && s.want == d.want - 4)
    ensures Replies(s, capsSeq, env) == Replies(d, capsSeq, env)
  {
    hide Ready, Wants;
    OtherWants(d.want);
  }

  lemma OtherWants(w: u8)
    ensures Wants(w, 4) ==> Wants(w - 4, 2) == Wants(w, 2) && Wants(w - 4, 1) == Wants(w, 1)
  {
  }

  predicate NothingAsked(d: Dial) {
    !d.wifiReq && !d.wifiSetupReq && !d.catalogReq && !d.sourceReq
  }

  lemma TurnSays(c: Core, k: nat, p: StatePkt, env: Env)
    requires k < |c.dials| && p.capsSeq == c.capsSeq
    ensures var d := c.dials[k];
            var r := TickDial(c, k, p, env);
            && r.world.log == c.world.log + Turn(d, p, env) && r.capsSeq == c.capsSeq
            && (Live(d, env.now) ==> NothingAsked(r.dials[k]))
            && forall j :: 0 <= j < |c.dials| && j != k ==>
                 r.dials[j] == if Live(d, env.now) && Chose(d, env) then Unthrottled(c.dials[j]) else c.dials[j]
  {
    hide Live, Due, ServePulls, Replies, SendState;
    var d := c.dials[k];
    if Live(d, env.now) {
      var c1 := SetDial(c, k, d.(wasLive := true));
      var c2 := if Due(d, env.now) then SendState(c1, k, p, env.now) else c1;
      StateSays(c, k, p, env);
      PullsSay(c2, k, env);
      var said := if Due(d, env.now) then [Sent(d.bond.mac, State(p))] else [];
      assert c.world.log + said + Replies(d, p.capsSeq, env) == c.world.log + (said + Replies(d, p.capsSeq, env));
    }
  }

  lemma StateSays(c: Core, k: nat, p: StatePkt, env: Env)
    requires k < |c.dials|
    ensures var d := c.dials[k];
            var c1 := SetDial(c, k, d.(wasLive := true));
            var r := if Due(d, env.now) then SendState(c1, k, p, env.now) else c1;
            && r.world.log == c.world.log + (if Due(d, env.now) then [Sent(d.bond.mac, State(p))] else [])
            && r.capsSeq == c.capsSeq && (forall j :: 0 <= j < |c.dials| && j != k ==> r.dials[j] == c.dials[j])
            && Replies(r.dials[k], c.capsSeq, env) == Replies(d, c.capsSeq, env) && Chose(r.dials[k], env) == Chose(d, env)
  {
    hide Due, Replies, Wants, Clock;
    var d := c.dials[k];
    var c1 := SetDial(c, k, d.(wasLive := true));
    var r := if Due(d, env.now) then SendState(c1, k, p, env.now) else c1;
    SentReplies(d, r.dials[k], c.capsSeq, env);
  }

  lemma {:induction false} PassSays(c: Core, k: nat, p: StatePkt, env: Env)
    requires k <= |c.dials| && p.capsSeq == c.capsSeq
    ensures TickFrom(c, k, p, env).world.log == c.world.log + Turns(c.dials[k..], p, env)
    decreases |c.dials| - k
  {
    hide TickDial, Turn, Live, Chose, Unthrottled;
    if k < |c.dials| {
      var r := TickDial(c, k, p, env);
      var d := c.dials[k];
      TurnSays(c, k, p, env);
      PassSays(r, k + 1, p, env);
      assert c.dials[k..][1..] == c.dials[k + 1..];
      assert r.dials[k + 1..] == if Live(d, env.now) && Chose(d, env) then AllUnthrottled(c.dials[k + 1..]) else c.dials[k + 1..];
    }
  }

  // After the pass no live dial is left with a request.
  lemma {:induction false} PassAnswers(c: Core, k: nat, p: StatePkt, env: Env, i: nat)
    requires k <= |c.dials| && p.capsSeq == c.capsSeq && i < |c.dials|
    requires if i < k then NothingAsked(c.dials[i]) else Live(c.dials[i], env.now)
    ensures NothingAsked(TickFrom(c, k, p, env).dials[i])
    decreases |c.dials| - k
  {
    hide TickDial, Turn, Since, Clock, Chose;
    if k < |c.dials| {
      TurnSays(c, k, p, env);
      PassAnswers(TickDial(c, k, p, env), k + 1, p, env, i);
    }
  }

  // What a turn says is said in the pass.
  lemma {:induction false} TurnHappens(ds: seq<Dial>, i: nat, p: StatePkt, env: Env, e: Event)
    requires i < |ds| && e in Turn(ds[i], p, env)
    ensures e in Turns(ds, p, env)
    decreases |ds|
  {
    hide Turn, Live, Chose, Unthrottled;
    if i > 0 {
      StillSaid(ds[i], p, env, e);
      TurnHappens(ds[1..], i - 1, p, env, e);
      TurnHappens(AllUnthrottled(ds[1..]), i - 1, p, env, e);
    }
  }

  lemma StillSaid(d: Dial, p: StatePkt, env: Env, e: Event)
    requires e in Turn(d, p, env)
    ensures e in Turn(Unthrottled(d), p, env)
  {
    hide Wants, Since, Clock;
  }

  // Slots that get the same turn
  predicate SameTurn(a: Dial, b: Dial, now: nat) {
    && a.bond == b.bond && a.lastProbe == b.lastProbe && a.want == b.want && a.lastStateTx == b.lastStateTx
    && a.pendState == b.pendState && (Live(b, now) ==> a.wasLive == b.wasLive)
    && a.lastCapsTx == b.lastCapsTx && a.lastInfoTx == b.lastInfoTx && a.wifiReq == b.wifiReq
    && a.wifiSetupReq == b.wifiSetupReq && a.catalogReq == b.catalogReq && a.catalogCursor == b.catalogCursor
    && a.sourceReq == b.sourceReq && a.sourceRequestId == b.sourceRequestId && a.sourceRevision == b.sourceRevision
    && a.sourceId == b.sourceId
  }

  lemma TurnSame(a: Dial, b: Dial, p: StatePkt, env: Env)
    requires SameTurn(a, b, env.now)
    ensures Turn(a, p, env) == Turn(b, p, env) && Live(a, env.now) == Live(b, env.now) && Chose(a, env) == Chose(b, env)
    ensures SameTurn(Unthrottled(a), Unthrottled(b), env.now)
  {
    hide Wants, Since, Clock;
  }

  lemma {:induction false} TurnsSame(xs: seq<Dial>, ys: seq<Dial>, p: StatePkt, env: Env)
    requires |xs| == |ys| && forall i :: 0 <= i < |xs| ==> SameTurn(xs[i], ys[i], env.now)
    ensures Turns(xs, p, env) == Turns(ys, p, env)
    decreases |xs|
  {
    hide Turn, Live, Chose, SameTurn, Unthrottled;
    if xs != [] {
      TurnSame(xs[0], ys[0], p, env);
      forall i | 1 <= i < |xs|
        ensures SameTurn(xs[i], ys[i], env.now) && SameTurn(Unthrottled(xs[i]), Unthrottled(ys[i]), env.now)
      {
        TurnSame(xs[i], ys[i], p, env);
      }
      TurnsSame(xs[1..], ys[1..], p, env);
      TurnsSame(AllUnthrottled(xs[1..]), AllUnthrottled(ys[1..]), p, env);
    }
  }

  predicate AnyLive(ds: seq<Dial>, now: nat) {
    exists i :: 0 <= i < |ds| && Live(ds[i], now)
  }

  lemma {:induction false} QuietTurns(ds: seq<Dial>, now: nat)
    ensures var (quiet, live) := QuietFrom(ds, now);
            && live == AnyLive(ds, now)
            && forall i :: 0 <= i < |ds| ==> SameTurn(quiet[i], ds[i], now)
  {
    hide Live;
    if ds != [] && !Live(ds[0], now) {
      QuietTurns(ds[1..], now);
      var quiet := QuietFrom(ds, now).0;
      assert AnyLive(ds, now) <==> AnyLive(ds[1..], now) by {
        assert forall i :: 1 <= i < |ds| ==> ds[i] == ds[1..][i - 1];
        assert forall i :: 0 <= i < |ds| - 1 ==> ds[1..][i] == ds[i + 1];
      }
      forall i | 0 <= i < |ds|
        ensures SameTurn(quiet[i], ds[i], now)
      {
        if i > 0 {
          assert ds[i] == ds[1..][i - 1] && quiet[i] == QuietFrom(ds[1..], now).0[i - 1];
        }
      }
    }
  }

  // Finding the hotspot closed changes a history, and no turn.
  lemma BuildTurns(c: Core, env: Env)
    requires AllShaped(c.dials)
    ensures var r := BuildState(c, env).0;
            && r.capsSeq == c.capsSeq && r.lastState == c.lastState
            && forall i :: 0 <= i < |c.dials| ==> SameTurn(r.dials[i], c.dials[i], env.now)
  {
    hide Retire, Find, Live;
    var i := Find(c.dials, c.owner.mac);
    if i >= 0 {
      RetiredTurn(c.dials[i], c.owner.session, CLOSED, env.now);
    }
  }

  lemma RetiredTurn(d: Dial, session: u32, status: u8, now: nat)
    requires HistoryShaped(d)
    ensures SameTurn(Retire(d, session, status), d, now)
  {
    hide RetiredIndex, WithHistory, SameTurn;
    if session != 0 {
      var found := RetiredIndex(d.retired, session);
      var at := if found < 0 then d.retiredNext else found;
      HistoryTurn(d, d.retired[at := session], d.retiredStatus[at := status],
                  if found < 0 then (at + 1) % HISTORY else d.retiredNext, now);
    } else {
      HistoryTurn(d, d.retired, d.retiredStatus, d.retiredNext, now);
    }
  }

  lemma HistoryTurn(d: Dial, retired: seq<u32>, status: seq<u8>, next: nat, now: nat)
    ensures SameTurn(WithHistory(d, retired, status, next), d, now) && SameTurn(d, d, now)
  {
    hide Live;
  }

  lemma ClosedSame(a: Core, b: Core, env: Env)
    requires a.owner == b.owner && |a.dials| == |b.dials|
    requires forall i :: 0 <= i < |a.dials| ==> a.dials[i].bond.mac == b.dials[i].bond.mac && a.dials[i].wifiSetupReq == b.dials[i].wifiSetupReq
    ensures ClosedMarks(a, env) == ClosedMarks(b, env)
  {
    hide Find;
    LinkWifi.SameFind(a.dials, b.dials, a.owner.mac);
  }

  lemma TurnHeads(ds: seq<Dial>, was: seq<Dial>, now: nat)
    requires |ds| == |was| && forall i :: 0 <= i < |ds| ==> SameTurn(ds[i], was[i], now)
    ensures forall i :: 0 <= i < |ds| ==> ds[i].bond.mac == was[i].bond.mac && ds[i].wifiSetupReq == was[i].wifiSetupReq
  {
    hide Live;
  }

  lemma ClaimedTurn(a: Dial, b: Dial, c: Dial, last: Option<StatePkt>, p: StatePkt, now: nat)
    requires SameTurn(a, b, now) && SameTurn(b, c, now)
    ensures SameTurn(Claimed(a, last, p), Claimed(c, last, p), now)
  {
    hide Since, Clock;
  }

  lemma TimeoutsSay(c: Core, env: Env)
    ensures var r := PairTimeouts(c, env);
            && r.dials == c.dials && r.owner == c.owner && r.world.log == c.world.log
            && r.lastState == c.lastState && r.capsSeq == c.capsSeq && r.epoch == c.epoch
  {
    hide Find, Since, Clock;
  }

  // A pass of the loop, as long as a dial is live: the marks of a hotspot found closed, and then each live dial's turn in slot
  // order, from the slots as they were, marked if the STATE has changed. Nothing else leaves the core, and nothing twice.
  lemma TickSays(c: Core, env: Env)
    requires AllShaped(c.dials) && c.started
    ensures Tick(c, env).world.log
            == c.world.log
               + if AnyLive(c.dials, env.now) then ClosedMarks(c, env) + Turns(Claims(c, env), Reported(c, env), env) else []
  {
    hide PairTimeouts, QuietFrom, BuildState, TickFrom, AllShaped, SameTurn, Live, ClosedMarks, Turns;
    var c1 := PairTimeouts(c, env);
    TimeoutsSay(c, env);
    QuietTurns(c.dials, env.now);
    QuietShaped(c1.dials, env.now);
    var (quiet, live) := QuietFrom(c1.dials, env.now);
    var c2 := c1.(dials := quiet);
    if live {
      var (c3, p) := BuildState(c2, env);
      BuildIs(c, c2, env);
      BuildSays(c2, env);
      BuildTurns(c2, env);
      TurnHeads(quiet, c.dials, env.now);
      ClosedSame(c2, c, env);
      var c4 := if c3.lastState == Some(p) then c3 else PendAll(c3.(lastState := Some(p)));
      PassSays(c4, 0, p, env);
      forall i | 0 <= i < |c.dials|
        ensures SameTurn(c4.dials[i], Claims(c, env)[i], env.now)
      {
        assert c4.dials[i] == Claimed(c3.dials[i], c.lastState, p);
        ClaimedTurn(c3.dials[i], quiet[i], c.dials[i], c.lastState, p, env.now);
      }
      assert c4.dials[0..] == c4.dials;
      TurnsSame(c4.dials, Claims(c, env), p, env);
    }
  }

  // No request of a live dial is left after a pass.
  lemma TickAnswers(c: Core, env: Env, i: nat)
    requires AllShaped(c.dials) && c.started && i < |c.dials| && Live(c.dials[i], env.now)
    ensures NothingAsked(Tick(c, env).dials[i])
  {
    hide PairTimeouts, QuietFrom, BuildState, TickFrom, AllShaped, SameTurn, Live;
    var c1 := PairTimeouts(c, env);
    TimeoutsSay(c, env);
    QuietTurns(c.dials, env.now);
    QuietShaped(c1.dials, env.now);
    var c2 := c1.(dials := QuietFrom(c1.dials, env.now).0);
    var (c3, p) := BuildState(c2, env);
    BuildIs(c, c2, env);
    BuildTurns(c2, env);
    var c4 := if c3.lastState == Some(p) then c3 else PendAll(c3.(lastState := Some(p)));
    LiveStill(c2.dials[i], c.dials[i], env.now);
    LiveStill(c3.dials[i], c2.dials[i], env.now);
    LiveStill(c4.dials[i], c3.dials[i], env.now);
    PassAnswers(c4, 0, p, env, i);
  }

  lemma LiveStill(a: Dial, b: Dial, now: nat)
    ensures SameTurn(a, b, now) || a == b.(pendState := true) || a == b ==> Live(a, now) == Live(b, now)
  {
  }

  // What a live dial's turn says is said in the pass.
  lemma TickSaysTo(c: Core, env: Env, i: nat, e: Event)
    requires AllShaped(c.dials) && c.started && i < |c.dials| && Live(c.dials[i], env.now)
    requires e in Turn(Claims(c, env)[i], Reported(c, env), env)
    ensures var r := Tick(c, env);
            |r.world.log| >= |c.world.log| && e in r.world.log[|c.world.log|..]
  {
    hide Tick, Turn, Turns, Live, ClosedMarks, Reported;
    TickSays(c, env);
    TurnHappens(Claims(c, env), i, Reported(c, env), env, e);
    var said := ClosedMarks(c, env) + Turns(Claims(c, env), Reported(c, env), env);
    assert (c.world.log + said)[|c.world.log|..] == said;
  }

  // The turn of a live dial has every reply in it, marked for a STATE or not.
  lemma RepliesSaid(d: Dial, last: Option<StatePkt>, p: StatePkt, env: Env, e: Event)
    requires Live(d, env.now) && (e in CredsReply(d, env) || e in SetupReply(d, env) || e in CatalogReply(d) || e in SourceReply(d, env))
    ensures e in Turn(Claimed(d, last, p), p, env)
  {
    hide Due, Wants, Since, Clock, CapsReply, InfoReply;
    assert Live(Claimed(d, last, p), env.now);
    assert e in Replies(Claimed(d, last, p), p.capsSeq, env);
  }
}
