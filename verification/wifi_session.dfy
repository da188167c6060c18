// Who owns the Wi-Fi setup hotspot: queueing a start, noticing that the hotspot closed, cancelling, and the
// per-dial history of retired sessions that keeps a late start from reopening it.
module WifiSession {
  import opened Words
  import opened Bonds
  import opened LinkState

  // wifi_retired_index
  function RetiredIndex(retired: seq<u32>, session: u32): (i: int)
    ensures -1 <= i < |retired|
    ensures i >= 0 ==> retired[i] == session && forall j :: 0 <= j < i ==> retired[j] != session
    ensures i == -1 ==> session !in retired
  {
    if retired == [] then -1
    else if retired[0] == session then 0
    else
      var r := RetiredIndex(retired[1..], session);
      assert forall j :: 1 <= j < |retired| ==> retired[j] == retired[1..][j - 1];
      if r == -1 then -1 else r + 1
  }

  predicate HistoryShaped(d: Dial) {
    |d.retired| == HISTORY && |d.retiredStatus| == HISTORY && d.retiredNext < HISTORY
  }

  predicate AllShaped(ds: seq<Dial>) {
    forall i :: 0 <= i < |ds| ==> HistoryShaped(ds[i])
  }

  function WithHistory(d: Dial, retired: seq<u32>, status: seq<u8>, next: nat): Dial {
    d.(retired := retired, retiredStatus := status, retiredNext := next)
  }

  // wifi_retire
  function Retire(d: Dial, session: u32, status: u8): (r: Dial)
    requires HistoryShaped(d)
    ensures HistoryShaped(r)
  {
    hide RetiredIndex;
    if session == 0 then d
    else
      var found := RetiredIndex(d.retired, session);
      var at := if found < 0 then d.retiredNext else found;
      WithHistory(d, d.retired[at := session], d.retiredStatus[at := status],
                  if found < 0 then (at + 1) % HISTORY else d.retiredNext)
  }

  // wifi_is_owner
  predicate IsOwner(c: Core, i: nat, session: u32)
    requires i < |c.dials|
  {
    c.owner.valid && c.owner.session == session && c.owner.mac == c.dials[i].bond.mac
  }

  function DropRequests(ds: seq<Dial>): (r: seq<Dial>)
    ensures |r| == |ds|
  {
    seq(|ds|, i requires 0 <= i < |ds| => ds[i].(wifiSetupReq := false))
  }

  // wifi_retire, on a slot of the table
  function RetireAt(c: Core, i: nat, session: u32, status: u8): (r: Core)
    requires i < |c.dials| && AllShaped(c.dials)
    ensures |r.dials| == |c.dials|
  {
    hide Retire;
    Emit(SetDial(c, i, Retire(c.dials[i], session, status)), Retired(c.dials[i].bond.mac, session))
  }

  // A new ownership retires the session it replaces and drops every queued start.
  function TakeOver(c: Core, i: nat, session: u32): (r: Core)
    requires i < |c.dials| && AllShaped(c.dials)
    ensures |r.dials| == |c.dials|
  {
    hide Retire;
    var prior := if c.owner.valid then Find(c.dials, c.owner.mac) else -1;
    var owned := Emit(c.(dials := DropRequests(c.dials),
                         owner := Owner(true, c.dials[i].bond.mac, session, false, false, c.owner.status)),
                      Owned(c.dials[i].bond.mac, session));
    DropShaped(c.dials);
    if prior < 0 then owned else RetireAt(owned, prior, c.owner.session, STALE)
  }

  lemma DropShaped(ds: seq<Dial>)
    requires AllShaped(ds)
    ensures AllShaped(DropRequests(ds))
  {
  }

  // wifi_queue_setup
  function QueueSetup(c: Core, i: nat, session: u32): (r: Core)
    requires i < |c.dials| && AllShaped(c.dials)
    ensures |r.dials| == |c.dials|
  {
    if session != 0 && (RetiredIndex(c.dials[i].retired, session) >= 0 || (IsOwner(c, i, session) && c.owner.cancelled)) then c
    else
      var c1 := if !IsOwner(c, i, session) || (session == 0 && c.owner.cancelled) then TakeOver(c, i, session) else c;
      SetDial(c1, i, c1.dials[i].(wifiSetupReq := true))
  }

  // wifi_observe_ap_closed
  function ObserveClosed(c: Core): (r: Core)
    requires AllShaped(c.dials)
    ensures |r.dials| == |c.dials|
  {
    if !c.owner.valid || !c.owner.started || c.owner.cancelled then c
    else
      var i := Find(c.dials, c.owner.mac);
      if i < 0 || c.dials[i].wifiSetupReq then c
      else
        RetireAt(Emit(c.(owner := c.owner.(started := false, cancelled := true, status := CLOSED)),
                      Settled(c.owner.mac, c.owner.session, CLOSED)),
                 i, c.owner.session, CLOSED)
  }

  // wifi_terminal_status
  function TerminalStatus(cached: u8, ap: u8): u8 {
    if cached == CLOSED || cached == RECOVERY then ap else cached
  }

  // wifi_without_start
  function WithoutStart(device: Device): u8 {
    if device.Unavailable? || device.setupAp then RECOVERY else CLOSED
  }

  // What the hook reports, out-of-range values read as unsupported.
  function HookStatus(status: u8): u8 {
    if status > UNSUPPORTED then UNSUPPORTED else status
  }

  datatype Verdict = Known(status: u8) | AskHook

  // The status a cancel is answered with, and whether the adapter has to be asked for it.
  function CancelVerdict(c: Core, i: nat, session: u32, env: Env): Verdict
    requires i < |c.dials| && AllShaped(c.dials)
  {
    hide RetiredIndex;
    var ap := WithoutStart(env.device);
    var found := RetiredIndex(c.dials[i].retired, session);
    var owner := IsOwner(c, i, session);
    if !env.hasCancel then Known(UNSUPPORTED)
    else if c.owner.valid && !owner && (!c.owner.cancelled || c.owner.status == WAITING) then Known(STALE)
    else if owner && c.owner.cancelled && c.owner.status != WAITING then Known(TerminalStatus(c.owner.status, ap))
    else if found >= 0 && c.dials[i].retiredStatus[found] != WAITING then
      Known(TerminalStatus(c.dials[i].retiredStatus[found], ap))
    else if owner && c.owner.started then AskHook
    else Known(ap)
  }

  function PendAll(c: Core): (r: Core)
    ensures |r.dials| == |c.dials|
  {
    c.(dials := seq(|c.dials|, i requires 0 <= i < |c.dials| => c.dials[i].(pendState := true)))
  }

  function CancelStatus(c: Core, i: nat, session: u32, env: Env): u8
    requires i < |c.dials| && AllShaped(c.dials)
  {
    var verdict := CancelVerdict(c, i, session, env);
    if verdict.AskHook? then HookStatus(env.cancel) else verdict.status
  }

  // The hook's call, if one is due, and the owner's verdict.
  function CancelSettle(c: Core, i: nat, session: u32, env: Env): (r: Core)
    requires i < |c.dials| && AllShaped(c.dials)
    ensures |r.dials| == |c.dials|
  {
    hide CancelVerdict;
    var mac := c.dials[i].bond.mac;
    var status := CancelStatus(c, i, session, env);
    var c1 := if CancelVerdict(c, i, session, env).AskHook? then PendAll(Emit(c, CancelHook(mac, session, status))) else c;
    if IsOwner(c, i, session) then
      Emit(SetDial(c1.(owner := c1.owner.(cancelled := true, status := status)),
                   i, c1.dials[i].(wifiSetupReq := false)),
           Settled(mac, session, status))
    else c1
  }

  // wifi_cancel, once a hotspot found closed has been noted
  function CancelTail(c: Core, i: nat, session: u32, env: Env): (r: Core)
    requires i < |c.dials| && AllShaped(c.dials)
    ensures |r.dials| == |c.dials|
  {
    hide CancelVerdict, Retire;
    var c2 := CancelSettle(c, i, session, env);
    SettleShaped(c, i, session, env);
    var status := CancelStatus(c, i, session, env);
    Send(RetireAt(c2, i, session, status), c.dials[i].bond.mac, CancelAck(session, status))
  }

  lemma SettleShaped(c: Core, i: nat, session: u32, env: Env)
    requires i < |c.dials| && AllShaped(c.dials)
    ensures AllShaped(CancelSettle(c, i, session, env).dials)
  {
    hide CancelVerdict, CancelStatus;
  }

  // wifi_cancel
  function CancelSession(c: Core, i: nat, session: u32, env: Env): (r: Core)
    requires i < |c.dials| && AllShaped(c.dials)
    ensures |r.dials| == |c.dials|
  {
    hide ObserveClosed, CancelTail;
    ObserveShaped(c);
    CancelTail(if WithoutStart(env.device) == CLOSED then ObserveClosed(c) else c, i, session, env)
  }

  lemma ObserveShaped(c: Core)
    requires AllShaped(c.dials)
    ensures AllShaped(ObserveClosed(c).dials)
  {
    hide Retire;
  }
}
