// The controller core as the object it is: fields updated in place, slots compacted in an array, calls out to the
// port. Every method is proved to be the specification's step on the whole state.
module Link {
  import opened Words
  import opened Bonds
  import opened LinkState
  import opened WifiSession
  import opened LinkSpec
  import opened LinkFrame
  import opened LinkRun
  import opened LinkTable
  import opened LinkSteps
  import PairAuth
  import Sha256

  // The store, the radio and the hooks behind the port
  class Port {
    var store: Option<seq<u8>>
    var capsStore: Option<u8>
    ghost var writes: seq<seq<u8>>
    var peers: map<seq<u8>, Peer>
    ghost var log: seq<Event>

    ghost function View(): World
      reads this
    {
      World(store, capsStore, writes, peers, log)
    }

    // kv_set of the bond table
    method SaveBonds(blob: seq<u8>, ok: bool) returns (saved: bool)
      modifies this
      ensures saved == ok
      ensures View() == if ok then old(View()).(store := Some(blob), writes := old(writes) + [blob]) else old(View())
    {
      if ok {
        store := Some(blob);
        writes := writes + [blob];
      }
      saved := ok;
    }

    // kv_set of the capabilities sequence number
    method SaveCaps(seqNo: u8, ok: bool)
      modifies this
      ensures View() == if ok then old(View()).(capsStore := Some(seqNo)) else old(View())
    {
      if ok {
        capsStore := Some(seqNo);
      }
    }

    method PeerAdd(mac: seq<u8>, peer: Peer, ok: bool) returns (added: bool)
      modifies this
      ensures added == ok
      ensures View() == if ok then old(View()).(peers := old(peers)[mac := peer]) else old(View())
    {
      if ok {
        peers := peers[mac := peer];
      }
      added := ok;
    }

    method PeerDel(mac: seq<u8>)
      modifies this
      ensures View() == old(View()).(peers := old(peers) - {mac})
    {
      peers := peers - {mac};
    }

    // A frame sent, or a hook called
    method Note(e: Event)
      modifies this
      ensures View() == old(View()).(log := old(log) + [e])
    {
      log := log + [e];
    }
  }

  class Controller {
    var started: bool
    var epoch: u16
    var capsSeq: u8
    var ownMac: seq<u8>
    const dial: array<Dial>
    var nDials: nat
    var owner: Owner
    var lastState: Option<StatePkt>
    var pairing: Pairing
    const port: Port
    const crypto: Crypto

    ghost function View(): Core
      reads this, dial, port
      requires nDials <= dial.Length
    {
      Core(started, epoch, capsSeq, ownMac, dial[..nDials], owner, lastState, pairing, port.View())
    }

    ghost predicate Valid()
      reads this, dial, port
    {
      dial.Length == MAX_DIALS && nDials <= MAX_DIALS && WellFormed(View())
    }

    // sl2_link_init on a radio just powered up
    constructor (port: Port, crypto: Crypto)
      ensures Valid() && this.port == port && this.crypto == crypto && fresh(dial)
      ensures var v := View();
              v == Reset(v).(world := port.View())
    {
      started, epoch, capsSeq, ownMac, nDials := false, 0, 0, ZeroBytes(6), 0;
      dial := new Dial[MAX_DIALS](_ => FreshDial(Bond(ZeroBytes(6), ZeroBytes(16), ZeroBytes(32), 0, ZeroBytes(7))));
      owner := Owner(false, ZeroBytes(6), 0, false, false, 0);
      lastState := None;
      pairing := Pairing(Off, 0, 0, ZeroBytes(32), ZeroBytes(32), ZeroBytes(6), ZeroBytes(16), ZeroBytes(32), ZeroBytes(32), Idle);
      this.port, this.crypto := port, crypto;
    }

    // --- Small helpers ---

    // dial_by_mac
    method DialByMac(mac: seq<u8>) returns (i: int)
      requires Valid()
      ensures i == Find(View().dials, mac)
    {
      hide Find, WellFormed;
      for k := 0 to nDials
        invariant forall j :: 0 <= j < k ==> dial[j].bond.mac != mac
      {
        if dial[k].bond.mac == mac {
          FindFirst(View().dials, k, mac);
          return k;
        }
      }
      return -1;
    }

    // One slot rewritten
    method Put(i: nat, d: Dial)
      requires Valid() && i < nDials && HistoryShaped(d) && Sized(d.bond)
      modifies dial
      ensures Valid() && View() == SetDial(old(View()), i, d)
    {
      dial[i] := d;
      PutWellFormed(old(View()), i, d);
      assert View() == SetDial(old(View()), i, d);
    }

    method Note(e: Event)
      requires Valid()
      modifies port
      ensures Valid() && View() == Emit(old(View()), e)
    {
      hide WellFormed;
      port.Note(e);
      EmitWellFormed(old(View()), e);
    }

    // persist_bonds
    method PersistBonds(recs: seq<Bond>, env: Env) returns (saved: bool)
      requires Valid() && AllSized(recs)
      modifies port
      ensures Valid() && saved == Saves(recs, env.save)
      ensures View() == if saved then Store(old(View()), recs) else old(View())
    {
      hide WellFormed, Encode;
      var blob := new u8[BLOB_MAX];
      var len := BondsEncode(recs, |recs|, blob);
      if len == 0 {
        return false;
      }
      assert recs[..|recs|] == recs;
      EncodeLength(recs);
      assert blob[..len] == Encode(recs);
      saved := port.SaveBonds(blob[..len], env.save);
      if saved {
        StoreWellFormed(old(View()), recs);
      }
    }

    // mark_all_state_pending
    method MarkAllStatePending()
      requires Valid()
      modifies dial
      ensures Valid() && View() == PendAll(old(View()))
    {
      hide WellFormed;
      for i := 0 to nDials
        invariant forall j :: 0 <= j < i ==> dial[j] == old(dial[j]).(pendState := true)
        invariant forall j :: i <= j < nDials ==> dial[j] == old(dial[j])
      {
        dial[i] := dial[i].(pendState := true);
      }
      PendAllWellFormed(old(View()));
      assert View().dials == PendAll(old(View())).dials;
    }

    // mark_other_info_pending
    method MarkOtherInfoPending(except: nat)
      requires Valid()
      modifies dial
      ensures Valid() && View() == old(View()).(dials := OtherInfo(old(View()).dials, except))
    {
      hide WellFormed;
      for i := 0 to nDials
        invariant forall j :: 0 <= j < i ==> dial[j] == if j == except then old(dial[j]) else old(dial[j]).(lastInfoTx := 0)
        invariant forall j :: i <= j < nDials ==> dial[j] == old(dial[j])
      {
        if i != except {
          dial[i] := dial[i].(lastInfoTx := 0);
        }
      }
      OtherWellFormed(old(View()), except);
      assert View().dials == OtherInfo(old(View()).dials, except);
    }

    // --- The replay guard ---

    // The table as it is, to be changed and proposed to the store
    method CopyBonds() returns (recs: array<Bond>)
      requires Valid()
      ensures fresh(recs) && recs.Length == MAX_DIALS && recs[..nDials] == BondsOf(View().dials)
      ensures AllSized(recs[..nDials])
    {
      hide WellFormed;
      recs := new Bond[MAX_DIALS](_ => Bond(ZeroBytes(6), ZeroBytes(16), ZeroBytes(32), 0, ZeroBytes(7)));
      for i := 0 to nDials
        invariant forall j :: 0 <= j < i ==> recs[j] == dial[j].bond
      {
        recs[i] := dial[i].bond;
      }
      assert recs[..nDials] == BondsOf(View().dials);
      TableSized(View());
    }

    // The table with one dial's guard latched, saved
    method PersistLatched(i: nat, env: Env) returns (saved: bool)
      requires Valid() && i < nDials
      modifies port
      ensures Valid()
      ensures var recs := BondsOf(old(View()).dials)[i := Latch(old(View()).dials[i].bond)];
              saved == Saves(recs, env.save) && View() == if saved then Store(old(View()), recs) else old(View())
    {
      hide WellFormed, Encode, BondsOf, Latch, Store, Saves;
      var recs := CopyBonds();
      LatchSized(View(), i);
      recs[i] := Latch(recs[i]);
      assert recs[..nDials] == BondsOf(View().dials)[i := Latch(View().dials[i].bond)];
      saved := PersistBonds(recs[..nDials], env);
    }

    // The first correct echo: enforced at once, latched once saved.
    method LatchDial(i: nat, env: Env) returns (ok: bool)
      requires Valid() && i < nDials && epoch != 0 && !Latched(dial[i].bond)
      modifies dial, port
      ensures Valid() && (View(), ok) == LinkSpec.EpochOk(old(View()), i, epoch, env)
    {
      hide WellFormed, LinkSpec.EpochOk, BondsOf, Latch, Latched, Store, Saves, SetDial, HistoryShaped, Sized;
      hide Echoed, Marked, Rebonded;
      ghost var c := View();
      var d := dial[i];
      LatchSteps(c, i, env);
      SlotFormed(c, i);
      LatchSized(c, i);
      StepsFormed(d);
      SetDialAt(c, i, Echoed(d));
      Put(i, Echoed(d));
      LatchedTable(c, View(), i);
      ok := PersistLatched(i, env);
      Put(i, if ok then Rebonded(Echoed(d), Latch(d.bond)) else Marked(Echoed(d)));
    }

    // epoch_ok
    method EpochOk(i: nat, e: u16, env: Env) returns (ok: bool)
      requires Valid() && i < nDials
      modifies dial, port
      ensures Valid() && (View(), ok) == LinkSpec.EpochOk(old(View()), i, e, env)
    {
      hide WellFormed, LinkSpec.EpochOk, HistoryShaped, Sized;
      EpochCases(View(), i, e, env);
      if epoch == 0 {
        return true;
      }
      if e == epoch {
        if Latched(dial[i].bond) {
          return true;
        }
        ok := LatchDial(i, env);
        return;
      }
      if !Latched(dial[i].bond) && !dial[i].epochSeen {
        return true;
      }
      Update(i, dial[i].(pendState := true));
      ok := false;
    }

    // room_epoch_ok
    method RoomEpochOk(i: nat, version: u8, complete: bool, e: u16, env: Env) returns (ok: bool)
      requires Valid() && i < nDials
      modifies dial, port
      ensures Valid() && (View(), ok) == LinkSpec.RoomEpochOk(old(View()), i, version, complete, e, env)
    {
      hide WellFormed, LinkSpec.EpochOk, HistoryShaped, Sized;
      if epoch == 0 || (version >= 5 && (!complete || e == 0 || e != epoch)) {
        Update(i, dial[i].(pendState := true));
        return false;
      }
      ok := EpochOk(i, if version >= 5 && complete then e else 0, env);
    }

    // wifi_epoch_ok
    method WifiEpochOk(i: nat, e: u16, env: Env) returns (ok: bool)
      requires Valid() && i < nDials
      modifies dial, port
      ensures Valid() && (View(), ok) == LinkSpec.WifiEpochOk(old(View()), i, e, env)
    {
      hide WellFormed, LinkSpec.EpochOk, HistoryShaped, Sized;
      if e != epoch {
        Update(i, dial[i].(pendState := true));
        return false;
      }
      ok := EpochOk(i, e, env);
    }

    // --- The Wi-Fi setup session ---

    // wifi_retired_index
    method WifiRetiredIndex(i: nat, session: u32) returns (at: int)
      requires Valid() && i < nDials
      ensures at == RetiredIndex(dial[i].retired, session)
    {
      hide RetiredIndex, WellFormed;
      SlotFormed(View(), i);
      for k := 0 to HISTORY
        invariant forall j :: 0 <= j < k ==> dial[i].retired[j] != session
      {
        if dial[i].retired[k] == session {
          return k;
        }
      }
      return -1;
    }

    // wifi_retire
    method WifiRetire(i: nat, session: u32, status: u8)
      requires Valid() && i < nDials
      modifies dial
      ensures AllShaped(old(View()).dials)
      ensures Valid() && View() == SetDial(old(View()), i, Retire(old(View()).dials[i], session, status))
    {
      hide RetiredIndex, WellFormed;
      SlotFormed(View(), i);
      SlotsShaped(View());
      if session == 0 {
        assert View() == SetDial(old(View()), i, old(View()).dials[i]);
        return;
      }
      var at := WifiRetiredIndex(i, session);
      var next := dial[i].retiredNext;
      if at < 0 {
        at := next;
        next := (at + 1) % HISTORY;
      }
      Put(i, WithHistory(dial[i], dial[i].retired[at := session], dial[i].retiredStatus[at := status], next));
    }

    // wifi_is_owner
    method WifiIsOwner(i: nat, session: u32) returns (own: bool)
      requires Valid() && i < nDials
      ensures own == IsOwner(View(), i, session)
    {
      own := owner.valid && owner.session == session && owner.mac == dial[i].bond.mac;
    }

    // Every queued start is dropped.
    method DropStarts()
      requires Valid()
      modifies dial
      ensures Valid() && View() == old(View()).(dials := DropRequests(old(View()).dials))
    {
      hide WellFormed;
      for k := 0 to nDials
        invariant forall j :: 0 <= j < k ==> dial[j] == old(dial[j]).(wifiSetupReq := false)
        invariant forall j :: k <= j < nDials ==> dial[j] == old(dial[j])
      {
        dial[k] := dial[k].(wifiSetupReq := false);
      }
      DropWellFormed(old(View()));
      assert View().dials == DropRequests(old(View()).dials);
    }

    // The new ownership in wifi_queue_setup
    method TakeOver(i: nat, session: u32)
      requires Valid() && i < nDials
      modifies this`owner, dial, port
      ensures AllShaped(old(View()).dials)
      ensures Valid() && View() == WifiSession.TakeOver(old(View()), i, session)
    {
      hide WellFormed, WifiSession.TakeOver, Retire, Find, DropRequests, HistoryShaped, Sized, Emit;
      ghost var c := View();
      TakeOverSteps(c, i, session);
      var was, prior := owner, -1;
      if owner.valid {
        prior := DialByMac(owner.mac);
      }
      if prior >= 0 {
        WifiRetire(prior, owner.session, STALE);
        RetireKeepsMac(c, prior, owner.session, i);
      }
      DropKeepsMac(View().dials, i);
      DropStarts();
      ghost var c1 := View();
      owner := Owner(true, dial[i].bond.mac, session, false, false, owner.status);
      OwnerWellFormed(c1, owner);
      assert View() == c1.(owner := owner);
      Note(Owned(dial[i].bond.mac, session));
      if prior >= 0 {
        Note(Retired(was.mac, was.session));
      }
    }

    // wifi_queue_setup
    method WifiQueueSetup(i: nat, session: u32)
      requires Valid() && i < nDials
      modifies this`owner, dial, port
      ensures AllShaped(old(View()).dials)
      ensures Valid() && View() == QueueSetup(old(View()), i, session)
    {
      hide WellFormed, RetiredIndex, WifiSession.TakeOver, HistoryShaped, Sized;
      SlotsShaped(View());
      var own := WifiIsOwner(i, session);
      if session != 0 {
        var at := WifiRetiredIndex(i, session);
        if at >= 0 || (own && owner.cancelled) {
          return;
        }
      }
      if !own || (session == 0 && owner.cancelled) {
        TakeOver(i, session);
      }
      Update(i, dial[i].(wifiSetupReq := true));
    }

    // wifi_observe_ap_closed
    method WifiObserveApClosed()
      requires Valid()
      modifies this`owner, dial, port
      ensures AllShaped(old(View()).dials)
      ensures Valid() && View() == ObserveClosed(old(View()))
    {
      hide WellFormed, Retire, Find, HistoryShaped, Sized;
      SlotsShaped(View());
      if !owner.valid || !owner.started || owner.cancelled {
        return;
      }
      var i := DialByMac(owner.mac);
      if i < 0 || dial[i].wifiSetupReq {
        return;
      }
      ghost var c := View();
      owner := owner.(started := false, cancelled := true, status := CLOSED);
      OwnerWellFormed(c, owner);
      assert View() == c.(owner := owner);
      WifiRetire(i, owner.session, CLOSED);
      Note(Settled(owner.mac, owner.session, CLOSED));
      Note(Retired(owner.mac, owner.session));
    }

    // What wifi_cancel answers, and whether it has to ask the adapter
    method Judge(i: nat, session: u32, env: Env) returns (verdict: Verdict)
      requires Valid() && i < nDials
      ensures AllShaped(View().dials) && verdict == CancelVerdict(View(), i, session, env)
    {
      hide WellFormed, RetiredIndex;
      SlotsShaped(View());
      SlotFormed(View(), i);
      var ap := WithoutStart(env.device);
      var at := WifiRetiredIndex(i, session);
      var own := WifiIsOwner(i, session);
      if !env.hasCancel {
        return Known(UNSUPPORTED);
      } else if owner.valid && !own && (!owner.cancelled || owner.status == WAITING) {
        return Known(STALE);
      } else if own && owner.cancelled && owner.status != WAITING {
        return Known(TerminalStatus(owner.status, ap));
      } else if at >= 0 && dial[i].retiredStatus[at] != WAITING {
        return Known(TerminalStatus(dial[i].retiredStatus[at], ap));
      } else if own && owner.started {
        return AskHook;
      } else {
        return Known(ap);
      }
    }

    // The verdict, with the adapter asked if it has to be
    method Verdict(i: nat, session: u32, env: Env) returns (status: u8)
      requires Valid() && i < nDials
      modifies dial, port
      ensures AllShaped(old(View()).dials)
      ensures Valid() && View() == Asked(old(View()), i, session, env)
      ensures status == CancelStatus(old(View()), i, session, env)
    {
      hide WellFormed, CancelVerdict, HistoryShaped, Sized, PendAll;
      SlotsShaped(View());
      var verdict := Judge(i, session, env);
      if verdict.AskHook? {
        status := HookStatus(env.cancel);
        Note(CancelHook(dial[i].bond.mac, session, status));
        MarkAllStatePending();
      } else {
        status := verdict.status;
      }
    }

    // The owner's own cancel is settled.
    method SettleOwner(i: nat, session: u32, status: u8)
      requires Valid() && i < nDials
      modifies this`owner, dial, port
      ensures Valid() && View() == OwnerSettled(old(View()), i, session, status)
    {
      hide WellFormed, HistoryShaped, Sized, Emit, SetDial;
      ghost var c := View();
      var mac := dial[i].bond.mac;
      owner := owner.(cancelled := true, status := status);
      OwnerWellFormed(c, owner);
      assert View() == c.(owner := owner);
      Update(i, dial[i].(wifiSetupReq := false));
      Note(Settled(mac, session, status));
    }

    // wifi_cancel, once a hotspot found closed has been noted
    method WifiCancelTail(i: nat, session: u32, env: Env)
      requires Valid() && i < nDials
      modifies this`owner, dial, port
      ensures AllShaped(old(View()).dials)
      ensures Valid() && View() == CancelTail(old(View()), i, session, env)
    {
      hide WellFormed, CancelTail, CancelStatus, Asked, OwnerSettled, RetireAt, AllShaped, HistoryShaped, Sized, Emit;
      ghost var c := View();
      TailSteps(c, i, session, env);
      SlotsShaped(c);
      var own := WifiIsOwner(i, session);
      var mac := dial[i].bond.mac;
      var status := Verdict(i, session, env);
      if own {
        SettleOwner(i, session, status);
      }
      RetireNoted(i, session, status);
      Note(Sent(mac, CancelAck(session, status)));
    }

    // wifi_retire, with its mark
    method RetireNoted(i: nat, session: u32, status: u8)
      requires Valid() && i < nDials
      modifies dial, port
      ensures AllShaped(old(View()).dials)
      ensures Valid() && View() == RetireAt(old(View()), i, session, status)
    {
      hide WellFormed, Retire, HistoryShaped, Sized, Emit, SetDial;
      var mac := dial[i].bond.mac;
      WifiRetire(i, session, status);
      Note(Retired(mac, session));
    }

    // wifi_cancel
    method WifiCancel(i: nat, session: u32, env: Env)
      requires Valid() && i < nDials
      modifies this`owner, dial, port
      ensures AllShaped(old(View()).dials)
      ensures Valid() && View() == CancelSession(old(View()), i, session, env)
    {
      hide WellFormed, CancelTail, ObserveClosed, AllShaped;
      SlotsShaped(View());
      ObserveShaped(View());
      if WithoutStart(env.device) == CLOSED {
        WifiObserveApClosed();
      }
      WifiCancelTail(i, session, env);
    }

    // --- STATE ---

    // build_state
    method BuildState(env: Env) returns (p: StatePkt)
      requires Valid()
      modifies this`owner, dial, port
      ensures AllShaped(old(View()).dials)
      ensures Valid() && (View(), p) == LinkSpec.BuildState(old(View()), env)
    {
      hide WellFormed, ObserveClosed, AllShaped;
      SlotsShaped(View());
      if env.device.Unavailable? {
        return StatePkt(capsSeq, epoch, NO_DEVICE);
      }
      p := StatePkt(capsSeq, epoch, env.device.payload);
      if !env.device.setupAp {
        WifiObserveApClosed();
      }
    }

    // send_state_to
    method SendStateTo(i: nat, p: StatePkt, now: nat)
      requires Valid() && i < nDials
      modifies dial, port
      ensures Valid() && View() == SendState(old(View()), i, p, now)
    {
      hide SetDial, WellFormed, HistoryShaped, Sized;
      SlotFormed(View(), i);
      StateSentFormed(dial[i], p, now);
      var d := dial[i];
      Put(i, StateSent(d, p, now));
      Note(Sent(d.bond.mac, State(p)));
    }

    // echo_state_all
    method EchoAll(now: nat, env: Env)
      requires Valid()
      modifies this`owner, this`lastState, dial, port
      ensures AllShaped(old(View()).dials)
      ensures Valid() && View() == EchoStateAll(old(View()), now, env)
    {
      hide WellFormed, LinkSpec.BuildState, SendState, AllShaped, Live, EchoFrom, HistoryShaped, Sized;
      SlotsShaped(View());
      var p := BuildState(env);
      ghost var m := View();
      lastState := Some(p);
      LastWellFormed(m, p);
      ghost var c := View();
      assert c == m.(lastState := Some(p));
      for k := 0 to nDials
        invariant Valid() && nDials == |c.dials|
        invariant EchoFrom(View(), k, p, now) == EchoFrom(c, 0, p, now)
      {
        EchoStep(View(), k, p, now);
        if Live(dial[k], now) {
          SendStateTo(k, p, now);
        } else {
          Update(k, dial[k].(pendState := true));
        }
      }
      EchoEnd(View(), p, now);
    }

    // PAIR_CONFIRM: the candidate's key, or the bonded one, and whether the packet proves it
    method CheckProof(src: seq<u8>, data: seq<u8>) returns (proved: bool, tag: seq<u8>)
      requires Valid() && |src| == 6
      ensures proved <==> Proved(View(), src, data)
      ensures proved ==> tag == PairAuth.Make(20, ConfirmKey(View(), src), src, ownMac).tag
    {
      hide WellFormed, PairAuth.Make, PairAuth.Proves, Find, ConfirmKey;
      HandshakeSized(View());
      var bonded := DialByMac(src);
      var candidate := pairing.phase.Confirm? && src == pairing.candMac;
      if !candidate && bonded < 0 {
        return false, [];
      }
      var key := if candidate then pairing.candLmk else dial[bonded].bond.lmk;
      ConfirmKeyIs(View(), src);
      var proof := PairAuth.PairAuthMake(19, key, src, ownMac);
      proved := PairAuth.PairAuthMatches(data, proof);
      var ack := PairAuth.PairAuthMake(20, key, src, ownMac);
      tag := ack.tag;
    }

    // The PAIR_CONFIRM branch of sl2_link_on_recv
    method OnPairConfirm(src: seq<u8>, data: seq<u8>, env: Env)
      requires Valid() && |src| == 6
      requires pairing.phase.Confirm? ==> Find(View().dials, pairing.candMac) >= 0 || nDials < MAX_DIALS
      modifies this`owner, this`pairing, this`nDials, dial, port
      ensures Valid() && View() == LinkSpec.OnPairConfirm(old(View()), src, data, env)
    {
      hide WellFormed, LinkSpec.OnPairConfirm, PairAuth.Make, Proved, LinkSpec.PairCommit, Find, ConfirmKey, Acked;
      hide HistoryShaped, Sized;
      ConfirmSteps(View(), src, data, env);
      var candidate := pairing.phase.Confirm? && src == pairing.candMac;
      var proved, tag := CheckProof(src, data);
      if !proved {
        return;
      }
      if candidate {
        PairCommit(env);
        if !pairing.result.Paired? {
          return;
        }
      }
      Acknowledge(src, tag, env);
    }

    // A lost acknowledgement can be had again by a repeated proof.
    method Acknowledge(src: seq<u8>, tag: seq<u8>, env: Env)
      requires Valid()
      modifies dial, port
      ensures Valid() && View() == Acked(old(View()), src, tag, env)
    {
      hide WellFormed, Find, Clock;
      var i := DialByMac(src);
      if i >= 0 {
        Update(i, dial[i].(lastProbe := Clock(env.now)));
        Note(Sent(src, PairAck(tag)));
      }
    }

    // --- The loop ---

    // One slot rewritten, but for its bond and its retired sessions
    method Update(i: nat, d: Dial)
      requires Valid() && i < nDials && SameHistory(d, dial[i])
      modifies dial
      ensures Valid() && View() == SetDial(old(View()), i, d)
    {
      hide WellFormed;
      SlotFormed(View(), i);
      Put(i, d);
    }

    // The parts of serve_pulls, in order
    method PullCaps(i: nat, now: nat, env: Env)
      requires Valid() && i < nDials
      modifies dial, port
      ensures Valid() && View() == LinkSpec.PullCaps(old(View()), i, now, env)
    {
      hide WellFormed, Wants, Since, Clock, HistoryShaped, Sized;
      var d := dial[i];
      if Wants(d.want, 2) && (d.lastCapsTx == 0 || Since(Clock(now), d.lastCapsTx) >= PULL_THROTTLE_MS) && env.caps {
        Note(Sent(d.bond.mac, Caps(capsSeq)));
        Update(i, d.(lastCapsTx := Clock(now)));
      }
    }

    method PullInfo(i: nat, now: nat)
      requires Valid() && i < nDials
      modifies dial, port
      ensures Valid() && View() == LinkSpec.PullInfo(old(View()), i, now)
    {
      hide WellFormed, Wants, Since, Clock, HistoryShaped, Sized;
      var d := dial[i];
      if Wants(d.want, 1) && (d.lastInfoTx == 0 || Since(Clock(now), d.lastInfoTx) >= PULL_THROTTLE_MS) {
        Note(Sent(d.bond.mac, Info));
        Update(i, d.(lastInfoTx := Clock(now)));
      }
    }

    method ServeWifiReq(i: nat, env: Env)
      requires Valid() && i < nDials
      modifies dial, port
      ensures Valid() && View() == LinkSpec.ServeWifiReq(old(View()), i, env)
    {
      hide WellFormed;
      if dial[i].wifiReq {
        Update(i, dial[i].(wifiReq := false));
        Note(Sent(dial[i].bond.mac, WifiResp(env.creds)));
      }
    }

    method ServeSetup(i: nat, env: Env)
      requires Valid() && i < nDials
      modifies this`owner, dial, port
      ensures Valid() && View() == LinkSpec.ServeSetup(old(View()), i, env)
    {
      hide WellFormed, HistoryShaped, Sized;
      if dial[i].wifiSetupReq {
        Update(i, dial[i].(wifiSetupReq := false));
        if env.hasSetup {
          Note(SetupHook(dial[i].bond.mac, env.setup));
          if env.setup {
            ghost var c := View();
            owner := owner.(started := true);
            OwnerWellFormed(c, owner);
            assert View() == c.(owner := owner);
          }
        }
      }
    }

    method ServeCatalog(i: nat)
      requires Valid() && i < nDials
      modifies dial, port
      ensures Valid() && View() == LinkSpec.ServeCatalog(old(View()), i)
    {
      hide WellFormed;
      if dial[i].catalogReq {
        Update(i, dial[i].(catalogReq := false));
        Note(Sent(dial[i].bond.mac, Catalog(dial[i].catalogCursor)));
      }
    }

    method ServeSource(i: nat, env: Env)
      requires Valid() && i < nDials
      modifies dial, port
      ensures Valid() && View() == LinkSpec.ServeSource(old(View()), i, env)
    {
      hide WellFormed, OtherInfo;
      var d := dial[i];
      if d.sourceReq {
        Update(i, d.(sourceReq := false));
        var result := 3;
        if env.sourceSet.Some? {
          Note(SourceHook(d.bond.mac, d.sourceRevision, d.sourceId));
          result := env.sourceSet.value;
        }
        Note(Sent(d.bond.mac, SourceAck(d.sourceRequestId, result)));
        if result == 0 {
          MarkOtherInfoPending(i);
        }
      }
    }

    // serve_pulls
    method ServePulls(i: nat, now: nat, env: Env)
      requires Valid() && i < nDials
      modifies this`owner, dial, port
      ensures Valid() && View() == LinkSpec.ServePulls(old(View()), i, now, env)
    {
      hide WellFormed, LinkSpec.PullCaps, LinkSpec.PullInfo, LinkSpec.ServeWifiReq, LinkSpec.ServeSetup, LinkSpec.ServeCatalog,
           LinkSpec.ServeSource;
      PullCaps(i, now, env);
      PullInfo(i, now);
      ServeWifiReq(i, env);
      ServeSetup(i, env);
      ServeCatalog(i);
      ServeSource(i, env);
    }

    // One slot's turn in sl2_link_loop
    method TickDial(i: nat, p: StatePkt, env: Env)
      requires Valid() && i < nDials
      modifies this`owner, dial, port
      ensures Valid() && View() == LinkSpec.TickDial(old(View()), i, p, env)
    {
      hide WellFormed, LinkSpec.ServePulls, SendState, Live, Due;
      var d := dial[i];
      if !Live(d, env.now) {
        Update(i, d.(wasLive := false));
        return;
      }
      Update(i, d.(wasLive := true));
      if Due(d, env.now) {
        SendStateTo(i, p, env.now);
      }
      ServePulls(i, env.now, env);
    }

    // The slots before the first live one are marked not live.
    method AnyLive(now: nat) returns (live: bool)
      requires Valid()
      modifies dial
      ensures Valid()
      ensures var (quiet, some) := QuietFrom(old(View()).dials, now);
              live == some && View() == old(View()).(dials := quiet)
    {
      hide WellFormed, Live;
      ghost var ds := View().dials;
      var k := 0;
      while k < nDials && !Live(dial[k], now)
        invariant 0 <= k <= nDials == |ds|
        invariant forall j :: 0 <= j < k ==> !Live(ds[j], now) && dial[j] == ds[j].(wasLive := false)
        invariant forall j :: k <= j < nDials ==> dial[j] == ds[j]
      {
        dial[k] := dial[k].(wasLive := false);
        k := k + 1;
      }
      live := k < nDials;
      QuietIs(ds, k, now);
      QuietWellFormed(old(View()), now);
      assert View().dials == QuietFrom(ds, now).0;
    }

    // The slots' turns in sl2_link_loop
    method TickAll(p: StatePkt, env: Env)
      requires Valid()
      modifies this`owner, dial, port
      ensures Valid() && View() == TickFrom(old(View()), 0, p, env)
    {
      hide WellFormed, LinkSpec.TickDial, TickFrom;
      ghost var c := View();
      for k := 0 to nDials
        invariant Valid() && nDials == |c.dials|
        invariant TickFrom(View(), k, p, env) == TickFrom(c, 0, p, env)
      {
        TickStep(View(), k, p, env);
        TickDial(k, p, env);
      }
      TickEnd(View(), p, env);
    }

    // --- Pairing ---

    method RadioDel(mac: seq<u8>)
      requires Valid()
      modifies port
      ensures Valid() && View() == DelPeer(old(View()), mac)
    {
      hide WellFormed;
      HandshakeSized(View());
      port.PeerDel(mac);
      SameWellFormed(old(View()), View());
    }

    method RadioAdd(mac: seq<u8>, peer: Peer, ok: bool) returns (added: bool)
      requires Valid()
      modifies port
      ensures Valid() && added == ok && View() == AddPeer(old(View()), mac, peer, ok)
    {
      hide WellFormed;
      HandshakeSized(View());
      added := port.PeerAdd(mac, peer, ok);
      SameWellFormed(old(View()), View());
    }

    // The handshake's fields rewritten
    method Shake(p: Pairing)
      requires Valid() && |p.candMac| == 6 && |p.candLmk| == 16 && |p.candIdPub| == 32
      modifies this`pairing
      ensures Valid() && View() == old(View()).(pairing := p)
    {
      pairing := p;
      SameWellFormed(old(View()), View());
    }

    // pair_cleanup_candidate
    method PairCleanupCandidate(env: Env)
      requires Valid()
      modifies this`pairing, port
      ensures Valid() && View() == CleanupCandidate(old(View()), env)
    {
      hide WellFormed, Find;
      var bonded := DialByMac(pairing.candMac);
      RadioDel(pairing.candMac);
      if bonded >= 0 {
        var restored := RadioAdd(dial[bonded].bond.mac, Keyed(dial[bonded].bond.lmk), env.restore);
      }
      Shake(pairing.(candMac := ZeroBytes(6), candLmk := ZeroBytes(16), candIdPub := ZeroBytes(32),
                     candEphPub := ZeroBytes(32), ephPriv := ZeroBytes(32)));
    }

    // pair_end
    method PairEnd(result: PairResult)
      requires Valid()
      modifies this`pairing, port
      ensures Valid() && View() == LinkSpec.PairEnd(old(View()), result)
    {
      hide WellFormed;
      HandshakeSized(View());
      RadioDel(BCAST);
      Shake(pairing.(phase := Off, result := result));
    }

    // sl2_link_pair_start
    method PairStart(window: u32, env: Env)
      requires Valid()
      modifies this`pairing, port
      ensures Valid() && View() == LinkSpec.PairStart(old(View()), window, env)
    {
      hide WellFormed, Clock;
      HandshakeSized(View());
      if !started {
        Shake(pairing.(result := Idle));
        return;
      }
      if !pairing.phase.Off? {
        Shake(pairing.(deadline := (Clock(env.now) + window) % B32));
        return;
      }
      if env.keypair.None? {
        Shake(pairing.(result := Idle));
        return;
      }
      Shake(pairing.(ephPriv := env.keypair.value.0, ephPub := env.keypair.value.1));
      var added := RadioAdd(BCAST, Plain, env.install);
      if !added {
        Shake(pairing.(ephPriv := ZeroBytes(32), result := Idle));
        return;
      }
      Shake(pairing.(phase := Window, deadline := (Clock(env.now) + window) % B32, result := Listening));
    }

    // sl2_link_pair_cancel
    method PairCancel(env: Env)
      requires Valid()
      modifies this`pairing, port
      ensures Valid() && View() == LinkSpec.PairCancel(old(View()), env)
    {
      hide WellFormed, CleanupCandidate, LinkSpec.PairEnd;
      if pairing.phase.Off? {
        return;
      }
      if pairing.phase.Confirm? {
        PairCleanupCandidate(env);
      }
      PairEnd(Cancelled);
    }

    // The pairing timeouts in sl2_link_loop
    method PairTimeouts(env: Env)
      requires Valid()
      modifies this`pairing, port
      ensures Valid() && View() == LinkSpec.PairTimeouts(old(View()), env)
    {
      hide WellFormed, CleanupCandidate, LinkSpec.PairEnd, Reached, Clock;
      var now := Clock(env.now);
      if pairing.phase.Window? && Reached(now, pairing.deadline) {
        PairEnd(if pairing.result.Full? then Full else Timeout);
      } else if pairing.phase.Confirm? && (Reached(now, pairing.confirmDeadline) || Reached(now, pairing.deadline)) {
        PairCleanupCandidate(env);
        PairEnd(Timeout);
      }
    }

    // sl2_derive_lmk
    method DeriveKey(peerPub: seq<u8>, dialPub: seq<u8>, ctrlPub: seq<u8>) returns (lmk: Option<seq<u8>>)
      ensures lmk == DeriveLmk(crypto, pairing.ephPriv, peerPub, dialPub, ctrlPub)
    {
      hide Sha256.Hkdf;
      var shared := crypto.shared(pairing.ephPriv, peerPub);
      if shared.None? {
        return None;
      }
      var key := new u8[16];
      Sha256.HkdfSha256(shared.value, dialPub + ctrlPub, LMK_INFO, key, 16);
      assert key[..] == key[..16];
      lmk := Some(key[..]);
    }

    // The end of on_pair_req: the candidate takes the window, or the radio refuses it.
    method Offer(req: Request, lmk: seq<u8>, answer: Frame, env: Env)
      requires Valid() && |req.mac| == 6 && |req.idPub| == 32 && |lmk| == 16
      modifies this`pairing, port
      ensures Valid() && View() == Offered(old(View()), req, lmk, answer, env)
    {
      hide WellFormed, CleanupCandidate, LinkSpec.PairEnd, Clock;
      Shake(pairing.(candEphPub := req.ephPub, candMac := req.mac, candLmk := lmk, candIdPub := req.idPub));
      RadioDel(pairing.candMac);
      var added := RadioAdd(pairing.candMac, Keyed(pairing.candLmk), env.install);
      if !added {
        PairCleanupCandidate(env);
        PairEnd(Cancelled);
        return;
      }
      Note(Sent(BCAST, answer));
      Shake(pairing.(phase := Confirm, confirmDeadline := (Clock(env.now) + PAIR_CONFIRM_MS) % B32, result := Confirming));
    }

    // on_pair_req
    method OnPairReq(data: seq<u8>, env: Env)
      requires Valid()
      modifies this`pairing, port
      ensures Valid() && View() == LinkSpec.OnPairReq(old(View()), data, crypto, env)
    {
      hide WellFormed, Find, Responded, ParseRequest, LinkSpec.OnPairReq;
      HandshakeSized(View());
      OfferSteps(View(), data, crypto, env);
      if pairing.phase.Off? || |data| < 136 || data[1] < PairAuth.VERSION {
        return;
      }
      var req := ParseRequest(data);
      if pairing.phase.Confirm? && req.mac != pairing.candMac {
        return;
      }
      if !crypto.verify(req.idPub, req.transcript, req.sig) {
        return;
      }
      var known := DialByMac(req.mac);
      if known >= 0 && dial[known].bond.idPub != req.idPub {
        Shake(pairing.(result := PinMismatch));
        return;
      }
      if known < 0 && nDials >= MAX_DIALS {
        Shake(pairing.(result := Full));
        return;
      }
      if pairing.phase.Confirm? && (req.ephPub != pairing.candEphPub || req.idPub != pairing.candIdPub) {
        return;
      }
      Respond(req, env);
    }

    // on_pair_req, for a request that is to be answered
    method Respond(req: Request, env: Env)
      requires Valid() && |req.mac| == 6 && |req.idPub| == 32
      modifies this`pairing, port
      ensures Valid() && View() == Responded(old(View()), req, crypto, env)
    {
      hide WellFormed, DeriveLmk, Offered;
      var repeating := pairing.phase.Confirm?;
      var lmk := DeriveKey(req.ephPub, req.ephPub, pairing.ephPub);
      if lmk.None? || env.sign.None? {
        return;
      }
      var answer := PairResp(pairing.ephPub, env.channel, env.sign.value);
      if repeating {
        Note(Sent(BCAST, answer));
        return;
      }
      Offer(req, lmk.value, answer, env);
    }

    // An owner that is this dial owns nothing any more.
    method DisownIf(mac: seq<u8>)
      requires Valid()
      modifies this`owner, port
      ensures Valid() && View() == Disown(old(View()), mac)
    {
      hide WellFormed;
      if owner.valid && owner.mac == mac {
        ghost var c := View();
        owner := owner.(valid := false);
        OwnerWellFormed(c, owner);
        assert View() == c.(owner := owner);
        Note(Disowned(mac));
      }
      Note(Wiped(mac));
    }

    // The slot the candidate takes: its own again, or the next one.
    method Place(known: int, bond: Bond)
      requires Valid() && Sized(bond) && -1 <= known < nDials && (known < 0 ==> nDials < MAX_DIALS)
      modifies this`nDials, dial
      ensures Valid() && View() == Placed(old(View()), known, bond)
    {
      hide WellFormed;
      ghost var c := View();
      PlacedFormed(c, known, bond);
      var i := known;
      if i < 0 {
        i := nDials;
        nDials := nDials + 1;
        dial[i] := FreshDial(bond);
      }
      dial[i] := Rekeyed(dial[i], bond);
      assert View().dials == Placed(c, known, bond).dials;
    }

    // The table a commit proposes, offered to the store
    method PersistProposed(env: Env) returns (known: int, bond: Bond, saved: bool)
      requires Valid() && (Find(View().dials, pairing.candMac) >= 0 || nDials < MAX_DIALS)
      modifies port
      ensures Valid() && known == Find(old(View()).dials, pairing.candMac) && bond == Candidate(old(View())) && Sized(bond)
      ensures saved == Saves(Proposed(old(View())), env.save)
      ensures View() == if saved then Store(old(View()), Proposed(old(View()))) else old(View())
    {
      hide WellFormed, Store, Sized, Find;
      CandidateFormed(View());
      known := DialByMac(pairing.candMac);
      bond := Bond(pairing.candMac, pairing.candLmk, pairing.candIdPub, 1, ZeroBytes(7));
      var recs := CopyBonds();
      var n := if known >= 0 then nDials else nDials + 1;
      recs[if known >= 0 then known else nDials] := bond;
      assert recs[..n] == Proposed(View());
      saved := PersistBonds(recs[..n], env);
    }

    // pair_commit, once the table is saved
    method Commit(known: int, bond: Bond)
      requires Valid() && Sized(bond) && bond.mac == pairing.candMac
      requires -1 <= known < nDials && (known < 0 ==> nDials < MAX_DIALS)
      modifies this`owner, this`pairing, this`nDials, dial, port
      ensures Valid() && View() == Committed(old(View()), known, bond)
    {
      hide WellFormed, Disown, Placed, LinkSpec.PairEnd, Sized;
      DisownIf(pairing.candMac);
      Place(known, bond);
      KeylessFormed(View());
      Shake(pairing.(candLmk := ZeroBytes(16), ephPriv := ZeroBytes(32)));
      PairEnd(Paired);
    }

    // pair_commit: the caller has seen a proof of the candidate's key, and the candidate has a slot or there is a spare.
    method PairCommit(env: Env)
      requires Valid() && (Find(View().dials, pairing.candMac) >= 0 || nDials < MAX_DIALS)
      modifies this`owner, this`pairing, this`nDials, dial, port
      ensures Valid() && View() == LinkSpec.PairCommit(old(View()), env)
    {
      hide WellFormed, LinkSpec.PairCommit, Store, Find, Committed, CleanupCandidate, LinkSpec.PairEnd, Saves, Proposed;
      hide Candidate, Sized, HistoryShaped, BondsOf, Disown, Placed, Emit, SetDial, Encode;
      ghost var c := View();
      CommitSteps(c, env);
      CandidateMac(c);
      var known, bond, saved := PersistProposed(env);
      if saved {
        StoreRest(c, Proposed(c), env);
        Commit(known, bond);
      } else {
        PairCleanupCandidate(env);
        PairEnd(StorageError);
      }
    }

    // sl2_link_loop
    method Tick(env: Env)
      requires Valid()
      modifies this`owner, this`pairing, this`lastState, dial, port
      ensures AllShaped(old(View()).dials)
      ensures Valid() && View() == LinkSpec.Tick(old(View()), env)
    {
      hide WellFormed, LinkSpec.PairTimeouts, QuietFrom, LinkSpec.BuildState, TickFrom, AllShaped, PendAll, HistoryShaped, Sized;
      SlotsShaped(View());
      if !started {
        return;
      }
      PairTimeouts(env);
      ghost var c1 := View();
      QuietShaped(c1.dials, env.now);
      var live := AnyLive(env.now);
      if !live {
        return;
      }
      var p := BuildState(env);
      if lastState != Some(p) {
        ghost var c3 := View();
        lastState := Some(p);
        LastWellFormed(c3, p);
        assert View() == c3.(lastState := Some(p));
        MarkAllStatePending();
      }
      TickAll(p, env);
    }

    // --- Receiving ---

    method SeenNow(i: nat, now: nat)
      requires Valid() && i < nDials
      modifies dial
      ensures Valid() && View() == Seen(old(View()), i, now)
    {
      hide WellFormed, Clock;
      Update(i, dial[i].(lastProbe := Clock(now)));
    }

    method OnProbe(i: nat, data: seq<u8>, env: Env)
      requires Valid() && i < nDials
      modifies dial
      ensures Valid() && View() == LinkSpec.OnProbe(old(View()), i, data, env)
    {
      hide WellFormed, Seen;
      if |data| >= 3 {
        Update(i, dial[i].(want := data[2]));
      }
      SeenNow(i, env.now);
    }

    method OnCmd(i: nat, data: seq<u8>, env: Env)
      requires Valid() && i < nDials
      modifies this`owner, this`lastState, dial, port
      ensures AllShaped(old(View()).dials)
      ensures Valid() && View() == LinkSpec.OnCmd(old(View()), i, data, env)
    {
      hide WellFormed, LinkSpec.EpochOk, EchoStateAll, Seen, AllShaped;
      ghost var c := View();
      SlotsShaped(c);
      if |data| < 19 {
        return;
      }
      EpochShaped(c, i, U16(data, 17), env);
      var mac := dial[i].bond.mac;
      var ok := EpochOk(i, U16(data, 17), env);
      if !ok {
        return;
      }
      CommandKeeps(View(), i, mac, env);
      SeenNow(i, env.now);
      Note(ApplyHook(mac));
      if env.apply {
        EchoAll(env.later, env);
      }
    }

    method OnSensor(i: nat, ver: u8, data: seq<u8>, env: Env)
      requires Valid() && i < nDials
      modifies dial, port
      ensures Valid() && View() == LinkSpec.OnSensor(old(View()), i, ver, data, env)
    {
      hide WellFormed, LinkSpec.RoomEpochOk, SensorReport;
      if |data| < 7 || ver < 3 {
        return;
      }
      var mac := dial[i].bond.mac;
      var ok := RoomEpochOk(i, ver, |data| >= 11, U16(data, 9), env);
      if ok {
        Report(i, mac, data, env);
      }
    }

    // An accepted DIAL_SENSOR
    method Report(i: nat, mac: seq<u8>, data: seq<u8>, env: Env)
      requires Valid() && i < nDials && |data| >= 7
      modifies dial, port
      ensures Valid() && View() == SensorReport(old(View()), i, mac, data, env)
    {
      hide WellFormed, Seen;
      var flags := data[2];
      Update(i, dial[i].(screenValid := flags / 2 % 2 == 1, screenOn := flags / 4 % 2 == 1));
      if env.hasSensor {
        Note(SensorHook(mac, |data| > 7 && data[7] != 0xFF));
      }
      SeenNow(i, env.now);
    }

    method OnWifiReq(i: nat, data: seq<u8>, env: Env)
      requires Valid() && i < nDials
      modifies dial
      ensures Valid() && View() == LinkSpec.OnWifiReq(old(View()), i, data, env)
    {
      hide WellFormed, Seen;
      if |data| >= 4 {
        Update(i, dial[i].(wifiReq := true));
        SeenNow(i, env.now);
      }
    }

    method OnWifiSetup(i: nat, data: seq<u8>, env: Env)
      requires Valid() && i < nDials
      modifies this`owner, dial, port
      ensures AllShaped(old(View()).dials)
      ensures Valid() && View() == LinkSpec.OnWifiSetup(old(View()), i, data, env)
    {
      hide WellFormed, LinkSpec.EpochOk, LinkSpec.WifiEpochOk, QueueSetup, Seen, AllShaped;
      SlotsShaped(View());
      EpochShaped(View(), i, U16(data, 2), env);
      if |data| == 4 {
        var ok := EpochOk(i, U16(data, 2), env);
        if ok {
          WifiQueueSetup(i, 0);
          SeenNow(i, env.now);
        }
      } else if |data| >= 8 && U32(data, 4) != 0 {
        var ok := WifiEpochOk(i, U16(data, 2), env);
        if ok {
          WifiQueueSetup(i, U32(data, 4));
          SeenNow(i, env.now);
        }
      }
    }

    method OnWifiCancel(i: nat, data: seq<u8>, env: Env)
      requires Valid() && i < nDials
      modifies this`owner, dial, port
      ensures AllShaped(old(View()).dials)
      ensures Valid() && View() == LinkSpec.OnWifiCancel(old(View()), i, data, env)
    {
      hide WellFormed, LinkSpec.EpochOk, LinkSpec.WifiEpochOk, CancelSession, Seen, AllShaped;
      SlotsShaped(View());
      EpochShaped(View(), i, U16(data, 2), env);
      if |data| >= 8 && U32(data, 4) != 0 {
        var ok := WifiEpochOk(i, U16(data, 2), env);
        if ok {
          SeenNow(i, env.now);
          WifiCancel(i, U32(data, 4), env);
        }
      }
    }

    method OnCatalogReq(i: nat, ver: u8, data: seq<u8>, env: Env)
      requires Valid() && i < nDials
      modifies dial
      ensures Valid() && View() == LinkSpec.OnCatalogReq(old(View()), i, ver, data, env)
    {
      hide WellFormed, Seen, U16;
      if |data| >= 8 && ver >= 4 {
        Update(i, dial[i].(catalogCursor := U16(data, 2), catalogReq := true));
        SeenNow(i, env.now);
      }
    }

    method OnSourceSet(i: nat, ver: u8, data: seq<u8>, env: Env)
      requires Valid() && i < nDials
      modifies dial, port
      ensures Valid() && View() == LinkSpec.OnSourceSet(old(View()), i, ver, data, env)
    {
      hide WellFormed, LinkSpec.RoomEpochOk, Seen, U16, U32, U64;
      if |data| < 16 || ver < 4 {
        return;
      }
      var ok := RoomEpochOk(i, ver, |data| >= 18, U16(data, 16), env);
      if ok {
        Update(i, dial[i].(sourceRequestId := data[2], sourceRevision := U32(data, 4), sourceId := U64(data, 8), sourceReq := true));
        SeenNow(i, env.now);
      }
    }

    // The switch on the packet type in sl2_link_on_recv
    method OnDialFrame(i: nat, kind: u8, ver: u8, data: seq<u8>, env: Env)
      requires Valid() && i < nDials
      modifies this`owner, this`lastState, dial, port
      ensures AllShaped(old(View()).dials)
      ensures Valid() && View() == LinkSpec.OnDialFrame(old(View()), i, kind, ver, data, env)
    {
      hide WellFormed, LinkSpec.OnCmd, LinkSpec.OnProbe, LinkSpec.OnWifiReq, LinkSpec.OnWifiSetup, Seen, LinkSpec.OnSensor,
           LinkSpec.OnCatalogReq, LinkSpec.OnSourceSet, LinkSpec.OnWifiCancel, AllShaped;
      SlotsShaped(View());
      if kind == 2 {
        OnCmd(i, data, env);
      } else if kind == 3 {
        OnProbe(i, data, env);
      } else if kind == 8 {
        OnWifiReq(i, data, env);
      } else if kind == 10 {
        OnWifiSetup(i, data, env);
      } else if kind == 11 {
        if |data| >= 3 {
          SeenNow(i, env.now);
        }
      } else if kind == 12 {
        OnSensor(i, ver, data, env);
      } else if kind == 13 {
        OnCatalogReq(i, ver, data, env);
      } else if kind == 15 {
        OnSourceSet(i, ver, data, env);
      } else if kind == 17 {
        OnWifiCancel(i, data, env);
      }
    }

    // sl2_link_on_recv
    method OnRecv(src: seq<u8>, dst: seq<u8>, data: seq<u8>, env: Env)
      requires Valid() && CandidateOk(View()) && |src| == 6
      modifies this, dial, port
      ensures AllShaped(old(View()).dials)
      ensures Valid() && View() == LinkSpec.OnRecv(old(View()), src, dst, data, crypto, env)
    {
      hide WellFormed, LinkSpec.OnPairReq, LinkSpec.OnPairConfirm, LinkSpec.OnDialFrame, Find, AllShaped, CandidateOk;
      SlotsShaped(View());
      CandidateFits(View());
      if !started || |data| < 2 {
        return;
      }
      var kind, ver := data[0], data[1];
      if kind == 4 {
        OnPairReq(data, env);
        return;
      }
      if dst != ownMac {
        return;
      }
      if kind == 19 {
        OnPairConfirm(src, data, env);
        return;
      }
      if pairing.phase.Confirm? && src == pairing.candMac {
        return;
      }
      var i := DialByMac(src);
      if i < 0 || (kind != 3 && ver < 1) {
        return;
      }
      OnDialFrame(i, kind, ver, data, env);
    }

    // --- Life cycle ---

    // The stored table put into the slots; false, and nothing done, when there is none to load.
    method LoadBonds() returns (loaded: bool)
      requires Valid()
      modifies this`nDials, dial
      ensures Valid()
      ensures var recs := Durable(old(View()).world);
              && |recs| <= MAX_DIALS && AllSized(recs)
              && loaded == (recs != [])
              && View() == if loaded then old(View()).(dials := FreshDials(recs)) else old(View())
    {
      hide WellFormed, Decode;
      StoredSized(View());
      if port.store.None? {
        return false;
      }
      var recs := new Bond[MAX_DIALS](_ => Bond(ZeroBytes(6), ZeroBytes(16), ZeroBytes(32), 0, ZeroBytes(7)));
      var n := BondsDecode(port.store.value, recs);
      if n <= 0 {
        return false;
      }
      FreshFormed(View(), recs[..n]);
      FillSlots(recs, n);
      loaded := true;
    }

    // Fresh slots for the loaded bonds
    method FillSlots(recs: array<Bond>, n: nat)
      requires n <= recs.Length == dial.Length && nDials <= dial.Length
      modifies this`nDials, dial
      ensures nDials == n && View() == old(View()).(dials := FreshDials(recs[..n]))
    {
      nDials := n;
      for i := 0 to n
        modifies dial
        invariant forall j :: 0 <= j < i ==> dial[j] == FreshDial(recs[j])
      {
        dial[i] := FreshDial(recs[i]);
      }
      assert dial[..n] == FreshDials(recs[..n]);
    }

    // The loaded dials put on the radio, up to the first that is refused
    method InstallAll(env: Env) returns (ok: bool)
      requires Valid()
      modifies port
      ensures Valid() && (View(), ok) == InstallPeers(old(View()), BondsOf(old(View()).dials), 0, env)
    {
      hide WellFormed, InstallPeers, HistoryShaped, Sized;
      ghost var c := View();
      ghost var recs := BondsOf(c.dials);
      for k := 0 to nDials
        invariant Valid() && View().dials == c.dials
        invariant InstallPeers(View(), recs, k, env) == InstallPeers(c, recs, 0, env)
      {
        InstallStep(View(), recs, k, env);
        var added := RadioAdd(dial[k].bond.mac, Keyed(dial[k].bond.lmk), k != env.failAt);
        if !added {
          return false;
        }
      }
      InstallEnd(View(), recs, env);
      ok := true;
    }

    // sl2_link_start
    method Start(env: Env) returns (up: bool)
      requires Valid() && (env.ownMac.Some? ==> |env.ownMac.value| == 6)
      modifies this, dial, port
      ensures Valid() && View() == LinkSpec.Start(old(View()), env)
      ensures !old(started) ==> up == started
    {
      hide WellFormed, LinkSpec.Start, Durable, InstallPeers, FreshDials, HistoryShaped, Sized, BondsOf;
      StartSteps(View(), env);
      if env.ownMac.None? {
        return false;
      }
      ghost var c := View();
      HandshakeSized(c);
      CandidateFormed(c);
      ownMac := env.ownMac.value;
      OwnMacFormed(c, ownMac);
      assert View() == c.(ownMac := ownMac);
      if !env.identity {
        return false;
      }
      var loaded := LoadBonds();
      if loaded {
        FreshBonds(Durable(c.world));
        var installed := InstallAll(env);
        if !installed {
          return false;
        }
      }
      Wake(env);
      up := true;
    }

    // The end of sl2_link_start: the sequence number, the boot's epoch, and the core is up.
    method Wake(env: Env)
      requires Valid()
      modifies this`capsSeq, this`epoch, this`started
      ensures Valid() && View() == Awake(old(View()), env)
    {
      hide WellFormed;
      ghost var c := View();
      HandshakeSized(c);
      CandidateFormed(c);
      if port.capsStore.Some? {
        capsSeq := port.capsStore.value;
      }
      if env.rand.Some? {
        epoch := env.rand.value;
        if epoch == 0 {
          epoch := 1;
        }
      } else {
        epoch := 0;
      }
      started := true;
      SameWellFormed(c, View());
    }

    // The slots behind i move up by one.
    method MoveUp(i: nat)
      requires i < nDials <= dial.Length
      modifies dial
      ensures dial[..nDials - 1] == old(dial[..i] + dial[i + 1..nDials])
    {
      for j := i to nDials - 1
        invariant forall k :: 0 <= k < i ==> dial[k] == old(dial[k])
        invariant forall k :: i <= k < j ==> dial[k] == old(dial[k + 1])
        invariant forall k :: j <= k < nDials ==> dial[k] == old(dial[k])
      {
        dial[j] := dial[j + 1];
      }
    }

    // The slot is taken out of the array.
    method Compact(i: nat)
      requires Valid() && i < nDials
      modifies this`nDials, dial
      ensures Valid() && View() == old(View()).(dials := old(View()).dials[..i] + old(View()).dials[i + 1..])
    {
      hide WellFormed, HistoryShaped, Sized;
      ghost var c := View();
      FewerFormed(c, i);
      MoveUp(i);
      nDials := nDials - 1;
      dial[nDials] := FreshDial(Bond(ZeroBytes(6), ZeroBytes(16), ZeroBytes(32), 0, ZeroBytes(7)));
      assert View().dials == c.dials[..i] + c.dials[i + 1..];
    }

    // The table without one slot, offered to the store
    method PersistWithout(i: nat, env: Env) returns (saved: bool)
      requires Valid() && i < nDials
      modifies port
      ensures Valid()
      ensures var recs := Without(old(View()), i);
              saved == Saves(recs, env.save) && View() == if saved then Store(old(View()), recs) else old(View())
    {
      hide WellFormed, Store, BondsOf, Sized;
      var recs := CopyBonds();
      ghost var bonds := BondsOf(View().dials);
      var kept := new Bond[MAX_DIALS](_ => Bond(ZeroBytes(6), ZeroBytes(16), ZeroBytes(32), 0, ZeroBytes(7)));
      var n := 0;
      for j := 0 to nDials
        modifies kept
        invariant n == if j <= i then j else j - 1
        invariant forall k :: 0 <= k < n ==> kept[k] == recs[if k < i then k else k + 1]
        invariant recs[..nDials] == bonds
      {
        if j != i {
          kept[n] := recs[j];
          n := n + 1;
        }
      }
      assert kept[..n] == bonds[..i] + bonds[i + 1..];
      TableSized(View());
      FewerSized(bonds, i);
      saved := PersistBonds(kept[..n], env);
    }

    // sl2_link_forget_dial
    method ForgetDial(mac: seq<u8>, env: Env) returns (gone: bool)
      requires Valid()
      modifies this, dial, port
      ensures Valid() && (View(), gone) == LinkSpec.ForgetDial(old(View()), mac, env)
    {
      hide WellFormed, Find, Without, Store, LinkSpec.PairCancel, Removed, HistoryShaped, Sized;
      ghost var c := View();
      var candidate := pairing.phase.Confirm? && pairing.candMac == mac;
      var i := DialByMac(mac);
      if i < 0 {
        if candidate {
          PairCancel(env);
        }
        return candidate;
      }
      var saved := PersistWithout(i, env);
      if !saved {
        return false;
      }
      StoreRest(c, Without(c, i), env);
      Remove(i, mac);
      if candidate {
        PairCancel(env);
      }
      gone := true;
    }

    // The peer, the ownership and the slot of a dial that has left the store
    method Remove(i: nat, mac: seq<u8>)
      requires Valid() && i < nDials
      modifies this`owner, this`nDials, dial, port
      ensures Valid() && View() == Removed(old(View()), i, mac)
    {
      hide WellFormed, HistoryShaped, Sized;
      RadioDel(mac);
      DisownIf(mac);
      Compact(i);
    }

    // The peers of every slot
    method RadioDelAll()
      requires Valid()
      modifies port
      ensures Valid() && View() == DelPeers(old(View()), old(View()).dials)
    {
      hide WellFormed, DelPeers, HistoryShaped, Sized;
      ghost var c := View();
      for k := 0 to nDials
        invariant Valid() && View().dials == c.dials
        invariant DelPeers(View(), c.dials[k..]) == DelPeers(c, c.dials)
      {
        DelPeersStep(View(), c.dials[k..]);
        assert c.dials[k..][1..] == c.dials[k + 1..];
        RadioDel(dial[k].bond.mac);
      }
      DelPeersEnd(View());
    }

    // sl2_link_forget_all
    method ForgetAll(env: Env) returns (gone: bool)
      requires Valid()
      modifies this, dial, port
      ensures Valid() && (View(), gone) == LinkSpec.ForgetAll(old(View()), env)
    {
      hide WellFormed, DelPeers, LinkSpec.PairCancel, HistoryShaped, Sized, Store, Cleared;
      ghost var c := View();
      var saved := PersistBonds([], env);
      if !saved {
        return false;
      }
      RadioDelAll();
      Clear();
      PairCancel(env);
      gone := true;
    }

    // The slots and the ownership
    method Clear()
      requires Valid()
      modifies this`owner, this`nDials, port
      ensures Valid() && View() == Cleared(old(View()))
    {
      hide WellFormed, HistoryShaped, Sized;
      ghost var c := View();
      nDials := 0;
      ClearedFormed(c, View());
      ghost var m := View();
      if owner.valid {
        owner := owner.(valid := false);
        OwnerWellFormed(m, owner);
        assert View() == m.(owner := owner);
        Note(Disowned(owner.mac));
      }
      Note(AllWiped);
    }

    // sl2_link_caps_changed
    method CapsChanged(env: Env)
      requires Valid()
      modifies this`capsSeq, dial, port
      ensures Valid() && View() == LinkSpec.CapsChanged(old(View()), env)
    {
      hide WellFormed, PendAll;
      ghost var c := View();
      HandshakeSized(c);
      CandidateFormed(c);
      capsSeq := (capsSeq + 1) % 0x100;
      port.SaveCaps(capsSeq, env.saveCaps);
      SameWellFormed(c, View());
      MarkAllStatePending();
    }

    // --- Any call ---

    // Whatever the host calls, the object takes the step the runs are made of, so what holds over every run holds of it.
    method Call(op: Op, env: Env)
      requires Valid() && Table(View())
      requires op.Recv? ==> |op.src| == 6
      requires env.ownMac.Some? ==> |env.ownMac.value| == 6
      modifies this, dial, port
      ensures AllShaped(old(View()).dials)
      ensures Valid() && Table(View()) && View() == Apply(old(View()), op, crypto, env)
    {
      hide WellFormed, Table, LinkSpec.OnRecv, LinkSpec.Tick, LinkSpec.PairStart, LinkSpec.PairCancel, LinkSpec.ForgetDial,
           LinkSpec.ForgetAll, LinkSpec.CapsChanged, LinkSpec.Start, Changes, AllShaped, CandidateOk;
      ghost var c := View();
      SlotsShaped(c);
      ApplyTable(c, op, crypto, env);
      CandidateIn(c);
      match op
      case Recv(src, dst, data) => OnRecv(src, dst, data, env);
      case Loop => Tick(env);
      case OpenPairing(window) => PairStart(window, env);
      case ClosePairing => PairCancel(env);
      case Forget(mac) => var gone := ForgetDial(mac, env);
      case ForgetEvery => var gone := ForgetAll(env);
      case NewCaps => CapsChanged(env);
      case StartUp =>
        if !started {
          var up := Start(env);
        }
    }
  }
}
