// A controller that has just powered up, with any store whose table names no dial twice, satisfies every invariant,
// and so keeps them over every run.
module LinkSafety {
  import opened Words
  import opened Bonds
  import opened LinkState
  import opened WifiSession
  import opened WifiFrame
  import opened LinkSpec
  import opened LinkRun
  import opened LinkTable
  import opened LinkHistory
  import opened LinkCandidate
  import opened LinkPeers
  import opened LinkWifi
  import opened LinkSync

  // What the store may hold at the first boot: nothing, garbage, or a table with distinct real addresses.
  predicate CleanStore(w: World) {
    var recs := Durable(w);
    forall i :: 0 <= i < |recs| ==> recs[i].mac != BCAST && forall j :: 0 <= j < i ==> recs[j].mac != recs[i].mac
  }

  ghost predicate Safe(c: Core) {
    AllShaped(c.dials) && Radio(c) && Wifi(c) && Sync(c)
  }

  // A reset controller whose log is new
  lemma PowerOn(c: Core)
    requires CleanStore(c.world) && c.world.log == []
    ensures Safe(Reset(c)) && !Reset(c).pairing.phase.Confirm?
  {
    var r := Reset(c);
    StoredValid(c.world);
    hide Decode;
    assert Durable(r.world) == Durable(c.world);
    assert Watch([PowerUp]) == IDLE by { WatchMore([], PowerUp); }
    assert [] + [PowerUp] == [PowerUp];
    hide Watch, CleanStore, ValidTable;
    assert Table(r);
    assert StoredApart(r.world) by { StoredReal(c.world); }
  }

  lemma StoredValid(w: World)
    requires CleanStore(w)
    ensures ValidTable(Durable(w))
  {
    hide Decode;
    if w.store.Some? && Decode(w.store.value).Some? {
      EncodeDecode(w.store.value);
    }
  }

  lemma StoredReal(w: World)
    requires CleanStore(w)
    ensures StoredApart(w)
  {
    hide Durable;
  }

  // Every invariant, over every run from power-up with every failure the world may answer with, as long as displaced
  // peers can be put back and no request names the broadcast address.
  lemma AlwaysSafe(c: Core, steps: seq<Step>, crypto: Crypto)
    requires CleanStore(c.world) && c.world.log == []
    requires forall k :: 0 <= k < |steps| ==> Assumed(steps[k].op, steps[k].env)
    ensures Safe(Reset(c)) && Safe(Run(Reset(c), steps, crypto))
    ensures Backed(Run(Reset(c), steps, crypto).pairing, crypto, steps)
  {
    hide Reset, Run, Table, PeersOk, StoredApart, Wifi, Sync, Backed, Assumed, AllShaped;
    PowerOn(c);
    RunRadio(Reset(c), steps, crypto);
    RunTable(Reset(c), steps, crypto);
    RunWifi(Reset(c), steps, crypto);
    RunSync(Reset(c), steps, crypto);
    RunBacked(Reset(c), steps, crypto);
  }
}
