// Where every value fired comes from, over whole runs.
module RoomFeed {
  import opened Words
  import opened Bonds
  import opened LinkState
  import opened RoomIds
  import opened RoomSource

  // What the history says: whether every value fired so far was right, which source is selected, what the selected
  // Link has last reported since it was, the latest reading of each declared source, and whether the selection has just
  // changed.
  datatype Watcher = Watcher(ok: bool, choice: Choice, reported: Option<int>, readings: map<nat, Option<int>>, due: bool)

  function Reading(w: Watcher, idx: nat): Option<int> {
    if idx in w.readings then w.readings[idx] else None
  }

  // The rules. 0 is fired only as the selection changes to the heat pump. A declared source's value is the one selected, and its
  // current reading. A dial's value is the selected Link's latest report since it was selected.
  predicate Right(w: Watcher, t: Temp) {
    match t
    case Zero => w.due && w.choice.Pump?
    case Degrees(v) => w.choice.External? && Reading(w, w.choice.idx) == Some(v)
    case Centi(cc) => w.choice.Link? && w.reported == Some(cc)
  }

  function See(w: Watcher, n: Note): Watcher {
    match n
    case Restored(choice) => w.(choice := choice, reported := None, due := false)
    case Selected(choice) => w.(choice := choice, reported := None, due := choice != w.choice)
    case Reported(mac, cc) => w.(reported := if w.choice == Link(mac) then Some(cc) else w.reported, due := false)
    case Heard(idx, reading) => w.(readings := w.readings[idx := reading], due := false)
    case Fired(temp, at) => w.(ok := w.ok && Right(w, temp), due := false)
  }

  function Watch(log: seq<Note>): Watcher
    decreases |log|
  {
    if log == [] then Watcher(true, Pump, None, map[], false) else See(Watch(log[..|log| - 1]), log[|log| - 1])
  }

  lemma WatchMore(log: seq<Note>, n: Note)
    ensures Watch(log + [n]) == See(Watch(log), n)
  {
    assert (log + [n])[..|log|] == log;
  }

  // The views of the selection are those of its id, but for the coarse one while the BLE choice is on.
  predicate Projected(r: Room) {
    var v := Views(r.sources, r.sel.id);
    r.sel == v || r.sel == v.(src := SRC_BLE)
  }

  // Declared sources are named in their own namespace.
  predicate Declared(sources: seq<Source>) {
    forall i :: 0 <= i < |sources| ==> Bytes(sources[i].id)[0] == 4
  }

  ghost predicate Told(r: Room) {
    var w := Watch(r.log);
    && w.ok && w.choice == ChoiceOf(r)
    && forall i :: 0 <= i < |r.sources| ==> Reading(w, i) == r.sources[i].last
  }

  // The id names the heat pump, a declared source or a Link.
  predicate Named(sources: seq<Source>, id: u64) {
    id == INTERNAL_ID || ExtIndex(sources, id) >= 0 || MacOfId(id, NS_LINK).Some?
  }

  ghost predicate Fit(r: Room) {
    Projected(r) && Declared(r.sources) && Told(r)
  }

  // Once the component is up, a stored id that names nothing is gone.
  ghost predicate Good(r: Room) {
    Fit(r) && (r.started ==> Named(r.sources, r.sel.id))
  }

  // A link's id is nobody else's.
  lemma ExternalIsNoLink(sources: seq<Source>, id: u64)
    requires Declared(sources) && ExtIndex(sources, id) >= 0
    ensures MacOfId(id, NS_LINK).None?
  {
    hide Bytes;
  }

  lemma SameTold(r: Room, s: Room)
    requires Fit(r) && s.log == r.log && s.sources == r.sources && s.sel == r.sel
    ensures Fit(s)
  {
    hide Watch, Views, Bytes;
  }

  lemma SameGood(r: Room, s: Room)
    requires Good(r) && s.log == r.log && s.sources == r.sources && s.sel == r.sel && (s.started ==> r.started)
    ensures Good(s)
  {
    hide Watch, Views, Bytes, Named;
  }

  lemma FireTold(r: Room, t: Temp, now: nat)
    requires Good(r) && Right(Watch(r.log), t)
    ensures Good(Fire(r, t, now))
  {
    hide Watch, Views, Bytes, Named;
    WatchMore(r.log, Fired(t, now));
  }

  lemma HeardGood(r: Room, idx: nat, v: Option<int>, e: Source)
    requires Good(r) && idx < |r.sources| && e.id == r.sources[idx].id && e.last == v
    ensures Good(Noted(r, Heard(idx, v)).(sources := r.sources[idx := e]))
  {
    hide Watch, ExtIndex, MacOfId, Bytes;
    WatchMore(r.log, Heard(idx, v));
    SameIds(r.sources, r.sources[idx := e], r.sel.id);
  }

  lemma HeardReading(r: Room, idx: nat, v: Option<int>)
    requires Good(r)
    ensures Reading(Watch(Noted(r, Heard(idx, v)).log), idx) == v
    ensures Watch(Noted(r, Heard(idx, v)).log).choice == ChoiceOf(r)
  {
    hide Watch, Projected, Declared;
    WatchMore(r.log, Heard(idx, v));
  }

  lemma ExtStateGood(r: Room, idx: nat, v: Option<int>, now: nat)
    requires Good(r) && idx < |r.sources|
    ensures Good(ExtState(r, idx, v, now))
  {
    hide Good, Watch, Reading;
    var e := Source(r.sources[idx].id, v, if v.None? then r.sources[idx].lastMs else Clock(now));
    var kept := Noted(r, Heard(idx, v)).(sources := r.sources[idx := e]);
    HeardGood(r, idx, v, e);
    if v.Some? && r.sel.ext == idx {
      HeardReading(r, idx, v);
      FireTold(kept, Degrees(v.value), now);
      SameGood(Fire(kept, Degrees(v.value), now), ExtState(r, idx, v, now));
    }
  }

  lemma SameIds(a: seq<Source>, b: seq<Source>, id: u64)
    requires |a| == |b| && forall i :: 0 <= i < |a| ==> a[i].id == b[i].id
    ensures ExtIndex(a, id) == ExtIndex(b, id)
  {
    hide ExtIndex;
    var i, j := ExtIndex(a, id), ExtIndex(b, id);
  }

  // A selection just made is announced with 0 for the heat pump, its current reading for a declared source, and
  // nothing yet for a Link: its reading was dropped with the old selection.
  lemma AnnounceGood(r: Room, api: bool, now: nat)
    requires Good(r) && r.sel.ext < |r.sources| && r.sel.src != SRC_BLE && r.shown.ms == 0
    requires ChoiceOf(r).Pump? ==> Watch(r.log).due
    ensures Good(SourceChanged(r, api, now))
    ensures ChoiceOf(r).Link? ==> SourceChanged(r, api, now) == r
  {
    hide Watch, ExtIndex, MacOfId;
    if r.sel.ext >= 0 {
      var e := r.sources[r.sel.ext];
      if Status(r, api, now) == ST_OK && e.last.Some? {
        FireTold(r, Degrees(e.last.value), now);
        SameGood(Fire(r, Degrees(e.last.value), now), SourceChanged(r, api, now));
      }
    } else if r.sel.pin.None? {
      FireTold(r, Zero, now);
    }
  }

  lemma SelectGood(r: Room, v: Selection)
    requires Fit(r) && (v == Views(r.sources, v.id) || v == Views(r.sources, v.id).(src := SRC_BLE)) && Named(r.sources, v.id)
    ensures var p := r.(sel := v);
            var n := Noted(p, Selected(ChoiceOf(p)));
            Good(n) && (Watch(n.log).due <==> ChoiceOf(p) != ChoiceOf(r))
  {
    hide Watch, Views, Bytes, Named;
    var p := r.(sel := v);
    WatchMore(r.log, Selected(ChoiceOf(p)));
  }

  // Of the ids that name something only one selects the heat pump.
  lemma OnlyPump(sources: seq<Source>, v: Selection)
    requires Named(sources, v.id) && (v == Views(sources, v.id) || v == Views(sources, v.id).(src := SRC_BLE))
    requires v.ext < 0 && v.pin.None?
    ensures v.id == INTERNAL_ID
  {
    hide ExtIndex, Bytes;
  }

  lemma PumpIsNew(r: Room, id: u64)
    requires Good(r) && r.started && Named(r.sources, id) && (id != r.sel.id || r.sel.src == SRC_BLE)
    requires ChoiceOf(r.(sel := Views(r.sources, id))).Pump?
    ensures !ChoiceOf(r).Pump?
  {
    hide Watch, Views, Named;
    OnlyPump(r.sources, Views(r.sources, id));
    if ChoiceOf(r).Pump? {
      OnlyPump(r.sources, r.sel);
    }
  }

  lemma NamedGood(r: Room)
    requires Fit(r) && Named(r.sources, r.sel.id)
    ensures Good(r)
  {
  }

  lemma ApplyGood(r: Room, id: u64, fire: bool, api: bool, now: nat)
    requires Fit(r) && Named(r.sources, id) && (fire ==> Good(r))
    ensures Good(ApplySource(r, id, fire, api, now))
  {
    hide Good, Fit, Watch, SourceChanged, Named;
    if id == r.sel.id && r.sel.src != SRC_BLE {
      Reprojected(r);
      NamedGood(r);
    } else {
      var r1 := ExtFireAt(ResetReading(r), 0);
      SameTold(r, r1);
      SelectGood(r1, Views(r.sources, id));
      var p := r1.(sel := Views(r.sources, id));
      if r.started && fire {
        if ChoiceOf(p).Pump? {
          PumpIsNew(r, id);
        }
        AnnounceGood(Noted(p, Selected(ChoiceOf(p))), api, now);
      }
    }
  }

  // Taking the views again changes nothing.
  lemma Reprojected(r: Room)
    requires Fit(r)
    ensures var v := Views(r.sources, r.sel.id);
            r.sel == if r.sel.src == SRC_BLE then v.(src := SRC_BLE) else v
  {
    hide Watch, ExtIndex, MacOfId;
  }

  // Whatever the stored id was, what the reconciliation settles on names something.
  lemma ResolvedNamed(r: Room)
    ensures Named(r.sources, Resolved(r))
  {
    hide ExtIndex, Bytes, MacId;
    forall mac: Mac
      ensures MacOfId(MacId(NS_LINK, mac), NS_LINK).Some?
    {
      MacRoundTrip(NS_LINK, mac, NS_LINK);
    }
  }

  lemma ReconcileGood(r: Room, fire: bool, api: bool, now: nat)
    requires Fit(r) && (fire ==> Good(r))
    ensures Good(Reconcile(r, fire, api, now))
  {
    hide Good, Fit, ApplySource, Resolved, Watch, Named;
    ResolvedNamed(r);
    ApplyGood(r, Resolved(r), fire, api, now);
    Reprojected(r);
    if Resolved(r) == r.sel.id {
      NamedGood(r);
    }
  }

  lemma ListedNamed(r: Room, id: u64)
    requires Listed(r, id)
    ensures Named(r.sources, id)
  {
    hide ExtIndex, Bytes, MacId;
    if InSlot(r.bonded, id) {
      var k :| 0 <= k < |r.bonded| && MacId(NS_LINK, r.bonded[k]) == id;
      MacRoundTrip(NS_LINK, r.bonded[k], NS_LINK);
    }
  }

  lemma LinkNamed(sources: seq<Source>, mac: Mac)
    ensures Named(sources, MacId(NS_LINK, mac)) && Named(sources, INTERNAL_ID)
  {
    hide ExtIndex, Bytes, MacId;
    MacRoundTrip(NS_LINK, mac, NS_LINK);
  }

  lemma GoodFit(r: Room)
    requires Good(r)
    ensures Fit(r)
  {
  }

  lemma EditGood(r: Room, p: Report, api: bool, now: nat)
    requires Good(r)
    ensures Good(Edit(r, p, api, now))
  {
    hide Good, Fit, Named, ApplySource, MacId, Watch;
    GoodFit(r);
    LinkNamed(r.sources, p.mac);
    ApplyGood(r, INTERNAL_ID, true, api, now);
    ApplyGood(r, MacId(NS_LINK, p.mac), true, api, now);
    BleGood(r);
  }

  lemma BleGood(r: Room)
    requires Good(r)
    ensures Good(Noted(ResetReading(r).(sel := Selection(INTERNAL_ID, -1, None, SRC_BLE)), Selected(Ble)))
  {
    InternalViews(r.sources);
    SameTold(r, ResetReading(r));
    SelectGood(ResetReading(r), Selection(INTERNAL_ID, -1, None, SRC_BLE));
    hide Good, Watch, Views;
  }

  lemma InternalViews(sources: seq<Source>)
    requires Declared(sources)
    ensures Views(sources, INTERNAL_ID) == Selection(INTERNAL_ID, -1, None, SRC_INTERNAL)
  {
    hide ExtIndex;
    assert Bytes(0)[0] == 0;
  }

  // A reading is published only from the selected Link's own frame.
  lemma TakeGood(r: Room, p: Report, now: nat)
    requires Good(r) && (p.cc != CC_NA && ChoiceOf(r) == Link(p.mac) ==> Watch(r.log).reported == Some(p.cc))
    ensures Good(Take(r, p, now))
  {
    hide Good, Watch;
    if !(r.sel.pin.Some? && p.mac != r.sel.pin.value) {
      if p.cc == CC_NA {
        SameGood(r, r.(shown := r.shown.(hasSensor := p.hasSensor)));
      } else {
        var r1 := r.(shown := Adopt(r.shown, p, now));
        SameGood(r, r1);
        PublishGood(r1, p.mac, now);
      }
    }
  }

  lemma PublishGood(r: Room, mac: Mac, now: nat)
    requires Good(r) && (r.sel.pin.Some? ==> r.sel.pin.value == mac)
    requires ChoiceOf(r) == Link(mac) ==> Watch(r.log).reported == Some(r.shown.cc)
    ensures Good(Publish(r, false, now))
  {
    hide Good, Watch;
    var kept := r.(shown := r.shown.(stale := false, pubCc := r.shown.cc, pubMs := Clock(now)));
    SameGood(r, kept);
    if r.sel.src == SRC_LINK {
      LinkChosen(r);
      FireTold(kept, Centi(r.shown.cc), now);
    }
  }

  lemma LinkChosen(r: Room)
    requires Good(r) && r.sel.src == SRC_LINK
    ensures r.sel.pin.Some? && ChoiceOf(r) == Link(r.sel.pin.value) && Watch(r.log).choice == ChoiceOf(r)
  {
    hide Watch, Bytes, ExtIndex;
    if r.sel.ext >= 0 {
      ExternalIsNoLink(r.sources, r.sel.id);
    }
  }

  lemma FeedGood(r: Room, p: Report, api: bool, now: nat)
    requires Good(r)
    ensures Good(Feed(r, p, api, now))
  {
    hide Good, Watch, Edit, Take, Reading;
    if r.linkSensor {
      var r1 := Edit(r, p, api, now);
      EditGood(r, p, api, now);
      ReportedGood(r1, p);
      TakeGood(if p.cc == CC_NA then r1 else Noted(r1, Reported(p.mac, p.cc)), p, now);
    }
  }

  lemma ReportedGood(r: Room, p: Report)
    requires Good(r)
    ensures var n := Noted(r, Reported(p.mac, p.cc));
            Good(n) && (ChoiceOf(r) == Link(p.mac) ==> Watch(n.log).reported == Some(p.cc))
  {
    hide Watch, Views, Bytes;
    WatchMore(r.log, Reported(p.mac, p.cc));
  }

  lemma HeartbeatGood(r: Room, api: bool, now: nat)
    requires Good(r) && r.sel.ext < |r.sources|
    ensures Good(Heartbeat(r, api, now))
  {
    hide Watch, Views, Bytes;
    if r.sel.ext >= 0 && r.sources[r.sel.ext].last.Some? {
      var t := Degrees(r.sources[r.sel.ext].last.value);
      FireTold(r, t, now);
      SameGood(Fire(r, t, now), ExtFireAt(Fire(r, t, now), now));
    }
  }

  lemma EdgeGood(r: Room, now: nat)
    requires Good(r)
    ensures Good(StaleEdge(r, now))
  {
    hide Good;
    SameGood(r, StaleEdge(r, now));
  }

  lemma TidyGood(r: Room, api: bool, now: nat)
    requires Good(r)
    ensures Good(Tidy(r, api, now))
  {
    hide Good, Reconcile;
    SameGood(r, r.(timers := r.timers.(reconcile := Clock(now))));
    GoodFit(r.(timers := r.timers.(reconcile := Clock(now))));
    ReconcileGood(r.(timers := r.timers.(reconcile := Clock(now))), true, api, now);
  }

  lemma PassGood(r: Room, api: bool, now: nat)
    requires Good(r) && r.sel.ext < |r.sources|
    ensures Good(Pass(r, api, now))
  {
    hide Good, Tidy, Heartbeat, StaleEdge;
    HeartbeatGood(r, api, now);
    EdgeGood(Heartbeat(r, api, now), now);
    TidyGood(StaleEdge(Heartbeat(r, api, now), now), api, now);
  }

  // --- Over whole runs ---

  datatype Op =
    | Hear(idx: nat, reading: Option<int>)
    | Frame(report: Report)
    | Set(current: bool, id: u64)
    | Pick(index: nat)
    | Loop
    | Bonds(bonded: seq<Mac>)
    | Start(bonded: seq<Mac>)

  // A step: what happens, whether an API client is connected, and the clock
  datatype Step = Step(op: Op, api: bool, now: nat)

  function Apply(r: Room, s: Step): Room
    requires r.sel.ext < |r.sources|
  {
    match s.op
    case Hear(idx, reading) => if idx < |r.sources| then ExtState(r, idx, reading, s.now) else r
    case Frame(report) => Feed(r, report, s.api, s.now)
    case Set(current, id) => SourceSet(r, current, id, s.api, s.now).0
    case Pick(index) => Choose(r, index, s.api, s.now)
    case Loop => Pass(r, s.api, s.now)
    case Bonds(bonded) => r.(bonded := bonded)
    case Start(bonded) => StartUp(r, bonded, s.api, s.now)
  }

  lemma GoodExt(r: Room)
    requires Good(r)
    ensures r.sel.ext < |r.sources|
  {
    hide Watch, MacOfId;
  }

  lemma StartGood(r: Room, bonded: seq<Mac>, api: bool, now: nat)
    requires Good(r)
    ensures Good(StartUp(r, bonded, api, now))
  {
    hide Good, Fit, Reconcile;
    GoodFit(r);
    SameTold(r, r.(bonded := bonded, started := true));
    ReconcileGood(r.(bonded := bonded, started := true), false, api, now);
  }

  lemma PickGood(r: Room, index: nat, api: bool, now: nat)
    requires Good(r)
    ensures Good(Choose(r, index, api, now))
  {
    hide Good, Fit, Named, ApplySource, Picked;
    GoodFit(r);
    PickNamed(r, index);
    if Picked(r, index).Some? {
      ApplyGood(r, Picked(r, index).value, true, api, now);
    }
  }

  lemma PickNamed(r: Room, index: nat)
    ensures Picked(r, index).Some? ==> Named(r.sources, Picked(r, index).value)
  {
    hide Named, MacId;
    LinkNamed(r.sources, NO_MAC);
    if 0 < index <= |r.sources| {
      SourceNamed(r.sources, index - 1);
    } else if index > 0 && index - |r.sources| - 1 < |r.bonded| {
      LinkNamed(r.sources, r.bonded[index - |r.sources| - 1]);
    }
  }

  lemma SourceNamed(sources: seq<Source>, i: nat)
    requires i < |sources|
    ensures Named(sources, sources[i].id)
  {
    hide ExtIndex, Bytes;
  }

  lemma ApplyStepGood(r: Room, s: Step)
    requires Good(r) && r.sel.ext < |r.sources|
    ensures Good(Apply(r, s))
  {
    hide Good, ExtState, Feed, ApplySource, Choose, Pass, StartUp, Listed;
    match s.op
    case Hear(idx, reading) =>
      if idx < |r.sources| {
        ExtStateGood(r, idx, reading, s.now);
      }
    case Frame(report) => FeedGood(r, report, s.api, s.now);
    case Set(current, id) =>
      if Listed(r, id) {
        GoodFit(r);
        ListedNamed(r, id);
        ApplyGood(r, id, true, s.api, s.now);
      }
    case Pick(index) => PickGood(r, index, s.api, s.now);
    case Loop => PassGood(r, s.api, s.now);
    case Bonds(bonded) => SameGood(r, r.(bonded := bonded));
    case Start(bonded) => StartGood(r, bonded, s.api, s.now);
  }

  ghost function Run(r: Room, steps: seq<Step>): Room
    requires Good(r)
    ensures Good(Run(r, steps))
    decreases |steps|
  {
    hide Good, Apply;
    if steps == [] then r
    else
      GoodExt(r);
      ApplyStepGood(r, steps[0]);
      Run(Apply(r, steps[0]), steps[1..])
  }

  // The component as set up, before any reading: the selection is the stored one, and its views its projections.
  lemma SetUpGood(r: Room)
    requires Projected(r) && Declared(r.sources) && forall i :: 0 <= i < |r.sources| ==> r.sources[i].last.None?
    requires r.log == [Restored(ChoiceOf(r))] && !r.started
    ensures Good(r)
  {
    hide Projected, Declared;
    WatchMore([], Restored(ChoiceOf(r)));
    assert [] + [Restored(ChoiceOf(r))] == r.log;
  }
}
