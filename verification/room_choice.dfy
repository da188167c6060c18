// What a choice of the room source chooses, whoever makes it, and how long a reading counts as current.
module RoomChoice {
  import opened Words
  import opened Bonds
  import opened LinkState
  import opened RoomIds
  import opened RoomSource
  import opened RoomFeed
  import opened RoomStory

  // --- Selections ---

  // The choice an id names
  predicate Names(r: Room, id: u64, choice: Choice) {
    match choice
    case Pump => id == INTERNAL_ID
    case Ble => false
    case Link(mac) => id == MacId(NS_LINK, mac)
    case External(i) => i < |r.sources| && r.sources[i].id == id
  }

  // The id is selected, what it names is chosen, and the history has exactly the selection and its announcement, or nothing
  // new if the id was selected already.
  predicate Chosen(r: Room, s: Room, id: u64, fire: bool, api: bool, now: nat) {
    && s.sel.id == id && s.sel.ext < |s.sources| && s.sources == r.sources && Names(s, id, ChoiceOf(s))
    && s.log == if id == r.sel.id && r.sel.src != SRC_BLE then r.log
                else r.log + [Selected(ChoiceOf(s))] + (if r.started && fire then Announcement(s, api, now) else [])
  }

  lemma ApplyChooses(r: Room, id: u64, fire: bool, api: bool, now: nat)
    requires Good(r) && (id == INTERNAL_ID || ExtIndex(r.sources, id) >= 0 || exists mac: Mac :: id == MacId(NS_LINK, mac))
    ensures Chosen(r, ApplySource(r, id, fire, api, now), id, fire, api, now)
  {
    hide ApplySource, Good, Announcement, Watch, MacId;
    Announced(r, id, fire, api, now);
    ViewsName(r, id);
  }

  lemma ViewsName(r: Room, id: u64)
    requires Good(r) && (id == INTERNAL_ID || ExtIndex(r.sources, id) >= 0 || exists mac: Mac :: id == MacId(NS_LINK, mac))
    ensures Names(r, id, ChoiceOf(r.(sel := Views(r.sources, id))))
  {
    hide Watch, Bytes, MacId;
    if ExtIndex(r.sources, id) < 0 {
      if id == INTERNAL_ID {
        InternalViews(r.sources);
      } else {
        var mac: Mac :| id == MacId(NS_LINK, mac);
        MacRoundTrip(NS_LINK, mac, NS_LINK);
      }
    }
  }

  // --- Who may choose ---

  // A dial's choice is answered OK exactly if its catalog is current and lists the id, and then it is made; any other answer
  // tells why not, and changes nothing.
  lemma ChoiceAnswered(r: Room, current: bool, id: u64, api: bool, now: nat)
    requires Good(r) && r.sel.ext < |r.sources|
    ensures var answer := SourceSet(r, current, id, api, now).1;
            var s := Apply(r, Step(Set(current, id), api, now));
            && answer == (if !current then 2 else if Listed(r, id) then 0 else 1)
            && if answer == 0 then Chosen(r, s, id, true, api, now) else s == r
  {
    hide ApplySource, Good, Chosen, ExtIndex, MacId;
    if current && Listed(r, id) {
      ApplyChooses(r, id, true, api, now);
    }
  }

  // The dropdown lists the heat pump, the declared sources and the bonded dials, in this order, and chooses what it lists.
  lemma DropdownChooses(r: Room, index: nat, api: bool, now: nat)
    requires Good(r) && r.sel.ext < |r.sources|
    ensures var s := Apply(r, Step(Pick(index), api, now));
            var n := |r.sources|;
            if index == 0 then Chosen(r, s, INTERNAL_ID, true, api, now)
            else if index <= n then Chosen(r, s, r.sources[index - 1].id, true, api, now)
            else if index - n - 1 < |r.bonded| then Chosen(r, s, MacId(NS_LINK, r.bonded[index - n - 1]), true, api, now)
            else s == r
  {
    hide ApplySource, Good, Chosen, MacId;
    if index == 0 {
      ApplyChooses(r, INTERNAL_ID, true, api, now);
    } else if index <= |r.sources| {
      SourceListed(r, index - 1);
      ApplyChooses(r, r.sources[index - 1].id, true, api, now);
    } else if index - |r.sources| - 1 < |r.bonded| {
      ApplyChooses(r, MacId(NS_LINK, r.bonded[index - |r.sources| - 1]), true, api, now);
    }
  }

  lemma SourceListed(r: Room, i: nat)
    requires i < |r.sources|
    ensures ExtIndex(r.sources, r.sources[i].id) >= 0
  {
    hide ExtIndex;
  }

  // An edit in a dial's frame chooses the heat pump, that dial, or its Bluetooth sensor; one that names what is chosen already,
  // or nothing known, changes nothing.
  lemma EditChooses(r: Room, p: Report, api: bool, now: nat)
    requires Good(r)
    ensures var s := Edit(r, p, api, now);
            if p.edit.None? || p.edit.value > 2 || p.edit.value == r.sel.src then s == r
            else if p.edit.value == 0 then Chosen(r, s, INTERNAL_ID, true, api, now)
            else if p.edit.value == 1 then ChoiceOf(s) == Ble && s.log == r.log + [Selected(Ble)] && s.sources == r.sources
            else Chosen(r, s, MacId(NS_LINK, p.mac), true, api, now)
  {
    hide ApplySource, Good, Chosen, MacId;
    ApplyChooses(r, INTERNAL_ID, true, api, now);
    ApplyChooses(r, MacId(NS_LINK, p.mac), true, api, now);
  }

  // What a reconciliation settles on: the retired automatic choice is the only dial there is, an id that is listed stands, and
  // anything else is the heat pump.
  predicate Settles(r: Room, id: u64) {
    if r.sel.id == AUTO_ID then
      (if |r.bonded| == 1 then id == MacId(NS_LINK, r.bonded[0]) else id == INTERNAL_ID)
    else id == if Listed(r, r.sel.id) then r.sel.id else INTERNAL_ID
  }

  lemma ReconcileSettles(r: Room, fire: bool, api: bool, now: nat)
    requires Good(r)
    ensures var s := Reconcile(r, fire, api, now);
            && Settles(r, s.sel.id)
            && if s.sel.id == r.sel.id then s == r else Chosen(r, s, s.sel.id, fire, api, now)
  {
    hide ApplySource, Good, Chosen, MacId, ExtIndex, InSlot;
    GoodFit(r);
    Reprojected(r);
    ApplyIds(r, Resolved(r), fire, api, now);
    if Resolved(r) != r.sel.id {
      ApplyChooses(r, Resolved(r), fire, api, now);
    }
  }

  lemma ApplyIds(r: Room, id: u64, fire: bool, api: bool, now: nat)
    ensures ApplySource(r, id, fire, api, now).sel.id == id
  {
    hide ApplySource, ExtIndex, MacOfId, Announcement;
    Announced(r, id, fire, api, now);
  }

  // A pass reconciles once a second while the component is up, and otherwise leaves the selection alone.
  lemma PassSettles(r: Room, api: bool, now: nat)
    requires Good(r) && r.sel.ext < |r.sources|
    ensures var s := Apply(r, Step(Loop, api, now));
            if r.started && Since(Clock(now), r.timers.reconcile) >= 1000 then
              Settles(r, s.sel.id) && s.timers.reconcile == Clock(now)
            else s.sel == r.sel
  {
    hide Good, Reconcile, Clock, Since, Heartbeat, StaleEdge, Settles;
    var h := Heartbeat(r, api, now);
    var e := StaleEdge(h, now);
    HeartbeatGood(r, api, now);
    HeartbeatLeaves(r, api, now);
    EdgeGood(h, now);
    EdgeLeaves(h, now);
    var m := e.(timers := e.timers.(reconcile := Clock(now)));
    SameGood(e, m);
    ReconcileSettles(m, true, api, now);
    ReconcileTimer(m, true, api, now);
    SettlesSame(r, m, Reconcile(m, true, api, now).sel.id);
  }

  // What the settling looks at, and when it was last done
  predicate SameChoices(a: Room, b: Room) {
    a.sel == b.sel && a.sources == b.sources && a.bonded == b.bonded && a.started == b.started
    && a.timers.reconcile == b.timers.reconcile
  }

  lemma HeartbeatLeaves(r: Room, api: bool, now: nat)
    requires r.sel.ext < |r.sources|
    ensures SameChoices(Heartbeat(r, api, now), r)
  {
    hide Clock, Since;
  }

  lemma EdgeLeaves(r: Room, now: nat)
    ensures SameChoices(StaleEdge(r, now), r)
  {
    hide Clock, Since;
  }

  lemma SettlesSame(a: Room, b: Room, id: u64)
    requires a.sel == b.sel && a.sources == b.sources && a.bonded == b.bonded
    ensures Settles(a, id) <==> Settles(b, id)
  {
    hide MacId, ExtIndex;
  }

  lemma ReconcileTimer(r: Room, fire: bool, api: bool, now: nat)
    ensures Reconcile(r, fire, api, now).timers.reconcile == r.timers.reconcile
  {
    hide Resolved, Views, Status, Clock;
  }

  // The start takes the bond table as it is, settles the stored selection, and fires nothing.
  lemma StartSettles(r: Room, bonded: seq<Mac>, api: bool, now: nat)
    requires Good(r) && !r.started && r.sel.ext < |r.sources|
    ensures var s := Apply(r, Step(Start(bonded), api, now));
            && s.started && s.bonded == bonded && Settles(r.(bonded := bonded), s.sel.id)
            && (s.log == r.log || s.log == r.log + [Selected(ChoiceOf(s))])
  {
    hide Good, Reconcile, Announcement;
    var m := r.(bonded := bonded, started := true);
    StoredSettles(r, bonded, api, now);
  }

  lemma StoredSettles(r: Room, bonded: seq<Mac>, api: bool, now: nat)
    requires Good(r) && !r.started
    ensures var m := r.(bonded := bonded, started := true);
            var s := Reconcile(m, false, api, now);
            && s.started && s.bonded == bonded && Settles(m, s.sel.id)
            && (s.log == r.log || s.log == r.log + [Selected(ChoiceOf(s))])
  {
    hide ApplySource, Good, MacId, ExtIndex, InSlot, Announcement;
    var m := r.(bonded := bonded, started := true);
    GoodFit(r);
    SameTold(r, m);
    Reprojected(m);
    ApplyIds(m, Resolved(m), false, api, now);
    Announced(m, Resolved(m), false, api, now);
    ApplyKeeps(m, Resolved(m), false, api, now);
  }

  lemma ApplyKeeps(r: Room, id: u64, fire: bool, api: bool, now: nat)
    ensures var s := ApplySource(r, id, fire, api, now);
            s.started == r.started && s.bonded == r.bonded
  {
    hide Views, Status;
  }

  // --- Readings ---

  // A reading, or its withdrawal, is what its source has from now on; a withdrawal does not make the source unheard.
  lemma HearKeeps(r: Room, idx: nat, v: Option<int>, api: bool, now: nat)
    requires r.sel.ext < |r.sources|
    ensures var s := Apply(r, Step(Hear(idx, v), api, now));
            && s.sel == r.sel
            && if idx >= |r.sources| then s == r
               else s.sources == r.sources[idx := Source(r.sources[idx].id, v, if v.Some? then Clock(now) else r.sources[idx].lastMs)]
  {
  }

  // So a source that was heard is announced with what it last said when it is selected, the API connected.
  lemma HeardIsAnnounced(r: Room, idx: nat, v: int, heard: nat, api: bool, now: nat)
    requires Good(r) && idx < |r.sources| && Clock(heard) != 0 && r.started && r.sel.ext < |r.sources|
    requires ExtIndex(r.sources, r.sources[idx].id) == idx && r.sel.id != r.sources[idx].id
    ensures var h := Apply(r, Step(Hear(idx, Some(v)), api, heard));
            h.sel.ext < |h.sources|
            && Apply(h, Step(Set(true, r.sources[idx].id), true, now)).log
               == h.log + [Selected(External(idx)), Fired(Degrees(v), now)]
  {
    hide Good, ApplySource, Clock, Watch, MacOfId, ExtIndex, InSlot;
    var h := ExtState(r, idx, Some(v), heard);
    SameIds(r.sources, h.sources, r.sources[idx].id);
    Announced(h, r.sources[idx].id, true, true, now);
  }

  // --- How long a dial's reading counts ---

  // A report of the pinned Link with a sensor and a temperature makes the source healthy for staleMs of true time, and stale
  // from then on.
  lemma ReportIsHealth(r: Room, p: Report, api: bool, heard: nat, now: nat)
    requires Good(r) && ChoiceOf(r) == Link(p.mac) && r.linkSensor && p.edit.None? && p.hasSensor && p.cc != CC_NA
    requires Clock(heard) != 0 && heard <= now < heard + B32
    ensures var s := Feed(r, p, api, heard);
            s.sel == r.sel && s.staleMs == r.staleMs && s.sel.ext < |s.sources|
            && Status(s, api, now) == if now - heard < r.staleMs then 0 else 1
  {
    hide Watch, Clock, Since, Bytes, ToPublish;
    LinkMeans(r);
    GoodExt(r);
    TrueAge(now, heard);
    hide Good;
  }

  // Nothing is heard from the pinned Link while the reading shown is not its own, or there is none, or no sensor.
  lemma NoReportNoHealth(r: Room, api: bool, now: nat)
    requires Good(r) && ChoiceOf(r).Link? && r.sel.ext < |r.sources|
    ensures Status(r, api, now) == 2 <==> r.shown.mac != ChoiceOf(r).mac || !r.shown.hasSensor || r.shown.ms == 0
  {
    hide Watch, Bytes, Clock, Since;
    LinkMeans(r);
  }

  // The same temperature is published again once 30 s of true time have passed, or it had gone stale.
  lemma PublishedAgain(r: Room, p: Report, api: bool, sent: nat, now: nat)
    requires Good(r) && ChoiceOf(r) == Link(p.mac) && r.linkSensor && p.edit.None? && p.cc != CC_NA
    requires r.shown.mac == p.mac && r.shown.pubCc == p.cc && r.shown.pubMs == Clock(sent) != 0 && sent <= now < sent + B32
    ensures var fired := Feed(r, p, api, now).log == r.log + [Reported(p.mac, p.cc), Fired(Centi(p.cc), now)];
            var kept := Feed(r, p, api, now).log == r.log + [Reported(p.mac, p.cc)];
            && (fired <==> now - sent >= 30000 || r.shown.stale)
            && (kept <==> !fired)
  {
    hide Good, Clock, Since, Feed;
    FrameSpeaks(r, p, api, now);
    TrueAge(now, sent);
    Longer(r.log, Reported(p.mac, p.cc), Fired(Centi(p.cc), now));
  }

  lemma Longer(log: seq<Note>, a: Note, b: Note)
    ensures log + [a, b] != log + [a] && log + [a] + [b] == log + [a, b] && log + [a] + [] == log + [a]
  {
    assert |log + [a, b]| == |log + [a]| + 1;
  }

  // A pass that checks, once a second, marks the reading shown as stale exactly when it is staleMs old in true time.
  lemma StaleIsMarked(r: Room, api: bool, heard: nat, now: nat)
    requires Good(r) && r.sel.ext < |r.sources| && r.started && r.linkSensor && Since(Clock(now), r.timers.check) >= 1000
    requires r.shown.ms == Clock(heard) != 0 && heard <= now < heard + B32 && !r.shown.stale
    ensures var s := Apply(r, Step(Loop, api, now));
            s.sel.id == r.sel.id ==> s.shown == r.shown.(stale := now - heard >= r.staleMs)
  {
    hide Good, Clock, Since, Reconcile, Settles, Heartbeat, StaleEdge;
    var h := Heartbeat(r, api, now);
    var e := StaleEdge(h, now);
    HeartbeatGood(r, api, now);
    HeartbeatLeaves(r, api, now);
    EdgeGood(h, now);
    EdgeLeaves(h, now);
    EdgeShown(r, api, heard, now);
    var m := e.(timers := e.timers.(reconcile := Clock(now)));
    SameGood(e, m);
    ReconcileSettles(m, true, api, now);
  }

  lemma EdgeShown(r: Room, api: bool, heard: nat, now: nat)
    requires r.sel.ext < |r.sources| && r.linkSensor && Since(Clock(now), r.timers.check) >= 1000
    requires r.shown.ms == Clock(heard) != 0 && heard <= now < heard + B32 && !r.shown.stale
    ensures StaleEdge(Heartbeat(r, api, now), now).shown == r.shown.(stale := now - heard >= r.staleMs)
  {
    hide Clock, Since;
    TrueAge(now, heard);
  }

  // The heat pump is always healthy and the Bluetooth sensor never known; a declared source is unavailable until it is heard,
  // and then healthy while it has a reading and the API is up.
  lemma OtherHealth(r: Room, api: bool, now: nat)
    requires Good(r) && r.sel.ext < |r.sources|
    ensures match ChoiceOf(r)
            case Pump => Status(r, api, now) == 0
            case Ble => Status(r, api, now) == 2
            case External(i) =>
              Status(r, api, now) == if r.sources[i].lastMs == 0 then 2 else if r.sources[i].last.Some? && api then 0 else 1
            case Link(mac) => true
  {
    hide Watch, Bytes, Clock, Since;
    LinkMeans(r);
  }

  // A report without a temperature only says whether the dial on display has a sensor, and none is looked at without the
  // feature.
  lemma NoTemperature(r: Room, p: Report, api: bool, now: nat)
    requires p.edit.None? && p.cc == CC_NA
    ensures var s := Feed(r, p, api, now);
            if r.linkSensor && r.shown.mac == p.mac && (r.sel.pin.None? || r.sel.pin.value == p.mac) then
              s == r.(shown := r.shown.(hasSensor := p.hasSensor))
            else s == r
    ensures forall q, t :: !r.linkSensor ==> Feed(r, q, api, t) == r
  {
  }

  // What a published report leaves on display
  lemma PublishedIsShown(r: Room, p: Report, api: bool, now: nat)
    requires Good(r) && ChoiceOf(r) == Link(p.mac) && r.linkSensor && p.edit.None? && p.cc != CC_NA
    requires ToPublish(Adopt(r.shown, p, now), now)
    ensures Feed(r, p, api, now).shown == Display(p.cc, Clock(now), p.hasSensor, p.mac, p.cc, Clock(now), false)
  {
    hide Watch, Bytes, ToPublish, Clock;
    LinkMeans(r);
  }

  // The stale check is done once a second.
  lemma PassChecks(r: Room, api: bool, now: nat)
    requires r.sel.ext < |r.sources| && r.started
    ensures Apply(r, Step(Loop, api, now)).timers.check
            == if r.linkSensor && Since(Clock(now), r.timers.check) >= 1000 then Clock(now) else r.timers.check
  {
    hide Clock, Since, Resolved, Views, Status;
  }

  // After a change of the bond table exactly the bonded dials are listed, besides the heat pump and the declared sources.
  lemma BondedAreListed(r: Room, bonded: seq<Mac>, mac: Mac, api: bool, now: nat)
    requires Good(r) && r.sel.ext < |r.sources|
    ensures Listed(Apply(r, Step(Bonds(bonded), api, now)), MacId(NS_LINK, mac)) <==> mac in bonded
  {
    hide Watch, Bytes, MacId, ExtIndex;
    SlotIs(bonded, mac);
    MacRoundTrip(NS_LINK, mac, NS_LINK);
    InternalViews(r.sources);
    if ExtIndex(r.sources, MacId(NS_LINK, mac)) >= 0 {
      ExternalIsNoLink(r.sources, MacId(NS_LINK, mac));
    }
  }
}
