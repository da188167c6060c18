// What the feed's rules mean for its history, and for the selection.
module RoomStory {
  import opened Words
  import opened Bonds
  import opened LinkState
  import opened RoomIds
  import opened RoomSource
  import opened RoomFeed

  predicate Selects(n: Note) {
    n.Selected? || n.Restored?
  }

  // Note j made this selection, and it is still the one at the end of the log.
  predicate ChosenAt(log: seq<Note>, j: nat, choice: Choice) {
    && j < |log| && (log[j] == Selected(choice) || log[j] == Restored(choice))
    && forall k :: j < k < |log| ==> !Selects(log[k])
  }

  // The latest report from mac since note j
  predicate LatestReport(log: seq<Note>, j: nat, mac: Mac, cc: int) {
    exists m :: j < m < |log| && log[m] == Reported(mac, cc)
                && forall k :: m < k < |log| && log[k].Reported? ==> log[k].mac != mac
  }

  predicate LatestHeard(log: seq<Note>, idx: nat, v: int) {
    exists m :: 0 <= m < |log| && log[m] == Heard(idx, Some(v))
                && forall k :: m < k < |log| && log[k].Heard? ==> log[k].idx != idx
  }

  // The watcher's selection is the latest one in the log, or the heat pump before there is any.
  lemma {:induction false} ChoiceStory(log: seq<Note>) returns (j: int)
    ensures -1 <= j < |log|
    ensures j >= 0 ==> ChosenAt(log, j, Watch(log).choice)
    ensures j < 0 ==> Watch(log).choice == Pump && Watch(log).reported.None?
    ensures j >= 0 && Watch(log).choice.Link? && Watch(log).reported.Some? ==>
              LatestReport(log, j, Watch(log).choice.mac, Watch(log).reported.value)
    decreases |log|
  {
    if log == [] {
      return -1;
    }
    var rest, n := log[..|log| - 1], log[|log| - 1];
    assert log == rest + [n];
    if Selects(n) {
      return |log| - 1;
    }
    j := ChoiceStory(rest);
    if j >= 0 {
      ReportStory(rest, j, n);
    }
  }

  lemma ReportStory(rest: seq<Note>, j: nat, n: Note)
    requires !Selects(n) && ChosenAt(rest, j, Watch(rest).choice)
    requires Watch(rest).choice.Link? && Watch(rest).reported.Some? ==>
               LatestReport(rest, j, Watch(rest).choice.mac, Watch(rest).reported.value)
    ensures var w := See(Watch(rest), n);
            && ChosenAt(rest + [n], j, w.choice)
            && (w.choice.Link? && w.reported.Some? ==> LatestReport(rest + [n], j, w.choice.mac, w.reported.value))
  {
    hide Watch;
    var w, log := See(Watch(rest), n), rest + [n];
    if w.choice.Link? && w.reported.Some? {
      if n.Reported? && n.mac == w.choice.mac {
        assert log[|rest|] == Reported(w.choice.mac, w.reported.value);
      } else {
        var m :| j < m < |rest| && rest[m] == Reported(w.choice.mac, w.reported.value)
                 && forall k :: m < k < |rest| && rest[k].Reported? ==> rest[k].mac != w.choice.mac;
        assert log[m] == rest[m];
      }
    }
  }

  lemma {:induction false} HeardStory(log: seq<Note>, idx: nat)
    requires Reading(Watch(log), idx).Some?
    ensures LatestHeard(log, idx, Reading(Watch(log), idx).value)
    decreases |log|
  {
    var rest, n := log[..|log| - 1], log[|log| - 1];
    assert log == rest + [n];
    var v := Reading(Watch(log), idx).value;
    if n.Heard? && n.idx == idx {
      assert log[|rest|] == Heard(idx, Some(v));
    } else {
      HeardStory(rest, idx);
      var m :| 0 <= m < |rest| && rest[m] == Heard(idx, Some(v))
               && forall k :: m < k < |rest| && rest[k].Heard? ==> rest[k].idx != idx;
      assert log[m] == rest[m];
    }
  }

  lemma {:induction false} PrefixOk(log: seq<Note>, k: nat)
    requires k <= |log| && Watch(log).ok
    ensures Watch(log[..k]).ok
    decreases |log|
  {
    if k < |log| {
      PrefixOk(log[..|log| - 1], k);
      assert log[..|log| - 1][..k] == log[..k];
    } else {
      assert log[..k] == log;
    }
  }

  lemma FiredRight(log: seq<Note>, k: nat)
    requires Watch(log).ok && k < |log| && log[k].Fired?
    ensures Right(Watch(log[..k]), log[k].temp)
  {
    PrefixOk(log, k + 1);
    assert log[..k + 1][..k] == log[..k];
  }

  // Only a change of the selection makes 0 due.
  lemma DueStory(log: seq<Note>)
    requires Watch(log).due
    ensures |log| > 0 && log[|log| - 1] == Selected(Watch(log).choice)
    ensures Watch(log[..|log| - 1]).choice != Watch(log).choice
  {
  }

  // Another choice than the heat pump stood until then.
  predicate Changed(log: seq<Note>, j: nat) {
    j < |log| && Selects(log[j]) && log[j].choice != Pump && ChosenAt(log, j, log[j].choice)
  }

  lemma ChangedBy(log: seq<Note>, j: int, choice: Choice)
    requires choice != Pump && j >= 0 && ChosenAt(log, j, choice)
    ensures Changed(log, j)
  {
  }

  // Every value ever fired, over every run: 0 only when the selection has just changed to the heat pump from something
  // else; a declared source's only while it is selected, and its latest reading, not withdrawn; a dial's only while that
  // Link is selected, and what that Link itself last reported, after it was selected.
  lemma EveryValue(r: Room, steps: seq<RoomFeed.Step>, k: nat) returns (j: int)
    requires Good(r)
    requires var log := Run(r, steps).log;
             k < |log| && log[k].Fired?
    ensures var log := Run(r, steps).log;
            j >= 0 &&
            match log[k].temp
            case Zero => k > 0 && log[k - 1] == Selected(Pump) && Changed(log[..k - 1], j)
            case Degrees(v) => exists idx :: ChosenAt(log[..k], j, External(idx)) && LatestHeard(log[..k], idx, v)
            case Centi(cc) => exists mac :: ChosenAt(log[..k], j, Link(mac)) && LatestReport(log[..k], j, mac, cc)
  {
    hide Run, ChosenAt, LatestReport, LatestHeard, Watch;
    var log := Run(r, steps).log;
    GoodOk(Run(r, steps));
    FiredRight(log, k);
    var w := Watch(log[..k]);
    match log[k].temp
    case Zero =>
      DueStory(log[..k]);
      assert log[..k][..k - 1] == log[..k - 1] && log[..k][k - 1] == log[k - 1];
      j := ChoiceStory(log[..k - 1]);
      ChangedBy(log[..k - 1], j, Watch(log[..k - 1]).choice);
    case Degrees(v) =>
      j := ChoiceStory(log[..k]);
      HeardStory(log[..k], w.choice.idx);
    case Centi(cc) =>
      j := ChoiceStory(log[..k]);
  }

  lemma GoodOk(r: Room)
    requires Good(r)
    ensures Watch(r.log).ok
  {
    hide Watch;
  }

  // --- What a selection does ---

  // What the heat pump is told of a selection: 0 for itself, a declared source's reading if it has one and can be heard
  // from, nothing for a Link.
  function Announcement(r: Room, api: bool, now: nat): seq<Note>
    requires r.sel.ext < |r.sources|
  {
    match ChoiceOf(r)
    case Pump => [Fired(Zero, now)]
    case External(i) =>
      var e := r.sources[i];
      if e.lastMs != 0 && e.last.Some? && api then [Fired(Degrees(e.last.value), now)] else []
    case _ => []
  }

  lemma AnnouncedNow(r: Room, api: bool, now: nat)
    requires r.sel.ext < |r.sources| && r.shown.ms == 0 && r.sel.src == (if r.sel.pin.Some? then SRC_LINK else SRC_INTERNAL)
    ensures var s := SourceChanged(r, api, now);
            s.log == r.log + Announcement(r, api, now) && s.sources == r.sources && s.sel == r.sel
  {
  }

  // Only a change is announced, and only once the component is up.
  lemma Announced(r: Room, id: u64, fire: bool, api: bool, now: nat)
    ensures var s := ApplySource(r, id, fire, api, now);
            && s.sel == Views(r.sources, id) && s.sources == r.sources
            && s.log == if id == r.sel.id && r.sel.src != SRC_BLE then r.log
                        else r.log + [Selected(ChoiceOf(s))] + if r.started && fire then Announcement(s, api, now) else []
  {
    hide ExtIndex, MacOfId, SourceChanged;
    var p := ExtFireAt(ResetReading(r), 0).(sel := Views(r.sources, id));
    AnnouncedNow(Noted(p, Selected(ChoiceOf(p))), api, now);
  }

  // A pinned Link stays pinned, with nothing fired and nothing dropped, exactly as long as it is bonded, in whatever
  // slot.
  lemma PinSurvives(r: Room, mac: Mac, bonded: seq<Mac>, fire: bool, api: bool, now: nat)
    requires Good(r) && r.sel.id == MacId(NS_LINK, mac)
    ensures ChoiceOf(r) == if r.sel.src == SRC_BLE then Ble else Link(mac)
    ensures var moved := r.(bonded := bonded);
            Reconcile(moved, fire, api, now) == moved <==> mac in bonded
  {
    hide Good, Watch, ExtIndex, Views, MacId, ApplySource;
    PinChoice(r, mac);
    var s := r.(bonded := bonded);
    GoodFit(r);
    SameTold(r, s);
    Reprojected(s);
    MacIdKind(mac);
    SlotIs(bonded, mac);
    Announced(s, INTERNAL_ID, fire, api, now);
  }

  lemma PinChoice(r: Room, mac: Mac)
    requires Good(r) && r.sel.id == MacId(NS_LINK, mac)
    ensures r.sel.ext == -1 && r.sel.pin == Some(mac) && ExtIndex(r.sources, r.sel.id) < 0
    ensures ChoiceOf(r) == if r.sel.src == SRC_BLE then Ble else Link(mac)
  {
    hide Watch, Bytes, MacId;
    MacRoundTrip(NS_LINK, mac, NS_LINK);
    if ExtIndex(r.sources, r.sel.id) >= 0 {
      ExternalIsNoLink(r.sources, r.sel.id);
    }
  }

  // An id of the Link namespace with a nonzero second byte reads as some Link's, but is no Link's: the catalog never lists
  // it, so no choice of it is accepted and the reconciliation drops a stored one.
  lemma AliasUnlisted(r: Room, id: u64)
    requires Declared(r.sources) && MacOfId(id, NS_LINK).Some? && Bytes(id)[1] != 0
    ensures !Listed(r, id) && forall api, now :: SourceSet(r, true, id, api, now) == (r, SET_BAD_SOURCE)
    ensures r.sel.id == id ==> Resolved(r) == INTERNAL_ID
  {
    hide Bytes, MacId, ExtIndex, ApplySource;
    NoBytes();
    AutoBytes();
    forall k | 0 <= k < |r.bonded|
      ensures MacId(NS_LINK, r.bonded[k]) != id
    {
      WrittenBytes(NS_LINK, r.bonded[k]);
    }
  }

  lemma NoBytes()
    ensures Bytes(INTERNAL_ID)[0] == 0
  {
  }

  lemma SlotIs(bonded: seq<Mac>, mac: Mac)
    ensures InSlot(bonded, MacId(NS_LINK, mac)) <==> mac in bonded
  {
    hide MacId;
    if InSlot(bonded, MacId(NS_LINK, mac)) {
      var k :| 0 <= k < |bonded| && MacId(NS_LINK, bonded[k]) == MacId(NS_LINK, mac);
      MacIdUnique(NS_LINK, bonded[k], mac);
    }
  }

  // A frame that edits nothing reaches the heat pump exactly when the selected Link sent it with a temperature that is to
  // be published; a first one after the selection always is, and so is one that differs from what was last published.
  lemma FrameSpeaks(r: Room, p: Report, api: bool, now: nat)
    requires Good(r) && r.linkSensor && p.edit.None?
    ensures var speaks := p.cc != CC_NA && ChoiceOf(r) == Link(p.mac) && ToPublish(Adopt(r.shown, p, now), now);
            Feed(r, p, api, now).log
            == r.log + (if p.cc != CC_NA then [Reported(p.mac, p.cc)] else []) + (if speaks then [Fired(Centi(p.cc), now)] else [])
    ensures r.shown.mac != p.mac || r.shown.pubCc != p.cc ==> p.cc != CC_NA ==> ToPublish(Adopt(r.shown, p, now), now)
  {
    hide Good, Watch, Bytes;
    LinkMeans(r);
  }

  lemma LinkMeans(r: Room)
    requires Good(r)
    ensures r.sel.src == SRC_LINK <==> ChoiceOf(r).Link?
    ensures ChoiceOf(r).Link? ==> r.sel.pin == Some(ChoiceOf(r).mac)
  {
    hide Watch, Bytes, ExtIndex;
    if r.sel.ext >= 0 {
      ExternalIsNoLink(r.sources, r.sel.id);
    }
  }
}
