// The room temperature source: which reading may reach the heat pump, across selections, edits from the dials, changes
// of the bond table and readings that are withdrawn or go stale. Temperatures are opaque numbers: an external reading
// in degrees, a dial's in hundredths.
module RoomSource {
  import opened Words
  import opened Bonds
  import opened LinkState
  import opened RoomIds

  const CC_NA := 0x7FFF
  const HEARTBEAT_MS := 30000

  // The coarse view older dials know
  const SRC_INTERNAL: u8 := 0
  const SRC_BLE: u8 := 1
  const SRC_LINK: u8 := 2

  const ST_OK: u8 := 0
  const ST_STALE: u8 := 1
  const ST_UNAVAILABLE: u8 := 2

  const SET_OK: u8 := 0
  const SET_BAD_SOURCE: u8 := 1
  const SET_STALE_CATALOG: u8 := 2

  // What on_room_temperature is fired with: 0, an external reading, or a dial's.
  datatype Temp = Zero | Degrees(v: int) | Centi(cc: int)

  // Which source is selected
  datatype Choice = Pump | Ble | Link(mac: Mac) | External(idx: nat)

  // The feed's history: selections, readings as they arrive, and what was fired and when. Times are true times; the
  // component sees them modulo 2^32.
  datatype Note =
    | Restored(choice: Choice)
    | Selected(choice: Choice)
    | Reported(mac: Mac, cc: int)
    | Heard(idx: nat, reading: Option<int>)
    | Fired(temp: Temp, at: nat)

  // One source declared in the configuration, with its latest reading
  datatype Source = Source(id: u64, last: Option<int>, lastMs: u32)

  // The dial's reading on display, and what was last published of it
  datatype Display = Display(cc: int, ms: u32, hasSensor: bool, mac: Mac, pubCc: int, pubMs: u32, stale: bool)

  const BLANK := Display(CC_NA, 0, false, NO_MAC, CC_NA, 0, false)

  // The selected id and its three views: the declared source's index, the pinned Link, the coarse choice
  datatype Selection = Selection(id: u64, ext: int, pin: Option<Mac>, src: u8)

  datatype Timers = Timers(extFire: u32, check: u32, reconcile: u32)

  datatype Room = Room(linkSensor: bool, staleMs: u32, started: bool, bonded: seq<Mac>, sources: seq<Source>,
                       shown: Display, sel: Selection, timers: Timers, log: seq<Note>)

  // ext_index_
  function ExtIndex(sources: seq<Source>, id: u64): (i: int)
    ensures -1 <= i < |sources|
    ensures i >= 0 ==> sources[i].id == id && forall j :: 0 <= j < i ==> sources[j].id != id
    ensures i == -1 ==> forall j :: 0 <= j < |sources| ==> sources[j].id != id
  {
    if sources == [] then -1
    else if sources[0].id == id then 0
    else
      var r := ExtIndex(sources[1..], id);
      assert forall j :: 1 <= j < |sources| ==> sources[j] == sources[1..][j - 1];
      if r == -1 then -1 else r + 1
  }

  function ChoiceOf(r: Room): Choice {
    if r.sel.ext >= 0 then External(r.sel.ext)
    else if r.sel.src == SRC_BLE then Ble
    else if r.sel.pin.Some? then Link(r.sel.pin.value)
    else Pump
  }

  function Noted(r: Room, n: Note): Room {
    r.(log := r.log + [n])
  }

  // fire_room_temperature_
  function Fire(r: Room, t: Temp, now: nat): Room {
    Noted(r, Fired(t, now))
  }

  // room_src_status_
  function Status(r: Room, api: bool, now: nat): u8
    requires r.sel.ext < |r.sources|
  {
    if r.sel.ext >= 0 then
      var e := r.sources[r.sel.ext];
      if e.lastMs == 0 then ST_UNAVAILABLE else if e.last.Some? && api then ST_OK else ST_STALE
    else if r.sel.src == SRC_LINK then
      if r.sel.pin != Some(r.shown.mac) || !r.shown.hasSensor || r.shown.ms == 0 then ST_UNAVAILABLE
      else if Since(Clock(now), r.shown.ms) >= r.staleMs then ST_STALE
      else ST_OK
    else if r.sel.src == SRC_BLE then ST_UNAVAILABLE
    else ST_OK
  }

  function ExtFireAt(r: Room, now: nat): Room {
    r.(timers := r.timers.(extFire := Clock(now)))
  }

  // ext_state_: a reading of None is no reading.
  function ExtState(r: Room, idx: nat, v: Option<int>, now: nat): Room
    requires idx < |r.sources|
  {
    var e := Source(r.sources[idx].id, v, if v.None? then r.sources[idx].lastMs else Clock(now));
    var kept := Noted(r, Heard(idx, v)).(sources := r.sources[idx := e]);
    if v.Some? && r.sel.ext == idx then ExtFireAt(Fire(kept, Degrees(v.value), now), now) else kept
  }

  // room_source_changed_
  function SourceChanged(r: Room, api: bool, now: nat): Room
    requires r.sel.ext < |r.sources|
  {
    if r.sel.ext >= 0 then
      var e := r.sources[r.sel.ext];
      if Status(r, api, now) == ST_OK && e.last.Some? then ExtFireAt(Fire(r, Degrees(e.last.value), now), now) else r
    else if r.sel.pin.Some? then
      if Status(r, api, now) == ST_OK then Fire(r, Centi(r.shown.cc), now) else r
    else Fire(r, Zero, now)
  }

  // reset_dial_reading_
  function ResetReading(r: Room): Room {
    r.(shown := BLANK)
  }

  // publish_dial_
  function Publish(r: Room, stale: bool, now: nat): Room {
    if stale then r.(shown := r.shown.(stale := true))
    else
      var kept := r.(shown := r.shown.(stale := false, pubCc := r.shown.cc, pubMs := Clock(now)));
      if r.sel.src == SRC_LINK then Fire(kept, Centi(r.shown.cc), now) else kept
  }

  // room_source_project_: what an id selects
  function Views(sources: seq<Source>, id: u64): (v: Selection)
    ensures v.id == id && v.ext < |sources|
  {
    var pin := MacOfId(id, NS_LINK);
    Selection(id, ExtIndex(sources, id), pin, if pin.Some? then SRC_LINK else SRC_INTERNAL)
  }

  // room_source_apply_: a change drops the reading on display and is told to the heat pump.
  function ApplySource(r: Room, id: u64, fire: bool, api: bool, now: nat): Room {
    if id == r.sel.id && r.sel.src != SRC_BLE then r.(sel := Views(r.sources, id))
    else
      var r1 := ExtFireAt(ResetReading(r), 0).(sel := Views(r.sources, id));
      var r2 := Noted(r1, Selected(ChoiceOf(r1)));
      if r.started && fire then SourceChanged(r2, api, now) else r2
  }

  // room_source_slot_
  predicate InSlot(bonded: seq<Mac>, id: u64) {
    exists k :: 0 <= k < |bonded| && MacId(NS_LINK, bonded[k]) == id
  }

  // The catalog lists the id.
  predicate Listed(r: Room, id: u64) {
    id == INTERNAL_ID || ExtIndex(r.sources, id) >= 0 || InSlot(r.bonded, id)
  }

  // What room_source_reconcile_ settles on: the retired automatic choice becomes the only Link there is, and what is no
  // longer listed becomes the heat pump.
  function Resolved(r: Room): u64 {
    if r.sel.id == AUTO_ID then if |r.bonded| == 1 then MacId(NS_LINK, r.bonded[0]) else INTERNAL_ID
    else if Listed(r, r.sel.id) then r.sel.id
    else INTERNAL_ID
  }

  // room_source_reconcile_
  function Reconcile(r: Room, fire: bool, api: bool, now: nat): Room {
    if Resolved(r) != r.sel.id then ApplySource(r, Resolved(r), fire, api, now)
    else
      var v := Views(r.sources, r.sel.id);
      r.(sel := if r.sel.src == SRC_BLE then v.(src := SRC_BLE) else v)
  }

  // room_source_set; current says whether the caller's catalog revision is the one in force.
  function SourceSet(r: Room, current: bool, id: u64, api: bool, now: nat): (Room, u8) {
    if !current then (r, SET_STALE_CATALOG)
    else if !Listed(r, id) then (r, SET_BAD_SOURCE)
    else (ApplySource(r, id, true, api, now), SET_OK)
  }

  // A frame with a room sensor's report: who sent it, what it reports, and an edit of the source if it carries one
  datatype Report = Report(mac: Mac, hasSensor: bool, cc: int, edit: Option<u8>)

  // The edit in room_sensor_feed
  function Edit(r: Room, p: Report, api: bool, now: nat): Room {
    if p.edit.None? || p.edit.value > SRC_LINK || r.sel.src == p.edit.value then r
    else if p.edit.value == SRC_BLE then
      Noted(ResetReading(r).(sel := Selection(INTERNAL_ID, -1, None, SRC_BLE)), Selected(Ble))
    else if p.edit.value == SRC_INTERNAL then ApplySource(r, INTERNAL_ID, true, api, now)
    else ApplySource(r, MacId(NS_LINK, p.mac), true, api, now)
  }

  // The reading becomes the one on display; another dial's is dropped first, with what was published of it.
  function Adopt(d: Display, p: Report, now: nat): Display {
    var kept := if d.mac != p.mac then BLANK.(mac := p.mac) else d;
    kept.(hasSensor := p.hasSensor, cc := p.cc, ms := Clock(now))
  }

  // Whether the reading on display is to be published: it changed, or it is time, or it had gone stale.
  predicate ToPublish(d: Display, now: nat) {
    d.cc != d.pubCc || d.pubMs == 0 || Since(Clock(now), d.pubMs) >= HEARTBEAT_MS || d.stale
  }

  // The reading in room_sensor_feed: another Link's is ignored while one is pinned, and one with no temperature only
  // says whether there is a sensor.
  function Take(r: Room, p: Report, now: nat): Room {
    if r.sel.pin.Some? && p.mac != r.sel.pin.value then r
    else if p.cc == CC_NA then
      if r.shown.mac == p.mac then r.(shown := r.shown.(hasSensor := p.hasSensor)) else r
    else
      var r1 := r.(shown := Adopt(r.shown, p, now));
      if ToPublish(r1.shown, now) then Publish(r1, false, now) else r1
  }

  // room_sensor_feed
  function Feed(r: Room, p: Report, api: bool, now: nat): Room {
    if !r.linkSensor then r
    else
      var r1 := Edit(r, p, api, now);
      Take(if p.cc == CC_NA then r1 else Noted(r1, Reported(p.mac, p.cc)), p, now)
  }

  // The external source's heartbeat in loop
  function Heartbeat(r: Room, api: bool, now: nat): Room
    requires r.sel.ext < |r.sources|
  {
    if r.sel.ext >= 0 && r.timers.extFire != 0 && r.sources[r.sel.ext].last.Some?
       && Since(Clock(now), r.timers.extFire) >= HEARTBEAT_MS && api then
      ExtFireAt(Fire(r, Degrees(r.sources[r.sel.ext].last.value), now), now)
    else r
  }

  // The stale edge in loop
  function StaleEdge(r: Room, now: nat): Room {
    if r.linkSensor && Since(Clock(now), r.timers.check) >= 1000 then
      var r1 := r.(timers := r.timers.(check := Clock(now)));
      if !r1.shown.stale && r1.shown.ms != 0 && Since(Clock(now), r1.shown.ms) >= r1.staleMs then Publish(r1, true, now) else r1
    else r
  }

  // The once-a-second reconciliation in loop
  function Tidy(r: Room, api: bool, now: nat): Room {
    if Since(Clock(now), r.timers.reconcile) >= 1000 then Reconcile(r.(timers := r.timers.(reconcile := Clock(now))), true, api, now) else r
  }

  // loop, as far as the room source goes
  function Pass(r: Room, api: bool, now: nat): Room
    requires r.sel.ext < |r.sources|
  {
    var r1 := Heartbeat(r, api, now);
    if r.started then Tidy(StaleEdge(r1, now), api, now) else r1
  }

  // The id at a place of the dropdown: the heat pump, then the declared sources, then the bond slots.
  function Picked(r: Room, index: nat): Option<u64> {
    if index == 0 then Some(INTERNAL_ID)
    else if index <= |r.sources| then Some(r.sources[index - 1].id)
    else if index - |r.sources| - 1 < |r.bonded| then Some(MacId(NS_LINK, r.bonded[index - |r.sources| - 1]))
    else None
  }

  // room_source_select_control
  function Choose(r: Room, index: nat, api: bool, now: nat): Room {
    var id := Picked(r, index);
    if id.Some? then ApplySource(r, id.value, true, api, now) else r
  }

  // The end of the component's start: the bond table is there, the stored selection is settled without firing.
  function StartUp(r: Room, bonded: seq<Mac>, api: bool, now: nat): Room {
    if r.started then r else Reconcile(r.(bonded := bonded, started := true), false, api, now)
  }
}
