// The room-source part of the component, its fields updated in place. Every method is proved to be the
// specification's step on the whole state.
module RoomArbiter {
  import opened Words
  import opened Bonds
  import opened LinkState
  import opened RoomIds
  import opened RoomSource
  import opened RoomFeed

  class Arbiter {
    const linkSensor: bool
    const staleMs: u32
    var started: bool
    var bonded: seq<Mac>
    const sources: array<Source>
    var shown: Display
    var sel: Selection
    var timers: Timers
    ghost var log: seq<Note>

    ghost function View(): Room
      reads this, sources
    {
      Room(linkSensor, staleMs, started, bonded, sources[..], shown, sel, timers, log)
    }

    ghost predicate Valid()
      reads this, sources
    {
      Good(View())
    }

    // A component set up with its declared sources and the stored selection; the coarse view is the stored one when that
    // is the BLE choice.
    constructor (linkSensor: bool, staleMs: u32, sources: array<Source>, id: u64, ble: bool)
      requires Declared(sources[..]) && forall i :: 0 <= i < sources.Length ==> sources[i].last.None?
      ensures Valid() && !started && this.sources == sources
      ensures sel == if ble then Views(sources[..], id).(src := SRC_BLE) else Views(sources[..], id)
    {
      this.linkSensor, this.staleMs, this.sources := linkSensor, staleMs, sources;
      started, bonded, shown, timers := false, [], BLANK, Timers(0, 0, 0);
      sel := Selection(id, -1, None, SRC_INTERNAL);
      new;
      Project(id);
      if ble {
        sel := sel.(src := SRC_BLE);
      }
      log := [Restored(ChoiceOf(View()))];
      SetUpGood(View());
    }

    // ext_index_
    method ExtIndexOf(id: u64) returns (i: int)
      ensures i == ExtIndex(sources[..], id)
    {
      hide ExtIndex;
      for k := 0 to sources.Length
        invariant forall j :: 0 <= j < k ==> sources[j].id != id
      {
        if sources[k].id == id {
          FirstIndex(sources[..], k, id);
          return k;
        }
      }
      return -1;
    }

    // fire_room_temperature_
    method Fire(t: Temp, now: nat)
      modifies this`log
      ensures View() == RoomSource.Fire(old(View()), t, now)
    {
      log := log + [Fired(t, now)];
    }

    // room_src_status_
    method StatusNow(api: bool, now: nat) returns (status: u8)
      requires sel.ext < sources.Length
      ensures status == Status(View(), api, now)
    {
      if sel.ext >= 0 {
        var e := sources[sel.ext];
        if e.lastMs == 0 {
          return ST_UNAVAILABLE;
        }
        return if e.last.Some? && api then ST_OK else ST_STALE;
      }
      if sel.src == SRC_LINK {
        if sel.pin != Some(shown.mac) || !shown.hasSensor || shown.ms == 0 {
          return ST_UNAVAILABLE;
        }
        return if Since(Clock(now), shown.ms) >= staleMs then ST_STALE else ST_OK;
      }
      status := if sel.src == SRC_BLE then ST_UNAVAILABLE else ST_OK;
    }

    // ext_state_
    method ExtState(idx: nat, v: Option<int>, now: nat)
      requires idx < sources.Length && Valid()
      modifies this`log, this`timers, sources
      ensures Valid() && View() == RoomSource.ExtState(old(View()), idx, v, now)
    {
      hide Good;
      ExtStateGood(View(), idx, v, now);
      ghost var was := sources[..];
      sources[idx] := sources[idx].(last := v);
      log := log + [Heard(idx, v)];
      if v.None? {
        assert sources[..] == was[idx := Source(was[idx].id, v, was[idx].lastMs)];
        return;
      }
      sources[idx] := sources[idx].(lastMs := Clock(now));
      assert sources[..] == was[idx := Source(was[idx].id, v, Clock(now))];
      if sel.ext == idx {
        Fire(Degrees(v.value), now);
        timers := timers.(extFire := Clock(now));
      }
    }

    // room_source_changed_
    method SourceChanged(api: bool, now: nat)
      requires sel.ext < sources.Length
      modifies this`log, this`timers
      ensures View() == RoomSource.SourceChanged(old(View()), api, now)
    {
      hide Status;
      var status := StatusNow(api, now);
      if sel.ext >= 0 {
        if status == ST_OK && sources[sel.ext].last.Some? {
          Fire(Degrees(sources[sel.ext].last.value), now);
          timers := timers.(extFire := Clock(now));
        }
      } else if sel.pin.Some? {
        if status == ST_OK {
          Fire(Centi(shown.cc), now);
        }
      } else {
        Fire(Zero, now);
      }
    }

    // reset_dial_reading_
    method ResetReading()
      modifies this`shown, this`log
      ensures View() == RoomSource.ResetReading(old(View()))
    {
      if shown.ms != 0 && !shown.stale {
        Publish(true, 0);
      }
      shown := shown.(cc := CC_NA, ms := 0, hasSensor := false, mac := NO_MAC);
      shown := shown.(pubCc := CC_NA, pubMs := 0, stale := false);
    }

    // publish_dial_
    method Publish(isStale: bool, now: nat)
      modifies this`shown, this`log
      ensures View() == RoomSource.Publish(old(View()), isStale, now)
    {
      shown := shown.(stale := isStale);
      if isStale {
        return;
      }
      shown := shown.(pubCc := shown.cc, pubMs := Clock(now));
      if sel.src == SRC_LINK {
        Fire(Centi(shown.cc), now);
      }
    }

    // room_source_project_
    method Project(id: u64)
      modifies this`sel
      ensures View() == old(View()).(sel := Views(sources[..], id))
    {
      var ext := ExtIndexOf(id);
      var pin := ReadId(id, NS_LINK);
      sel := Selection(id, ext, pin, if pin.Some? then SRC_LINK else SRC_INTERNAL);
    }

    // room_source_apply_
    method ApplySource(id: u64, fire: bool, api: bool, now: nat)
      requires Fit(View()) && Named(sources[..], id) && (fire ==> Valid())
      modifies this
      ensures Valid() && View() == RoomSource.ApplySource(old(View()), id, fire, api, now)
    {
      hide Good, Fit, Named, Views, RoomSource.SourceChanged, RoomSource.ResetReading;
      ApplyGood(View(), id, fire, api, now);
      var changed := id != sel.id || sel.src == SRC_BLE;
      if changed {
        ResetReading();
        timers := timers.(extFire := 0);
        ResetRest(old(View()));
      }
      Project(id);
      if changed {
        log := log + [Selected(ChoiceOf(View()))];
        if started && fire {
          SourceChanged(api, now);
        }
      }
    }

    // room_source_slot_
    method SlotOf(id: u64) returns (found: bool)
      ensures found <==> InSlot(bonded, id)
    {
      for k := 0 to |bonded|
        invariant forall j :: 0 <= j < k ==> MacId(NS_LINK, bonded[j]) != id
      {
        var slot := WriteId(NS_LINK, bonded[k]);
        if slot == id {
          return true;
        }
      }
      found := false;
    }

    // Whether the catalog lists the id
    method IsListed(id: u64) returns (listed: bool)
      ensures listed <==> Listed(View(), id)
    {
      if id == INTERNAL_ID {
        return true;
      }
      var i := ExtIndexOf(id);
      if i >= 0 {
        return true;
      }
      listed := SlotOf(id);
    }

    // The id room_source_reconcile_ settles on
    method Settle() returns (id: u64)
      ensures id == Resolved(View())
    {
      id := sel.id;
      if id == AUTO_ID {
        if |bonded| == 1 {
          id := WriteId(NS_LINK, bonded[0]);
        } else {
          id := INTERNAL_ID;
        }
      } else {
        var listed := IsListed(id);
        if !listed {
          id := INTERNAL_ID;
        }
      }
    }

    // room_source_reconcile_
    method Reconcile(fire: bool, api: bool, now: nat)
      requires Fit(View()) && (fire ==> Valid())
      modifies this
      ensures Valid() && View() == RoomSource.Reconcile(old(View()), fire, api, now)
    {
      hide Good, Fit, Named, RoomSource.ApplySource, Resolved, Views;
      ReconcileGood(View(), fire, api, now);
      ResolvedNamed(View());
      var id := Settle();
      if id != sel.id {
        ApplySource(id, fire, api, now);
      } else {
        var coarse := sel.src;
        Project(id);
        if coarse == SRC_BLE {
          sel := sel.(src := SRC_BLE);
        }
      }
    }

    // room_source_set
    method SourceSet(current: bool, id: u64, api: bool, now: nat) returns (result: u8)
      requires Valid()
      modifies this
      ensures Valid() && (View(), result) == RoomSource.SourceSet(old(View()), current, id, api, now)
    {
      hide Good, Fit, Named, RoomSource.ApplySource, Listed;
      GoodFit(View());
      if !current {
        return SET_STALE_CATALOG;
      }
      var listed := IsListed(id);
      if !listed {
        return SET_BAD_SOURCE;
      }
      ListedNamed(View(), id);
      ApplySource(id, true, api, now);
      result := SET_OK;
    }

    // The edit in room_sensor_feed
    method Edit(p: Report, api: bool, now: nat)
      requires Valid()
      modifies this
      ensures Valid() && View() == RoomSource.Edit(old(View()), p, api, now)
    {
      hide Good, Fit, Named, RoomSource.ApplySource, MacId;
      EditGood(View(), p, api, now);
      GoodFit(View());
      LinkNamed(sources[..], p.mac);
      if p.edit.None? || p.edit.value > SRC_LINK || sel.src == p.edit.value {
        return;
      }
      if p.edit.value == SRC_BLE {
        ResetReading();
        sel := Selection(INTERNAL_ID, -1, None, SRC_BLE);
        log := log + [Selected(Ble)];
      } else if p.edit.value == SRC_INTERNAL {
        ApplySource(INTERNAL_ID, true, api, now);
      } else {
        var mine := WriteId(NS_LINK, p.mac);
        ApplySource(mine, true, api, now);
      }
    }

    // The reading in room_sensor_feed
    method Take(p: Report, now: nat)
      modifies this`shown, this`log
      ensures View() == RoomSource.Take(old(View()), p, now)
    {
      hide RoomSource.Publish;
      if sel.pin.Some? && p.mac != sel.pin.value {
        return;
      }
      ghost var d := shown;
      if shown.mac == p.mac {
        shown := shown.(hasSensor := p.hasSensor);
      }
      if p.cc == CC_NA {
        return;
      }
      if shown.mac != p.mac {
        ResetReading();
        shown := shown.(mac := p.mac);
      }
      shown := shown.(hasSensor := p.hasSensor, cc := p.cc, ms := Clock(now));
      assert shown == Adopt(d, p, now);
      hide Adopt;
      if ToPublish(shown, now) {
        Publish(false, now);
      }
    }

    // room_sensor_feed
    method Feed(p: Report, api: bool, now: nat)
      requires Valid()
      modifies this
      ensures Valid() && View() == RoomSource.Feed(old(View()), p, api, now)
    {
      hide Good, RoomSource.Edit, RoomSource.Take;
      FeedGood(View(), p, api, now);
      if !linkSensor {
        return;
      }
      Edit(p, api, now);
      SameConfig(old(View()), p, api, now);
      if p.cc != CC_NA {
        log := log + [Reported(p.mac, p.cc)];
      }
      Take(p, now);
    }

    // The external source's heartbeat in loop
    method Heartbeat(api: bool, now: nat)
      requires Valid() && sel.ext < sources.Length
      modifies this`log, this`timers
      ensures Valid() && View() == RoomSource.Heartbeat(old(View()), api, now)
    {
      hide Good;
      HeartbeatGood(View(), api, now);
      if sel.ext >= 0 && timers.extFire != 0 && sources[sel.ext].last.Some? && Since(Clock(now), timers.extFire) >= HEARTBEAT_MS && api {
        Fire(Degrees(sources[sel.ext].last.value), now);
        timers := timers.(extFire := Clock(now));
      }
    }

    // The stale edge in loop
    method StaleEdge(now: nat)
      requires Valid()
      modifies this`timers, this`shown, this`log
      ensures Valid() && View() == RoomSource.StaleEdge(old(View()), now)
    {
      hide Good;
      EdgeGood(View(), now);
      if linkSensor && Since(Clock(now), timers.check) >= 1000 {
        timers := timers.(check := Clock(now));
        if !shown.stale && shown.ms != 0 && Since(Clock(now), shown.ms) >= staleMs {
          Publish(true, now);
        }
      }
    }

    // The once-a-second reconciliation in loop
    method Tidy(api: bool, now: nat)
      requires Valid()
      modifies this
      ensures Valid() && View() == RoomSource.Tidy(old(View()), api, now)
    {
      hide Good, RoomSource.Reconcile;
      if Since(Clock(now), timers.reconcile) >= 1000 {
        timers := timers.(reconcile := Clock(now));
        GoodFit(old(View()));
        SameGood(old(View()), View());
        GoodFit(View());
        Reconcile(true, api, now);
      }
    }

    // loop, as far as the room source goes
    method Pass(api: bool, now: nat)
      requires Valid() && sel.ext < sources.Length
      modifies this
      ensures Valid() && View() == RoomSource.Pass(old(View()), api, now)
    {
      hide Good, RoomSource.Heartbeat, RoomSource.StaleEdge, RoomSource.Tidy;
      HeartbeatStarted(View(), api, now);
      Heartbeat(api, now);
      if !started {
        return;
      }
      StaleEdge(now);
      Tidy(api, now);
    }

    // room_source_select_control
    method Choose(index: nat, api: bool, now: nat)
      requires Valid()
      modifies this
      ensures Valid() && View() == RoomSource.Choose(old(View()), index, api, now)
    {
      hide Good, Fit, Named, RoomSource.ApplySource, MacId;
      GoodFit(View());
      PickNamed(View(), index);
      var id := INTERNAL_ID;
      if 1 <= index <= sources.Length {
        id := sources[index - 1].id;
      } else if index > sources.Length {
        var slot := index - sources.Length - 1;
        if slot >= |bonded| {
          return;
        }
        id := WriteId(NS_LINK, bonded[slot]);
      }
      ApplySource(id, true, api, now);
    }

    // The core's bond table changed.
    method SetBonds(table: seq<Mac>)
      requires Valid()
      modifies this`bonded
      ensures Valid() && View() == old(View()).(bonded := table)
    {
      hide Good;
      bonded := table;
      SameGood(old(View()), View());
    }

    // The core is up.
    method StartUp(table: seq<Mac>, api: bool, now: nat)
      requires Valid()
      modifies this
      ensures Valid() && View() == RoomSource.StartUp(old(View()), table, api, now)
    {
      hide Good, Fit, RoomSource.Reconcile;
      GoodFit(View());
      if started {
        return;
      }
      started := true;
      bonded := table;
      SameTold(old(View()), View());
      Reconcile(false, api, now);
    }

    // A choice of the source, or news of the bond table
    method Steer(s: RoomFeed.Step)
      requires Valid() && sel.ext < sources.Length && (s.op.Set? || s.op.Pick? || s.op.Bonds? || s.op.Start?)
      modifies this
      ensures Valid() && View() == RoomFeed.Apply(old(View()), s)
    {
      hide Good, RoomSource.SourceSet, RoomSource.Choose, RoomSource.StartUp;
      match s.op
      case Set(current, id) => var result := SourceSet(current, id, s.api, s.now);
      case Pick(index) => Choose(index, s.api, s.now);
      case Bonds(table) => SetBonds(table);
      case Start(table) => StartUp(table, s.api, s.now);
    }

    // Whatever happens, the object takes the step the runs are made of.
    method Call(s: RoomFeed.Step)
      requires Valid()
      modifies this, sources
      ensures old(View()).sel.ext < sources.Length
      ensures Valid() && View() == RoomFeed.Apply(old(View()), s)
    {
      hide Good, RoomFeed.Apply;
      GoodExt(View());
      if s.op.Hear? {
        HearStep(View(), s);
        if s.op.idx < sources.Length {
          ExtState(s.op.idx, s.op.reading, s.now);
        }
      } else if s.op.Frame? {
        FrameStep(View(), s);
        Feed(s.op.report, s.api, s.now);
      } else if s.op.Loop? {
        FrameStep(View(), s);
        Pass(s.api, s.now);
      } else {
        Steer(s);
      }
    }
  }

  lemma HearStep(r: Room, s: RoomFeed.Step)
    requires s.op.Hear? && r.sel.ext < |r.sources|
    ensures RoomFeed.Apply(r, s)
            == if s.op.idx < |r.sources| then RoomSource.ExtState(r, s.op.idx, s.op.reading, s.now) else r
  {
  }

  lemma FrameStep(r: Room, s: RoomFeed.Step)
    requires r.sel.ext < |r.sources|
    ensures s.op.Frame? ==> RoomFeed.Apply(r, s) == RoomSource.Feed(r, s.op.report, s.api, s.now)
    ensures s.op.Loop? ==> RoomFeed.Apply(r, s) == RoomSource.Pass(r, s.api, s.now)
  {
  }

  lemma FirstIndex(sources: seq<Source>, k: nat, id: u64)
    requires k < |sources| && sources[k].id == id && forall j :: 0 <= j < k ==> sources[j].id != id
    ensures ExtIndex(sources, id) == k
  {
    hide ExtIndex;
  }

  lemma ResetRest(r: Room)
    ensures var s := RoomSource.ResetReading(r);
            s.sources == r.sources && s.started == r.started && s.timers == r.timers
  {
  }

  lemma SameConfig(r: Room, p: Report, api: bool, now: nat)
    ensures RoomSource.Edit(r, p, api, now).linkSensor == r.linkSensor
  {
    hide Views, MacId;
  }

  lemma HeartbeatStarted(r: Room, api: bool, now: nat)
    requires r.sel.ext < |r.sources|
    ensures RoomSource.Heartbeat(r, api, now).started == r.started
  {
  }
}
