// How fresh the selected external source's value is with the heat pump, over whole runs.
module RoomBeat {
  import opened Words
  import opened Bonds
  import opened LinkState
  import opened RoomIds
  import opened RoomSource
  import opened RoomFeed
  import opened RoomStory

  // When something was last fired for the present selection, if anything was
  function LastFire(log: seq<Note>): Option<nat>
    decreases |log|
  {
    if log == [] then None
    else
      var n := log[|log| - 1];
      if n.Fired? then Some(n.at) else if Selects(n) then None else LastFire(log[..|log| - 1])
  }

  lemma LastMore(log: seq<Note>, n: Note)
    ensures LastFire(log + [n]) == if n.Fired? then Some(n.at) else if Selects(n) then None else LastFire(log)
  {
    assert (log + [n])[..|log|] == log;
  }

  // The heartbeat's timer is the time of that, as the component's clock shows it, and 0 for nothing.
  predicate Beats(r: Room) {
    r.sel.ext >= 0 ==> r.timers.extFire == if LastFire(r.log).Some? then Clock(LastFire(r.log).value) else 0
  }

  // A step fires now, or nothing new; while the external selection stands, now exactly if told.
  predicate Moves(r: Room, a: Room, now: nat, fires: bool) {
    && Beats(a)
    && (LastFire(a.log) == LastFire(r.log) || LastFire(a.log) == None || LastFire(a.log) == Some(now))
    && (a.sel == r.sel && r.sel.ext >= 0 ==> LastFire(a.log) == if fires then Some(now) else LastFire(r.log))
  }

  lemma SameMoves(r: Room, a: Room, now: nat)
    requires Beats(r) && a.log == r.log && a.sel == r.sel && a.timers.extFire == r.timers.extFire
    ensures Moves(r, a, now, false)
  {
    hide LastFire, Clock;
  }

  lemma NotedSame(r: Room, n: Note)
    requires !n.Fired? && !Selects(n)
    ensures LastFire(Noted(r, n).log) == LastFire(r.log)
  {
    LastMore(r.log, n);
  }

  lemma HearMoves(r: Room, idx: nat, v: Option<int>, now: nat)
    requires Beats(r) && idx < |r.sources|
    ensures Moves(r, ExtState(r, idx, v, now), now, v.Some? && r.sel.ext == idx)
  {
    hide LastFire, Clock;
    NotedSame(r, Heard(idx, v));
    if v.Some? {
      LastMore(r.log + [Heard(idx, v)], Fired(Degrees(v.value), now));
    }
  }

  lemma AnnounceMoves(r: Room, api: bool, now: nat)
    requires r.sel.ext < |r.sources| && LastFire(r.log).None? && r.timers.extFire == 0
    ensures var a := SourceChanged(r, api, now);
            Beats(a) && LastFire(a.log) in {None, Some(now)} && a.sel == r.sel
  {
    hide LastFire, Clock, Status;
    if r.sel.ext >= 0 && r.sources[r.sel.ext].last.Some? {
      LastMore(r.log, Fired(Degrees(r.sources[r.sel.ext].last.value), now));
    }
    LastMore(r.log, Fired(Centi(r.shown.cc), now));
    LastMore(r.log, Fired(Zero, now));
  }

  lemma ApplyMoves(r: Room, id: u64, fire: bool, api: bool, now: nat)
    requires Beats(r) && Fit(r)
    ensures Moves(r, ApplySource(r, id, fire, api, now), now, false)
  {
    hide LastFire, Watch, Bytes, ExtIndex, MacOfId, SourceChanged, Told;
    if id == r.sel.id && r.sel.src != SRC_BLE {
      SameMoves(r, ApplySource(r, id, fire, api, now), now);
    } else {
      var r1 := ExtFireAt(ResetReading(r), 0).(sel := Views(r.sources, id));
      LastMore(r1.log, Selected(ChoiceOf(r1)));
      AnnounceMoves(Noted(r1, Selected(ChoiceOf(r1))), api, now);
    }
  }

  lemma ReconcileMoves(r: Room, fire: bool, api: bool, now: nat)
    requires Beats(r) && Fit(r)
    ensures Moves(r, Reconcile(r, fire, api, now), now, false)
  {
    hide LastFire, Fit, ApplySource, Resolved, Moves, Views;
    Reprojected(r);
    ApplyMoves(r, Resolved(r), fire, api, now);
    SameMoves(r, r, now);
  }

  lemma EditMoves(r: Room, p: Report, api: bool, now: nat)
    requires Beats(r) && Good(r)
    ensures Moves(r, Edit(r, p, api, now), now, false)
  {
    hide LastFire, Good, Fit, ApplySource, MacId;
    GoodFit(r);
    ApplyMoves(r, INTERNAL_ID, true, api, now);
    ApplyMoves(r, MacId(NS_LINK, p.mac), true, api, now);
    LastMore(r.log, Selected(Ble));
  }

  // A dial's reading is not fired while an external source is selected.
  lemma TakeMoves(r: Room, p: Report, now: nat)
    requires Beats(r) && Good(r)
    ensures Moves(r, Take(r, p, now), now, false)
  {
    hide LastFire, Good, Adopt, ToPublish, Watch, Clock;
    if r.sel.src == SRC_LINK {
      LinkChosen(r);
    }
    LastMore(r.log, Fired(Centi(p.cc), now));
    AdoptCc(r.shown, p, now);
  }

  lemma AdoptCc(d: Display, p: Report, now: nat)
    ensures Adopt(d, p, now).cc == p.cc
  {
  }

  // An edit that changes the selection does not change it back with the reading in the same frame.
  lemma FeedMoves(r: Room, p: Report, api: bool, now: nat)
    requires Beats(r) && Good(r)
    ensures Moves(r, Feed(r, p, api, now), now, false)
  {
    hide LastFire, Good, Edit, Take;
    EditGood(r, p, api, now);
    EditMoves(r, p, api, now);
    SameMoves(r, r, now);
    var r1 := Edit(r, p, api, now);
    var r2 := if p.cc == CC_NA then r1 else Noted(r1, Reported(p.mac, p.cc));
    if p.cc != CC_NA {
      ReportedGood(r1, p);
      NotedSame(r1, Reported(p.mac, p.cc));
    }
    TakeKeeps(r2, p, now);
    TakeMoves(r2, p, now);
  }

  lemma TakeKeeps(r: Room, p: Report, now: nat)
    ensures Take(r, p, now).sel == r.sel
  {
  }

  // The heartbeat is due again.
  predicate Due(r: Room, api: bool, now: nat)
    requires r.sel.ext < |r.sources|
  {
    var last := LastFire(r.log);
    && r.sel.ext >= 0 && last.Some? && Clock(last.value) != 0 && Since(Clock(now), Clock(last.value)) >= HEARTBEAT_MS
    && r.sources[r.sel.ext].last.Some? && api
  }

  lemma BeatMoves(r: Room, api: bool, now: nat)
    requires Beats(r) && r.sel.ext < |r.sources|
    ensures var a := Heartbeat(r, api, now);
            Moves(r, a, now, Due(r, api, now)) && a.sel == r.sel
  {
    hide LastFire, Clock, Since;
    if r.sel.ext >= 0 && r.sources[r.sel.ext].last.Some? {
      LastMore(r.log, Fired(Degrees(r.sources[r.sel.ext].last.value), now));
    }
  }

  lemma EdgeMoves(r: Room, now: nat)
    requires Beats(r)
    ensures Moves(r, StaleEdge(r, now), now, false) && StaleEdge(r, now).sel == r.sel
  {
    hide LastFire, Clock, Since;
  }

  lemma TidyMoves(r: Room, api: bool, now: nat)
    requires Beats(r) && Good(r)
    ensures Moves(r, Tidy(r, api, now), now, false)
  {
    hide LastFire, Good, Fit, Reconcile, Clock;
    var m := r.(timers := r.timers.(reconcile := Clock(now)));
    SameGood(r, m);
    GoodFit(m);
    ReconcileMoves(m, true, api, now);
    SameMoves(r, r, now);
  }

  lemma PassMoves(r: Room, api: bool, now: nat)
    requires Beats(r) && Good(r) && r.sel.ext < |r.sources|
    ensures Moves(r, Pass(r, api, now), now, Due(r, api, now))
  {
    hide LastFire, Good, Heartbeat, StaleEdge, Tidy, Due, Beats;
    BeatMoves(r, api, now);
    HeartbeatGood(r, api, now);
    var h := Heartbeat(r, api, now);
    EdgeMoves(h, now);
    EdgeGood(h, now);
    var e := StaleEdge(h, now);
    TidyMoves(e, api, now);
  }

  lemma StartMoves(r: Room, bonded: seq<Mac>, api: bool, now: nat)
    requires Beats(r) && Good(r)
    ensures Moves(r, StartUp(r, bonded, api, now), now, false)
  {
    hide LastFire, Good, Fit, Reconcile;
    GoodFit(r);
    SameTold(r, r.(bonded := bonded, started := true));
    SameMoves(r, r, now);
    ReconcileMoves(r.(bonded := bonded, started := true), false, api, now);
  }

  lemma PickMoves(r: Room, index: nat, api: bool, now: nat)
    requires Beats(r) && Good(r)
    ensures Moves(r, Choose(r, index, api, now), now, false)
  {
    hide LastFire, Good, Fit, ApplySource, Picked, Moves;
    GoodFit(r);
    SameMoves(r, r, now);
    if Picked(r, index).Some? {
      ApplyMoves(r, Picked(r, index).value, true, api, now);
    }
  }

  // What makes a step fire for the external source that stays selected: a reading of it, or a heartbeat that is due
  predicate Fires(r: Room, s: Step)
    requires r.sel.ext < |r.sources|
  {
    match s.op
    case Hear(idx, reading) => reading.Some? && r.sel.ext == idx
    case Loop => Due(r, s.api, s.now)
    case _ => false
  }

  lemma StepMoves(r: Room, s: Step)
    requires Beats(r) && Good(r) && r.sel.ext < |r.sources|
    ensures Moves(r, Apply(r, s), s.now, Fires(r, s))
  {
    hide LastFire, Good, Fit, ExtState, Feed, ApplySource, Choose, Pass, StartUp, Listed, Due;
    GoodFit(r);
    SameMoves(r, r, s.now);
    match s.op
    case Hear(idx, reading) =>
      if idx < |r.sources| {
        HearMoves(r, idx, reading, s.now);
      }
    case Frame(report) => FeedMoves(r, report, s.api, s.now);
    case Set(current, id) => ApplyMoves(r, id, true, s.api, s.now);
    case Pick(index) => PickMoves(r, index, s.api, s.now);
    case Loop => PassMoves(r, s.api, s.now);
    case Bonds(bonded) =>
    case Start(bonded) => StartMoves(r, bonded, s.api, s.now);
  }

  // --- Over whole runs ---

  // The clock never runs back.
  predicate Ordered(steps: seq<Step>, t: nat)
    decreases |steps|
  {
    steps != [] ==> t <= steps[0].now && Ordered(steps[1..], steps[0].now)
  }

  function End(steps: seq<Step>, t: nat): nat
    decreases |steps|
  {
    if steps == [] then t else End(steps[1..], steps[0].now)
  }

  lemma {:induction false} RunBeats(r: Room, steps: seq<Step>, t: nat)
    requires Good(r) && Beats(r) && Ordered(steps, t) && (LastFire(r.log).Some? ==> LastFire(r.log).value <= t)
    ensures var a := Run(r, steps);
            Beats(a) && (LastFire(a.log).Some? ==> LastFire(a.log).value <= End(steps, t))
    decreases |steps|
  {
    hide Good, Apply, LastFire, Beats;
    if steps != [] {
      GoodExt(r);
      ApplyStepGood(r, steps[0]);
      StepMoves(r, steps[0]);
      RunBeats(Apply(r, steps[0]), steps[1..], steps[0].now);
    }
  }

  // Something was fired for the present selection less than 30 s ago.
  predicate Fresh(r: Room, now: nat) {
    LastFire(r.log).Some? && now - LastFire(r.log).value < 30000
  }

  // The exact condition, in any state a run can reach in which an external source is selected. A pass of the loop
  // leaves its value fresh if and only if something was fired since the selection and either that is less than 30 s ago,
  // or it was not at a reading 0 of the clock, a whole number of wraps does not hide its age, the source has not
  // withdrawn its reading, and it can be heard from.
  lemma FreshExactly(r0: Room, steps: seq<Step>, t0: nat, api: bool, now: nat)
    requires Good(r0) && Beats(r0) && Ordered(steps, t0) && (LastFire(r0.log).Some? ==> LastFire(r0.log).value <= t0)
    requires End(steps, t0) <= now
    requires var r := Run(r0, steps);
             0 <= r.sel.ext < |r.sources|
    ensures var r := Run(r0, steps);
            Fresh(Pass(r, api, now), now) <==> Fresh(r, now) || Due(r, api, now)
  {
    hide Good, Run, Pass, LastFire, Due, Beats;
    RunBeats(r0, steps, t0);
    var r := Run(r0, steps);
    PassMoves(r, api, now);
    PassStands(r, api, now);
  }

  // Adds these notes, and leaves the sources as they are
  predicate Adds(r: Room, a: Room, notes: seq<Note>) {
    a.log == r.log + notes && a.sources == r.sources
  }

  // A pass leaves an external selection alone: a declared source is always listed.
  lemma PassStands(r: Room, api: bool, now: nat)
    requires Good(r) && 0 <= r.sel.ext < |r.sources|
    ensures Pass(r, api, now).sel == r.sel
  {
    hide Good, Heartbeat, StaleEdge, Tidy;
    var h := Heartbeat(r, api, now);
    var e := StaleEdge(h, now);
    HeartbeatGood(r, api, now);
    EdgeGood(h, now);
    HeartbeatLeaves(r, api, now);
    EdgeAdds(h, now);
    TidyStands(e, api, now);
  }

  lemma HeartbeatLeaves(r: Room, api: bool, now: nat)
    requires r.sel.ext < |r.sources|
    ensures Heartbeat(r, api, now).sel == r.sel && Heartbeat(r, api, now).sources == r.sources
  {
  }

  lemma EdgeAdds(r: Room, now: nat)
    ensures Adds(r, StaleEdge(r, now), []) && StaleEdge(r, now).sel == r.sel
  {
    hide Clock, Since;
  }

  lemma TidyStands(r: Room, api: bool, now: nat)
    requires Good(r) && r.sel.ext >= 0
    ensures Tidy(r, api, now).sel == r.sel
  {
    hide Good, Fit, Reconcile, Clock, Since;
    var m := r.(timers := r.timers.(reconcile := Clock(now)));
    GoodFit(r);
    SameTold(r, m);
    SourceStands(m, true, api, now);
  }

  lemma SourceStands(r: Room, fire: bool, api: bool, now: nat)
    requires Fit(r) && r.sel.ext >= 0
    ensures Reconcile(r, fire, api, now).sel == r.sel
  {
    hide Bytes, MacOfId, ExtIndex, Told, ApplySource;
    Reprojected(r);
    AutoBytes();
    assert Bytes(r.sources[r.sel.ext].id)[0] == 4;
  }

  // --- What a step fires ---

  // The values fired among these notes
  function Firings(notes: seq<Note>): seq<Note> {
    if notes == [] then [] else (if notes[0].Fired? then [notes[0]] else []) + Firings(notes[1..])
  }

  // What a step adds to the history while the external selection stands
  function Notes(r: Room, s: Step): seq<Note>
    requires 0 <= r.sel.ext < |r.sources|
  {
    match s.op
    case Hear(idx, reading) =>
      if idx >= |r.sources| then []
      else [Heard(idx, reading)] + if Fires(r, s) then [Fired(Degrees(reading.value), s.now)] else []
    case Frame(report) => if r.linkSensor && report.cc != CC_NA then [Reported(report.mac, report.cc)] else []
    case Loop => if Fires(r, s) then [Fired(Degrees(r.sources[r.sel.ext].last.value), s.now)] else []
    case _ => []
  }

  lemma ApplyAdds(r: Room, id: u64, fire: bool, api: bool, now: nat)
    ensures var a := ApplySource(r, id, fire, api, now);
            a.sources == r.sources && (a.sel == r.sel ==> Adds(r, a, []))
  {
    hide ApplySource, ExtIndex, MacOfId;
    Announced(r, id, fire, api, now);
  }

  lemma ReconcileAdds(r: Room, fire: bool, api: bool, now: nat)
    ensures var a := Reconcile(r, fire, api, now);
            a.sources == r.sources && (a.sel == r.sel ==> Adds(r, a, []))
  {
    hide ApplySource, ExtIndex, MacOfId, Resolved;
    ApplyAdds(r, Resolved(r), fire, api, now);
    Announced(r, Resolved(r), fire, api, now);
  }

  lemma EditAdds(r: Room, p: Report, api: bool, now: nat)
    requires r.sel.ext >= 0
    ensures var a := Edit(r, p, api, now);
            a.sources == r.sources && (a.sel == r.sel ==> Adds(r, a, []))
  {
    hide ApplySource, MacId;
    ApplyAdds(r, INTERNAL_ID, true, api, now);
    ApplyAdds(r, MacId(NS_LINK, p.mac), true, api, now);
  }

  // A dial's reading is not fired while an external source is selected.
  lemma TakeAdds(r: Room, p: Report, now: nat)
    requires Good(r) && r.sel.ext >= 0
    ensures Adds(r, Take(r, p, now), []) && Take(r, p, now).sel == r.sel
  {
    hide Good, Adopt, ToPublish, Watch;
    if r.sel.src == SRC_LINK {
      LinkChosen(r);
    }
  }

  lemma FeedAdds(r: Room, p: Report, api: bool, now: nat)
    requires Good(r) && 0 <= r.sel.ext < |r.sources|
    ensures var a := Feed(r, p, api, now);
            a.sel == r.sel ==> Adds(r, a, if r.linkSensor && p.cc != CC_NA then [Reported(p.mac, p.cc)] else [])
  {
    hide Good, Edit, Take, Watch;
    EditGood(r, p, api, now);
    EditAdds(r, p, api, now);
    var r1 := Edit(r, p, api, now);
    var r2 := if p.cc == CC_NA then r1 else Noted(r1, Reported(p.mac, p.cc));
    if p.cc != CC_NA {
      ReportedGood(r1, p);
    }
    TakeKeeps(r2, p, now);
    if r1.sel == r.sel {
      TakeAdds(r2, p, now);
    }
  }

  lemma PassAdds(r: Room, api: bool, now: nat)
    requires Beats(r) && Good(r) && 0 <= r.sel.ext < |r.sources|
    ensures Adds(r, Pass(r, api, now),
                 if Due(r, api, now) then [Fired(Degrees(r.sources[r.sel.ext].last.value), now)] else [])
  {
    hide Good, Heartbeat, StaleEdge, Tidy, Due, Beats;
    var h := Heartbeat(r, api, now);
    PassStands(r, api, now);
    HeartbeatLeaves(r, api, now);
    HeartbeatAdds(r, api, now);
    EdgeAdds(h, now);
    TidyAdds(StaleEdge(h, now), api, now);
  }

  lemma HeartbeatAdds(r: Room, api: bool, now: nat)
    requires Beats(r) && 0 <= r.sel.ext < |r.sources|
    ensures Heartbeat(r, api, now).log
            == r.log + if Due(r, api, now) then [Fired(Degrees(r.sources[r.sel.ext].last.value), now)] else []
  {
    hide Clock, Since, LastFire;
  }

  lemma TidyAdds(r: Room, api: bool, now: nat)
    ensures Tidy(r, api, now).sel == r.sel ==> Adds(r, Tidy(r, api, now), [])
  {
    hide Reconcile, Clock, Since;
    ReconcileAdds(r.(timers := r.timers.(reconcile := Clock(now))), true, api, now);
  }

  // The notes are these, and only a reading heard changes a source.
  lemma StepAdds(r: Room, s: Step)
    requires Beats(r) && Good(r) && 0 <= r.sel.ext < |r.sources| && Apply(r, s).sel == r.sel
    ensures var a := Apply(r, s);
            && a.log == r.log + Notes(r, s) && |a.sources| == |r.sources|
            && a.sources[r.sel.ext].last == if s.op.Hear? && s.op.idx == r.sel.ext then s.op.reading else r.sources[r.sel.ext].last
  {
    hide Good, Feed, ApplySource, Reconcile, Pass, Listed, Due, Picked, Beats;
    match s.op
    case Hear(idx, reading) =>
    case Frame(report) => FeedAdds(r, report, s.api, s.now);
    case Set(current, id) => ApplyAdds(r, id, true, s.api, s.now);
    case Pick(index) =>
      if Picked(r, index).Some? {
        ApplyAdds(r, Picked(r, index).value, true, s.api, s.now);
      }
    case Loop => PassAdds(r, s.api, s.now);
    case Bonds(bonded) =>
    case Start(bonded) => ReconcileAdds(r.(bonded := bonded, started := true), false, s.api, s.now);
  }

  lemma FirstFiring(n: Note, rest: seq<Note>)
    ensures Firings([n] + rest) == (if n.Fired? then [n] else []) + Firings(rest)
  {
    assert ([n] + rest)[1..] == rest;
  }

  lemma NotesFire(r: Room, s: Step, v: int)
    requires 0 <= r.sel.ext < |r.sources|
    requires v == if s.op.Hear? && s.op.reading.Some? then s.op.reading.value
                  else if r.sources[r.sel.ext].last.Some? then r.sources[r.sel.ext].last.value else 0
    ensures Firings(Notes(r, s)) == if Fires(r, s) then [Fired(Degrees(v), s.now)] else []
  {
    hide Clock, Since, LastFire;
    FirstFiring(Fired(Degrees(v), s.now), []);
    match s.op
    case Hear(idx, reading) => FirstFiring(Heard(idx, reading), if Fires(r, s) then [Fired(Degrees(v), s.now)] else []);
    case Frame(report) => FirstFiring(Reported(report.mac, report.cc), []);
    case _ =>
  }

  // While an external source stays selected a step fires exactly its current reading, once, if it is a reading of the
  // source or a heartbeat that is due, and nothing otherwise.
  lemma FiresExactly(r0: Room, steps: seq<Step>, t0: nat, s: Step)
    requires Good(r0) && Beats(r0) && Ordered(steps, t0) && (LastFire(r0.log).Some? ==> LastFire(r0.log).value <= t0)
    requires var r := Run(r0, steps);
             0 <= r.sel.ext < |r.sources| && Apply(r, s).sel == r.sel
    ensures var r := Run(r0, steps);
            var a := Apply(r, s);
            && |a.sources| == |r.sources| && |r.log| <= |a.log| && a.log[..|r.log|] == r.log
            && (Fires(r, s) ==> a.sources[r.sel.ext].last.Some?)
            && Firings(a.log[|r.log|..])
               == if Fires(r, s) then [Fired(Degrees(a.sources[r.sel.ext].last.value), s.now)] else []
  {
    hide Good, Run, Beats, LastFire, Apply, Clock, Since;
    RunBeats(r0, steps, t0);
    var r := Run(r0, steps);
    StepAdds(r, s);
    assert Apply(r, s).log[|r.log|..] == Notes(r, s);
    NotesFire(r, s, if s.op.Hear? && s.op.reading.Some? then s.op.reading.value
                    else if r.sources[r.sel.ext].last.Some? then r.sources[r.sel.ext].last.value else 0);
  }

  // The external selection stands through the steps, and the source reports nothing.
  ghost predicate Unheard(r: Room, steps: seq<Step>)
    requires Good(r)
    decreases |steps|
  {
    hide Good, Apply;
    steps != [] ==>
      && r.sel.ext >= 0
      && !(steps[0].op.Hear? && steps[0].op.idx == r.sel.ext && steps[0].op.reading.Some?)
      && (GoodExt(r); ApplyStepGood(r, steps[0]); Apply(r, steps[0]).sel == r.sel && Unheard(Apply(r, steps[0]), steps[1..]))
  }

  // A source selected when nothing could be announced, because the API was down or it had no reading yet, stays silent
  // until it reports: no pass of the loop makes up for it, the API back or not.
  lemma {:induction false} SilentUntilHeard(r: Room, steps: seq<Step>)
    requires Good(r) && Beats(r) && LastFire(r.log).None? && Unheard(r, steps)
    ensures LastFire(Run(r, steps).log).None?
    decreases |steps|
  {
    hide Good, Apply, LastFire;
    if steps != [] {
      GoodExt(r);
      ApplyStepGood(r, steps[0]);
      StepMoves(r, steps[0]);
      SilentUntilHeard(Apply(r, steps[0]), steps[1..]);
    }
  }

  // The external source has a reading, and was fired at a nonzero clock reading, less than 30 s before the last pass.
  ghost predicate Alive(r: Room, loop: nat, t: nat) {
    && 0 <= r.sel.ext < |r.sources| && r.sources[r.sel.ext].last.Some?
    && LastFire(r.log).Some?
    && var at := LastFire(r.log).value;
       Clock(at) != 0 && loop < at + HEARTBEAT_MS && at <= t
  }

  // The external selection stands, the source does not withdraw its reading, and the clock never runs back; the API is up
  // and the loop passes at least every 2^32 - 30000 ms; what is fired is fired at a nonzero clock reading.
  ghost predicate Tended(r: Room, steps: seq<Step>, loop: nat, t: nat)
    requires Good(r)
    decreases |steps|
  {
    hide Good, Apply;
    steps != [] ==>
      var s := steps[0];
      GoodExt(r);
      ApplyStepGood(r, s);
      && t <= s.now && (s.op.Loop? ==> s.api && s.now - loop <= B32 - HEARTBEAT_MS)
      && !(s.op.Hear? && s.op.idx == r.sel.ext && s.op.reading.None?)
      && (Fires(r, s) ==> Clock(s.now) != 0)
      && Apply(r, s).sel == r.sel
      && Tended(Apply(r, s), steps[1..], if s.op.Loop? then s.now else loop, s.now)
  }

  function LastPass(steps: seq<Step>, loop: nat): nat
    decreases |steps|
  {
    if steps == [] then loop else LastPass(steps[1..], if steps[0].op.Loop? then steps[0].now else loop)
  }

  // Within a wrap of the clock a value that is not fresh is due.
  lemma DueInTime(r: Room, loop: nat, t: nat, now: nat)
    requires Alive(r, loop, t) && t <= now && now - loop <= B32 - HEARTBEAT_MS
    ensures Fresh(r, now) || Due(r, true, now)
  {
    hide LastFire;
    TrueAge(now, LastFire(r.log).value);
  }

  lemma StepAlive(r: Room, s: Step, loop: nat, t: nat)
    requires Good(r) && Beats(r) && Alive(r, loop, t) && t <= s.now && Apply(r, s).sel == r.sel
    requires s.op.Loop? ==> s.api && s.now - loop <= B32 - HEARTBEAT_MS
    requires !(s.op.Hear? && s.op.idx == r.sel.ext && s.op.reading.None?)
    requires Fires(r, s) ==> Clock(s.now) != 0
    ensures Alive(Apply(r, s), if s.op.Loop? then s.now else loop, s.now)
    ensures s.op.Loop? ==> Fresh(Apply(r, s), s.now)
  {
    hide Good, Beats, Apply, LastFire, Clock, Due;
    StepMoves(r, s);
    StepAdds(r, s);
    if s.op.Loop? {
      DueInTime(r, loop, t, s.now);
    }
  }

  lemma {:induction false} RunAlive(r: Room, steps: seq<Step>, loop: nat, t: nat)
    requires Good(r) && Beats(r) && Alive(r, loop, t) && Tended(r, steps, loop, t)
    ensures var a := Run(r, steps);
            Good(a) && Beats(a) && Alive(a, LastPass(steps, loop), End(steps, t))
    decreases |steps|
  {
    hide Good, Beats, Apply, Alive, Fires;
    if steps != [] {
      GoodExt(r);
      ApplyStepGood(r, steps[0]);
      StepMoves(r, steps[0]);
      StepAlive(r, steps[0], loop, t);
      RunAlive(Apply(r, steps[0]), steps[1..], if steps[0].op.Loop? then steps[0].now else loop, steps[0].now);
    }
  }

  // Once a value of the selected source was fired, every pass leaves it fresh, over every run in which the selection and the
  // reading stand, the API is up, the loop keeps running, and nothing is fired just as the clock reads 0.
  lemma AlwaysFresh(r0: Room, steps: seq<Step>, loop: nat, t0: nat, now: nat)
    requires Good(r0) && Beats(r0) && Alive(r0, loop, t0) && Tended(r0, steps, loop, t0)
    requires End(steps, t0) <= now && now - LastPass(steps, loop) <= B32 - HEARTBEAT_MS
    ensures var r := Run(r0, steps);
            r.sel.ext < |r.sources| && Fresh(Pass(r, true, now), now)
  {
    hide Good, Beats, Run, Tended, Pass, LastFire, Clock, Due;
    RunAlive(r0, steps, loop, t0);
    var r := Run(r0, steps);
    DueInTime(r, LastPass(steps, loop), End(steps, t0), now);
    PassMoves(r, true, now);
    PassStands(r, true, now);
  }

  // The component as set up
  lemma SetUpBeats(r: Room)
    requires r.log == [Restored(ChoiceOf(r))] && r.timers.extFire == 0
    ensures Beats(r) && LastFire(r.log).None?
  {
  }
}
