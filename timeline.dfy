/** `process_fights` of src/app.py: turn a report into the per-run split
    table, one encounter per kept fight in start order. */
module Timeline {
  import opened Wrappers
  import opened Report
  import opened Config
  import opened FightOrder
  import opened ZoneResolver
  import opened WingClear

  /** One entry of `processed["fights"]`; `delta` is added later by the
      cross-run comparison. */
  datatype Encounter = Encounter(
    name: string,
    isBoss: bool,
    isKill: bool,
    startRel: int,
    endRel: int,
    duration: int,
    segment: Option<int>,
    idle: Option<int>,
    wingTime: Option<int>,
    delta: Option<int>)

  /** One entry of `processed["timeline_data"]`. */
  datatype TimelineEntry = TimelineEntry(name: string, start: int, end: int, isBoss: bool, isKill: bool)

  datatype ProcessError =
    | FetchError(message: string)   // the fetch step's error, passed through
    | ZoneFailure(cause: ZoneError)
    | NoProcessableFights(zone: string)

  const TrashSuffix: string := " (Trash)"

  /** The processed report. Its `fights` list is appended to while it is
      built and rewritten in place when deltas are added. */
  class ProcessedReport {
    const title: string
    const zone: string
    const date: string
    const totalDuration: int
    var fights: seq<Encounter>
    var timelineData: seq<TimelineEntry>

    constructor(title: string, zone: string, date: string, totalDuration: int)
      ensures this.title == title && this.zone == zone && this.date == date
      ensures this.totalDuration == totalDuration
      ensures fights == [] && timelineData == []
    {
      this.title := title;
      this.zone := zone;
      this.date := date;
      this.totalDuration := totalDuration;
      fights := [];
      timelineData := [];
    }

    /** The forward pass over the sorted kept fights, carrying
        `previous_fight_end`, `previous_boss_end` and `wing_clear_times`. */
    method AppendFights(fs: seq<Fight>, zoneStart: int, naxx: bool, wings: seq<WingBosses>)
      modifies this
      requires fights == [] && timelineData == []
      ensures fights == Pass(fs, zoneStart, naxx, wings).encounters
      ensures timelineData == Pass(fs, zoneStart, naxx, wings).entries
    {
      var previousFightEnd := -1;
      var previousBossEnd := 0;
      var clears := InitialClears;
      for i := 0 to |fs|
        invariant PassState(fights, timelineData, Carry(previousFightEnd, previousBossEnd, clears))
          == Pass(fs[..i], zoneStart, naxx, wings)
      {
        var f := fs[i];
        PassSnoc(fs, i, zoneStart, naxx, wings);
        var e, bossEnd, newClears := NextEncounter(previousFightEnd, previousBossEnd, clears, f, zoneStart, naxx, wings);
        StepAppends(Pass(fs[..i], zoneStart, naxx, wings), f, zoneStart, naxx, wings, e, Carry(f.endTime, bossEnd, newClears));
        fights := fights + [e];
        timelineData := timelineData
          + [TimelineEntry(f.name, f.startTime - zoneStart, f.endTime - zoneStart, e.isBoss, f.kill)];
        previousFightEnd, previousBossEnd, clears := f.endTime, bossEnd, newClears;
      }
      assert fs[..|fs|] == fs;
    }
  }

  /** The body of the pass for one fight: its encounter, and the new
      `previous_boss_end` and `wing_clear_times`. */
  method NextEncounter(previousFightEnd: int, previousBossEnd: int, clears: seq<WingTime>,
                       f: Fight, zoneStart: int, naxx: bool, wings: seq<WingBosses>)
    returns (e: Encounter, bossEnd: int, clears': seq<WingTime>)
    requires |clears| > 0
    ensures var c := Carry(previousFightEnd, previousBossEnd, clears);
      e == EncounterOf(c, f, zoneStart, naxx, wings)
      && Carry(f.endTime, bossEnd, clears') == NextCarry(c, f, zoneStart, naxx, wings)
  {
    var isBoss := f.boss > 0 && f.name != "Trash";
    var startRel := f.startTime - zoneStart;
    var endRel := f.endTime - zoneStart;
    var duration := f.endTime - f.startTime;
    var segment := if isBoss then Some(endRel - previousBossEnd) else None;
    bossEnd := if isBoss then endRel else previousBossEnd;
    var idle := if previousFightEnd == -1 then None else Some(f.startTime - previousFightEnd - zoneStart);
    var wingTime;
    wingTime, clears' := WingStep(clears, f, endRel, naxx, wings);
    var name := if isBoss then f.name else f.name + TrashSuffix;
    e := Encounter(name, isBoss, f.kill, startRel, endRel, duration, segment, idle, wingTime, None);
  }

  /** The Naxxramas wing step of the pass: the wing time of the fight and
      the updated `wing_clear_times`. */
  method WingStep(clears: seq<WingTime>, f: Fight, endRel: int, naxx: bool, wings: seq<WingBosses>)
    returns (wingTime: Option<int>, clears': seq<WingTime>)
    requires |clears| > 0
    ensures (wingTime, clears') == WingUpdate(clears, f, endRel, naxx, wings)
  {
    wingTime, clears' := None, clears;
    if naxx && f.boss > 0 && f.name != "Trash" && f.kill {
      var w := FindWing(wings, f.boss);
      if w.Some? {
        wingTime := Some(endRel - MaxClear(clears));
        clears' := SetClear(clears, wings[w.value].wing, endRel);
      }
    }
  }

  // ---------------------------------------------------------------------------
  // The keep filter

  /** The inclusive three-way overlap test with [zoneStart, zoneEnd]. */
  predicate Overlaps(f: Fight, zoneStart: int, zoneEnd: int)
  {
    (f.startTime <= zoneStart && f.endTime >= zoneStart)
    || (f.startTime <= zoneEnd && f.endTime >= zoneEnd)
    || (f.startTime >= zoneStart && f.endTime <= zoneEnd)
  }

  /** There is no fallback here: without `enemies` no fight is kept. */
  predicate Keeps(f: Fight, zoneStart: int, zoneEnd: int, enemies: Option<seq<Enemy>>)
  {
    Overlaps(f, zoneStart, zoneEnd) && Duration(f) > 4000
    && enemies.Some? && HostileLists(enemies.value, f.id)
  }

  /** A kept fight's end is cut back to the zone end. */
  function Clamp(f: Fight, zoneEnd: int): (g: Fight)
    ensures g.endTime == if f.endTime > zoneEnd then zoneEnd else f.endTime
    ensures g == f.(endTime := g.endTime)
  {
    if f.endTime > zoneEnd then f.(endTime := zoneEnd) else f
  }

  /** The kept fights, clamped, in report order. */
  function KeptFights(fs: seq<Fight>, zoneStart: int, zoneEnd: int, enemies: Option<seq<Enemy>>): (k: seq<Fight>)
    ensures |k| <= |fs|
  {
    if fs == [] then []
    else
      var last := fs[|fs| - 1];
      KeptFights(fs[..|fs| - 1], zoneStart, zoneEnd, enemies)
        + (if Keeps(last, zoneStart, zoneEnd, enemies) then [Clamp(last, zoneEnd)] else [])
  }

  /** Every kept fight, and only those, appears clamped; no kept fight ends
      after the zone end. */
  lemma {:induction false} KeptFightsMembers(fs: seq<Fight>, zoneStart: int, zoneEnd: int, enemies: Option<seq<Enemy>>)
    ensures var k := KeptFights(fs, zoneStart, zoneEnd, enemies);
      (forall g :: g in k ==> g.endTime <= zoneEnd)
      && (forall i :: 0 <= i < |fs| && Keeps(fs[i], zoneStart, zoneEnd, enemies) ==> Clamp(fs[i], zoneEnd) in k)
      && (forall g :: g in k ==>
            exists i :: 0 <= i < |fs| && Keeps(fs[i], zoneStart, zoneEnd, enemies) && g == Clamp(fs[i], zoneEnd))
  {
    if fs != [] {
      var init := fs[..|fs| - 1];
      KeptFightsMembers(init, zoneStart, zoneEnd, enemies);
      assert forall i :: 0 <= i < |init| ==> init[i] == fs[i];
    }
  }

  /** The filter loop, which clamps kept fights as it goes. */
  method KeepFights(fs: seq<Fight>, zoneStart: int, zoneEnd: int, enemies: Option<seq<Enemy>>) returns (kept: seq<Fight>)
    ensures kept == KeptFights(fs, zoneStart, zoneEnd, enemies)
  {
    kept := [];
    for i := 0 to |fs|
      invariant kept == KeptFights(fs[..i], zoneStart, zoneEnd, enemies)
    {
      var f := fs[i];
      assert fs[..i + 1][..i] == fs[..i];
      assert KeptFights(fs[..i + 1], zoneStart, zoneEnd, enemies)
        == kept + (if Keeps(f, zoneStart, zoneEnd, enemies) then [Clamp(f, zoneEnd)] else []);
      if ((f.startTime <= zoneStart && f.endTime >= zoneStart)
          || (f.startTime <= zoneEnd && f.endTime >= zoneEnd)
          || (f.startTime >= zoneStart && f.endTime <= zoneEnd))
         && f.endTime - f.startTime > 4000
      {
        var has := false;
        if enemies.Some? {
          has := HasHostileEnemy(enemies.value, f.id);
        }
        if has {
          if f.endTime > zoneEnd {
            f := f.(endTime := zoneEnd);
          }
          kept := kept + [f];
        }
      }
    }
    assert fs[..|fs|] == fs;
  }

  // ---------------------------------------------------------------------------
  // The forward pass

  /** The values the pass carries from one fight to the next:
      `previous_fight_end` (absolute, -1 before the first fight),
      `previous_boss_end` (relative) and `wing_clear_times`. */
  datatype Carry = Carry(previousFightEnd: int, previousBossEnd: int, clears: seq<WingTime>)

  const Start: Carry := Carry(-1, 0, InitialClears)

  /** The wing a fight clears, if it is a Naxxramas boss kill of a wing boss. */
  function WingOf(f: Fight, naxx: bool, wings: seq<WingBosses>): Option<nat>
  {
    if naxx && IsBossFight(f) && f.kill then MatchWing(wings, f.boss) else None
  }

  /** The wing time of a fight ending at `endRel` and the wing table after
      it: the time since the latest wing clear so far, and the cleared wing
      set to `endRel`. Fights that clear no wing change nothing. */
  function WingUpdate(clears: seq<WingTime>, f: Fight, endRel: int, naxx: bool, wings: seq<WingBosses>)
    : (u: (Option<int>, seq<WingTime>))
    requires |clears| > 0
    ensures |u.1| >= |clears|
  {
    match WingOf(f, naxx, wings)
    case Some(w) => (Some(endRel - MaxClear(clears)), SetClear(clears, wings[w].wing, endRel))
    case None => (None, clears)
  }

  /** The encounter the pass emits for `f` given what it carries. */
  function EncounterOf(c: Carry, f: Fight, zoneStart: int, naxx: bool, wings: seq<WingBosses>): Encounter
    requires |c.clears| > 0
  {
    var isBoss := IsBossFight(f);
    var endRel := f.endTime - zoneStart;
    Encounter(
      if isBoss then f.name else f.name + TrashSuffix,
      isBoss,
      f.kill,
      f.startTime - zoneStart,
      endRel,
      f.endTime - f.startTime,
      if isBoss then Some(endRel - c.previousBossEnd) else None,
      if c.previousFightEnd == -1 then None else Some(f.startTime - c.previousFightEnd - zoneStart),
      WingUpdate(c.clears, f, endRel, naxx, wings).0,
      None)
  }

  /** What the pass carries past `f`. */
  function NextCarry(c: Carry, f: Fight, zoneStart: int, naxx: bool, wings: seq<WingBosses>): (n: Carry)
    requires |c.clears| > 0
    ensures |n.clears| >= |c.clears|
  {
    var endRel := f.endTime - zoneStart;
    Carry(
      f.endTime,
      if IsBossFight(f) then endRel else c.previousBossEnd,
      WingUpdate(c.clears, f, endRel, naxx, wings).1)
  }

  datatype PassState = PassState(encounters: seq<Encounter>, entries: seq<TimelineEntry>, carry: Carry)

  /** One step of the pass: the encounter and timeline entry for `f`,
      and what is carried past it. */
  function Step(st: PassState, f: Fight, zoneStart: int, naxx: bool, wings: seq<WingBosses>): (n: PassState)
    requires |st.carry.clears| > 0
    ensures |n.encounters| == |st.encounters| + 1 && |n.entries| == |st.entries| + 1
    ensures |n.carry.clears| >= |st.carry.clears|
  {
    PassState(
      st.encounters + [EncounterOf(st.carry, f, zoneStart, naxx, wings)],
      st.entries + [TimelineEntry(f.name, f.startTime - zoneStart, f.endTime - zoneStart, IsBossFight(f), f.kill)],
      NextCarry(st.carry, f, zoneStart, naxx, wings))
  }

  /** A step appends the given encounter and the fight's timeline entry,
      and carries the given state on. */
  lemma {:induction false} StepAppends(st: PassState, f: Fight, zoneStart: int, naxx: bool, wings: seq<WingBosses>, e: Encounter, n: Carry)
    requires |st.carry.clears| > 0
    requires e == EncounterOf(st.carry, f, zoneStart, naxx, wings)
    requires n == NextCarry(st.carry, f, zoneStart, naxx, wings)
    ensures Step(st, f, zoneStart, naxx, wings) == PassState(
      st.encounters + [e],
      st.entries + [TimelineEntry(f.name, f.startTime - zoneStart, f.endTime - zoneStart, e.isBoss, f.kill)],
      n)
  {
  }

  /** The pass state after the fights `fs`, in order. */
  function Pass(fs: seq<Fight>, zoneStart: int, naxx: bool, wings: seq<WingBosses>): (st: PassState)
    ensures |st.encounters| == |st.entries| == |fs|
    ensures |st.carry.clears| >= |InitialClears|
  {
    if fs == [] then PassState([], [], Start)
    else Step(Pass(fs[..|fs| - 1], zoneStart, naxx, wings), fs[|fs| - 1], zoneStart, naxx, wings)
  }

  /** One more fight extends the pass by one step. */
  lemma {:induction false} PassSnoc(fs: seq<Fight>, i: nat, zoneStart: int, naxx: bool, wings: seq<WingBosses>)
    requires i < |fs|
    ensures Pass(fs[..i + 1], zoneStart, naxx, wings) == Step(Pass(fs[..i], zoneStart, naxx, wings), fs[i], zoneStart, naxx, wings)
  {
    var pre := fs[..i + 1];
    assert pre[..|pre| - 1] == fs[..i];
  }

  // ---------------------------------------------------------------------------
  // The whole of process_fights

  datatype Plan = Plan(title: string, zone: string, zoneStart: int, zoneEnd: int, fights: seq<Fight>)

  /** What `process_fights` works from: the resolved zone and the kept,
      clamped fights in start order; or the error it returns. */
  function PlanFor(fetched: Fetched, zoneMap: map<int, string>): Result<Plan, ProcessError>
  {
    match fetched
    case FetchFailed(m) => Err(FetchError(m))
    case Fetched(r) =>
      match ResolveZone(r, zoneMap)
      case Err(e) => Err(ZoneFailure(e))
      case Ok(b) =>
        var kept := KeptFights(r.fights, b.start, b.end, r.enemies);
        if kept == [] then Err(NoProcessableFights(b.zoneName))
        else Ok(Plan(r.title, b.zoneName, b.start, b.end, SortByStart(kept)))
  }

  /** `process_fights`. The report date is an opaque string supplied by
      the caller. */
  method ProcessFights(fetched: Fetched, zoneMap: map<int, string>, wings: seq<WingBosses>, date: string)
    returns (res: Result<ProcessedReport, ProcessError>)
    ensures PlanFor(fetched, zoneMap).Err? ==> res == Err(PlanFor(fetched, zoneMap).error)
    ensures PlanFor(fetched, zoneMap).Ok? ==> res.Ok? && fresh(res.value)
    ensures PlanFor(fetched, zoneMap).Ok? ==>
      var p := PlanFor(fetched, zoneMap).value;
      var st := Pass(p.fights, p.zoneStart, p.zone == NaxxZoneName, wings);
      res.value.title == p.title && res.value.zone == p.zone && res.value.date == date
      && res.value.totalDuration == p.zoneEnd - p.zoneStart
      && res.value.fights == st.encounters && res.value.timelineData == st.entries
  {
    if fetched.FetchFailed? {
      return Err(FetchError(fetched.message));
    }
    var r := fetched.report;
    var b := FindRaidZoneTimes(r, zoneMap);
    if b.Err? {
      return Err(ZoneFailure(b.error));
    }
    var zoneStart, zoneEnd := b.value.start, b.value.end;
    var kept := KeepFights(r.fights, zoneStart, zoneEnd, r.enemies);
    if kept == [] {
      return Err(NoProcessableFights(b.value.zoneName));
    }
    var p := new ProcessedReport(r.title, b.value.zoneName, date, zoneEnd - zoneStart);
    p.AppendFights(SortByStart(kept), zoneStart, b.value.zoneName == NaxxZoneName, wings);
    return Ok(p);
  }
}
