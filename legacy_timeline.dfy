/** `process_fights` of the older app.py: the same forward pass as the newer
    version, with relative times rounded to whole seconds, idle time taken
    from the rounded ends, and no segment times or timeline entries. */
module LegacyTimeline {
  import opened Wrappers
  import opened Report
  import opened Config
  import opened FightOrder
  import opened ZoneResolver
  import opened WingClear
  import opened Rounding
  import opened LegacyResolver
  import Timeline
  import TimelineFacts

  /** One entry of the older `processed["fights"]`. */
  datatype LegacyEncounter = LegacyEncounter(
    name: string,
    isBoss: bool,
    isKill: bool,
    startRel: int,
    endRel: int,
    duration: int,
    idle: int,
    wingTime: Option<int>)

  datatype LegacyProcessError =
    | PassedThrough(message: string)        // the fetch step's error, returned as it is
    | LegacyZoneFailure(cause: LegacyZoneError)
    | NothingInTimeline(zone: string)       // "... no processable fights were found within its timeline."

  /** The older processed report, appended to while it is built. */
  class LegacyReport {
    const title: string
    const zone: string
    const date: string
    const totalDuration: int
    var fights: seq<LegacyEncounter>

    constructor(title: string, zone: string, date: string, totalDuration: int)
      ensures this.title == title && this.zone == zone && this.date == date
      ensures this.totalDuration == totalDuration
      ensures fights == []
    {
      this.title := title;
      this.zone := zone;
      this.date := date;
      this.totalDuration := totalDuration;
      fights := [];
    }

    /** The forward pass over the sorted relevant fights, carrying
        `last_fight_end_s` and `wing_clear_times`. */
    method AppendFights(fs: seq<Fight>, raidStart: int, naxx: bool, wings: seq<WingBosses>)
      modifies this
      requires fights == []
      ensures fights == LegacyPass(fs, raidStart, naxx, wings).encounters
    {
      var lastFightEndS := 0;
      var clears := InitialClears;
      for i := 0 to |fs|
        invariant LegacyState(fights, LegacyCarry(lastFightEndS, clears)) == LegacyPass(fs[..i], raidStart, naxx, wings)
      {
        var f := fs[i];
        LegacyPassSnoc(fs, i, raidStart, naxx, wings);
        var e, endS, newClears := LegacyNextEncounter(lastFightEndS, clears, f, raidStart, naxx, wings);
        LegacyStepAppends(LegacyPass(fs[..i], raidStart, naxx, wings), f, raidStart, naxx, wings, e, LegacyCarry(endS, newClears));
        fights := fights + [e];
        lastFightEndS, clears := endS, newClears;
      }
      assert fs[..|fs|] == fs;
    }
  }

  /** The body of the older pass for one fight: its encounter, and the new
      `last_fight_end_s` and `wing_clear_times`. */
  method LegacyNextEncounter(lastFightEndS: int, clears: seq<WingTime>, f: Fight, raidStart: int,
                             naxx: bool, wings: seq<WingBosses>)
    returns (e: LegacyEncounter, endS: int, clears': seq<WingTime>)
    requires |clears| > 0
    ensures var c := LegacyCarry(lastFightEndS, clears);
      e == LegacyEncounterOf(c, f, raidStart, naxx, wings)
      && LegacyCarry(endS, clears') == LegacyNextCarry(c, f, raidStart, naxx, wings)
  {
    var startS := RoundSeconds(f.startTime - raidStart);
    endS := RoundSeconds(f.endTime - raidStart);
    var isBoss := f.boss > 0 && f.name != "Trash";
    var wingTime;
    wingTime, clears' := Timeline.WingStep(clears, f, f.endTime - raidStart, naxx, wings);
    var name := if isBoss then f.name else f.name + Timeline.TrashSuffix;
    var idle := (if lastFightEndS > 0 then startS - lastFightEndS else 0) * 1000;
    e := LegacyEncounter(name, isBoss, f.kill, startS * 1000, endS * 1000, (endS - startS) * 1000, idle, wingTime);
  }

  // ---------------------------------------------------------------------------
  // The relevant fights

  /** A fight starting inside the raid's [start, end] that is not "Unknown". */
  predicate Relevant(f: Fight, raidStart: int, raidEnd: int)
  {
    raidStart <= f.startTime <= raidEnd && f.name != "Unknown"
  }

  /** `relevant_fights`, in report order. */
  function RelevantFights(fs: seq<Fight>, raidStart: int, raidEnd: int): (k: seq<Fight>)
    ensures |k| <= |fs|
  {
    if fs == [] then []
    else
      var last := fs[|fs| - 1];
      RelevantFights(fs[..|fs| - 1], raidStart, raidEnd) + (if Relevant(last, raidStart, raidEnd) then [last] else [])
  }

  /** The relevant fights are exactly the report's fights that start inside
      the raid and are not "Unknown". */
  lemma {:induction false} RelevantFightsMembers(fs: seq<Fight>, raidStart: int, raidEnd: int)
    ensures forall g :: g in RelevantFights(fs, raidStart, raidEnd) <==> g in fs && Relevant(g, raidStart, raidEnd)
  {
    if fs != [] {
      var init := fs[..|fs| - 1];
      RelevantFightsMembers(init, raidStart, raidEnd);
      assert fs == init + [fs[|fs| - 1]];
    }
  }

  /** The list comprehension that builds `relevant_fights`. */
  method SelectRelevant(fs: seq<Fight>, raidStart: int, raidEnd: int) returns (k: seq<Fight>)
    ensures k == RelevantFights(fs, raidStart, raidEnd)
  {
    k := [];
    for i := 0 to |fs|
      invariant k == RelevantFights(fs[..i], raidStart, raidEnd)
    {
      assert fs[..i + 1][..i] == fs[..i];
      if raidStart <= fs[i].startTime <= raidEnd && fs[i].name != "Unknown" {
        k := k + [fs[i]];
      }
    }
    assert fs[..|fs|] == fs;
  }

  // ---------------------------------------------------------------------------
  // The forward pass

  /** What the older pass carries: `last_fight_end_s` (whole seconds, 0
      before the first fight) and `wing_clear_times`. */
  datatype LegacyCarry = LegacyCarry(lastFightEndS: int, clears: seq<WingTime>)

  const LegacyStart: LegacyCarry := LegacyCarry(0, InitialClears)

  /** The encounter the older pass emits for `f`. Times are rounded to whole
      seconds; the wing step uses the unrounded relative end. */
  function LegacyEncounterOf(c: LegacyCarry, f: Fight, raidStart: int, naxx: bool, wings: seq<WingBosses>): LegacyEncounter
    requires |c.clears| > 0
  {
    var startS := RoundSeconds(f.startTime - raidStart);
    var endS := RoundSeconds(f.endTime - raidStart);
    var isBoss := IsBossFight(f);
    LegacyEncounter(
      if isBoss then f.name else f.name + Timeline.TrashSuffix,
      isBoss,
      f.kill,
      startS * 1000,
      endS * 1000,
      (endS - startS) * 1000,
      (if c.lastFightEndS > 0 then startS - c.lastFightEndS else 0) * 1000,
      Timeline.WingUpdate(c.clears, f, f.endTime - raidStart, naxx, wings).0)
  }

  /** What the older pass carries past `f`. */
  function LegacyNextCarry(c: LegacyCarry, f: Fight, raidStart: int, naxx: bool, wings: seq<WingBosses>): (n: LegacyCarry)
    requires |c.clears| > 0
    ensures |n.clears| >= |c.clears|
  {
    LegacyCarry(
      RoundSeconds(f.endTime - raidStart),
      Timeline.WingUpdate(c.clears, f, f.endTime - raidStart, naxx, wings).1)
  }

  datatype LegacyState = LegacyState(encounters: seq<LegacyEncounter>, carry: LegacyCarry)

  /** One step of the older pass. */
  function LegacyStep(st: LegacyState, f: Fight, raidStart: int, naxx: bool, wings: seq<WingBosses>): (n: LegacyState)
    requires |st.carry.clears| > 0
    ensures |n.encounters| == |st.encounters| + 1
    ensures |n.carry.clears| >= |st.carry.clears|
  {
    LegacyState(
      st.encounters + [LegacyEncounterOf(st.carry, f, raidStart, naxx, wings)],
      LegacyNextCarry(st.carry, f, raidStart, naxx, wings))
  }

  lemma {:induction false} LegacyStepAppends(st: LegacyState, f: Fight, raidStart: int, naxx: bool, wings: seq<WingBosses>,
                                             e: LegacyEncounter, n: LegacyCarry)
    requires |st.carry.clears| > 0
    requires e == LegacyEncounterOf(st.carry, f, raidStart, naxx, wings)
    requires n == LegacyNextCarry(st.carry, f, raidStart, naxx, wings)
    ensures LegacyStep(st, f, raidStart, naxx, wings) == LegacyState(st.encounters + [e], n)
  {
  }

  /** The older pass state after the fights `fs`, in order. */
  function LegacyPass(fs: seq<Fight>, raidStart: int, naxx: bool, wings: seq<WingBosses>): (st: LegacyState)
    ensures |st.encounters| == |fs|
    ensures |st.carry.clears| >= |InitialClears|
  {
    if fs == [] then LegacyState([], LegacyStart)
    else LegacyStep(LegacyPass(fs[..|fs| - 1], raidStart, naxx, wings), fs[|fs| - 1], raidStart, naxx, wings)
  }

  lemma {:induction false} LegacyPassSnoc(fs: seq<Fight>, i: nat, raidStart: int, naxx: bool, wings: seq<WingBosses>)
    requires i < |fs|
    ensures LegacyPass(fs[..i + 1], raidStart, naxx, wings)
      == LegacyStep(LegacyPass(fs[..i], raidStart, naxx, wings), fs[i], raidStart, naxx, wings)
  {
    var pre := fs[..i + 1];
    assert pre[..|pre| - 1] == fs[..i];
  }

  // ---------------------------------------------------------------------------
  // What the older pass computes

  /** The encounter of fight `i` depends only on the fights before it. */
  lemma {:induction false} LegacyEncounterAt(fs: seq<Fight>, raidStart: int, naxx: bool, wings: seq<WingBosses>, i: nat)
    requires i < |fs|
    ensures LegacyPass(fs, raidStart, naxx, wings).encounters[i]
      == LegacyEncounterOf(LegacyPass(fs[..i], raidStart, naxx, wings).carry, fs[i], raidStart, naxx, wings)
  {
    var init := fs[..|fs| - 1];
    if i < |fs| - 1 {
      LegacyEncounterAt(init, raidStart, naxx, wings, i);
      assert init[..i] == fs[..i] && init[i] == fs[i];
    } else {
      assert init == fs[..i];
    }
  }

  /** The pass carries the rounded end of the last fight, or 0. */
  lemma {:induction false} LegacyCarriedEnd(fs: seq<Fight>, raidStart: int, naxx: bool, wings: seq<WingBosses>)
    ensures LegacyPass(fs, raidStart, naxx, wings).carry.lastFightEndS
      == if fs == [] then 0 else RoundSeconds(fs[|fs| - 1].endTime - raidStart)
  {
  }

  /** The fields of one emitted encounter: relative start and end are whole
      seconds in ms, each within half a second of the exact value; the
      duration is their difference; idle is the gap from the carried rounded
      end, or 0 while that end is not positive; a Naxxramas wing-boss kill's
      wing time is its unrounded relative end minus the latest wing clear so
      far. */
  lemma {:induction false} LegacyEmittedFields(c: LegacyCarry, f: Fight, raidStart: int, naxx: bool, wings: seq<WingBosses>)
    requires |c.clears| > 0
    ensures var e := LegacyEncounterOf(c, f, raidStart, naxx, wings);
      e.startRel % 1000 == 0 && e.endRel % 1000 == 0 && e.duration % 1000 == 0
      && -500 <= e.startRel - (f.startTime - raidStart) <= 500
      && -500 <= e.endRel - (f.endTime - raidStart) <= 500
      && e.startRel == RoundSeconds(f.startTime - raidStart) * 1000
      && e.endRel == RoundSeconds(f.endTime - raidStart) * 1000
      && e.duration == e.endRel - e.startRel
      && e.idle == (if c.lastFightEndS > 0 then e.startRel - c.lastFightEndS * 1000 else 0)
      && e.isBoss == IsBossFight(f) && e.isKill == f.kill
      && e.name == (if IsBossFight(f) then f.name else f.name + Timeline.TrashSuffix)
      && e.wingTime == (if Timeline.WingOf(f, naxx, wings).Some? then Some(f.endTime - raidStart - MaxClear(c.clears)) else None)
  {
  }

  /** Every time of the older timeline is a whole number of seconds, within
      half a second of the exact relative time, and the duration is the
      difference of the rounded end and start. */
  lemma {:induction false} LegacyTimes(fs: seq<Fight>, raidStart: int, naxx: bool, wings: seq<WingBosses>, i: nat)
    requires i < |fs|
    ensures var e := LegacyPass(fs, raidStart, naxx, wings).encounters[i];
      e.startRel % 1000 == 0 && e.endRel % 1000 == 0 && e.duration % 1000 == 0
      && -500 <= e.startRel - (fs[i].startTime - raidStart) <= 500
      && -500 <= e.endRel - (fs[i].endTime - raidStart) <= 500
      && e.duration == e.endRel - e.startRel
  {
    LegacyEncounterAt(fs, raidStart, naxx, wings, i);
    LegacyEmittedFields(LegacyPass(fs[..i], raidStart, naxx, wings).carry, fs[i], raidStart, naxx, wings);
  }

  /** The idle time of fight `i` in terms of the rounded end carried into it. */
  lemma {:induction false} LegacyIdleFromCarried(fs: seq<Fight>, raidStart: int, naxx: bool, wings: seq<WingBosses>, i: nat)
    requires i < |fs|
    ensures var e := LegacyPass(fs, raidStart, naxx, wings).encounters[i];
      var endS := LegacyPass(fs[..i], raidStart, naxx, wings).carry.lastFightEndS;
      e.idle == if endS > 0 then e.startRel - endS * 1000 else 0
  {
    LegacyEncounterAt(fs, raidStart, naxx, wings, i);
    LegacyEmittedFields(LegacyPass(fs[..i], raidStart, naxx, wings).carry, fs[i], raidStart, naxx, wings);
  }

  /** The rounded end carried into fight `i` is the previous fight's relative
      end in seconds, or 0 for the first fight. */
  lemma {:induction false} LegacyPreviousEnd(fs: seq<Fight>, raidStart: int, naxx: bool, wings: seq<WingBosses>, i: nat)
    requires i < |fs|
    ensures i == 0 ==> LegacyPass(fs[..i], raidStart, naxx, wings).carry.lastFightEndS == 0
    ensures i > 0 ==>
      (LegacyPass(fs[..i], raidStart, naxx, wings).carry.lastFightEndS * 1000
       == LegacyPass(fs, raidStart, naxx, wings).encounters[i - 1].endRel)
  {
    if i > 0 {
      var pre := fs[..i];
      assert pre[|pre| - 1] == fs[i - 1];
      LegacyCarriedEnd(pre, raidStart, naxx, wings);
      var endS := LegacyPass(pre, raidStart, naxx, wings).carry.lastFightEndS;
      assert endS == RoundSeconds(fs[i - 1].endTime - raidStart);
      LegacyEncounterAt(fs, raidStart, naxx, wings, i - 1);
      LegacyEmittedFields(LegacyPass(fs[..i - 1], raidStart, naxx, wings).carry, fs[i - 1], raidStart, naxx, wings);
    } else {
      assert fs[..i] == [];
    }
  }

  /** The first fight has idle 0; a later fight has idle equal to its rounded
      start minus the previous fight's rounded end when that end is positive,
      and 0 otherwise. */
  lemma {:induction false} LegacyIdleTimes(fs: seq<Fight>, raidStart: int, naxx: bool, wings: seq<WingBosses>, i: nat)
    requires i < |fs|
    ensures var es := LegacyPass(fs, raidStart, naxx, wings).encounters;
      es[i].idle == if i > 0 && es[i - 1].endRel > 0 then es[i].startRel - es[i - 1].endRel else 0
  {
    LegacyIdleFromCarried(fs, raidStart, naxx, wings, i);
    LegacyPreviousEnd(fs, raidStart, naxx, wings, i);
  }

  /** The older pass keeps the same wing table as the newer one run from the
      same start, since both update it with the unrounded relative end. */
  lemma {:induction false} LegacyClearsAgree(fs: seq<Fight>, raidStart: int, naxx: bool, wings: seq<WingBosses>)
    ensures LegacyPass(fs, raidStart, naxx, wings).carry.clears == Timeline.Pass(fs, raidStart, naxx, wings).carry.clears
  {
    if fs != [] {
      LegacyClearsAgree(fs[..|fs| - 1], raidStart, naxx, wings);
    }
  }

  /** The older wing times are those of the newer pass: both use the
      unrounded relative end. */
  lemma {:induction false} LegacyWingTimes(fs: seq<Fight>, raidStart: int, naxx: bool, wings: seq<WingBosses>, i: nat)
    requires i < |fs|
    ensures LegacyPass(fs, raidStart, naxx, wings).encounters[i].wingTime
      == Timeline.Pass(fs, raidStart, naxx, wings).encounters[i].wingTime
  {
    var pre := fs[..i];
    LegacyClearsAgree(pre, raidStart, naxx, wings);
    LegacyEncounterAt(fs, raidStart, naxx, wings, i);
    TimelineFacts.EncounterAt(fs, raidStart, naxx, wings, i);
    LegacyWingOf(LegacyPass(pre, raidStart, naxx, wings).carry, Timeline.Pass(pre, raidStart, naxx, wings).carry,
                 fs[i], raidStart, naxx, wings);
  }

  /** One step: with the same wing table, both passes give a fight the same
      wing time. */
  lemma LegacyWingOf(lc: LegacyCarry, tc: Timeline.Carry, f: Fight, raidStart: int, naxx: bool, wings: seq<WingBosses>)
    requires |tc.clears| > 0 && lc.clears == tc.clears
    ensures LegacyEncounterOf(lc, f, raidStart, naxx, wings).wingTime
      == Timeline.EncounterOf(tc, f, raidStart, naxx, wings).wingTime
  {
  }

  // ---------------------------------------------------------------------------
  // The whole of the older process_fights

  /** What the older `process_fights` works from: the resolved zone and the
      relevant fights in start order; or the error it returns. */
  function LegacyPlanFor(fetched: Fetched, zoneMap: map<int, string>): Result<Timeline.Plan, LegacyProcessError>
  {
    match fetched
    case FetchFailed(m) => Err(PassedThrough(m))
    case Fetched(r) =>
      match LegacyResolve(r, zoneMap)
      case Err(e) => Err(LegacyZoneFailure(e))
      case Ok(b) =>
        var relevant := RelevantFights(r.fights, b.start, b.end);
        if relevant == [] then Err(NothingInTimeline(b.zoneName))
        else Ok(Timeline.Plan(r.title, b.zoneName, b.start, b.end, SortByStart(relevant)))
  }

  /** The older `process_fights` fails when the fetch failed, when the zone
      cannot be resolved, or when no fight of the report is relevant. */
  lemma {:induction false} LegacyPlanErrors(fetched: Fetched, zoneMap: map<int, string>)
    ensures LegacyPlanFor(fetched, zoneMap).Err? <==>
      fetched.FetchFailed?
      || LegacyResolve(fetched.report, zoneMap).Err?
      || (forall g :: g in fetched.report.fights ==>
            !Relevant(g, LegacyResolve(fetched.report, zoneMap).value.start, LegacyResolve(fetched.report, zoneMap).value.end))
  {
    if fetched.Fetched? && LegacyResolve(fetched.report, zoneMap).Ok? {
      var r := fetched.report;
      var b := LegacyResolve(r, zoneMap).value;
      RelevantFightsMembers(r.fights, b.start, b.end);
      if RelevantFights(r.fights, b.start, b.end) != [] {
        var g := RelevantFights(r.fights, b.start, b.end)[0];
        assert g in RelevantFights(r.fights, b.start, b.end);
      }
    }
  }

  /** A plan holds, in start order, exactly the report's relevant fights,
      within the resolved zone's boundary. */
  lemma {:induction false} LegacyPlanFacts(fetched: Fetched, zoneMap: map<int, string>)
    requires LegacyPlanFor(fetched, zoneMap).Ok?
    ensures var p := LegacyPlanFor(fetched, zoneMap).value;
      var b := LegacyResolve(fetched.report, zoneMap);
      SortedByStart(p.fights)
      && b.Ok? && p.zone == b.value.zoneName && p.zoneStart == b.value.start && p.zoneEnd == b.value.end
      && forall g :: g in p.fights <==> g in fetched.report.fights && Relevant(g, p.zoneStart, p.zoneEnd)
  {
    var r := fetched.report;
    var b := LegacyResolve(r, zoneMap).value;
    var relevant := RelevantFights(r.fights, b.start, b.end);
    RelevantFightsMembers(r.fights, b.start, b.end);
    SortKeepsMembers(relevant);
  }

  /** The older `process_fights`. The report date is an opaque string
      supplied by the caller. */
  method LegacyProcessFights(fetched: Fetched, zoneMap: map<int, string>, wings: seq<WingBosses>, date: string)
    returns (res: Result<LegacyReport, LegacyProcessError>)
    ensures LegacyPlanFor(fetched, zoneMap).Err? ==> res == Err(LegacyPlanFor(fetched, zoneMap).error)
    ensures LegacyPlanFor(fetched, zoneMap).Ok? ==> res.Ok? && fresh(res.value)
    ensures LegacyPlanFor(fetched, zoneMap).Ok? ==>
      var p := LegacyPlanFor(fetched, zoneMap).value;
      res.value.title == p.title && res.value.zone == p.zone && res.value.date == date
      && res.value.totalDuration == p.zoneEnd - p.zoneStart
      && res.value.fights == LegacyPass(p.fights, p.zoneStart, p.zone == NaxxZoneName, wings).encounters
  {
    if fetched.FetchFailed? {
      return Err(PassedThrough(fetched.message));
    }
    var r := fetched.report;
    var b := LegacyFindRaidZoneTimes(r, zoneMap);
    if b.Err? {
      return Err(LegacyZoneFailure(b.error));
    }
    var raidStart, raidEnd := b.value.start, b.value.end;
    var relevant := SelectRelevant(r.fights, raidStart, raidEnd);
    if relevant == [] {
      return Err(NothingInTimeline(b.value.zoneName));
    }
    var p := new LegacyReport(r.title, b.value.zoneName, date, raidEnd - raidStart);
    p.AppendFights(SortByStart(relevant), raidStart, b.value.zoneName == NaxxZoneName, wings);
    return Ok(p);
  }
}
