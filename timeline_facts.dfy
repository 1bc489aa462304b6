/** What the forward pass of `process_fights` computes, fight by fight:
    closed forms for the relative times, segment, idle and wing times. */
module TimelineFacts {
  import opened Wrappers
  import opened Report
  import opened Config
  import opened FightOrder
  import opened WingClear
  import opened Timeline

  /** The relative end of the last boss fight among `fs`, or 0. */
  function LastBossEnd(fs: seq<Fight>, zoneStart: int): int
  {
    if fs == [] then 0
    else if IsBossFight(fs[|fs| - 1]) then fs[|fs| - 1].endTime - zoneStart
    else LastBossEnd(fs[..|fs| - 1], zoneStart)
  }

  /** The sum of the defined segment times. */
  function SumSegments(es: seq<Encounter>): int
  {
    if es == [] then 0
    else SumSegments(es[..|es| - 1]) + (if es[|es| - 1].segment.Some? then es[|es| - 1].segment.value else 0)
  }

  /** The encounter emitted for fight `i` depends only on the fights before
      it: later fights never rewrite earlier entries. */
  lemma {:induction false} EncounterAt(fs: seq<Fight>, zoneStart: int, naxx: bool, wings: seq<WingBosses>, i: nat)
    requires i < |fs|
    ensures Pass(fs, zoneStart, naxx, wings).encounters[i]
      == EncounterOf(Pass(fs[..i], zoneStart, naxx, wings).carry, fs[i], zoneStart, naxx, wings)
  {
    var init := fs[..|fs| - 1];
    if i < |fs| - 1 {
      EncounterAt(init, zoneStart, naxx, wings, i);
      assert init[..i] == fs[..i] && init[i] == fs[i];
    } else {
      assert init == fs[..i];
    }
  }

  /** The timeline entry of fight `i` is its raw name and relative times. */
  lemma {:induction false} EntryAt(fs: seq<Fight>, zoneStart: int, naxx: bool, wings: seq<WingBosses>, i: nat)
    requires i < |fs|
    ensures Pass(fs, zoneStart, naxx, wings).entries[i]
      == TimelineEntry(fs[i].name, fs[i].startTime - zoneStart, fs[i].endTime - zoneStart, IsBossFight(fs[i]), fs[i].kill)
  {
    var init := fs[..|fs| - 1];
    if i < |fs| - 1 {
      EntryAt(init, zoneStart, naxx, wings, i);
      assert init[i] == fs[i];
    }
  }

  /** Fight `i` changes the wing table exactly as `WingUpdate` says. */
  lemma {:induction false} ClearsAt(fs: seq<Fight>, zoneStart: int, naxx: bool, wings: seq<WingBosses>, i: nat)
    requires i < |fs|
    ensures Pass(fs[..i + 1], zoneStart, naxx, wings).carry.clears
      == WingUpdate(Pass(fs[..i], zoneStart, naxx, wings).carry.clears, fs[i], fs[i].endTime - zoneStart, naxx, wings).1
  {
    var st := Pass(fs[..i], zoneStart, naxx, wings);
    PassSnoc(fs, i, zoneStart, naxx, wings);
    assert Pass(fs[..i + 1], zoneStart, naxx, wings).carry == NextCarry(st.carry, fs[i], zoneStart, naxx, wings);
  }

  /** The fields of one emitted encounter, in terms of the carried state. */
  lemma {:induction false} EmittedFields(st: Carry, f: Fight, zoneStart: int, naxx: bool, wings: seq<WingBosses>)
    requires |st.clears| > 0
    ensures var e := EncounterOf(st, f, zoneStart, naxx, wings);
      e.isBoss == IsBossFight(f)
      && e.segment == (if IsBossFight(f) then Some(f.endTime - zoneStart - st.previousBossEnd) else None)
      && e.idle == (if st.previousFightEnd == -1 then None else Some(f.startTime - st.previousFightEnd - zoneStart))
      && e.wingTime == (if WingOf(f, naxx, wings).Some? then Some(f.endTime - zoneStart - MaxClear(st.clears)) else None)
  {
  }

  /** The pass carries the last fight's absolute end and the last boss's
      relative end. */
  lemma {:induction false} CarriedState(fs: seq<Fight>, zoneStart: int, naxx: bool, wings: seq<WingBosses>)
    ensures Pass(fs, zoneStart, naxx, wings).carry.previousFightEnd == if fs == [] then -1 else fs[|fs| - 1].endTime
    ensures Pass(fs, zoneStart, naxx, wings).carry.previousBossEnd == LastBossEnd(fs, zoneStart)
  {
    CarriedFightEnd(fs, zoneStart, naxx, wings);
    CarriedBossEnd(fs, zoneStart, naxx, wings);
  }

  lemma {:induction false} CarriedFightEnd(fs: seq<Fight>, zoneStart: int, naxx: bool, wings: seq<WingBosses>)
    ensures Pass(fs, zoneStart, naxx, wings).carry.previousFightEnd == if fs == [] then -1 else fs[|fs| - 1].endTime
  {
  }

  lemma {:induction false} CarriedBossEnd(fs: seq<Fight>, zoneStart: int, naxx: bool, wings: seq<WingBosses>)
    ensures Pass(fs, zoneStart, naxx, wings).carry.previousBossEnd == LastBossEnd(fs, zoneStart)
  {
    if fs != [] {
      CarriedBossEnd(fs[..|fs| - 1], zoneStart, naxx, wings);
    }
  }

  /** One encounter per fight, with the fight's relative times, its
      duration, its boss flag, and " (Trash)" appended to non-boss names. */
  lemma {:induction false} EncounterFields(fs: seq<Fight>, zoneStart: int, naxx: bool, wings: seq<WingBosses>, i: nat)
    requires i < |fs|
    ensures |Pass(fs, zoneStart, naxx, wings).encounters| == |fs|
    ensures Pass(fs, zoneStart, naxx, wings).entries[i]
      == TimelineEntry(fs[i].name, fs[i].startTime - zoneStart, fs[i].endTime - zoneStart, IsBossFight(fs[i]), fs[i].kill)
    ensures var e := Pass(fs, zoneStart, naxx, wings).encounters[i];
      e.isBoss == (fs[i].boss > 0 && fs[i].name != "Trash")
      && e.name == (if e.isBoss then fs[i].name else fs[i].name + " (Trash)")
      && e.isKill == fs[i].kill
      && e.startRel == fs[i].startTime - zoneStart
      && e.endRel == fs[i].endTime - zoneStart
      && e.duration == fs[i].endTime - fs[i].startTime
      && e.delta.None?
  {
    EncounterAt(fs, zoneStart, naxx, wings, i);
    EntryAt(fs, zoneStart, naxx, wings, i);
  }

  /** A boss's segment is its relative end minus the carried relative end
      of the previous boss. */
  lemma {:induction false} SegmentFromCarry(fs: seq<Fight>, zoneStart: int, naxx: bool, wings: seq<WingBosses>, i: nat)
    requires i < |fs|
    ensures Pass(fs, zoneStart, naxx, wings).encounters[i].segment.Some? == IsBossFight(fs[i])
    ensures IsBossFight(fs[i]) ==>
      Pass(fs, zoneStart, naxx, wings).encounters[i].segment.value
        == fs[i].endTime - zoneStart - Pass(fs[..i], zoneStart, naxx, wings).carry.previousBossEnd
  {
    EncounterAt(fs, zoneStart, naxx, wings, i);
    EmittedFields(Pass(fs[..i], zoneStart, naxx, wings).carry, fs[i], zoneStart, naxx, wings);
  }

  /** Exactly the boss fights have a segment, and a boss's segment is its
      relative end minus the previous boss's relative end (0 before the
      first boss). */
  lemma {:induction false} SegmentTimes(fs: seq<Fight>, zoneStart: int, naxx: bool, wings: seq<WingBosses>, i: nat)
    requires i < |fs|
    ensures Pass(fs, zoneStart, naxx, wings).encounters[i].segment.Some? == IsBossFight(fs[i])
    ensures IsBossFight(fs[i]) ==>
      Pass(fs, zoneStart, naxx, wings).encounters[i].segment.value
        == fs[i].endTime - zoneStart - LastBossEnd(fs[..i], zoneStart)
  {
    SegmentFromCarry(fs, zoneStart, naxx, wings, i);
    CarriedBossEnd(fs[..i], zoneStart, naxx, wings);
  }

  lemma {:induction false} NoBossNoEnd(fs: seq<Fight>, zoneStart: int)
    requires forall j :: 0 <= j < |fs| ==> !IsBossFight(fs[j])
    ensures LastBossEnd(fs, zoneStart) == 0
  {
    if fs != [] {
      NoBossNoEnd(fs[..|fs| - 1], zoneStart);
    }
  }

  /** The first boss's segment is its own relative end. */
  lemma {:induction false} FirstBossSegment(fs: seq<Fight>, zoneStart: int, naxx: bool, wings: seq<WingBosses>, i: nat)
    requires i < |fs| && IsBossFight(fs[i])
    requires forall j :: 0 <= j < i ==> !IsBossFight(fs[j])
    ensures Pass(fs, zoneStart, naxx, wings).encounters[i].segment.Some?
    ensures Pass(fs, zoneStart, naxx, wings).encounters[i].segment.value == fs[i].endTime - zoneStart
  {
    NoBossNoEnd(fs[..i], zoneStart);
    SegmentTimes(fs, zoneStart, naxx, wings, i);
  }

  /** The segment times add up to the relative end of the last boss. */
  lemma {:induction false} SegmentsTelescope(fs: seq<Fight>, zoneStart: int, naxx: bool, wings: seq<WingBosses>)
    ensures SumSegments(Pass(fs, zoneStart, naxx, wings).encounters) == LastBossEnd(fs, zoneStart)
  {
    if fs != [] {
      var init := fs[..|fs| - 1];
      SegmentsTelescope(init, zoneStart, naxx, wings);
      CarriedBossEnd(init, zoneStart, naxx, wings);
      var es := Pass(fs, zoneStart, naxx, wings).encounters;
      assert es[..|es| - 1] == Pass(init, zoneStart, naxx, wings).encounters;
    }
  }

  /** The idle time of fight `i` from the end carried into it. */
  lemma {:induction false} IdleFromCarried(fs: seq<Fight>, zoneStart: int, naxx: bool, wings: seq<WingBosses>, i: nat)
    requires i < |fs|
    ensures Pass(fs, zoneStart, naxx, wings).encounters[i].idle.Some?
      == (Pass(fs[..i], zoneStart, naxx, wings).carry.previousFightEnd != -1)
    ensures Pass(fs, zoneStart, naxx, wings).encounters[i].idle.Some? ==>
      Pass(fs, zoneStart, naxx, wings).encounters[i].idle.value
        == fs[i].startTime - Pass(fs[..i], zoneStart, naxx, wings).carry.previousFightEnd - zoneStart
  {
    EncounterAt(fs, zoneStart, naxx, wings, i);
    EmittedFields(Pass(fs[..i], zoneStart, naxx, wings).carry, fs[i], zoneStart, naxx, wings);
  }

  /** What is carried into fight `i > 0` as `previous_fight_end`: the
      absolute end of fight `i - 1`. */
  lemma {:induction false} PreviousEndAfter(fs: seq<Fight>, zoneStart: int, naxx: bool, wings: seq<WingBosses>, i: nat)
    requires 0 < i <= |fs|
    ensures Pass(fs[..i], zoneStart, naxx, wings).carry.previousFightEnd == fs[i - 1].endTime
  {
    CarriedFightEnd(fs[..i], zoneStart, naxx, wings);
    assert fs[..i][i - 1] == fs[i - 1];
  }

  /** The first fight has no idle time. */
  lemma {:induction false} FirstFightIdle(fs: seq<Fight>, zoneStart: int, naxx: bool, wings: seq<WingBosses>)
    requires fs != []
    ensures Pass(fs, zoneStart, naxx, wings).encounters[0].idle.None?
  {
    IdleFromCarried(fs, zoneStart, naxx, wings, 0);
    CarriedFightEnd(fs[..0], zoneStart, naxx, wings);
  }

  /** A later fight idles from the previous fight's absolute end, minus the
      zone start. A previous end of -1 collides with the "no previous
      fight" marker and yields no idle time. */
  lemma {:induction false} IdleTimes(fs: seq<Fight>, zoneStart: int, naxx: bool, wings: seq<WingBosses>, i: nat)
    requires 0 < i < |fs|
    ensures Pass(fs, zoneStart, naxx, wings).encounters[i].idle.Some? == (fs[i - 1].endTime != -1)
    ensures fs[i - 1].endTime != -1 ==>
      Pass(fs, zoneStart, naxx, wings).encounters[i].idle.value == fs[i].startTime - fs[i - 1].endTime - zoneStart
  {
    IdleFromCarried(fs, zoneStart, naxx, wings, i);
    PreviousEndAfter(fs, zoneStart, naxx, wings, i);
  }

  /** Sorted input gives encounters in ascending start order. */
  lemma {:induction false} EncountersInStartOrder(fs: seq<Fight>, zoneStart: int, naxx: bool, wings: seq<WingBosses>)
    requires SortedByStart(fs)
    ensures var es := Pass(fs, zoneStart, naxx, wings).encounters;
      forall i, j :: 0 <= i < j < |es| ==> es[i].startRel <= es[j].startRel
  {
    var es := Pass(fs, zoneStart, naxx, wings).encounters;
    forall i, j | 0 <= i < j < |es|
      ensures es[i].startRel <= es[j].startRel
    {
      EncounterFields(fs, zoneStart, naxx, wings, i);
      EncounterFields(fs, zoneStart, naxx, wings, j);
    }
  }

  // ---------------------------------------------------------------------------
  // Wing times

  /** The relative end of the last fight among `fs` that cleared `wing`, or 0. */
  function LastClearOf(fs: seq<Fight>, zoneStart: int, naxx: bool, wings: seq<WingBosses>, wing: string): int
  {
    if fs == [] then 0
    else
      var last := fs[|fs| - 1];
      var w := WingOf(last, naxx, wings);
      if w.Some? && wings[w.value].wing == wing then last.endTime - zoneStart
      else LastClearOf(fs[..|fs| - 1], zoneStart, naxx, wings, wing)
  }

  /** When every configured wing is a key of the initial table, the table
      keeps its four keys in place, and each holds the relative end of the
      last kill in that wing, or 0: a kill changes its own wing and no other. */
  lemma {:induction false} WingTableTracks(fs: seq<Fight>, zoneStart: int, naxx: bool, wings: seq<WingBosses>)
    requires forall w :: w in wings ==> HasWing(InitialClears, w.wing)
    ensures var c := Pass(fs, zoneStart, naxx, wings).carry.clears;
      |c| == |InitialClears|
      && forall k :: 0 <= k < |c| ==>
        c[k] == WingTime(InitialClears[k].wing, LastClearOf(fs, zoneStart, naxx, wings, InitialClears[k].wing))
  {
    if fs != [] {
      WingTableTracks(fs[..|fs| - 1], zoneStart, naxx, wings);
      LastClears(fs, zoneStart, naxx, wings);
      TrackStep(InitialClears, Pass(fs[..|fs| - 1], zoneStart, naxx, wings).carry.clears,
                Pass(fs, zoneStart, naxx, wings).carry.clears, fs, zoneStart, naxx, wings);
    }
  }

  /** One fight keeps a table with the wings of `keys` tracking the last
      kill of every wing. */
  lemma TrackStep(keys: seq<WingTime>, prev: seq<WingTime>, c: seq<WingTime>, fs: seq<Fight>, zoneStart: int, naxx: bool, wings: seq<WingBosses>)
    requires fs != []
    requires forall w :: w in wings ==> HasWing(keys, w.wing)
    requires |prev| == |keys| > 0
    requires forall k :: 0 <= k < |prev| ==>
      prev[k] == WingTime(keys[k].wing, LastClearOf(fs[..|fs| - 1], zoneStart, naxx, wings, keys[k].wing))
    requires c == WingUpdate(prev, fs[|fs| - 1], fs[|fs| - 1].endTime - zoneStart, naxx, wings).1
    ensures |c| == |keys|
    ensures forall k :: 0 <= k < |c| ==>
      c[k] == WingTime(keys[k].wing, LastClearOf(fs, zoneStart, naxx, wings, keys[k].wing))
  {
    var last := fs[|fs| - 1];
    var endRel := last.endTime - zoneStart;
    var w := WingOf(last, naxx, wings);
    if w.Some? {
      var name := wings[w.value].wing;
      assert c == SetClear(prev, name, endRel);
      SetClearOnlyThisKey(prev, name, endRel);
      assert wings[w.value] in wings;
      var j :| 0 <= j < |keys| && keys[j].wing == name;
      assert prev[j].wing == name;
      forall k | 0 <= k < |c|
        ensures c[k] == WingTime(keys[k].wing, LastClearOf(fs, zoneStart, naxx, wings, keys[k].wing))
      {
        var wk := keys[k].wing;
        assert prev[k].wing == wk;
        if wk == name {
          assert LastClearOf(fs, zoneStart, naxx, wings, wk) == endRel;
        } else {
          assert LastClearOf(fs, zoneStart, naxx, wings, wk) == LastClearOf(fs[..|fs| - 1], zoneStart, naxx, wings, wk);
        }
      }
    } else {
      assert c == prev;
    }
  }

  /** The table after the last fight is the wing update of that fight. */
  lemma LastClears(fs: seq<Fight>, zoneStart: int, naxx: bool, wings: seq<WingBosses>)
    requires fs != []
    ensures Pass(fs, zoneStart, naxx, wings).carry.clears
      == WingUpdate(Pass(fs[..|fs| - 1], zoneStart, naxx, wings).carry.clears, fs[|fs| - 1],
                    fs[|fs| - 1].endTime - zoneStart, naxx, wings).1
  {
  }

  /** Only Naxxramas boss kills of a configured wing boss clear a wing. */
  lemma {:induction false} WingOfMeans(f: Fight, naxx: bool, wings: seq<WingBosses>)
    ensures WingOf(f, naxx, wings).Some? <==>
      naxx && f.boss > 0 && f.name != "Trash" && f.kill && exists j :: 0 <= j < |wings| && f.boss in wings[j].bossIds
  {
    MatchWingFirst(wings, f.boss);
  }

  /** Fight `i` gets the wing time, and leaves the wing table, that
      `WingUpdate` gives for the table carried into it. */
  lemma {:induction false} WingTimes(fs: seq<Fight>, zoneStart: int, naxx: bool, wings: seq<WingBosses>, i: nat)
    requires i < |fs|
    ensures var before := Pass(fs[..i], zoneStart, naxx, wings).carry.clears;
      var u := WingUpdate(before, fs[i], fs[i].endTime - zoneStart, naxx, wings);
      Pass(fs, zoneStart, naxx, wings).encounters[i].wingTime == u.0
      && Pass(fs[..i + 1], zoneStart, naxx, wings).carry.clears == u.1
  {
    EncounterAt(fs, zoneStart, naxx, wings, i);
    ClearsAt(fs, zoneStart, naxx, wings, i);
  }

  /** A Naxxramas boss kill of a wing boss gets its relative end minus the
      latest clear time of any wing so far, and sets its own wing's time;
      every other fight gets no wing time and leaves the table alone. */
  lemma {:induction false} WingUpdateMeans(clears: seq<WingTime>, f: Fight, endRel: int, naxx: bool, wings: seq<WingBosses>)
    requires |clears| > 0
    ensures var u := WingUpdate(clears, f, endRel, naxx, wings);
      match WingOf(f, naxx, wings)
      case None => u.0.None? && u.1 == clears
      case Some(w) =>
        u.0 == Some(endRel - MaxClear(clears))
        && (forall k :: 0 <= k < |clears| ==>
              u.1[k] == if clears[k].wing == wings[w].wing then WingTime(clears[k].wing, endRel) else clears[k])
        && (HasWing(clears, wings[w].wing) && MaxClear(clears) <= endRel ==> MaxClear(u.1) == endRel)
  {
    var u := WingUpdate(clears, f, endRel, naxx, wings);
    match WingOf(f, naxx, wings)
    case None =>
    case Some(w) =>
      var wing := wings[w].wing;
      assert u.1 == SetClear(clears, wing, endRel);
      SetClearOnlyThisKey(clears, wing, endRel);
      if HasWing(clears, wing) && MaxClear(clears) <= endRel {
        SetClearMax(clears, wing, endRel);
      }
  }

  // ---------------------------------------------------------------------------
  // The keep filter and the plan

  lemma {:induction false} NothingKeptWithoutEnemies(fs: seq<Fight>, zoneStart: int, zoneEnd: int)
    ensures KeptFights(fs, zoneStart, zoneEnd, None) == []
  {
    if fs != [] {
      NothingKeptWithoutEnemies(fs[..|fs| - 1], zoneStart, zoneEnd);
    }
  }

  /** Without `enemies` no report yields a timeline. */
  lemma {:induction false} NoEnemiesNoTimeline(r: RawReport, zoneMap: map<int, string>)
    requires r.enemies.None?
    ensures PlanFor(Fetched(r), zoneMap).Err?
  {
    if ZoneResolver.ResolveZone(r, zoneMap).Ok? {
      var b := ZoneResolver.ResolveZone(r, zoneMap).value;
      NothingKeptWithoutEnemies(r.fights, b.start, b.end);
    }
  }

  /** The planned fights are the kept fights, clamped to the zone end, as a
      start-ordered permutation. */
  lemma {:induction false} PlanFacts(fetched: Fetched, zoneMap: map<int, string>)
    requires PlanFor(fetched, zoneMap).Ok?
    ensures var p := PlanFor(fetched, zoneMap).value;
      var r := fetched.report;
      p.fights != []
      && SortedByStart(p.fights)
      && multiset(p.fights) == multiset(KeptFights(r.fights, p.zoneStart, p.zoneEnd, r.enemies))
      && (forall g :: g in p.fights ==> g.endTime <= p.zoneEnd)
      && (forall g :: g in p.fights ==>
            exists i :: 0 <= i < |r.fights| && Keeps(r.fights[i], p.zoneStart, p.zoneEnd, r.enemies)
              && g == Clamp(r.fights[i], p.zoneEnd))
  {
    var p := PlanFor(fetched, zoneMap).value;
    var r := fetched.report;
    var kept := KeptFights(r.fights, p.zoneStart, p.zoneEnd, r.enemies);
    KeptFightsMembers(r.fights, p.zoneStart, p.zoneEnd, r.enemies);
    SortKeepsMembers(kept);
    assert |p.fights| == |kept|;
  }

}
