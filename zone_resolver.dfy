/** `find_raid_zone_times` of src/app.py: pick the raid zone a report is
    about, keep its valid fights, and fix the raid's start and end. */
module ZoneResolver {
  import opened Wrappers
  import opened Report
  import opened FightOrder

  datatype Boundary = Boundary(zoneName: string, start: int, end: int)

  datatype ZoneError =
    | NoFights          // "Log data is missing or contains no fights."
    | NoRecognizedZone  // "No fights found in a recognized raid zone."
    | NoValidFights     // "No valid fights found in the recognized zone."

  // ---------------------------------------------------------------------------
  // Grouping fights by recognised zone

  /** The recognised zone name of a fight's `zoneID`, if any. */
  function ZoneOf(f: Fight, zoneMap: map<int, string>): Option<string>
  {
    if f.zoneId.Some? && f.zoneId.value in zoneMap then Some(zoneMap[f.zoneId.value]) else None
  }

  /** The keys of the `zone_fights` dictionary in insertion order: recognised
      zone names in the order they are first seen. */
  function SeenZones(fs: seq<Fight>, zoneMap: map<int, string>): (zones: seq<string>)
    ensures forall i, j :: 0 <= i < j < |zones| ==> zones[i] != zones[j]
    ensures forall z :: z in zones <==> exists i :: 0 <= i < |fs| && ZoneOf(fs[i], zoneMap) == Some(z)
    ensures zones == [] <==> forall i :: 0 <= i < |fs| ==> ZoneOf(fs[i], zoneMap).None?
  {
    if fs == [] then []
    else
      var prefix := SeenZones(fs[..|fs| - 1], zoneMap);
      assert forall i :: 0 <= i < |fs| - 1 ==> fs[..|fs| - 1][i] == fs[i];
      match ZoneOf(fs[|fs| - 1], zoneMap)
      case Some(z) => if z in prefix then prefix else prefix + [z]
      case None => prefix
  }

  /** `zone_fights[z]`: the fights of zone `z`, in report order. */
  function ZoneGroup(fs: seq<Fight>, zoneMap: map<int, string>, z: string): (g: seq<Fight>)
    ensures forall f :: f in g <==> f in fs && ZoneOf(f, zoneMap) == Some(z)
  {
    if fs == [] then []
    else
      var last := fs[|fs| - 1];
      assert fs == fs[..|fs| - 1] + [last];
      ZoneGroup(fs[..|fs| - 1], zoneMap, z) + (if ZoneOf(last, zoneMap) == Some(z) then [last] else [])
  }

  /** One more fight adds its zone to the seen zones, unless already seen. */
  lemma SeenZonesSnoc(fs: seq<Fight>, zoneMap: map<int, string>, i: nat)
    requires i < |fs|
    ensures SeenZones(fs[..i + 1], zoneMap)
      == match ZoneOf(fs[i], zoneMap)
         case Some(z) => if z in SeenZones(fs[..i], zoneMap) then SeenZones(fs[..i], zoneMap) else SeenZones(fs[..i], zoneMap) + [z]
         case None => SeenZones(fs[..i], zoneMap)
  {
    assert fs[..i + 1][..i] == fs[..i];
  }

  /** One more fight extends the group of its own zone only. */
  lemma ZoneGroupSnoc(fs: seq<Fight>, zoneMap: map<int, string>, i: nat, z: string)
    requires i < |fs|
    ensures ZoneGroup(fs[..i + 1], zoneMap, z)
      == ZoneGroup(fs[..i], zoneMap, z) + (if ZoneOf(fs[i], zoneMap) == Some(z) then [fs[i]] else [])
  {
    assert fs[..i + 1][..i] == fs[..i];
  }

  /** A zone that no fight maps to has an empty group. */
  lemma {:induction false} UnseenZoneIsEmpty(fs: seq<Fight>, zoneMap: map<int, string>, z: string)
    requires z !in SeenZones(fs, zoneMap)
    ensures ZoneGroup(fs, zoneMap, z) == []
  {
    if fs != [] {
      var init := fs[..|fs| - 1];
      assert forall i :: 0 <= i < |init| ==> init[i] == fs[i];
      assert ZoneOf(fs[|fs| - 1], zoneMap) != Some(z);
      UnseenZoneIsEmpty(init, zoneMap, z);
    }
  }

  /** Number of fights of each zone, in the order of `zones`. */
  function ZoneCounts(zones: seq<string>, fs: seq<Fight>, zoneMap: map<int, string>): (c: seq<int>)
    ensures |c| == |zones|
  {
    seq(|zones|, i requires 0 <= i < |zones| => |ZoneGroup(fs, zoneMap, zones[i])|)
  }

  /** `max(keys, key=count)`: the first index whose count is maximal. */
  function FirstMaxIndex(counts: seq<int>): (k: nat)
    requires |counts| > 0
    ensures k < |counts|
    ensures forall i :: 0 <= i < |counts| ==> counts[i] <= counts[k]
    ensures forall i :: 0 <= i < k ==> counts[i] < counts[k]
  {
    if |counts| == 1 then 0
    else
      var b := FirstMaxIndex(counts[..|counts| - 1]);
      if counts[|counts| - 1] > counts[b] then |counts| - 1 else b
  }

  /** The first-maximum property determines the index. */
  lemma FirstMaxUnique(counts: seq<int>, k: nat)
    requires k < |counts|
    requires forall i :: 0 <= i < |counts| ==> counts[i] <= counts[k]
    requires forall i :: 0 <= i < k ==> counts[i] < counts[k]
    ensures k == FirstMaxIndex(counts)
  {
  }

  /** The primary zone: the recognised zone with the most fights, ties going
      to the zone seen first. None when no fight has a recognised zone. */
  function PrimaryZone(fs: seq<Fight>, zoneMap: map<int, string>): Option<string>
  {
    var zones := SeenZones(fs, zoneMap);
    if zones == [] then None else Some(zones[FirstMaxIndex(ZoneCounts(zones, fs, zoneMap))])
  }

  /** The zone name and its fights in start order; with no recognised
      per-fight zone, the report's top-level zone and all its fights. */
  function ZoneCandidates(r: RawReport, zoneMap: map<int, string>): Result<(string, seq<Fight>), ZoneError>
  {
    match PrimaryZone(r.fights, zoneMap)
    case Some(z) => Ok((z, SortByStart(ZoneGroup(r.fights, zoneMap, z))))
    case None =>
      if r.zone.Some? && r.zone.value in zoneMap then Ok((zoneMap[r.zone.value], SortByStart(r.fights)))
      else Err(NoRecognizedZone)
  }

  // ---------------------------------------------------------------------------
  // Valid fights

  predicate IsHostile(e: Enemy)
  {
    e.kind == "NPC" || e.kind == "Boss"
  }

  /** Some enemy of type NPC or Boss lists the fight id. */
  predicate HostileLists(enemies: seq<Enemy>, fightId: int)
  {
    exists a :: 0 <= a < |enemies| && IsHostile(enemies[a]) && fightId in enemies[a].fightIds
  }

  /** With `enemies` present, an NPC or Boss enemy must list the fight; without
      it, the fight must be a boss fight or last over 10 seconds. */
  predicate HasEnemies(f: Fight, enemies: Option<seq<Enemy>>)
  {
    match enemies
    case Some(es) => HostileLists(es, f.id)
    case None => f.boss > 0 || Duration(f) > 10000
  }

  predicate IsValidFight(f: Fight, enemies: Option<seq<Enemy>>)
  {
    f.name != "Unknown" && Duration(f) > 4000 && HasEnemies(f, enemies)
  }

  /** `valid_fights`: the valid candidates, in candidate order. */
  function ValidFights(fs: seq<Fight>, enemies: Option<seq<Enemy>>): (v: seq<Fight>)
    ensures |v| <= |fs|
  {
    if fs == [] then []
    else
      var last := fs[|fs| - 1];
      ValidFights(fs[..|fs| - 1], enemies) + (if IsValidFight(last, enemies) then [last] else [])
  }

  /** A fight is kept iff it is a valid candidate; none is kept iff no
      candidate is valid. */
  lemma {:induction false} ValidFightsMembers(fs: seq<Fight>, enemies: Option<seq<Enemy>>)
    ensures forall f :: f in ValidFights(fs, enemies) <==> f in fs && IsValidFight(f, enemies)
    ensures ValidFights(fs, enemies) == [] <==> forall f :: f in fs ==> !IsValidFight(f, enemies)
  {
    if fs != [] {
      var last := fs[|fs| - 1];
      assert fs == fs[..|fs| - 1] + [last];
      ValidFightsMembers(fs[..|fs| - 1], enemies);
    }
  }

  /** Filtering keeps the candidates' start order. */
  lemma {:induction false} ValidKeepsOrder(fs: seq<Fight>, enemies: Option<seq<Enemy>>)
    requires SortedByStart(fs)
    ensures SortedByStart(ValidFights(fs, enemies))
  {
    if fs != [] {
      var init := fs[..|fs| - 1];
      var last := fs[|fs| - 1];
      assert SortedByStart(init);
      ValidKeepsOrder(init, enemies);
      ValidFightsMembers(init, enemies);
      var v := ValidFights(init, enemies);
      forall f | f in v
        ensures f.startTime <= last.startTime
      {
        var i :| 0 <= i < |init| && init[i] == f;
        assert fs[i] == f;
      }
    }
  }

  // ---------------------------------------------------------------------------
  // completeRaids override

  /** A `completeRaids` entry that overrides the end of a raid starting at
      `start`: same start, and a truthy end. */
  predicate Overrides(c: CompleteRaid, start: int)
  {
    c.startTime == Some(start) && c.endTime.Some? && c.endTime.value != 0
  }

  /** The raid end after the `completeRaids` loop: the end of the last
      overriding entry, or `end` when none overrides. */
  function OfficialEnd(crs: seq<CompleteRaid>, start: int, end: int): (e: int)
    ensures (forall i :: 0 <= i < |crs| ==> !Overrides(crs[i], start)) ==> e == end
    ensures forall i :: (0 <= i < |crs| && Overrides(crs[i], start)
      && (forall j :: i < j < |crs| ==> !Overrides(crs[j], start))) ==> e == crs[i].endTime.value
  {
    if crs == [] then end
    else
      var last := crs[|crs| - 1];
      assert forall i :: 0 <= i < |crs| - 1 ==> crs[..|crs| - 1][i] == crs[i];
      if Overrides(last, start) then last.endTime.value else OfficialEnd(crs[..|crs| - 1], start, end)
  }

  // ---------------------------------------------------------------------------
  // The whole resolution

  /** The raid boundary from the chosen zone's candidates: from the first
      valid fight's start to the official end of the last one's end. */
  function ResolveCandidates(zone: string, candidates: seq<Fight>, enemies: Option<seq<Enemy>>,
                             completeRaids: seq<CompleteRaid>): Result<Boundary, ZoneError>
  {
    var valid := ValidFights(candidates, enemies);
    if valid == [] then Err(NoValidFights)
    else
      var start := valid[0].startTime;
      Ok(Boundary(zone, start, OfficialEnd(completeRaids, start, valid[|valid| - 1].endTime)))
  }

  function ResolveZone(r: RawReport, zoneMap: map<int, string>): Result<Boundary, ZoneError>
  {
    if r.fights == [] then Err(NoFights)
    else
      match ZoneCandidates(r, zoneMap)
      case Err(e) => Err(e)
      case Ok(zc) => ResolveCandidates(zc.0, zc.1, r.enemies, r.completeRaids)
  }

  // ---------------------------------------------------------------------------
  // The loops of find_raid_zone_times

  /** The grouping loop: fills `zone_fights` and remembers its key order. */
  method GroupByZone(fights: seq<Fight>, zoneMap: map<int, string>)
    returns (order: seq<string>, groups: map<string, seq<Fight>>)
    ensures order == SeenZones(fights, zoneMap)
    ensures forall z :: z in groups <==> z in order
    ensures forall z :: z in groups ==> groups[z] == ZoneGroup(fights, zoneMap, z)
  {
    order, groups := [], map[];
    for i := 0 to |fights|
      invariant order == SeenZones(fights[..i], zoneMap)
      invariant forall z :: z in groups <==> z in order
      invariant forall z :: z in groups ==> groups[z] == ZoneGroup(fights[..i], zoneMap, z)
    {
      var f := fights[i];
      SeenZonesSnoc(fights, zoneMap, i);
      ghost var before := groups;
      if f.zoneId.Some? && f.zoneId.value in zoneMap {
        var z := zoneMap[f.zoneId.value];
        if z !in groups {
          order := order + [z];
          groups := groups[z := []];
        }
        groups := groups[z := groups[z] + [f]];
      }
      forall y | y in groups
        ensures groups[y] == ZoneGroup(fights[..i + 1], zoneMap, y)
      {
        ZoneGroupSnoc(fights, zoneMap, i, y);
        if y in before {
          assert before[y] == ZoneGroup(fights[..i], zoneMap, y);
        } else {
          UnseenZoneIsEmpty(fights[..i], zoneMap, y);
        }
      }
    }
    assert fights[..|fights|] == fights;
  }

  /** `max(zone_fights, key=lambda z: len(zone_fights[z]))`: the first key
      with the most fights. */
  method PickPrimary(order: seq<string>, groups: map<string, seq<Fight>>) returns (k: nat)
    requires |order| > 0
    requires forall z :: z in order ==> z in groups
    ensures k < |order|
    ensures forall i :: 0 <= i < |order| ==> |groups[order[i]]| <= |groups[order[k]]|
    ensures forall i :: 0 <= i < k ==> |groups[order[i]]| < |groups[order[k]]|
  {
    k := 0;
    for i := 1 to |order|
      invariant k < i
      invariant forall j :: 0 <= j < i ==> |groups[order[j]]| <= |groups[order[k]]|
      invariant forall j :: 0 <= j < k ==> |groups[order[j]]| < |groups[order[k]]|
    {
      if |groups[order[i]]| > |groups[order[k]]| {
        k := i;
      }
    }
  }

  /** The enemy scan, with its two early breaks. */
  method HasHostileEnemy(enemies: seq<Enemy>, fightId: int) returns (found: bool)
    ensures found <==> HostileLists(enemies, fightId)
  {
    found := false;
    var a := 0;
    while a < |enemies|
      invariant 0 <= a <= |enemies|
      invariant !found ==> forall b :: 0 <= b < a ==> !(IsHostile(enemies[b]) && fightId in enemies[b].fightIds)
      invariant found ==> HostileLists(enemies, fightId)
    {
      var e := enemies[a];
      if IsHostile(e) {
        var j := 0;
        while j < |e.fightIds|
          invariant 0 <= j <= |e.fightIds|
          invariant !found ==> fightId !in e.fightIds[..j]
          invariant found ==> fightId in e.fightIds
        {
          if e.fightIds[j] == fightId {
            found := true;
            break;
          }
          assert e.fightIds[..j + 1] == e.fightIds[..j] + [e.fightIds[j]];
          j := j + 1;
        }
        assert !found ==> e.fightIds[..j] == e.fightIds;
        if found {
          break;
        }
      }
      a := a + 1;
    }
  }

  /** The validity loop over the candidate fights. */
  method SelectValidFights(candidates: seq<Fight>, enemies: Option<seq<Enemy>>) returns (valid: seq<Fight>)
    ensures valid == ValidFights(candidates, enemies)
  {
    valid := [];
    for i := 0 to |candidates|
      invariant valid == ValidFights(candidates[..i], enemies)
    {
      var f := candidates[i];
      assert candidates[..i + 1][..i] == candidates[..i];
      assert ValidFights(candidates[..i + 1], enemies)
        == ValidFights(candidates[..i], enemies) + (if IsValidFight(f, enemies) then [f] else []);
      if f.name != "Unknown" && f.endTime - f.startTime > 4000 {
        var has: bool;
        if enemies.Some? {
          has := HasHostileEnemy(enemies.value, f.id);
        } else {
          has := f.boss > 0 || f.endTime - f.startTime > 10000;
        }
        assert has <==> HasEnemies(f, enemies);
        if has {
          valid := valid + [f];
        }
      }
    }
    assert candidates[..|candidates|] == candidates;
  }

  /** The `completeRaids` loop. */
  method ApplyCompleteRaids(crs: seq<CompleteRaid>, start: int, end0: int) returns (end: int)
    ensures end == OfficialEnd(crs, start, end0)
  {
    end := end0;
    for i := 0 to |crs|
      invariant end == OfficialEnd(crs[..i], start, end0)
    {
      var c := crs[i];
      assert crs[..i + 1][..i] == crs[..i];
      if c.startTime == Some(start) {
        if c.endTime.Some? && c.endTime.value != 0 && c.endTime.value != end {
          end := c.endTime.value;
        }
      }
    }
    assert crs[..|crs|] == crs;
  }

  /** The zone choice of `find_raid_zone_times`: the primary zone's fights,
      or the top-level zone with every fight. */
  method ChooseZone(r: RawReport, zoneMap: map<int, string>) returns (res: Result<(string, seq<Fight>), ZoneError>)
    ensures res == ZoneCandidates(r, zoneMap)
  {
    var order, groups := GroupByZone(r.fights, zoneMap);
    if |order| > 0 {
      var k := PickPrimary(order, groups);
      var counts := ZoneCounts(order, r.fights, zoneMap);
      assert forall i :: 0 <= i < |order| ==> counts[i] == |groups[order[i]]|;
      FirstMaxUnique(counts, k);
      var zone := order[k];
      assert PrimaryZone(r.fights, zoneMap) == Some(zone);
      assert groups[zone] == ZoneGroup(r.fights, zoneMap, zone);
      return Ok((zone, SortByStart(groups[zone])));
    } else if r.zone.Some? && r.zone.value in zoneMap {
      return Ok((zoneMap[r.zone.value], SortByStart(r.fights)));
    } else {
      return Err(NoRecognizedZone);
    }
  }

  /** `find_raid_zone_times`. */
  method FindRaidZoneTimes(r: RawReport, zoneMap: map<int, string>) returns (res: Result<Boundary, ZoneError>)
    ensures res == ResolveZone(r, zoneMap)
  {
    if r.fights == [] {
      return Err(NoFights);
    }
    var chosen := ChooseZone(r, zoneMap);
    if chosen.Err? {
      return Err(chosen.error);
    }
    var (zone, inZone) := chosen.value;
    assert ResolveZone(r, zoneMap) == ResolveCandidates(zone, inZone, r.enemies, r.completeRaids);
    var valid := SelectValidFights(inZone, r.enemies);
    if valid == [] {
      return Err(NoValidFights);
    }
    var start := valid[0].startTime;
    var end := ApplyCompleteRaids(r.completeRaids, start, valid[|valid| - 1].endTime);
    assert ResolveCandidates(zone, inZone, r.enemies, r.completeRaids) == Ok(Boundary(zone, start, end));
    return Ok(Boundary(zone, start, end));
  }

  // ---------------------------------------------------------------------------
  // Properties

  /** The primary zone has at least as many fights as any other recognised
      zone, and every zone seen before it has strictly fewer. */
  lemma PrimaryZoneMostFights(fs: seq<Fight>, zoneMap: map<int, string>)
    requires exists i :: 0 <= i < |fs| && ZoneOf(fs[i], zoneMap).Some?
    ensures PrimaryZone(fs, zoneMap).Some?
    ensures var z := PrimaryZone(fs, zoneMap).value;
      var zones := SeenZones(fs, zoneMap);
      z in zones
      && (forall y :: y in zones ==> |ZoneGroup(fs, zoneMap, y)| <= |ZoneGroup(fs, zoneMap, z)|)
      && (forall i :: 0 <= i < |zones| && zones[i] != z && |ZoneGroup(fs, zoneMap, zones[i])| == |ZoneGroup(fs, zoneMap, z)|
            ==> z in zones[..i])
  {
    var zones := SeenZones(fs, zoneMap);
    var counts := ZoneCounts(zones, fs, zoneMap);
    FirstMaxZone(zones, counts);
    var k := FirstMaxIndex(counts);
    var z := zones[k];
    assert PrimaryZone(fs, zoneMap) == Some(z);
    forall y | y in zones
      ensures |ZoneGroup(fs, zoneMap, y)| <= |ZoneGroup(fs, zoneMap, z)|
    {
      var j :| 0 <= j < |zones| && zones[j] == y;
      assert counts[j] == |ZoneGroup(fs, zoneMap, y)|;
    }
  }

  /** The first-maximum index, read back on the zone names it ranks. */
  lemma FirstMaxZone(zones: seq<string>, counts: seq<int>)
    requires |zones| == |counts| > 0
    ensures var k := FirstMaxIndex(counts);
      (forall j :: 0 <= j < |zones| ==> counts[j] <= counts[k])
      && (forall j :: 0 <= j < |zones| && zones[j] != zones[k] && counts[j] == counts[k] ==> zones[k] in zones[..j])
  {
    var k := FirstMaxIndex(counts);
    forall j | 0 <= j < |zones| && zones[j] != zones[k] && counts[j] == counts[k]
      ensures zones[k] in zones[..j]
    {
      assert zones[..j][k] == zones[k];
    }
  }

  /** With no recognised per-fight zone but a recognised top-level zone,
      every fight of the report is a candidate, in start order. */
  lemma FallbackUsesAllFights(r: RawReport, zoneMap: map<int, string>)
    requires forall i :: 0 <= i < |r.fights| ==> ZoneOf(r.fights[i], zoneMap).None?
    requires r.zone.Some? && r.zone.value in zoneMap
    ensures ZoneCandidates(r, zoneMap) == Ok((zoneMap[r.zone.value], SortByStart(r.fights)))
    ensures multiset(ZoneCandidates(r, zoneMap).value.1) == multiset(r.fights)
  {
  }

  /** The three error outcomes, each with its exact condition. */
  lemma ResolveErrors(r: RawReport, zoneMap: map<int, string>)
    ensures ResolveZone(r, zoneMap) == Err(NoFights) <==> r.fights == []
    ensures ResolveZone(r, zoneMap) == Err(NoRecognizedZone) <==>
      r.fights != []
      && (forall i :: 0 <= i < |r.fights| ==> ZoneOf(r.fights[i], zoneMap).None?)
      && !(r.zone.Some? && r.zone.value in zoneMap)
    ensures ResolveZone(r, zoneMap) == Err(NoValidFights) <==>
      r.fights != [] && ZoneCandidates(r, zoneMap).Ok?
      && (forall f :: f in ZoneCandidates(r, zoneMap).value.1 ==> !IsValidFight(f, r.enemies))
  {
    if r.fights != [] && ZoneCandidates(r, zoneMap).Ok? {
      ValidFightsMembers(ZoneCandidates(r, zoneMap).value.1, r.enemies);
    }
  }

  /** In a start-ordered list, the first fight starts earliest and the last
      starts latest. */
  lemma SortedEnds(v: seq<Fight>)
    requires SortedByStart(v) && v != []
    ensures forall f :: f in v ==> v[0].startTime <= f.startTime <= v[|v| - 1].startTime
  {
    forall f | f in v
      ensures v[0].startTime <= f.startTime <= v[|v| - 1].startTime
    {
      var j :| 0 <= j < |v| && v[j] == f;
    }
  }

  /** The candidates come in start order. */
  lemma CandidatesSorted(r: RawReport, zoneMap: map<int, string>)
    requires ZoneCandidates(r, zoneMap).Ok?
    ensures SortedByStart(ZoneCandidates(r, zoneMap).value.1)
  {
  }

  /** Of start-ordered candidates, the first valid one starts no later than
      any valid one and the last valid one starts no earlier; and the last
      ends more than four seconds after the first starts. */
  lemma ValidSpan(candidates: seq<Fight>, enemies: Option<seq<Enemy>>)
    requires SortedByStart(candidates)
    requires ValidFights(candidates, enemies) != []
    ensures var v := ValidFights(candidates, enemies);
      v[0] in candidates && IsValidFight(v[0], enemies)
      && v[|v| - 1] in candidates && IsValidFight(v[|v| - 1], enemies)
      && (forall f :: f in candidates && IsValidFight(f, enemies) ==> v[0].startTime <= f.startTime <= v[|v| - 1].startTime)
      && v[0].startTime + 4000 < v[|v| - 1].endTime
  {
    var v := ValidFights(candidates, enemies);
    ValidKeepsOrder(candidates, enemies);
    ValidFightsMembers(candidates, enemies);
    SortedEnds(v);
    assert v[0] in v && v[|v| - 1] in v;
  }

  /** A report resolves exactly as its zone's candidates do. */
  lemma ResolvedFromCandidates(r: RawReport, zoneMap: map<int, string>)
    requires ResolveZone(r, zoneMap).Ok?
    ensures ZoneCandidates(r, zoneMap).Ok?
    ensures var zc := ZoneCandidates(r, zoneMap).value;
      ResolveZone(r, zoneMap) == ResolveCandidates(zc.0, zc.1, r.enemies, r.completeRaids)
  {
  }

  /** Resolved from start-ordered candidates, the raid starts at the
      earliest valid fight and, unless `completeRaids` overrides it, ends at
      the end of the latest-starting valid fight, more than four seconds
      after the start. */
  lemma CandidateBounds(zone: string, candidates: seq<Fight>, enemies: Option<seq<Enemy>>, crs: seq<CompleteRaid>)
    requires SortedByStart(candidates)
    requires ResolveCandidates(zone, candidates, enemies, crs).Ok?
    ensures var b := ResolveCandidates(zone, candidates, enemies, crs).value;
      b.zoneName == zone
      && (exists f :: f in candidates && IsValidFight(f, enemies) && f.startTime == b.start)
      && (forall f :: f in candidates && IsValidFight(f, enemies) ==> b.start <= f.startTime)
      && ((forall c :: c in crs ==> !Overrides(c, b.start)) ==>
            (exists f :: f in candidates && IsValidFight(f, enemies) && f.endTime == b.end
               && (forall g :: g in candidates && IsValidFight(g, enemies) ==> g.startTime <= f.startTime))
            && b.start + 4000 < b.end)
  {
    var v := ValidFights(candidates, enemies);
    var b := ResolveCandidates(zone, candidates, enemies, crs).value;
    ValidSpan(candidates, enemies);
    if forall c :: c in crs ==> !Overrides(c, b.start) {
      assert forall i :: 0 <= i < |crs| ==> crs[i] in crs;
      assert b.end == v[|v| - 1].endTime;
    }
  }

  /** The resolved raid starts at the earliest valid fight of the zone and,
      unless `completeRaids` overrides it, ends at the end of the
      latest-starting valid fight, more than four seconds after the start. */
  lemma BoundaryFacts(r: RawReport, zoneMap: map<int, string>)
    requires ResolveZone(r, zoneMap).Ok?
    ensures var b := ResolveZone(r, zoneMap).value;
      var candidates := ZoneCandidates(r, zoneMap).value.1;
      b.zoneName == ZoneCandidates(r, zoneMap).value.0
      && (exists f :: f in candidates && IsValidFight(f, r.enemies) && f.startTime == b.start)
      && (forall f :: f in candidates && IsValidFight(f, r.enemies) ==> b.start <= f.startTime)
      && ((forall c :: c in r.completeRaids ==> !Overrides(c, b.start)) ==>
            (exists f :: f in candidates && IsValidFight(f, r.enemies) && f.endTime == b.end
               && (forall g :: g in candidates && IsValidFight(g, r.enemies) ==> g.startTime <= f.startTime))
            && b.start + 4000 < b.end)
  {
    ResolvedFromCandidates(r, zoneMap);
    CandidatesSorted(r, zoneMap);
    var zc := ZoneCandidates(r, zoneMap).value;
    CandidateBounds(zc.0, zc.1, r.enemies, r.completeRaids);
  }

  /** The fights and enemies of the filtering example in the project's own
      tests: a 30-second boss fight, a 3-second boss fight and a 5-second
      trash fight, each listed by one enemy. */
  const ExampleBoss := Fight(1, "Valid Boss", 0, 30000, 123, true, None, "")
  const ExampleShort := Fight(2, "Too Short", 0, 3000, 124, true, None, "")
  const ExampleTrash := Fight(3, "Trash Fight", 30000, 35000, 0, false, None, "")
  const ExampleEnemies := [Enemy("Boss", [1]), Enemy("Boss", [2]), Enemy("NPC", [3])]

  /** The long boss fight and the listed trash fight are valid; the
      3-second fight is too short. */
  lemma ExampleValidity()
    ensures IsValidFight(ExampleBoss, Some(ExampleEnemies))
    ensures !IsValidFight(ExampleShort, Some(ExampleEnemies))
    ensures IsValidFight(ExampleTrash, Some(ExampleEnemies))
  {
    assert IsHostile(ExampleEnemies[0]) && 1 in ExampleEnemies[0].fightIds;
    assert IsHostile(ExampleEnemies[2]) && 3 in ExampleEnemies[2].fightIds;
  }

  /** The filtering example: the boss fight and the trash fight are kept,
      in order, and the short fight is dropped. */
  lemma FilterExample()
    ensures ValidFights([ExampleBoss, ExampleShort, ExampleTrash], Some(ExampleEnemies)) == [ExampleBoss, ExampleTrash]
  {
    var es := Some(ExampleEnemies);
    ExampleValidity();
    ValidSnoc([], ExampleBoss, es);
    assert [] + [ExampleBoss] == [ExampleBoss];
    ValidSnoc([ExampleBoss], ExampleShort, es);
    assert [ExampleBoss] + [ExampleShort] == [ExampleBoss, ExampleShort];
    ValidSnoc([ExampleBoss, ExampleShort], ExampleTrash, es);
    assert [ExampleBoss, ExampleShort] + [ExampleTrash] == [ExampleBoss, ExampleShort, ExampleTrash];
  }

  lemma ValidSnoc(fs: seq<Fight>, f: Fight, enemies: Option<seq<Enemy>>)
    ensures ValidFights(fs + [f], enemies) == ValidFights(fs, enemies) + (if IsValidFight(f, enemies) then [f] else [])
  {
    assert (fs + [f])[..|fs|] == fs;
  }

  /** Without enemy data, a fight needs a boss id or more than ten seconds. */
  lemma NoEnemiesFallback(f: Fight)
    ensures IsValidFight(f, None) <==>
      f.name != "Unknown" && f.endTime - f.startTime > 4000 && (f.boss > 0 || f.endTime - f.startTime > 10000)
  {
  }
}
