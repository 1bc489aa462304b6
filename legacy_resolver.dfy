/** `find_raid_zone_times` of the older app.py: the same zone choice as
    src/app.py, but with no duration or enemy filter, and with the
    unrecognised zones it met listed in its error. */
module LegacyResolver {
  import opened Wrappers
  import opened Report
  import opened FightOrder
  import opened ZoneResolver

  /** An unrecognised zone as the error message names it: the fight's
      `zoneName` and its `zoneID` (None when absent). */
  datatype UnknownZone = UnknownZone(name: string, id: Option<int>)

  datatype LegacyZoneError =
    | MissingFights                           // "Log data is missing or contains no fights."
    | UnsupportedZones(seen: set<UnknownZone>) // "No fights found in a recognized raid zone." plus the list
    | EmptyZone                               // "Could not find any fights in the recognized zone."
    | OnlyUnknownFights                       // "No valid fights found ... (only 'Unknown' fights)."

  /** Whether a fight adds to `unrecognized_zones`: no recognised zone, but a
      non-empty zone name. */
  predicate IsUnrecognized(f: Fight, zoneMap: map<int, string>)
  {
    ZoneOf(f, zoneMap).None? && f.zoneName != ""
  }

  /** The `unrecognized_zones` set after the grouping loop. */
  function Unrecognized(fs: seq<Fight>, zoneMap: map<int, string>): set<UnknownZone>
  {
    if fs == [] then {}
    else
      var last := fs[|fs| - 1];
      Unrecognized(fs[..|fs| - 1], zoneMap) + (if IsUnrecognized(last, zoneMap) then {UnknownZone(last.zoneName, last.zoneId)} else {})
  }

  /** A recognised fight adds its zone to the seen zones, unless already
      seen, and nothing to the unrecognised set. */
  lemma SnocRecognized(fs: seq<Fight>, zoneMap: map<int, string>, i: nat, z: string)
    requires i < |fs| && ZoneOf(fs[i], zoneMap) == Some(z)
    ensures SeenZones(fs[..i + 1], zoneMap)
      == if z in SeenZones(fs[..i], zoneMap) then SeenZones(fs[..i], zoneMap) else SeenZones(fs[..i], zoneMap) + [z]
    ensures Unrecognized(fs[..i + 1], zoneMap) == Unrecognized(fs[..i], zoneMap)
  {
    assert fs[..i + 1][..i] == fs[..i];
  }

  /** A fight without a recognised zone leaves the seen zones alone, and adds
      its name and id to the unrecognised set when it has a zone name. */
  lemma SnocUnrecognized(fs: seq<Fight>, zoneMap: map<int, string>, i: nat)
    requires i < |fs| && ZoneOf(fs[i], zoneMap).None?
    ensures SeenZones(fs[..i + 1], zoneMap) == SeenZones(fs[..i], zoneMap)
    ensures fs[i].zoneName != "" ==>
      Unrecognized(fs[..i + 1], zoneMap) == Unrecognized(fs[..i], zoneMap) + {UnknownZone(fs[i].zoneName, fs[i].zoneId)}
    ensures fs[i].zoneName == "" ==> Unrecognized(fs[..i + 1], zoneMap) == Unrecognized(fs[..i], zoneMap)
  {
    assert fs[..i + 1][..i] == fs[..i];
  }

  /** The set holds exactly the name and id of every fight with a zone name
      but no recognised zone id. */
  lemma {:induction false} UnrecognizedMeans(fs: seq<Fight>, zoneMap: map<int, string>, u: UnknownZone)
    ensures u in Unrecognized(fs, zoneMap) <==>
      exists i :: 0 <= i < |fs| && IsUnrecognized(fs[i], zoneMap) && u == UnknownZone(fs[i].zoneName, fs[i].zoneId)
  {
    if fs != [] {
      var init := fs[..|fs| - 1];
      UnrecognizedMeans(init, zoneMap, u);
      assert forall i :: 0 <= i < |init| ==> init[i] == fs[i];
    }
  }

  /** `real_fights_in_zone`: the fights not named "Unknown", in order. */
  function RealFights(fs: seq<Fight>): (r: seq<Fight>)
    ensures |r| <= |fs|
  {
    if fs == [] then []
    else
      var last := fs[|fs| - 1];
      RealFights(fs[..|fs| - 1]) + (if last.name != "Unknown" then [last] else [])
  }

  /** A fight is kept iff it is in the list and not named "Unknown". */
  lemma {:induction false} RealFightsMembers(fs: seq<Fight>)
    ensures forall f :: f in RealFights(fs) <==> f in fs && f.name != "Unknown"
  {
    if fs != [] {
      var last := fs[|fs| - 1];
      assert fs == fs[..|fs| - 1] + [last];
      RealFightsMembers(fs[..|fs| - 1]);
    }
  }

  /** Dropping "Unknown" fights keeps the start order. */
  lemma {:induction false} RealKeepsOrder(fs: seq<Fight>)
    requires SortedByStart(fs)
    ensures SortedByStart(RealFights(fs))
  {
    if fs != [] {
      var init := fs[..|fs| - 1];
      var last := fs[|fs| - 1];
      assert SortedByStart(init);
      RealKeepsOrder(init);
      RealFightsMembers(init);
      forall f | f in RealFights(init)
        ensures f.startTime <= last.startTime
      {
        var i :| 0 <= i < |init| && init[i] == f;
        assert fs[i] == f;
      }
    }
  }

  /** The raid from the chosen zone's fights: from the first kept fight's
      start to the last kept fight's end, in start order. */
  function LegacyBounds(zone: string, inZone: seq<Fight>): Result<Boundary, LegacyZoneError>
  {
    if inZone == [] then Err(EmptyZone)
    else
      var kept := RealFights(inZone);
      if kept == [] then Err(OnlyUnknownFights)
      else Ok(Boundary(zone, kept[0].startTime, kept[|kept| - 1].endTime))
  }

  /** The zone and its fights in start order, chosen as in src/app.py; the
      unrecognised zones when there is none. */
  function LegacyCandidates(r: RawReport, zoneMap: map<int, string>): Result<(string, seq<Fight>), LegacyZoneError>
  {
    match ZoneCandidates(r, zoneMap)
    case Err(_) => Err(UnsupportedZones(Unrecognized(r.fights, zoneMap)))
    case Ok(zc) => Ok(zc)
  }

  function LegacyResolve(r: RawReport, zoneMap: map<int, string>): Result<Boundary, LegacyZoneError>
  {
    if r.fights == [] then Err(MissingFights)
    else
      match LegacyCandidates(r, zoneMap)
      case Err(e) => Err(e)
      case Ok(zc) => LegacyBounds(zc.0, zc.1)
  }

  // ---------------------------------------------------------------------------
  // The loops

  /** The grouping loop of the older version: fills `zone_fights`, keeping
      its key order, and `unrecognized_zones`. */
  method GroupAndCollect(fights: seq<Fight>, zoneMap: map<int, string>)
    returns (order: seq<string>, groups: map<string, seq<Fight>>, unrecognized: set<UnknownZone>)
    ensures order == SeenZones(fights, zoneMap)
    ensures forall z :: z in groups <==> z in order
    ensures forall z :: z in groups ==> groups[z] == ZoneGroup(fights, zoneMap, z)
    ensures unrecognized == Unrecognized(fights, zoneMap)
  {
    order, groups, unrecognized := [], map[], {};
    for i := 0 to |fights|
      invariant order == SeenZones(fights[..i], zoneMap)
      invariant forall z :: z in groups <==> z in order
      invariant forall z :: z in groups ==> groups[z] == ZoneGroup(fights[..i], zoneMap, z)
      invariant unrecognized == Unrecognized(fights[..i], zoneMap)
    {
      var f := fights[i];
      ghost var before := groups;
      if f.zoneId.Some? && f.zoneId.value in zoneMap {
        var z := zoneMap[f.zoneId.value];
        SnocRecognized(fights, zoneMap, i, z);
        if z !in groups {
          order := order + [z];
          groups := groups[z := []];
        }
        groups := groups[z := groups[z] + [f]];
      } else {
        SnocUnrecognized(fights, zoneMap, i);
        if f.zoneName != "" {
          unrecognized := unrecognized + {UnknownZone(f.zoneName, f.zoneId)};
        }
      }
      forall y | y in groups
        ensures groups[y] == ZoneGroup(fights[..i + 1], zoneMap, y)
      {
        ZoneGroupSnoc(fights, zoneMap, i, y);
        if y in before {
          assert before[y] == ZoneGroup(fights[..i], zoneMap, y);
        } else {
          UnseenZoneIsEmpty(fights[..i], zoneMap, y);
        }
      }
    }
    assert fights[..|fights|] == fights;
  }

  /** The zone choice of the older `find_raid_zone_times`. */
  method LegacyChooseZone(r: RawReport, zoneMap: map<int, string>) returns (res: Result<(string, seq<Fight>), LegacyZoneError>)
    ensures res == LegacyCandidates(r, zoneMap)
  {
    var order, groups, unrecognized := GroupAndCollect(r.fights, zoneMap);
    if |order| > 0 {
      var k := PickPrimary(order, groups);
      var counts := ZoneCounts(order, r.fights, zoneMap);
      assert forall i :: 0 <= i < |order| ==> counts[i] == |groups[order[i]]|;
      FirstMaxUnique(counts, k);
      var zone := order[k];
      assert PrimaryZone(r.fights, zoneMap) == Some(zone);
      assert groups[zone] == ZoneGroup(r.fights, zoneMap, zone);
      return Ok((zone, SortByStart(groups[zone])));
    } else if r.zone.Some? && r.zone.value in zoneMap {
      return Ok((zoneMap[r.zone.value], SortByStart(r.fights)));
    } else {
      return Err(UnsupportedZones(unrecognized));
    }
  }

  /** The older `find_raid_zone_times`. */
  method LegacyFindRaidZoneTimes(r: RawReport, zoneMap: map<int, string>) returns (res: Result<Boundary, LegacyZoneError>)
    ensures res == LegacyResolve(r, zoneMap)
  {
    if r.fights == [] {
      return Err(MissingFights);
    }
    var chosen := LegacyChooseZone(r, zoneMap);
    if chosen.Err? {
      return Err(chosen.error);
    }
    var (zone, inZone) := chosen.value;
    if inZone == [] {
      return Err(EmptyZone);
    }
    var kept := SelectRealFights(inZone);
    if kept == [] {
      return Err(OnlyUnknownFights);
    }
    return Ok(Boundary(zone, kept[0].startTime, kept[|kept| - 1].endTime));
  }

  /** The list comprehension that drops "Unknown" fights. */
  method SelectRealFights(fs: seq<Fight>) returns (kept: seq<Fight>)
    ensures kept == RealFights(fs)
  {
    kept := [];
    for i := 0 to |fs|
      invariant kept == RealFights(fs[..i])
    {
      assert fs[..i + 1][..i] == fs[..i];
      if fs[i].name != "Unknown" {
        kept := kept + [fs[i]];
      }
    }
    assert fs[..|fs|] == fs;
  }

  // ---------------------------------------------------------------------------
  // Properties

  /** The chosen zone always has a fight, so the "could not find any fights"
      error is never returned. */
  lemma CandidatesNonEmpty(r: RawReport, zoneMap: map<int, string>)
    requires r.fights != []
    requires ZoneCandidates(r, zoneMap).Ok?
    ensures ZoneCandidates(r, zoneMap).value.1 != []
  {
    var zc := ZoneCandidates(r, zoneMap).value;
    match PrimaryZone(r.fights, zoneMap)
    case Some(z) =>
      PrimaryZoneMostFightsHasOne(r.fights, zoneMap, z);
    case None =>
  }

  /** The primary zone has at least one fight. */
  lemma PrimaryZoneMostFightsHasOne(fs: seq<Fight>, zoneMap: map<int, string>, z: string)
    requires PrimaryZone(fs, zoneMap) == Some(z)
    ensures ZoneGroup(fs, zoneMap, z) != []
  {
    var zones := SeenZones(fs, zoneMap);
    assert z in zones;
    var i :| 0 <= i < |fs| && ZoneOf(fs[i], zoneMap) == Some(z);
    assert fs[i] in ZoneGroup(fs, zoneMap, z);
  }

  /** The error outcomes of the older resolver, each with its condition;
      "could not find any fights" never happens. */
  lemma LegacyErrors(r: RawReport, zoneMap: map<int, string>)
    ensures LegacyResolve(r, zoneMap) == Err(MissingFights) <==> r.fights == []
    ensures LegacyResolve(r, zoneMap).Err? && LegacyResolve(r, zoneMap).error.UnsupportedZones? <==>
      r.fights != []
      && (forall i :: 0 <= i < |r.fights| ==> ZoneOf(r.fights[i], zoneMap).None?)
      && !(r.zone.Some? && r.zone.value in zoneMap)
    ensures LegacyResolve(r, zoneMap) != Err(EmptyZone)
    ensures LegacyResolve(r, zoneMap) == Err(OnlyUnknownFights) <==>
      r.fights != [] && ZoneCandidates(r, zoneMap).Ok?
      && forall f :: f in ZoneCandidates(r, zoneMap).value.1 ==> f.name == "Unknown"
  {
    if r.fights != [] && ZoneCandidates(r, zoneMap).Ok? {
      CandidatesNonEmpty(r, zoneMap);
      RealFightsMembers(ZoneCandidates(r, zoneMap).value.1);
      var kept := RealFights(ZoneCandidates(r, zoneMap).value.1);
      if kept != [] {
        assert kept[0] in kept;
      }
    }
  }

  /** With no recognised zone, the error lists every unrecognised zone seen
      on a fight with a zone name. */
  lemma UnsupportedListsZones(r: RawReport, zoneMap: map<int, string>, u: UnknownZone)
    requires LegacyResolve(r, zoneMap).Err? && LegacyResolve(r, zoneMap).error.UnsupportedZones?
    ensures u in LegacyResolve(r, zoneMap).error.seen <==>
      exists i :: 0 <= i < |r.fights| && IsUnrecognized(r.fights[i], zoneMap)
        && u == UnknownZone(r.fights[i].zoneName, r.fights[i].zoneId)
  {
    UnrecognizedMeans(r.fights, zoneMap, u);
  }

  /** The older raid starts at the earliest-starting kept fight of the zone
      and ends at the end of the latest-starting one; "Unknown" fights never
      count, and no duration or enemy test applies. */
  lemma LegacyBoundaryFacts(zone: string, inZone: seq<Fight>)
    requires SortedByStart(inZone)
    requires LegacyBounds(zone, inZone).Ok?
    ensures var b := LegacyBounds(zone, inZone).value;
      b.zoneName == zone
      && (exists f :: f in inZone && f.name != "Unknown" && f.startTime == b.start)
      && (forall f :: f in inZone && f.name != "Unknown" ==> b.start <= f.startTime)
      && (exists f :: f in inZone && f.name != "Unknown" && f.endTime == b.end
            && forall g :: g in inZone && g.name != "Unknown" ==> g.startTime <= f.startTime)
  {
    var kept := RealFights(inZone);
    var b := LegacyBounds(zone, inZone).value;
    RealFightsMembers(inZone);
    RealKeepsOrder(inZone);
    SortedEnds(kept);
    var first, last := kept[0], kept[|kept| - 1];
    assert first in kept && last in kept;
    assert b.start == first.startTime && b.end == last.endTime;
    forall g | g in inZone && g.name != "Unknown"
      ensures b.start <= g.startTime <= last.startTime
    {
      assert g in kept;
    }
  }

  /** A report resolves as its zone's candidates do. */
  lemma LegacyFromCandidates(r: RawReport, zoneMap: map<int, string>)
    requires LegacyResolve(r, zoneMap).Ok?
    ensures ZoneCandidates(r, zoneMap).Ok?
    ensures SortedByStart(ZoneCandidates(r, zoneMap).value.1)
    ensures var zc := ZoneCandidates(r, zoneMap).value;
      LegacyResolve(r, zoneMap) == LegacyBounds(zc.0, zc.1)
  {
  }
}
