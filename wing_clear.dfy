/** The `wing_clear_times` bookkeeping shared by both timeline builders
    (src/app.py and app.py): the last kill time of each Naxxramas wing. */
module WingClear {
  import opened Wrappers
  import opened Config

  /** One key/value pair of the `wing_clear_times` dictionary. */
  datatype WingTime = WingTime(wing: string, time: int)

  /** `{"Abomination": 0, "Plague": 0, "Spider": 0, "Military": 0}`. */
  const InitialClears: seq<WingTime> := [
    WingTime("Abomination", 0), WingTime("Plague", 0), WingTime("Spider", 0), WingTime("Military", 0)]

  /** `max(wing_clear_times.values())`. */
  function MaxClear(clears: seq<WingTime>): int
    requires |clears| > 0
  {
    if |clears| == 1 then clears[0].time
    else
      var rest := MaxClear(clears[1..]);
      if clears[0].time >= rest then clears[0].time else rest
  }

  /** `MaxClear` is the largest time in the table. */
  lemma {:induction false} MaxClearIsMax(clears: seq<WingTime>)
    requires |clears| > 0
    ensures forall i :: 0 <= i < |clears| ==> clears[i].time <= MaxClear(clears)
    ensures exists i :: 0 <= i < |clears| && clears[i].time == MaxClear(clears)
  {
    if |clears| > 1 {
      MaxClearIsMax(clears[1..]);
      assert forall i :: 1 <= i < |clears| ==> clears[i] == clears[1..][i - 1];
      var j :| 0 <= j < |clears[1..]| && clears[1..][j].time == MaxClear(clears[1..]);
      if clears[0].time < MaxClear(clears[1..]) {
        assert clears[j + 1].time == MaxClear(clears);
      } else {
        assert clears[0].time == MaxClear(clears);
      }
    } else {
      assert clears[0].time == MaxClear(clears);
    }
  }

  predicate HasWing(clears: seq<WingTime>, wing: string)
  {
    exists i :: 0 <= i < |clears| && clears[i].wing == wing
  }

  /** `wing_clear_times[wing] = t`: the entry of `wing` takes the new time
      in place and every other entry is unchanged; a wing not yet present
      is appended. */
  function SetClear(clears: seq<WingTime>, wing: string, t: int): (c: seq<WingTime>)
    ensures |c| >= |clears|
  {
    if HasWing(clears, wing) then
      seq(|clears|, i requires 0 <= i < |clears| => if clears[i].wing == wing then WingTime(wing, t) else clears[i])
    else clears + [WingTime(wing, t)]
  }

  /** Only the entry of `wing` changes, and it takes the new time. */
  lemma SetClearOnlyThisKey(clears: seq<WingTime>, wing: string, t: int)
    ensures var c := SetClear(clears, wing, t);
      (HasWing(clears, wing) ==> |c| == |clears|)
      && (!HasWing(clears, wing) ==> c == clears + [WingTime(wing, t)])
      && forall i :: 0 <= i < |clears| ==>
           c[i] == if clears[i].wing == wing then WingTime(wing, t) else clears[i]
  {
  }

  /** The wing whose boss ids contain `boss`, scanning the configuration in
      its order and stopping at the first match. */
  function MatchWing(wings: seq<WingBosses>, boss: int): (r: Option<nat>)
    ensures r.Some? ==> r.value < |wings|
  {
    if wings == [] then None
    else if boss in wings[0].bossIds then Some(0)
    else
      match MatchWing(wings[1..], boss)
      case None => None
      case Some(k) => Some(k + 1)
  }

  /** `MatchWing` names the first wing whose ids contain the boss, and
      gives None iff no wing does. */
  lemma {:induction false} MatchWingFirst(wings: seq<WingBosses>, boss: int)
    ensures var r := MatchWing(wings, boss);
      (r.Some? ==> (r.value < |wings| && boss in wings[r.value].bossIds
                     && forall j :: 0 <= j < r.value ==> boss !in wings[j].bossIds))
      && (r.None? <==> forall j :: 0 <= j < |wings| ==> boss !in wings[j].bossIds)
  {
    if wings != [] && boss !in wings[0].bossIds {
      MatchWingFirst(wings[1..], boss);
      assert forall j :: 1 <= j < |wings| ==> wings[j] == wings[1..][j - 1];
    }
  }

  /** The `for wing, wing_boss_ids in ...items()` scan with its `break`. */
  method FindWing(wings: seq<WingBosses>, boss: int) returns (r: Option<nat>)
    ensures r == MatchWing(wings, boss)
  {
    r := None;
    for j := 0 to |wings|
      invariant forall k :: 0 <= k < j ==> boss !in wings[k].bossIds
    {
      if boss in wings[j].bossIds {
        r := Some(j);
        MatchWingUnique(wings, boss, j);
        return;
      }
    }
    MatchWingFirst(wings, boss);
  }

  /** The first wing containing the boss is the one `MatchWing` names. */
  lemma MatchWingUnique(wings: seq<WingBosses>, boss: int, j: nat)
    requires j < |wings| && boss in wings[j].bossIds
    requires forall k :: 0 <= k < j ==> boss !in wings[k].bossIds
    ensures MatchWing(wings, boss) == Some(j)
  {
    MatchWingFirst(wings, boss);
  }

  /** A kill in one wing changes that wing's time and no other, and the
      new maximum is the later of the old maximum and the kill time. */
  lemma SetClearMax(clears: seq<WingTime>, wing: string, t: int)
    requires HasWing(clears, wing)
    requires MaxClear(clears) <= t
    ensures MaxClear(SetClear(clears, wing, t)) == t
  {
    var c := SetClear(clears, wing, t);
    SetClearOnlyThisKey(clears, wing, t);
    var i :| 0 <= i < |clears| && clears[i].wing == wing;
    assert c[i].time == t;
    MaxClearIsMax(clears);
    MaxClearIsMax(c);
    forall k | 0 <= k < |c|
      ensures c[k].time <= t
    {
      assert clears[k].time <= MaxClear(clears);
    }
  }

  /** Each Naxxramas boss id belongs to exactly one wing, and the initial
      table holds the four wings, all at time 0. */
  lemma NaxxWingsAreDisjoint()
    ensures forall i, j :: 0 <= i < j < |NaxxWingBosses| ==> NaxxWingBosses[i].bossIds !! NaxxWingBosses[j].bossIds
    ensures MatchWing(NaxxWingBosses, 16028) == Some(2)
    ensures MatchWing(NaxxWingBosses, 15952) == Some(0)
    ensures MatchWing(NaxxWingBosses, 16011) == None
    ensures MaxClear(InitialClears) == 0
    ensures forall w :: w in NaxxWingBosses ==> HasWing(InitialClears, w.wing)
  {
    assert InitialClears[2].wing == "Spider";
    assert InitialClears[1].wing == "Plague";
    assert InitialClears[0].wing == "Abomination";
    assert InitialClears[3].wing == "Military";
  }
}
