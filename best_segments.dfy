/** The best-segment aggregation across several processed runs, as the
    project's tests compute it: for each boss name, the smallest
    `individual_segment_time` any run has for it, the `start_time_rel` of the
    fight that holds it, and the sum of those minima (the theoretical best). */
module BestSegments {
  import opened Wrappers
  import opened Timeline

  /** The best segment found for one boss name: its time, the display value
      taken from the same fight, and the index of the run it came from. */
  datatype Best = Best(time: int, display: int, run: nat)

  // ---------------------------------------------------------------------------
  // Boss names

  /** The names of the boss encounters of one run. */
  function RunBossNames(fights: seq<Encounter>): set<string>
  {
    if fights == [] then {}
    else
      var last := fights[|fights| - 1];
      RunBossNames(fights[..|fights| - 1]) + (if last.isBoss then {last.name} else {})
  }

  /** `all_bosses`: the names of the boss encounters of every run. */
  function BossNames(runs: seq<seq<Encounter>>): set<string>
  {
    if runs == [] then {} else BossNames(runs[..|runs| - 1]) + RunBossNames(runs[|runs| - 1])
  }

  lemma {:induction false} RunBossNamesMeans(fights: seq<Encounter>, name: string)
    ensures name in RunBossNames(fights) <==> exists j :: 0 <= j < |fights| && fights[j].isBoss && fights[j].name == name
  {
    if fights != [] {
      var init := fights[..|fights| - 1];
      RunBossNamesMeans(init, name);
      assert forall j :: 0 <= j < |init| ==> init[j] == fights[j];
    }
  }

  /** A name is considered iff some run has a boss encounter of that name. */
  lemma {:induction false} BossNamesMeans(runs: seq<seq<Encounter>>, name: string)
    ensures name in BossNames(runs) <==>
      exists k, j :: 0 <= k < |runs| && 0 <= j < |runs[k]| && runs[k][j].isBoss && runs[k][j].name == name
  {
    if runs != [] {
      var init := runs[..|runs| - 1];
      BossNamesMeans(init, name);
      RunBossNamesMeans(runs[|runs| - 1], name);
      assert forall k :: 0 <= k < |init| ==> init[k] == runs[k];
    }
  }

  /** The nested loop that fills `all_bosses`. */
  method CollectBossNames(runs: seq<seq<Encounter>>) returns (names: set<string>)
    ensures names == BossNames(runs)
  {
    names := {};
    for k := 0 to |runs|
      invariant names == BossNames(runs[..k])
    {
      assert runs[..k + 1][..k] == runs[..k];
      var run := runs[k];
      var own := {};
      for j := 0 to |run|
        invariant own == RunBossNames(run[..j])
      {
        assert run[..j + 1][..j] == run[..j];
        if run[j].isBoss {
          own := own + {run[j].name};
        }
      }
      assert run[..|run|] == run;
      names := names + own;
    }
    assert runs[..|runs|] == runs;
  }

  // ---------------------------------------------------------------------------
  // One boss name

  /** `next((f for f in fights if f["name"] == name and f["is_boss"]), None)`. */
  function FirstBoss(fights: seq<Encounter>, name: string): Option<Encounter>
  {
    if fights == [] then None
    else if fights[0].name == name && fights[0].isBoss then Some(fights[0])
    else FirstBoss(fights[1..], name)
  }

  /** The first boss encounter of that name, when there is one. */
  lemma {:induction false} FirstBossMeans(fights: seq<Encounter>, name: string)
    ensures FirstBoss(fights, name).None? <==> forall j :: 0 <= j < |fights| ==> !(fights[j].isBoss && fights[j].name == name)
    ensures FirstBoss(fights, name).Some? ==>
      exists j :: 0 <= j < |fights| && fights[j] == FirstBoss(fights, name).value
        && fights[j].isBoss && fights[j].name == name
        && forall i :: 0 <= i < j ==> !(fights[i].isBoss && fights[i].name == name)
  {
    if fights != [] && !(fights[0].name == name && fights[0].isBoss) {
      var rest := fights[1..];
      FirstBossMeans(rest, name);
      assert forall j :: 0 <= j < |rest| ==> rest[j] == fights[j + 1];
      if FirstBoss(rest, name).Some? {
        var j :| 0 <= j < |rest| && rest[j] == FirstBoss(rest, name).value
          && rest[j].isBoss && rest[j].name == name
          && forall i :: 0 <= i < j ==> !(rest[i].isBoss && rest[i].name == name);
        assert fights[j + 1] == FirstBoss(fights, name).value;
      } else {
        forall j | 0 <= j < |fights|
          ensures !(fights[j].isBoss && fights[j].name == name)
        {
          if j > 0 {
            assert fights[j] == rest[j - 1];
          }
        }
      }
    }
  }

  /** The generator scan, which stops at the first match. */
  method FindFirstBoss(fights: seq<Encounter>, name: string) returns (fight: Option<Encounter>)
    ensures fight == FirstBoss(fights, name)
  {
    var i := 0;
    while i < |fights|
      invariant 0 <= i <= |fights|
      invariant FirstBoss(fights[i..], name) == FirstBoss(fights, name)
    {
      assert fights[i..][1..] == fights[i + 1..];
      if fights[i].name == name && fights[i].isBoss {
        return Some(fights[i]);
      }
      i := i + 1;
    }
    return None;
  }

  /** The fight of a run that competes for a name: its first boss encounter
      of that name, provided it has a segment time. */
  function Candidate(run: seq<Encounter>, name: string): (c: Option<Encounter>)
    ensures c.Some? ==> c.value.segment.Some?
  {
    var f := FirstBoss(run, name);
    if f.Some? && f.value.segment.Some? then f else None
  }

  /** The best segment for a name over the runs so far: a run replaces the
      best only with a strictly smaller segment time. */
  function BestUpTo(runs: seq<seq<Encounter>>, name: string): Option<Best>
  {
    if runs == [] then None
    else Improve(BestUpTo(runs[..|runs| - 1], name), Candidate(runs[|runs| - 1], name), |runs| - 1)
  }

  /** The best so far after looking at the candidate of run `k`. */
  function Improve(prev: Option<Best>, c: Option<Encounter>, k: nat): Option<Best>
  {
    if c.Some? && c.value.segment.Some? && (prev.None? || c.value.segment.value < prev.value.time)
    then Some(Best(c.value.segment.value, c.value.startRel, k))
    else prev
  }

  lemma {:induction false} BestUpToSnoc(runs: seq<seq<Encounter>>, k: nat, name: string)
    requires k < |runs|
    ensures BestUpTo(runs[..k + 1], name) == Improve(BestUpTo(runs[..k], name), Candidate(runs[k], name), k)
  {
    var pre := runs[..k + 1];
    assert pre[..|pre| - 1] == runs[..k];
  }

  /** There is a best segment iff some run has a candidate; it is the
      smallest candidate segment, its display value is that fight's
      `start_time_rel`, and no earlier run has a segment as small (ties keep
      the earliest run). */
  lemma {:induction false} BestIsEarliestMin(runs: seq<seq<Encounter>>, name: string)
    ensures BestUpTo(runs, name).None? <==> forall k :: 0 <= k < |runs| ==> Candidate(runs[k], name).None?
    ensures BestUpTo(runs, name).Some? ==>
      var b := BestUpTo(runs, name).value;
      b.run < |runs| && Candidate(runs[b.run], name).Some?
      && b.time == Candidate(runs[b.run], name).value.segment.value
      && b.display == Candidate(runs[b.run], name).value.startRel
      && (forall k :: 0 <= k < |runs| && Candidate(runs[k], name).Some? ==>
            b.time <= Candidate(runs[k], name).value.segment.value)
      && (forall k :: 0 <= k < b.run && Candidate(runs[k], name).Some? ==>
            b.time < Candidate(runs[k], name).value.segment.value)
  {
    if runs != [] {
      var init := runs[..|runs| - 1];
      BestIsEarliestMin(init, name);
      assert forall k :: 0 <= k < |init| ==> init[k] == runs[k];
    }
  }

  /** The inner loop over the runs for one boss name. */
  method BestSegmentFor(runs: seq<seq<Encounter>>, name: string) returns (best: Option<Best>)
    ensures best == BestUpTo(runs, name)
  {
    best := None;
    for k := 0 to |runs|
      invariant best == BestUpTo(runs[..k], name)
    {
      assert runs[..k + 1][..k] == runs[..k];
      var fight := FindFirstBoss(runs[k], name);
      if fight.Some? && fight.value.segment.Some? {
        if best.None? || fight.value.segment.value < best.value.time {
          best := Some(Best(fight.value.segment.value, fight.value.startRel, k));
        }
      }
    }
    assert runs[..|runs|] == runs;
  }

  // ---------------------------------------------------------------------------
  // All boss names

  /** What a name adds to the theoretical best: its best segment, or nothing. */
  function BestTime(runs: seq<seq<Encounter>>, name: string): int
  {
    if BestUpTo(runs, name).Some? then BestUpTo(runs, name).value.time else 0
  }

  /** The sum of the best segments of the names in `names`, in no particular
      order (`all_bosses` is a set). */
  ghost function TotalOf(names: set<string>, runs: seq<seq<Encounter>>): int
    decreases names
  {
    if names == {} then 0
    else
      var n :| n in names;
      BestTime(runs, n) + TotalOf(names - {n}, runs)
  }

  /** The sum does not depend on the order the names are taken in. */
  lemma {:induction false} TotalOfRemove(names: set<string>, runs: seq<seq<Encounter>>, y: string)
    requires y in names
    ensures TotalOf(names, runs) == BestTime(runs, y) + TotalOf(names - {y}, runs)
    decreases names
  {
    var n :| n in names && TotalOf(names, runs) == BestTime(runs, n) + TotalOf(names - {n}, runs);
    if n != y {
      TotalOfRemove(names - {n}, runs, y);
      TotalOfRemove(names - {y}, runs, n);
      assert names - {n} - {y} == names - {y} - {n};
    }
  }

  lemma {:induction false} TotalOfAdd(names: set<string>, runs: seq<seq<Encounter>>, y: string)
    requires y !in names
    ensures TotalOf(names + {y}, runs) == TotalOf(names, runs) + BestTime(runs, y)
  {
    TotalOfRemove(names + {y}, runs, y);
    assert names + {y} - {y} == names;
  }

  /** The best segment of every name that has one. */
  function BestTimes(runs: seq<seq<Encounter>>, names: set<string>): map<string, int>
  {
    map n | n in names && BestUpTo(runs, n).Some? :: BestUpTo(runs, n).value.time
  }

  /** The display value of every name that has a best segment. */
  function BestDisplays(runs: seq<seq<Encounter>>, names: set<string>): map<string, int>
  {
    map n | n in names && BestUpTo(runs, n).Some? :: BestUpTo(runs, n).value.display
  }

  /** The aggregation: `best_segments`, `best_segments_cumulative` and
      `theoretical_best_time`. Names without a best segment get no entry and
      add nothing to the total. */
  method BestSegments(runs: seq<seq<Encounter>>)
    returns (segments: map<string, int>, cumulative: map<string, int>, total: int)
    ensures segments == BestTimes(runs, BossNames(runs))
    ensures cumulative == BestDisplays(runs, BossNames(runs))
    ensures total == TotalOf(BossNames(runs), runs)
  {
    var names := CollectBossNames(runs);
    segments, cumulative, total := map[], map[], 0;
    var remaining := names;
    while remaining != {}
      invariant remaining <= names
      invariant segments == BestTimes(runs, names - remaining)
      invariant cumulative == BestDisplays(runs, names - remaining)
      invariant total == TotalOf(names - remaining, runs)
      decreases remaining
    {
      var name :| name in remaining;
      var best := BestSegmentFor(runs, name);
      TotalOfAdd(names - remaining, runs, name);
      if best.Some? {
        segments := segments[name := best.value.time];
        cumulative := cumulative[name := best.value.display];
        total := total + best.value.time;
      }
      assert names - (remaining - {name}) == (names - remaining) + {name};
      remaining := remaining - {name};
    }
    assert names - remaining == names;
  }

  /** Every entry of `best_segments` is at most every defined segment time
      of its name, and equals one of them; the total is their sum. */
  lemma {:induction false} BestSegmentsMeans(runs: seq<seq<Encounter>>, name: string)
    requires name in BestTimes(runs, BossNames(runs))
    ensures var t := BestTimes(runs, BossNames(runs))[name];
      (forall k :: 0 <= k < |runs| && Candidate(runs[k], name).Some? ==> t <= Candidate(runs[k], name).value.segment.value)
      && exists k :: 0 <= k < |runs| && Candidate(runs[k], name).Some? && Candidate(runs[k], name).value.segment.value == t
  {
    BestIsEarliestMin(runs, name);
  }

  // ---------------------------------------------------------------------------
  // The test vectors

  /** A boss row as the tests write it: name, segment and display value. */
  function Row(name: string, segment: int, startRel: int): Encounter
  {
    Encounter(name, true, true, startRel, 0, 0, Some(segment), None, None, None)
  }

  const Skeram: string := "The Prophet Skeram"
  const Royalty: string := "Silithid Royalty"
  const Sartura: string := "Battleguard Sartura"
  const Twins: string := "Twin Emperors"
  const CThun: string := "C'Thun"

  /** The three runs of the display test. */
  const DisplayRuns: seq<seq<Encounter>> := [
    [Row(Skeram, 55000, 55000), Row(Royalty, 150000, 205000), Row(Sartura, 104000, 309000)],
    [Row(Skeram, 39000, 39000), Row(Royalty, 147000, 186000), Row(Sartura, 122000, 308000)],
    [Row(Skeram, 57000, 57000), Row(Royalty, 126000, 183000), Row(Sartura, 105000, 288000)]
  ]

  /** A run's candidate for a name is its first boss row of that name. */
  lemma {:induction false} CandidateAt(run: seq<Encounter>, j: nat, name: string)
    requires j < |run| && run[j].isBoss && run[j].name == name && run[j].segment.Some?
    requires forall i :: 0 <= i < j ==> run[i].name != name
    ensures Candidate(run, name) == Some(run[j])
  {
    FirstBossMeans(run, name);
  }

  /** The best over three runs whose row `j` is a boss row of `name`, with
      no earlier row of that name. */
  lemma {:induction false} ThreeRunBest(runs: seq<seq<Encounter>>, name: string, j: nat)
    requires |runs| == 3
    requires forall k :: 0 <= k < 3 ==>
      j < |runs[k]| && runs[k][j].name == name && runs[k][j].isBoss && runs[k][j].segment.Some?
    requires forall k, i :: 0 <= k < 3 && 0 <= i < j ==> runs[k][i].name != name
    ensures BestUpTo(runs, name)
      == Improve(Improve(Improve(None, Some(runs[0][j]), 0), Some(runs[1][j]), 1), Some(runs[2][j]), 2)
  {
    CandidateAt(runs[0], j, name);
    CandidateAt(runs[1], j, name);
    CandidateAt(runs[2], j, name);
    BestUpToSnoc(runs, 0, name);
    BestUpToSnoc(runs, 1, name);
    BestUpToSnoc(runs, 2, name);
    assert runs[..0] == [] && runs[..3] == runs;
  }

  /** The display test's expected results: Skeram 0:39, Silithid Royalty
      2:06 shown at 3:03, Battleguard Sartura 1:44 shown at 5:09. */
  lemma DisplayExample()
    ensures BestUpTo(DisplayRuns, Skeram) == Some(Best(39000, 39000, 1))
    ensures BestUpTo(DisplayRuns, Royalty) == Some(Best(126000, 183000, 2))
    ensures BestUpTo(DisplayRuns, Sartura) == Some(Best(104000, 309000, 0))
  {
    assert Skeram[0] != Royalty[0] && Skeram[0] != Sartura[0] && Royalty[0] != Sartura[0];
    ThreeRunBest(DisplayRuns, Skeram, 0);
    ThreeRunBest(DisplayRuns, Royalty, 1);
    ThreeRunBest(DisplayRuns, Sartura, 2);
  }

  /** The display test's theoretical best: 39000 + 126000 + 104000. */
  lemma DisplayTotal()
    ensures BossNames(DisplayRuns) == {Skeram, Royalty, Sartura}
    ensures TotalOf(BossNames(DisplayRuns), DisplayRuns) == 269000
  {
    DisplayExample();
    var names := {Skeram, Royalty, Sartura};
    forall n
      ensures n in BossNames(DisplayRuns) <==> n in names
    {
      BossNamesMeans(DisplayRuns, n);
      if n in names {
        var k := 0;
        var j := if n == Skeram then 0 else if n == Royalty then 1 else 2;
        assert DisplayRuns[k][j].isBoss && DisplayRuns[k][j].name == n;
      }
    }
    assert Skeram[0] != Royalty[0] && Skeram[0] != Sartura[0] && Royalty[0] != Sartura[0];
    TotalOfAdd({}, DisplayRuns, Skeram);
    TotalOfAdd({Skeram}, DisplayRuns, Royalty);
    TotalOfAdd({Skeram, Royalty}, DisplayRuns, Sartura);
    assert {} + {Skeram} == {Skeram} && {Skeram} + {Royalty} == {Skeram, Royalty};
    assert {Skeram, Royalty} + {Sartura} == names;
  }

  /** The three runs of the best-segments test. */
  const FixRun1: seq<Encounter> := [Row(Skeram, 120000, 120000), Row(Royalty, 180000, 300000),
    Row(Sartura, 150000, 450000), Row(Twins, 300000, 750000), Row(CThun, 240000, 990000)]
  const FixRun2: seq<Encounter> := [Row(Skeram, 110000, 110000), Row(Royalty, 190000, 300000),
    Row(Sartura, 140000, 440000), Row(Twins, 320000, 760000), Row(CThun, 250000, 1010000)]
  const FixRun3: seq<Encounter> := [Row(Skeram, 115000, 115000), Row(Royalty, 170000, 285000),
    Row(Sartura, 145000, 430000), Row(Twins, 280000, 710000), Row(CThun, 220000, 930000)]
  const FixRuns: seq<seq<Encounter>> := [FixRun1, FixRun2, FixRun3]

  /** Row `j` of every run of the best-segments test is the boss `name`,
      which no earlier row has. */
  lemma {:induction false} FixBest(name: string, j: nat)
    requires j < 5 && name == [Skeram, Royalty, Sartura, Twins, CThun][j]
    ensures BestUpTo(FixRuns, name)
      == Improve(Improve(Improve(None, Some(FixRun1[j]), 0), Some(FixRun2[j]), 1), Some(FixRun3[j]), 2)
  {
    assert Skeram[1] != Twins[1];
    assert Skeram[0] != Royalty[0] && Skeram[0] != Sartura[0] && Skeram[0] != CThun[0];
    assert Royalty[0] != Sartura[0] && Royalty[0] != Twins[0] && Royalty[0] != CThun[0];
    assert Sartura[0] != Twins[0] && Sartura[0] != CThun[0] && Twins[0] != CThun[0];
    ThreeRunBest(FixRuns, name, j);
  }

  /** The best-segments test's expected results: 1:50, 2:50, 2:20, 4:40 and
      3:40, from runs 2, 3, 2, 3 and 3. */
  lemma FixExample()
    ensures BestUpTo(FixRuns, Skeram) == Some(Best(110000, 110000, 1))
    ensures BestUpTo(FixRuns, Royalty) == Some(Best(170000, 285000, 2))
    ensures BestUpTo(FixRuns, Sartura) == Some(Best(140000, 440000, 1))
    ensures BestUpTo(FixRuns, Twins) == Some(Best(280000, 710000, 2))
    ensures BestUpTo(FixRuns, CThun) == Some(Best(220000, 930000, 2))
  {
    FixBest(Skeram, 0);
    FixBest(Royalty, 1);
    FixBest(Sartura, 2);
    FixBest(Twins, 3);
    FixBest(CThun, 4);
  }

  /** The boss names of the best-segments test. */
  lemma FixNames()
    ensures BossNames(FixRuns) == {Skeram, Royalty, Sartura, Twins, CThun}
  {
    var order := [Skeram, Royalty, Sartura, Twins, CThun];
    forall n
      ensures n in BossNames(FixRuns) <==> n in order
    {
      BossNamesMeans(FixRuns, n);
      if n in order {
        var j :| 0 <= j < 5 && order[j] == n;
        assert FixRuns[0][j].isBoss && FixRuns[0][j].name == n;
      }
    }
  }

  /** The best-segments test's theoretical best: 15:20. */
  lemma FixTotal()
    ensures TotalOf(BossNames(FixRuns), FixRuns) == 920000
  {
    FixExample();
    assert Skeram[1] != Twins[1];
    assert Skeram[0] != Royalty[0] && Skeram[0] != Sartura[0] && Skeram[0] != CThun[0];
    assert Royalty[0] != Sartura[0] && Royalty[0] != Twins[0] && Royalty[0] != CThun[0];
    assert Sartura[0] != Twins[0] && Sartura[0] != CThun[0] && Twins[0] != CThun[0];
    FixNames();
    TotalOfAdd({}, FixRuns, Skeram);
    TotalOfAdd({Skeram}, FixRuns, Royalty);
    TotalOfAdd({Skeram, Royalty}, FixRuns, Sartura);
    TotalOfAdd({Skeram, Royalty, Sartura}, FixRuns, Twins);
    TotalOfAdd({Skeram, Royalty, Sartura, Twins}, FixRuns, CThun);
    assert {} + {Skeram} == {Skeram} && {Skeram} + {Royalty} == {Skeram, Royalty};
    assert {Skeram, Royalty} + {Sartura} == {Skeram, Royalty, Sartura};
    assert {Skeram, Royalty, Sartura} + {Twins} == {Skeram, Royalty, Sartura, Twins};
    assert {Skeram, Royalty, Sartura, Twins} + {CThun} == BossNames(FixRuns);
  }
}
