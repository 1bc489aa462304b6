/** `calculate_deltas` of src/app.py: for each boss of one processed run,
    the difference of its relative end to that of the same boss in another
    run, written into the first run's encounters. */
module Deltas {
  import opened Wrappers
  import opened Text
  import opened Timeline

  /** `name.replace(" (Trash)", "")`. */
  function BaseName(name: string): string
  {
    RemoveAll(name, TrashSuffix)
  }

  /** A name with no " (Trash)" in it is its own base name. */
  lemma {:induction false} BaseNameOfPlainName(name: string)
    requires forall j :: 0 <= j <= |name| ==> !OccursAt(name, TrashSuffix, j)
    ensures BaseName(name) == name
  {
    RemoveAllAbsent(name, TrashSuffix);
  }

  lemma {:induction false} RemoveAllAbsent(s: string, pat: string)
    requires |pat| > 0
    requires forall j :: 0 <= j <= |s| ==> !OccursAt(s, pat, j)
    ensures RemoveAll(s, pat) == s
    decreases |s|
  {
    if |s| >= |pat| {
      assert !OccursAt(s, pat, 0);
      assert s[0..|pat|] == s[..|pat|];
      forall j | 0 <= j <= |s[1..]|
        ensures !OccursAt(s[1..], pat, j)
      {
        assert !OccursAt(s, pat, j + 1);
        if j + |pat| <= |s[1..]| {
          assert s[1..][j..j + |pat|] == s[j + 1..j + 1 + |pat|];
        }
      }
      RemoveAllAbsent(s[1..], pat);
      assert [s[0]] + s[1..] == s;
    }
  }

  /** Whether an encounter is a boss of base name `name`. */
  predicate IsBossNamed(e: Encounter, name: string)
  {
    e.isBoss && BaseName(e.name) == name
  }

  /** `data2_boss_lookup`: base name to boss encounter; a later boss with the
      same base name overwrites an earlier one. */
  function BossLookup(fs: seq<Encounter>): map<string, Encounter>
  {
    if fs == [] then map[]
    else
      var last := fs[|fs| - 1];
      var prefix := BossLookup(fs[..|fs| - 1]);
      if last.isBoss then prefix[BaseName(last.name) := last] else prefix
  }

  /** The lookup holds a name iff some boss has that base name, and maps it
      to the last such boss. */
  lemma {:induction false} BossLookupLastWins(fs: seq<Encounter>, name: string)
    ensures name in BossLookup(fs) <==> exists j :: 0 <= j < |fs| && IsBossNamed(fs[j], name)
    ensures name in BossLookup(fs) ==>
      exists j :: 0 <= j < |fs| && IsBossNamed(fs[j], name) && BossLookup(fs)[name] == fs[j]
        && forall k :: j < k < |fs| ==> !IsBossNamed(fs[k], name)
  {
    BossLookupKeys(fs, name);
    if name in BossLookup(fs) {
      BossLookupLast(fs, name);
    }
  }

  /** The lookup's keys are the base names of the bosses. */
  lemma {:induction false} BossLookupKeys(fs: seq<Encounter>, name: string)
    ensures name in BossLookup(fs) <==> exists j :: 0 <= j < |fs| && IsBossNamed(fs[j], name)
  {
    if fs != [] {
      var init := fs[..|fs| - 1];
      BossLookupKeys(init, name);
      if name in BossLookup(init) {
        var j :| 0 <= j < |init| && IsBossNamed(init[j], name);
        assert IsBossNamed(fs[j], name);
      }
      if exists j :: 0 <= j < |fs| && IsBossNamed(fs[j], name) {
        var j :| 0 <= j < |fs| && IsBossNamed(fs[j], name);
        if j < |init| {
          assert IsBossNamed(init[j], name);
        }
      }
    }
  }

  /** A name in the lookup maps to the last boss with that base name. */
  lemma {:induction false} BossLookupLast(fs: seq<Encounter>, name: string)
    requires name in BossLookup(fs)
    ensures exists j ::
      0 <= j < |fs| && IsBossNamed(fs[j], name) && BossLookup(fs)[name] == fs[j]
      && forall k :: j < k < |fs| ==> !IsBossNamed(fs[k], name)
  {
    var init := fs[..|fs| - 1];
    var last := fs[|fs| - 1];
    if IsBossNamed(last, name) {
      assert BossLookup(fs)[name] == last;
      assert IsBossNamed(fs[|fs| - 1], name);
    } else {
      assert BossLookup(fs)[name] == BossLookup(init)[name];
      BossLookupLast(init, name);
      var j :| 0 <= j < |init| && IsBossNamed(init[j], name) && BossLookup(init)[name] == init[j]
        && forall k :: j < k < |init| ==> !IsBossNamed(init[k], name);
      assert fs[j] == init[j];
      forall k | j < k < |fs|
        ensures !IsBossNamed(fs[k], name)
      {
        if k < |init| {
          assert fs[k] == init[k];
        }
      }
    }
  }

  /** The lookup loop over the second run's encounters. */
  method BuildBossLookup(fs: seq<Encounter>) returns (lookup: map<string, Encounter>)
    ensures lookup == BossLookup(fs)
  {
    lookup := map[];
    for i := 0 to |fs|
      invariant lookup == BossLookup(fs[..i])
    {
      assert fs[..i + 1][..i] == fs[..i];
      if fs[i].isBoss {
        lookup := lookup[BaseName(fs[i].name) := fs[i]];
      }
    }
    assert fs[..|fs|] == fs;
  }

  /** One encounter of the first run after the delta step. */
  function WithDelta(e: Encounter, lookup: map<string, Encounter>): Encounter
  {
    if e.isBoss && BaseName(e.name) in lookup then e.(delta := Some(e.endRel - lookup[BaseName(e.name)].endRel))
    else e
  }

  /** Every encounter of the first run after the delta step. */
  function WithDeltas(fs: seq<Encounter>, lookup: map<string, Encounter>): (r: seq<Encounter>)
    ensures |r| == |fs|
  {
    if fs == [] then [] else WithDeltas(fs[..|fs| - 1], lookup) + [WithDelta(fs[|fs| - 1], lookup)]
  }

  lemma {:induction false} WithDeltasAt(fs: seq<Encounter>, lookup: map<string, Encounter>, i: nat)
    requires i < |fs|
    ensures WithDeltas(fs, lookup)[i] == WithDelta(fs[i], lookup)
  {
    if i < |fs| - 1 {
      WithDeltasAt(fs[..|fs| - 1], lookup, i);
    }
  }

  /** A boss of the first run whose base name some boss of the second run
      shares gets its relative end minus that of the last such boss; every
      other encounter is left as it is; and no field other than `delta`
      changes. */
  lemma {:induction false} DeltaMeans(fs1: seq<Encounter>, fs2: seq<Encounter>, i: nat)
    requires i < |fs1|
    ensures var e := WithDeltas(fs1, BossLookup(fs2))[i];
      var name := BaseName(fs1[i].name);
      e == fs1[i].(delta := e.delta)
      && (fs1[i].isBoss && (exists j :: 0 <= j < |fs2| && IsBossNamed(fs2[j], name)) ==>
            exists j :: 0 <= j < |fs2| && IsBossNamed(fs2[j], name)
              && (forall k :: j < k < |fs2| ==> !IsBossNamed(fs2[k], name))
              && e.delta == Some(fs1[i].endRel - fs2[j].endRel))
      && (!(fs1[i].isBoss && exists j :: 0 <= j < |fs2| && IsBossNamed(fs2[j], name)) ==> e == fs1[i])
  {
    WithDeltasAt(fs1, BossLookup(fs2), i);
    BossLookupLastWins(fs2, BaseName(fs1[i].name));
  }

  /** One step of the delta loop: the encounter at `i` is replaced by its
      updated form. */
  lemma DeltaStep(before: seq<Encounter>, i: nat, lookup: map<string, Encounter>, current: seq<Encounter>)
    requires i < |before|
    requires current == WithDeltas(before[..i], lookup) + before[i..]
    ensures current[i] == before[i]
    ensures current[i := WithDelta(before[i], lookup)] == WithDeltas(before[..i + 1], lookup) + before[i + 1..]
  {
    assert before[..i + 1][..i] == before[..i];
    var next := current[i := WithDelta(before[i], lookup)];
    var want := WithDeltas(before[..i + 1], lookup) + before[i + 1..];
    assert |next| == |want|;
    forall k | 0 <= k < |next|
      ensures next[k] == want[k]
    {
      if k < i {
        assert next[k] == WithDeltas(before[..i], lookup)[k];
      } else if k > i {
        assert next[k] == before[k];
      }
    }
  }

  /** The delta loop over the first run's encounters. */
  method ApplyDeltas(fights: seq<Encounter>, lookup: map<string, Encounter>) returns (r: seq<Encounter>)
    ensures r == WithDeltas(fights, lookup)
  {
    r := fights;
    var i := 0;
    while i < |r|
      invariant 0 <= i <= |fights|
      invariant r == WithDeltas(fights[..i], lookup) + fights[i..]
    {
      var f := r[i];
      DeltaStep(fights, i, lookup, r);
      if f.isBoss {
        var name := BaseName(f.name);
        if name in lookup {
          r := r[i := f.(delta := Some(f.endRel - lookup[name].endRel))];
        }
      }
      i := i + 1;
    }
    assert fights[..i] == fights;
  }

  /** The two runs `calculate_deltas` is given: each may be absent (None) or
      an error. */
  method CalculateDeltas(data1: Option<Result<ProcessedReport, ProcessError>>,
                         data2: Option<Result<ProcessedReport, ProcessError>>)
    modifies (if data1.Some? && data1.value.Ok? then {data1.value.value} else {})`fights
    ensures data1.Some? && data1.value.Ok? && data2.Some? && data2.value.Ok? ==>
      data1.value.value.fights == WithDeltas(old(data1.value.value.fights), BossLookup(old(data2.value.value.fights)))
    ensures data1.Some? && data1.value.Ok? ==>
      data1.value.value.timelineData == old(data1.value.value.timelineData)
    ensures !(data1.Some? && data1.value.Ok? && data2.Some? && data2.value.Ok?) ==>
      data1.Some? && data1.value.Ok? ==> unchanged(data1.value.value)
  {
    if data1.None? || data2.None? || data1.value.Err? || data2.value.Err? {
      return;
    }
    var r1, r2 := data1.value.value, data2.value.value;
    var lookup := BuildBossLookup(r2.fights);
    r1.fights := ApplyDeltas(r1.fights, lookup);
  }

  /** The delta example of the project's own tests: bosses ending at 60000
      and 120000 against 65000 and 115000 get -5000 and +5000. */
  lemma DeltaExample()
    ensures var run1 := [Boss("Boss 1", 60000), Boss("Boss 2", 120000)];
      var run2 := [Boss("Boss 1", 65000), Boss("Boss 2", 115000)];
      var r := WithDeltas(run1, BossLookup(run2));
      r[0].delta == Some(-5000) && r[1].delta == Some(5000)
  {
    var run1 := [Boss("Boss 1", 60000), Boss("Boss 2", 120000)];
    var run2 := [Boss("Boss 1", 65000), Boss("Boss 2", 115000)];
    WithDeltasAt(run1, BossLookup(run2), 0);
    WithDeltasAt(run1, BossLookup(run2), 1);
  }

  /** A boss encounter with only a name and a relative end set. */
  function Boss(name: string, endRel: int): Encounter
  {
    Encounter(name, true, true, 0, endRel, endRel, None, None, None, None)
  }
}
