/** Python's `sorted(fights, key=lambda f: f["start_time"])`: a stable sort
    on start time. */
module FightOrder {
  import opened Report

  predicate SortedByStart(s: seq<Fight>)
  {
    forall i, j :: 0 <= i < j < |s| ==> s[i].startTime <= s[j].startTime
  }

  /** Places `x` after every element of `t` that does not start later. */
  function InsertByStart(t: seq<Fight>, x: Fight): (r: seq<Fight>)
    requires SortedByStart(t)
    ensures |r| == |t| + 1
    ensures forall y :: y in r ==> y in t || y == x
    ensures SortedByStart(r)
    ensures multiset(r) == multiset(t) + multiset{x}
  {
    if t == [] then [x]
    else if t[|t| - 1].startTime <= x.startTime then
      SortedSnoc(t, x);
      t + [x]
    else
      var init, last := t[..|t| - 1], t[|t| - 1];
      assert t == init + [last];
      var ins := InsertByStart(init, x);
      assert forall y :: y in ins ==> y.startTime <= last.startTime;
      SortedSnoc(ins, last);
      ins + [last]
  }

  /** Appending a fight that starts no earlier than every fight keeps the
      order. */
  lemma SortedSnoc(s: seq<Fight>, y: Fight)
    requires SortedByStart(s)
    requires forall z :: z in s ==> z.startTime <= y.startTime
    ensures SortedByStart(s + [y])
  {
    forall i, j | 0 <= i < j < |s + [y]|
      ensures (s + [y])[i].startTime <= (s + [y])[j].startTime
    {
      if j == |s| {
        assert s[i] in s;
      }
    }
  }

  /** The fights in ascending start order, a permutation of the input. */
  function SortByStart(s: seq<Fight>): (r: seq<Fight>)
    ensures |r| == |s|
    ensures SortedByStart(r)
    ensures multiset(r) == multiset(s)
  {
    if s == [] then []
    else
      assert s == s[..|s| - 1] + [s[|s| - 1]];
      InsertByStart(SortByStart(s[..|s| - 1]), s[|s| - 1])
  }

  /** The fights of `s` that start at `k`, in their order in `s`. */
  function StartingAt(s: seq<Fight>, k: int): seq<Fight>
  {
    if s == [] then []
    else StartingAt(s[..|s| - 1], k) + (if s[|s| - 1].startTime == k then [s[|s| - 1]] else [])
  }

  lemma {:induction false} InsertKeepsTies(t: seq<Fight>, x: Fight, k: int)
    requires SortedByStart(t)
    ensures StartingAt(InsertByStart(t, x), k) == StartingAt(t, k) + (if x.startTime == k then [x] else [])
  {
    if t == [] {
    } else if t[|t| - 1].startTime <= x.startTime {
      StartingAtSnoc(t, x, k);
    } else {
      var init, last := t[..|t| - 1], t[|t| - 1];
      InsertKeepsTies(init, x, k);
      var ins := InsertByStart(init, x);
      assert InsertByStart(t, x) == ins + [last];
      TiesStep(ins, init, last, x, k);
    }
  }

  /** Appending a fight that starts after `x` to both sides keeps the ties
      of `x` in place. */
  lemma TiesStep(ins: seq<Fight>, init: seq<Fight>, last: Fight, x: Fight, k: int)
    requires StartingAt(ins, k) == StartingAt(init, k) + (if x.startTime == k then [x] else [])
    requires x.startTime < last.startTime
    ensures StartingAt(ins + [last], k)
      == StartingAt(init, k) + (if last.startTime == k then [last] else []) + (if x.startTime == k then [x] else [])
  {
    StartingAtSnoc(ins, last, k);
    TiesCommute(StartingAt(init, k), x, last, k);
  }

  /** Fights with different start times never both start at `k`, so their
      ties can be appended in either order. */
  lemma TiesCommute(before: seq<Fight>, x: Fight, last: Fight, k: int)
    requires x.startTime < last.startTime
    ensures before + (if x.startTime == k then [x] else []) + (if last.startTime == k then [last] else [])
      == before + (if last.startTime == k then [last] else []) + (if x.startTime == k then [x] else [])
  {
    if x.startTime == k {
      assert before + [x] + [] == before + [] + [x];
    } else if last.startTime == k {
      assert before + [] + [last] == before + [last] + [];
    }
  }

  lemma StartingAtSnoc(s: seq<Fight>, y: Fight, k: int)
    ensures StartingAt(s + [y], k) == StartingAt(s, k) + (if y.startTime == k then [y] else [])
  {
    assert (s + [y])[..|s|] == s;
  }

  /** The sort is stable: fights that start at the same time keep their
      relative order. */
  lemma {:induction false} SortIsStable(s: seq<Fight>, k: int)
    ensures StartingAt(SortByStart(s), k) == StartingAt(s, k)
  {
    if s != [] {
      SortIsStable(s[..|s| - 1], k);
      InsertKeepsTies(SortByStart(s[..|s| - 1]), s[|s| - 1], k);
    }
  }

  /** Sorting keeps exactly the same fights. */
  lemma SortKeepsMembers(s: seq<Fight>)
    ensures forall f :: f in SortByStart(s) <==> f in s
  {
    var r := SortByStart(s);
    forall f ensures f in r <==> f in s {
      assert f in r <==> f in multiset(r);
      assert f in s <==> f in multiset(s);
    }
  }
}
