/** The individual-segment loop of the timing comparison test: each fight's
    segment is its relative end minus the previous fight's relative end, the
    first fight's segment being its relative end itself. */
module SegmentTimes {
  import opened Wrappers
  import opened TimeFormat
  import opened Decimal

  /** The segment of fight `i` given the relative ends of all fights. */
  function SegmentAt(ends: seq<int>, i: nat): int
    requires i < |ends|
  {
    if i == 0 then ends[0] else ends[i] - ends[i - 1]
  }

  /** The segments of all fights, in order. */
  function Segments(ends: seq<int>): (segs: seq<int>)
    ensures |segs| == |ends|
  {
    if ends == [] then [] else Segments(ends[..|ends| - 1]) + [SegmentAt(ends, |ends| - 1)]
  }

  function Sum(xs: seq<int>): int
  {
    if xs == [] then 0 else Sum(xs[..|xs| - 1]) + xs[|xs| - 1]
  }

  /** The running sums of a sequence: entry `i` is the sum of its first
      `i + 1` elements. */
  function RunningSums(xs: seq<int>): (r: seq<int>)
    ensures |r| == |xs|
  {
    if xs == [] then [] else RunningSums(xs[..|xs| - 1]) + [Sum(xs)]
  }

  lemma {:induction false} SegmentsAt(ends: seq<int>, i: nat)
    requires i < |ends|
    ensures Segments(ends)[i] == SegmentAt(ends, i)
  {
    var init := ends[..|ends| - 1];
    if i < |ends| - 1 {
      SegmentsAt(init, i);
      assert SegmentAt(init, i) == SegmentAt(ends, i);
    }
  }

  /** The segments telescope: together they add up to the last relative
      end. */
  lemma {:induction false} SegmentsTelescope(ends: seq<int>)
    ensures Sum(Segments(ends)) == if ends == [] then 0 else ends[|ends| - 1]
  {
    if |ends| > 1 {
      var init := ends[..|ends| - 1];
      SegmentsTelescope(init);
      assert Segments(ends)[..|ends| - 1] == Segments(init);
    }
  }

  /** The running sums of the segments give back the relative ends: the
      segments lose nothing. */
  lemma {:induction false} SegmentsRoundTrip(ends: seq<int>)
    ensures RunningSums(Segments(ends)) == ends
  {
    if ends != [] {
      var init := ends[..|ends| - 1];
      SegmentsRoundTrip(init);
      SegmentsTelescope(ends);
      var segs := Segments(ends);
      assert segs[..|segs| - 1] == Segments(init);
      assert ends == init + [ends[|ends| - 1]];
    }
  }

  /** The loop of the test, carrying `previous_end`. */
  method ComputeSegments(ends: seq<int>) returns (segs: seq<int>)
    ensures segs == Segments(ends)
  {
    segs := [];
    var previousEnd := 0;
    for i := 0 to |ends|
      invariant segs == Segments(ends[..i])
      invariant i > 0 ==> previousEnd == ends[i - 1]
    {
      var pre := ends[..i + 1];
      assert pre[..|pre| - 1] == ends[..i];
      var segmentTime := if i == 0 then ends[i] else ends[i] - previousEnd;
      segs := segs + [segmentTime];
      previousEnd := ends[i];
    }
    assert ends[..|ends|] == ends;
  }

  /** The segments as the test shows them: the floor formatter without
      hours, "-" before a negative segment. */
  function SegmentLabels(ends: seq<int>): (labels: seq<string>)
    ensures |labels| == |ends|
  {
    var segs := Segments(ends);
    seq(|segs|, i requires 0 <= i < |segs| => FormatTimestamp(Some(segs[i]), false))
  }

  /** A segment label starts with "-" exactly when the fight ended before
      the previous one. */
  lemma {:induction false} LabelSign(ends: seq<int>, i: nat)
    requires 0 < i < |ends|
    ensures SegmentLabels(ends)[i][0] == '-' <==> ends[i] < ends[i - 1]
  {
    SegmentsAt(ends, i);
    var v := ends[i] - ends[i - 1];
    var p := FloorDecompose(Abs(v) / 1000);
    assert SegmentLabels(ends)[i] == Render(v < 0, p, false);
    if v >= 0 {
      assert Render(v < 0, p, false)[0] == Pad2(p.minutes)[0];
    }
  }

  /** The relative ends of the test's nine AQ40 bosses. */
  const SampleEnds: seq<int> := [77412, 223950, 341691, 445044, 579531, 730526, 1000476, 1379264, 1591538]

  /** The first segments of the sample, and the sum of all nine. */
  lemma SampleSegments()
    ensures Segments(SampleEnds)[0] == 77412
    ensures Segments(SampleEnds)[1] == 146538
    ensures Segments(SampleEnds)[8] == 212274
    ensures Sum(Segments(SampleEnds)) == 1591538
  {
    SegmentsAt(SampleEnds, 0);
    SegmentsAt(SampleEnds, 1);
    SegmentsAt(SampleEnds, 8);
    SegmentsTelescope(SampleEnds);
  }
}
