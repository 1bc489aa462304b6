/** The floor-based millisecond formatter `format_timestamp` of src/app.py
    (identical copies: tests/test_display_logic.py, tests/test_best_segments_fix.py,
    tests/test_start_times.py and `format_timestamp_gas` in test_rounding_fix.py),
    with the parser that reads its output back. */
module TimeFormat {
  import opened Wrappers
  import opened Decimal

  /** What a formatted string shows: sign, hours, minutes and seconds. */
  datatype Clock = Clock(negative: bool, hours: nat, minutes: nat, seconds: nat)

  /** Mixed-radix split of a whole number of seconds. */
  datatype Parts = Parts(days: nat, hours: nat, minutes: nat, seconds: nat)

  function Abs(x: int): nat { if x < 0 then -x else x }

  /** The successive floor-divide-and-subtract steps of the formatter, on whole
      seconds (the floor of |ms| / 1000). */
  function FloorDecompose(total: nat): (p: Parts)
    ensures p.hours < 24 && p.minutes < 60 && p.seconds < 60
    ensures p.days * 86400 + p.hours * 3600 + p.minutes * 60 + p.seconds == total
  {
    var days := total / 86400;
    var r1 := total - days * 86400;
    var hours := (r1 / 3600) % 24;
    assert hours * 3600 <= r1;
    var r2 := r1 - hours * 3600;
    var minutes := (r2 / 60) % 60;
    assert minutes * 60 <= r2;
    var r3 := r2 - minutes * 60;
    Parts(days, hours, minutes, r3 % 60)
  }

  /** The string assembled from a sign and clock fields: "[-]H:MM:SS", or
      "[-]MM:SS" without hours. */
  function Render(negative: bool, p: Parts, includeHours: bool): string
    requires p.minutes < 60 && p.seconds < 60
  {
    (if negative then "-" else "")
      + (if includeHours then Digits(p.hours) + ":" else "")
      + Pad2(p.minutes) + ":" + Pad2(p.seconds)
  }

  /** `format_timestamp(ms, include_hours)` for a numeric `ms`. */
  function FormatMs(ms: int, includeHours: bool): string
  {
    Render(ms < 0, FloorDecompose(Abs(ms) / 1000), includeHours)
  }

  /** `format_timestamp` on any value: a non-number prints as "---". */
  function FormatTimestamp(ms: Option<int>, includeHours: bool): (s: string)
    ensures ms.None? <==> s == "---"
  {
    match ms
    case None => "---"
    case Some(v) => FormatMs(v, includeHours)
  }

  /** Reads "[-]H:MM:SS" (withHours) or "[-]MM:SS" back into its fields. */
  function ParseClock(t: string, withHours: bool): Option<Clock>
  {
    var negative := |t| >= 1 && t[0] == '-';
    match ParseFields(if negative then t[1..] else t, withHours)
    case Some(c) => Some(c.(negative := negative))
    case None => None
  }

  /** Reads the unsigned "H:MM:SS" (withHours) or "MM:SS" into its fields. */
  function ParseFields(b: string, withHours: bool): Option<Clock>
  {
    var n := |b|;
    if withHours then
      if n < 7 || b[n - 3] != ':' || b[n - 6] != ':' then None
      else match (ParseNat(b[..n - 6]), ParseNat(b[n - 5..n - 3]), ParseNat(b[n - 2..]))
        case (Some(h), Some(m), Some(s)) => Some(Clock(false, h, m, s))
        case _ => None
    else
      if n != 5 || b[2] != ':' then None
      else match (ParseNat(b[..2]), ParseNat(b[3..]))
        case (Some(m), Some(s)) => Some(Clock(false, 0, m, s))
        case _ => None
  }

  /** A rendered string reads back as exactly the sign and fields it was made
      from (hours only when they are printed). */
  lemma RenderParses(negative: bool, p: Parts, includeHours: bool)
    requires p.minutes < 60 && p.seconds < 60
    ensures ParseClock(Render(negative, p, includeHours), includeHours)
      == Some(Clock(negative, if includeHours then p.hours else 0, p.minutes, p.seconds))
  {
    if includeHours {
      RenderParsesWithHours(negative, p);
    } else {
      RenderParsesWithoutHours(negative, p);
    }
  }

  lemma RenderParsesWithHours(negative: bool, p: Parts)
    requires p.minutes < 60 && p.seconds < 60
    ensures ParseClock(Render(negative, p, true), true) == Some(Clock(negative, p.hours, p.minutes, p.seconds))
  {
    SignedRender(negative, p, true);
    UnsignedParsesWithHours(p);
    assert ParseFields(Render(false, p, true), true) == Some(Clock(false, p.hours, p.minutes, p.seconds));
  }

  lemma RenderParsesWithoutHours(negative: bool, p: Parts)
    requires p.minutes < 60 && p.seconds < 60
    ensures ParseClock(Render(negative, p, false), false) == Some(Clock(negative, 0, p.minutes, p.seconds))
  {
    SignedRender(negative, p, false);
    UnsignedParsesWithoutHours(p);
    assert ParseFields(Render(false, p, false), false) == Some(Clock(false, 0, p.minutes, p.seconds));
  }

  /** The rendered string starts with '-' iff the sign is negative, and the
      rest is the unsigned rendering. */
  lemma SignedRender(negative: bool, p: Parts, includeHours: bool)
    requires p.minutes < 60 && p.seconds < 60
    ensures var t := Render(negative, p, includeHours);
      (|t| >= 1 && t[0] == '-') == negative
      && (if negative then t[1..] else t) == Render(false, p, includeHours)
  {
    var t := Render(negative, p, includeHours);
    var b := Render(false, p, includeHours);
    assert t == (if negative then "-" else "") + b;
    assert b[0] != '-' by {
      if includeHours { assert b[0] == Digits(p.hours)[0]; } else { assert b[0] == Pad2(p.minutes)[0]; }
    }
  }

  /** The unsigned "H:MM:SS" form splits back into its three numbers. */
  lemma UnsignedParsesWithHours(p: Parts)
    requires p.minutes < 60 && p.seconds < 60
    ensures var b := Render(false, p, true);
      var n := |b|;
      n >= 7 && b[n - 3] == ':' && b[n - 6] == ':'
      && ParseNat(b[..n - 6]) == Some(p.hours)
      && ParseNat(b[n - 5..n - 3]) == Some(p.minutes)
      && ParseNat(b[n - 2..]) == Some(p.seconds)
  {
    var hh, mm, ss := Digits(p.hours), Pad2(p.minutes), Pad2(p.seconds);
    ParseDigits(p.hours);
    ParsePad2(p.minutes);
    ParsePad2(p.seconds);
    var b := Render(false, p, true);
    var n := |b|;
    assert b == hh + [':'] + mm + [':'] + ss;
    assert b[..n - 6] == hh;
    assert b[n - 5..n - 3] == mm;
    assert b[n - 2..] == ss;
  }

  /** The unsigned "MM:SS" form splits back into its two numbers. */
  lemma UnsignedParsesWithoutHours(p: Parts)
    requires p.minutes < 60 && p.seconds < 60
    ensures var b := Render(false, p, false);
      |b| == 5 && b[2] == ':'
      && ParseNat(b[..2]) == Some(p.minutes) && ParseNat(b[3..]) == Some(p.seconds)
  {
    var mm, ss := Pad2(p.minutes), Pad2(p.seconds);
    ParsePad2(p.minutes);
    ParsePad2(p.seconds);
    var b := Render(false, p, false);
    assert b == mm + [':'] + ss;
    assert b[..2] == mm;
    assert b[3..] == ss;
  }

  /** The string shows the sign of `ms` and the floor decomposition of |ms|. */
  lemma FormatParses(ms: int, includeHours: bool)
    ensures var p := FloorDecompose(Abs(ms) / 1000);
      ParseClock(FormatMs(ms, includeHours), includeHours)
        == Some(Clock(ms < 0, if includeHours then p.hours else 0, p.minutes, p.seconds))
  {
    RenderParses(ms < 0, FloorDecompose(Abs(ms) / 1000), includeHours);
  }

  /** Always floor, never round: the time shown (days included) is the largest
      whole number of seconds not exceeding |ms|. */
  lemma FloorNeverRoundsUp(ms: int)
    ensures var p := FloorDecompose(Abs(ms) / 1000);
      var shown := p.days * 86400 + p.hours * 3600 + p.minutes * 60 + p.seconds;
      shown * 1000 <= Abs(ms) < shown * 1000 + 1000
  {
  }

  /** The fields are the usual clock fields of floor(|ms| / 1000) seconds:
      hours wrap at 24 (days are dropped), minutes and seconds at 60. */
  lemma {:induction false} DecomposeFields(total: nat)
    ensures FloorDecompose(total) == Parts(total / 86400, (total / 3600) % 24, (total / 60) % 60, total % 60)
  {
    var p := FloorDecompose(total);
    var q := total / 60;
    assert total == q * 60 + total % 60;
    assert p.days * 1440 + p.hours * 60 + p.minutes == q && p.seconds == total % 60 by {
      assert (p.days * 1440 + p.hours * 60 + p.minutes) * 60 + p.seconds == q * 60 + total % 60;
    }
    var r := q / 60;
    assert q == r * 60 + q % 60;
    assert p.days * 24 + p.hours == r && p.minutes == q % 60 by {
      assert (p.days * 24 + p.hours) * 60 + p.minutes == r * 60 + q % 60;
    }
    assert r == total / 3600;
    assert p.hours == r % 24 && p.days == r / 24;
    assert r / 24 == total / 86400;
  }

  /** A negative value prints as "-" followed by its magnitude. */
  lemma NegativeIsSigned(x: int, includeHours: bool)
    requires x > 0
    ensures FormatMs(-x, includeHours) == "-" + FormatMs(x, includeHours)
  {
  }

  /** Adding a day to a number of seconds changes only the days field. */
  lemma DayShift(t: nat)
    ensures var p, q := FloorDecompose(t), FloorDecompose(t + 86400);
      q.hours == p.hours && q.minutes == p.minutes && q.seconds == p.seconds
  {
    DecomposeFields(t);
    DecomposeFields(t + 86400);
    assert (t + 86400) / 3600 == t / 3600 + 24;
    assert (t / 3600 + 24) % 24 == (t / 3600) % 24;
    assert (t + 86400) / 60 == t / 60 + 1440;
    assert (t / 60 + 1440) % 60 == (t / 60) % 60;
    assert (t + 86400) % 60 == t % 60;
  }

  /** Whole days are discarded: adding a day does not change the output. */
  lemma DaysDiscarded(ms: nat, includeHours: bool)
    ensures FormatMs(ms + 86400000, includeHours) == FormatMs(ms, includeHours)
  {
    DayInMs(ms);
    DayShift(ms / 1000);
    SameFieldsSameFormat(ms + 86400000, ms, includeHours);
  }

  /** Two non-negative values whose hours, minutes and seconds agree print
      the same. */
  lemma SameFieldsSameFormat(x: nat, y: nat, includeHours: bool)
    requires var p, q := FloorDecompose(x / 1000), FloorDecompose(y / 1000);
      p.hours == q.hours && p.minutes == q.minutes && p.seconds == q.seconds
    ensures FormatMs(x, includeHours) == FormatMs(y, includeHours)
  {
    RenderIgnoresDays(FloorDecompose(y / 1000), FloorDecompose(x / 1000), includeHours);
  }

  lemma DayInMs(ms: nat)
    ensures (ms + 86400000) / 1000 == ms / 1000 + 86400
  {
  }

  /** Rendering reads every field but the days. */
  lemma RenderIgnoresDays(p: Parts, q: Parts, includeHours: bool)
    requires p.minutes < 60 && p.seconds < 60
    requires q.hours == p.hours && q.minutes == p.minutes && q.seconds == p.seconds
    ensures Render(false, q, includeHours) == Render(false, p, includeHours)
  {
  }

  /** Floor at the second boundary: 1591999 ms still shows 26:31. */
  lemma FloorAtBoundary()
    ensures FormatMs(1591999, true) == "0:26:31"
    ensures FormatMs(1592000, true) == "0:26:32"
  {
    assert FloorDecompose(1591) == Parts(0, 0, 26, 31) by { DecomposeFields(1591); }
    assert FloorDecompose(1592) == Parts(0, 0, 26, 32) by { DecomposeFields(1592); }
    assert Abs(1591999) / 1000 == 1591;
    assert Abs(1592000) / 1000 == 1592;
  }

  /** Without hours, 3661000 ms shows "01:01"; negative values carry a sign. */
  lemma HoursDroppedAndSign()
    ensures FormatMs(3661000, false) == "01:01"
    ensures FormatMs(-60000, true) == "-0:01:00"
  {
    assert FloorDecompose(3661) == Parts(0, 1, 1, 1) by { DecomposeFields(3661); }
    assert FloorDecompose(60) == Parts(0, 0, 1, 0) by { DecomposeFields(60); }
    assert Abs(3661000) / 1000 == 3661;
    assert Abs(-60000) / 1000 == 60;
  }
}
