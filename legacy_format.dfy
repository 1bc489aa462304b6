/** The older `format_timestamp` of app.py: it rounds |ms| to the nearest whole
    second (half to even) and prints unbounded hours, with no days field. */
module LegacyFormat {
  import opened Wrappers
  import opened Rounding
  import opened TimeFormat

  /** The fields printed for whole seconds `total`: hours are not wrapped. */
  function LegacyParts(total: nat): (p: Parts)
    ensures p.days == 0 && p.minutes < 60 && p.seconds < 60
    ensures p.hours * 3600 + p.minutes * 60 + p.seconds == total
  {
    Parts(0, total / 3600, (total % 3600) / 60, total % 60)
  }

  /** Whole seconds nearest to |ms|. */
  function LegacySeconds(ms: int): nat
  {
    RoundSecondsNonNegative(Abs(ms));
    RoundSeconds(Abs(ms))
  }

  /** `format_timestamp(ms, include_hours)` of app.py for a numeric `ms`. */
  function LegacyFormatMs(ms: int, includeHours: bool): string
  {
    Render(ms < 0, LegacyParts(LegacySeconds(ms)), includeHours)
  }

  /** The string shows the sign of `ms` and hours, minutes and seconds of the
      rounded magnitude, which lies within half a second of |ms|. */
  lemma LegacyFormatShows(ms: int, includeHours: bool)
    ensures var total := LegacySeconds(ms);
      && -500 <= total * 1000 - Abs(ms) <= 500
      && ParseClock(LegacyFormatMs(ms, includeHours), includeHours)
           == Some(Clock(ms < 0, if includeHours then total / 3600 else 0, (total % 3600) / 60, total % 60))
  {
    RenderParses(ms < 0, LegacyParts(LegacySeconds(ms)), includeHours);
  }

  /** Rounding, not flooring: 1591538 ms shows 26:32 here and 26:31 in the
      floor formatter; hours past a day keep counting. */
  lemma LegacyDiffersFromFloor()
    ensures LegacyFormatMs(1591538, true) == "0:26:32"
    ensures FormatMs(1591538, true) == "0:26:31"
    ensures LegacyFormatMs(90000000, true) == "25:00:00"
  {
    LegacyRoundsUp();
    FloorRoundsDown();
    LegacyHoursPastDay();
  }

  lemma LegacyRoundsUp()
    ensures LegacyFormatMs(1591538, true) == "0:26:32"
  {
    assert LegacySeconds(1591538) == 1592;
    assert LegacyParts(1592) == Parts(0, 0, 26, 32);
  }

  lemma FloorRoundsDown()
    ensures FormatMs(1591538, true) == "0:26:31"
  {
    assert FloorDecompose(1591) == Parts(0, 0, 26, 31) by { DecomposeFields(1591); }
    assert Abs(1591538) / 1000 == 1591;
  }

  lemma LegacyHoursPastDay()
    ensures LegacyFormatMs(90000000, true) == "25:00:00"
  {
    assert LegacySeconds(90000000) == 90000;
    assert LegacyParts(90000) == Parts(0, 25, 0, 0);
  }
}
