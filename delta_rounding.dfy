/** test_rounding_fix.py: the signed delta formatter and the two ways of
    rounding a difference of two millisecond times to whole seconds. */
module DeltaRounding {
  import opened Wrappers
  import opened Rounding
  import opened TimeFormat

  /** `format_delta`: "" for no value, otherwise "+", "-" or no sign followed by
      the floor MM:SS form of the magnitude. */
  function FormatDelta(delta: Option<int>): string
  {
    match delta
    case None => ""
    case Some(d) =>
      var formatted := FormatMs(Abs(d), false);
      if d > 0 then "+" + formatted
      else if d < 0 then "-" + formatted
      else formatted
  }

  /** `test_old_method`: round each time to whole seconds, then subtract. */
  function OldMethod(base: int, comp: int): int
  {
    RoundSeconds(base) * 1000 - RoundSeconds(comp) * 1000
  }

  /** `test_new_method`: subtract, then round the difference once. */
  function NewMethod(base: int, comp: int): (r: int)
    ensures r % 1000 == 0
    ensures -500 <= r - (base - comp) <= 500
  {
    RoundSeconds(base - comp) * 1000
  }

  /** What a formatted delta shows: an absent delta is empty; otherwise the sign
      (none for zero) and the minutes and seconds of floor(|d| / 1000). */
  lemma FormatDeltaShows(d: int)
    ensures FormatDelta(None) == ""
    ensures var r := FormatDelta(Some(d));
      var total := Abs(d) / 1000;
      var body := if d == 0 then r else r[1..];
      && |r| >= 1
      && (d > 0 ==> r[0] == '+')
      && (d < 0 ==> r[0] == '-')
      && ParseClock(body, false) == Some(Clock(false, 0, (total / 60) % 60, total % 60))
  {
    var total := Abs(d) / 1000;
    FormatParses(Abs(d), false);
    DecomposeFields(total);
  }

  /** Rounding each operand can move the result by up to a second. */
  lemma OldMethodWithinASecond(base: int, comp: int)
    ensures OldMethod(base, comp) % 1000 == 0
    ensures -1000 <= OldMethod(base, comp) - (base - comp) <= 1000
  {
  }

  /** The case the repository fixed: 750500 vs 730600 ms. The raw difference
      is 19900 ms; the old method gives 19000 (+00:19), the new one 20000
      (+00:20), the whole second nearest the raw difference. */
  lemma HuhuranCase()
    ensures OldMethod(750500, 730600) == 19000
    ensures NewMethod(750500, 730600) == 20000
    ensures FormatDelta(Some(20000)) == "+00:20"
    ensures FormatDelta(Some(19000)) == "+00:19"
  {
    assert RoundSeconds(750500) == 750;
    assert RoundSeconds(730600) == 731;
    assert RoundSeconds(19900) == 20;
    assert FloorDecompose(20) == Parts(0, 0, 0, 20) by { DecomposeFields(20); }
    assert FloorDecompose(19) == Parts(0, 0, 0, 19) by { DecomposeFields(19); }
    assert Abs(20000) / 1000 == 20;
    assert Abs(19000) / 1000 == 19;
  }
}
