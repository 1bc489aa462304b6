# WCL Time Splits Analyzer — timing core in Dafny

WCL Time Splits Analyzer is a small web application. It takes Warcraft Logs (WCL) combat
reports and turns each raid run into a split table. Every fight gets its time relative
to the raid start and its duration. Boss fights also get their individual segment time,
every fight gets the idle gap before it, and Naxxramas wing kills get a wing-clear time.
Runs can then be compared against each other, boss by boss.

This project models that timing core on integer milliseconds and proves what it
promises. It covers:

- **Report-ID normalisation** (`ReportId`, front of `get_wcl_data` in `src/app.py`).
  The input is trimmed, a report URL is cut down to its ID, and the character set is
  validated.
- **Zone and boundary resolution** (`ZoneResolver`, `find_raid_zone_times`). This step
  groups fights by recognised zone, picks the zone with the most fights (the first one
  wins a tie), and falls back to the report's top-level zone. It then filters fights by
  name, duration and hostile enemies, takes the raid start and end from the valid fights
  in start order, and applies a `completeRaids` override.
- **Timeline building** (`Timeline`, `TimelineFacts`, `WingClear`, `process_fights`).
  - An overlap, duration and enemy filter keeps fights and clamps each fight's end to
    the zone end.
  - One forward pass over the kept fights in start order carries the previous fight's
    end, the previous boss's end and the wing-clear table.
  - `Timeline.ProcessedReport` is the processed report. Its fight list is appended to
    by that pass.
- **Cross-run deltas** (`Deltas`, `calculate_deltas`). A lookup from boss name to boss
  fight is built for the second run. For each boss of the first run that has a match,
  the method writes a `delta` into that fight, in place.
- **Time formatting** (`TimeFormat`, `format_timestamp`). The floor-based H:MM:SS and
  MM:SS formatter, with a `Decimal` reader used to show that the text can be read back.
- **The legacy application** (`app.py`). It has its own resolver (`LegacyResolver`),
  which reports unrecognised zones. Its timeline (`LegacyTimeline`) rounds every
  relative time to whole seconds. Its formatter (`LegacyFormat`) rounds half to even
  (`Rounding`).
- **Best-segment aggregation** (`BestSegments`, the aggregation loops of
  `tests/test_display_logic.py` and `tests/test_best_segments_fix.py`). For each boss
  name, it keeps the smallest individual segment across runs (the earliest run wins a
  tie) and its cumulative display time, and sums the theoretical best.
- **The small helpers**:
  - the delta rounding and signed formatting of `test_rounding_fix.py` (`DeltaRounding`);
  - the segment loop of `tests/test_start_times.py` (`SegmentTimes`).

Code that changes state step by step is written as methods, each proved equal to a
specification function:

- grouping, filtering and zone choice;
- the timeline pass inside `ProcessedReport.AppendFights`;
- the delta pass;
- the aggregation loops.

The properties are proved about those functions.

Python's behaviour is modelled explicitly where it matters:

- `sorted` is stable;
- `max` over a dict returns the first maximum in insertion order;
- a dict entry written again keeps its place;
- `round` rounds half to even;
- `next()` finds the first matching fight;
- a set is iterated in an unspecified order, so the method picks any remaining name.

Two quirks are modelled as written:

- in `src/app.py`, `idle_time` subtracts `zone_start` from an already absolute gap;
- in `calculate_deltas`, the last duplicate name in the second run wins.

## Model

| member | source | states |
|---|---|---|
| Text.StripSpec | src/app.py:78-81 | `strip()` removes exactly the leading and trailing whitespace: the result is a contiguous slice whose outside is all whitespace and whose ends are not |
| Text.IndexOf | src/app.py:84 | the position found is an occurrence with no earlier occurrence, and None means the pattern occurs nowhere |
| Text.Before | src/app.py:86 | `split(sep)[0]` is the whole text when the separator is absent, and exactly the text before its first occurrence when it is present |
| Text.SecondPiece | src/app.py:86-88 | `split(sep)[1]` exists exactly when the separator occurs (otherwise IndexError) |
| Text.RemoveChar | src/app.py:91 | `replace(c, '')` leaves no `c`, keeps every other character with its multiplicity and adds none |
| Text.RemoveCharConcat | src/app.py:91 | removal works piece by piece over a concatenation, so the kept characters stay in their original order |
| Decimal.ParsePad2 | src/app.py:67-68 | a `:02d` field of a number below 100 reads back as that number |
| ReportId.AllSpaceStripsToEmpty | src/app.py:78 | stripping gives the empty string exactly when the input is all whitespace |
| ReportId.BlankIsEmptyError | src/app.py:78-79 | "Report ID cannot be empty" is returned for empty or all-whitespace input and for nothing else |
| ReportId.InvalidUrlUnreachable | src/app.py:84-88 | the "Invalid report URL format" error is never returned, since input containing the URL marker always contains "reports/" |
| ReportId.UrlIdShape | src/app.py:86 | from a URL, the ID is the text right after the first "reports/", cut at the first '#', '?' or further "reports/": it contains no '#' or '?', no "reports/" starts inside it, and it ends at the end of the text or at one of those cut points |
| ReportId.CandidateShape | src/app.py:83-88 | the ID to validate is the trimmed input when it is not a report URL, and otherwise the piece cut from the URL as above, with no "reports/" starting inside it |
| ReportId.AcceptedMeans | src/app.py:78-92 | the input is accepted exactly when it is not blank and the ID cut from it consists of letters, digits, '-' and '_' with at least one letter or digit; the accepted value is that ID, and other non-blank input gets "Invalid report ID format" with that ID |
| ReportId.ValidIdFormatMeans | src/app.py:91 | `replace('-', '').replace('_', '').isalnum()` holds exactly when every character is a letter, digit, '-' or '_' and at least one is a letter or digit |
| ReportId.ValidIdChars | src/app.py:91-92 | an ID passing the character-set check consists only of letters, digits, '-' and '_' (letters and digits being ASCII in this model) |
| ReportId.NoMarkerInIdChars | src/app.py:84 | text made of ID characters never contains the URL marker |
| ReportId.ValidIdIsFixedPoint | src/app.py:78-92 | a valid ID is returned unchanged |
| ReportId.NormaliseIdempotent | src/app.py:78-92 | normalising an accepted ID again gives the same ID |
| FightOrder.SortByStart | src/app.py:146 | `sorted(key=start_time)` is ordered by start time and is a permutation of its input |
| FightOrder.SortIsStable | src/app.py:146 | fights with equal start times keep their input order |
| FightOrder.SortKeepsMembers | src/app.py:152 | sorting keeps exactly the same fights |
| ZoneResolver.SeenZones | src/app.py:134-141 | the keys of `zone_fights`, in insertion order, have no repeats, are exactly the recognised zones of the fights, and are empty exactly when no fight is recognised |
| ZoneResolver.ZoneGroup | src/app.py:139-141 | a zone's group holds exactly the fights recognised as that zone |
| ZoneResolver.FirstMaxIndex | src/app.py:145 | the chosen count is a maximum, and every earlier count is strictly smaller |
| ZoneResolver.FirstMaxUnique | src/app.py:145 | any index with those two properties is the chosen one |
| ZoneResolver.ValidFights | src/app.py:157-179 | the valid-fight list is never longer than the candidates |
| ZoneResolver.ValidFightsMembers | src/app.py:157-182 | a candidate is kept iff it is valid, and the list is empty iff no candidate is valid |
| ZoneResolver.ValidKeepsOrder | src/app.py:157-179 | filtering sorted candidates keeps them sorted by start |
| ZoneResolver.OfficialEnd | src/app.py:188-194 | with no `completeRaids` entry overriding, the end is unchanged; otherwise the last overriding entry's end wins |
| ZoneResolver.GroupByZone | src/app.py:134-141 | the grouping loop builds exactly the seen zones in order and each zone's group |
| ZoneResolver.PickPrimary | src/app.py:145 | the picked zone has the most fights, and every zone before it has strictly fewer |
| ZoneResolver.HasHostileEnemy | src/app.py:163-172 | the early-exit enemy scan answers yes iff some NPC or Boss enemy lists the fight id |
| ZoneResolver.SelectValidFights | src/app.py:157-179 | the filter loop yields exactly the valid candidates in order |
| ZoneResolver.ApplyCompleteRaids | src/app.py:188-194 | the override loop yields the official end |
| ZoneResolver.ChooseZone | src/app.py:133-154 | the zone choice, with its top-level fallback and its error, equals the specification of the candidates |
| ZoneResolver.FindRaidZoneTimes | src/app.py:128-196 | the whole resolver equals the specification: zone, start and end, or the error |
| ZoneResolver.PrimaryZoneMostFights | src/app.py:144-145 | the primary zone is a seen zone with the most fights, and a zone tying with it was seen later |
| ZoneResolver.FirstMaxZone | src/app.py:145 | the first maximum of the counts beats or ties every zone and was seen before any zone it ties with |
| ZoneResolver.FallbackUsesAllFights | src/app.py:147-152 | with no recognised fight and a recognised top-level zone, that zone is used with all fights, sorted |
| ZoneResolver.ResolveErrors | src/app.py:130-182 | each of the three errors happens exactly in its case: no fights; no recognised zone and no usable top-level zone; no valid candidate |
| ZoneResolver.CandidatesSorted | src/app.py:146-152 | the candidates of the chosen zone are sorted by start |
| ZoneResolver.ValidSpan | src/app.py:157-186 | the first and last valid fights bound all valid start times, and the last ends more than 4 s after the first starts |
| ZoneResolver.ResolvedFromCandidates | src/app.py:144-196 | a resolved boundary comes from the chosen zone's candidates |
| ZoneResolver.CandidateBounds | src/app.py:184-194 | the start is the earliest valid start; without an override, the end is the end of the last valid fight in start order and lies more than 4 s after the start |
| ZoneResolver.BoundaryFacts | src/app.py:184-194 | the same facts for the full resolver, about the report's own candidates |
| ZoneResolver.ExampleValidity | src/app.py:159-179 | a boss fight listed by a hostile enemy is valid; a 3-second fight is not; a listed trash fight is |
| ZoneResolver.FilterExample | src/app.py:157-179 | filtering those three fights keeps the boss and the trash fight, in order |
| ZoneResolver.ValidSnoc | src/app.py:178-179 | one more candidate adds itself to the valid list iff it is valid |
| ZoneResolver.NoEnemiesFallback | src/app.py:173-176 | without `enemies`, a fight is valid iff its name is not "Unknown", it lasts more than 4 s, and it is a boss or lasts more than 10 s |
| WingClear.MaxClearIsMax | src/app.py:293 | the max of the wing table bounds every wing time and is one of them |
| WingClear.SetClear | src/app.py:295 | writing a wing never shrinks the table |
| WingClear.SetClearOnlyThisKey | src/app.py:295 | writing a wing changes that wing's entry and no other, and adds it at the end only when it is new |
| WingClear.MatchWing | src/app.py:291-292 | a matched wing index is in range |
| WingClear.MatchWingFirst | src/app.py:291-296 | the match is the first wing whose ids hold the boss; None iff no wing holds it |
| WingClear.FindWing | src/app.py:291-296 | the loop with `break` finds that first match |
| WingClear.MatchWingUnique | src/app.py:291-296 | a wing that holds the boss, with no earlier wing holding it, is the match |
| WingClear.SetClearMax | src/app.py:293-295 | writing a time no smaller than the max makes it the new max |
| WingClear.NaxxWingsAreDisjoint | src/config.py:47-54 | the four wings' id sets are disjoint; Thaddius and Maexxna match their wings and a non-wing boss matches none; the initial table is all 0 and holds every wing |
| Timeline.ProcessedReport.constructor | src/app.py:212-219 | a new processed report has the given title, zone, date and total duration, and empty fight and timeline lists |
| Timeline.ProcessedReport.AppendFights | src/app.py:261-321 | the forward pass appends exactly the encounters and timeline entries of the specification pass |
| Timeline.NextEncounter | src/app.py:262-321 | one loop iteration emits the specified encounter and the next carried state |
| Timeline.WingStep | src/app.py:286-296 | the wing block yields the specified wing time and table |
| Timeline.Clamp | src/app.py:248-249 | the clamped fight ends at the smaller of its end and the zone end, and nothing else changes |
| Timeline.KeptFights | src/app.py:222-250 | the kept list is never longer than the report's fights |
| Timeline.KeptFightsMembers | src/app.py:222-250 | every kept fight ends by the zone end; every passing fight is kept clamped; every kept fight is a clamped passing fight |
| Timeline.KeepFights | src/app.py:222-250 | the filter loop yields exactly the kept fights |
| Timeline.WingUpdate | src/app.py:289-296 | the wing table never shrinks |
| Timeline.NextCarry | src/app.py:276-321 | the carried wing table never shrinks |
| Timeline.Step | src/app.py:298-317 | each fight adds exactly one encounter and one timeline entry |
| Timeline.StepAppends | src/app.py:298-321 | a step appends the emitted encounter and its timeline entry and moves to the next carry |
| Timeline.Pass | src/app.py:261-321 | the pass emits one encounter and one timeline entry per fight |
| Timeline.PassSnoc | src/app.py:261 | the pass over one more fight is one more step |
| Timeline.ProcessFights | src/app.py:199-323 | errors pass through unchanged; otherwise a fresh report with the title, zone, date, total duration = end − start, and the encounters and entries of the pass over the sorted kept fights |
| TimelineFacts.EncounterAt | src/app.py:261-308 | encounter i is computed from the state carried over fights 0..i−1 |
| TimelineFacts.EntryAt | src/app.py:311-317 | timeline entry i holds fight i's name, relative start and end, boss flag and kill flag |
| TimelineFacts.ClearsAt | src/app.py:289-295 | the wing table after fight i is the wing update of fight i |
| TimelineFacts.EmittedFields | src/app.py:262-296 | boss flag, segment (boss end minus previous boss end), idle (None first, else start − previous end − zone start) and wing time of one encounter |
| TimelineFacts.CarriedState | src/app.py:276-321 | after the pass, the previous fight end is the last fight's absolute end, and the previous boss end is the last boss's relative end |
| TimelineFacts.EncounterFields | src/app.py:262-308 | name with " (Trash)" for non-bosses, boss and kill flags, relative start and end, duration and no delta |
| TimelineFacts.SegmentTimes | src/app.py:272-277 | a fight has a segment exactly when it is a boss, and a boss's segment is its relative end minus the last earlier boss's relative end |
| TimelineFacts.NoBossNoEnd | src/app.py:259 | with no boss so far, the previous boss end is 0 |
| TimelineFacts.FirstBossSegment | src/app.py:259-277 | the first boss's segment is its relative end |
| TimelineFacts.SegmentsTelescope | src/app.py:272-277 | the boss segments sum to the last boss's relative end |
| TimelineFacts.IdleFromCarried | src/app.py:279-284 | idle is present exactly when the carried end is not −1, and is then start − carried end − zone start |
| TimelineFacts.PreviousEndAfter | src/app.py:258-321 | the end carried into a later fight is the previous fight's absolute end |
| TimelineFacts.FirstFightIdle | src/app.py:281-282 | the first fight has no idle time |
| TimelineFacts.IdleTimes | src/app.py:279-284 | a later fight has an idle time exactly when the previous fight's end is not −1, and it is its start − that end − zone start |
| TimelineFacts.EncountersInStartOrder | src/app.py:261-270 | the encounters are in ascending relative start |
| TimelineFacts.WingTableTracks | src/app.py:257-295 | after the pass, each wing holds the relative end of its last matched kill (0 if none), and the table keeps its four wings |
| TimelineFacts.WingOfMeans | src/app.py:289-292 | a fight gets a wing iff the zone is Naxxramas, it is a boss kill, and some wing lists its boss id |
| TimelineFacts.WingTimes | src/app.py:289-296 | encounter i's wing time and the next table come from the wing update of fight i |
| TimelineFacts.WingUpdateMeans | src/app.py:289-296 | no wing: no wing time and the table unchanged; a wing: relative end − max of the table, that wing set to the relative end, the others unchanged |
| TimelineFacts.NothingKeptWithoutEnemies | src/app.py:234-246 | without `enemies`, no fight is kept |
| TimelineFacts.NoEnemiesNoTimeline | src/app.py:234-253 | without `enemies`, processing always ends in an error |
| TimelineFacts.PlanFacts | src/app.py:204-261 | the fights of the pass are non-empty, sorted, a permutation of the kept fights, all ending by the zone end, each a clamped passing fight |
| Deltas.BaseNameOfPlainName | src/app.py:335 | a name without " (Trash)" is its own base name |
| Deltas.BossLookupLastWins | src/app.py:331-336 | the lookup has a name iff some boss fight has that base name, and it holds the last such fight |
| Deltas.BossLookupKeys | src/app.py:331-336 | the lookup's keys are exactly the base names of the boss fights |
| Deltas.BossLookupLast | src/app.py:331-336 | a name in the lookup maps to the last boss fight with that base name |
| Deltas.BuildBossLookup | src/app.py:331-336 | the lookup loop builds exactly that lookup |
| Deltas.WithDeltas | src/app.py:339-344 | adding deltas keeps the number of fights |
| Deltas.WithDeltasAt | src/app.py:339-344 | fight i gets its delta from the lookup alone |
| Deltas.DeltaMeans | src/app.py:338-344 | a matched boss's delta is its relative end − the last same-named boss's relative end in the other run; otherwise the fight is untouched; no other field changes |
| Deltas.DeltaStep | src/app.py:339-344 | writing fight i in place extends the processed prefix by one |
| Deltas.ApplyDeltas | src/app.py:338-344 | the delta loop over the first run's fights yields exactly the fights with deltas |
| Deltas.CalculateDeltas | src/app.py:326-344 | with both runs present and without error, the first run's fights become the fights with deltas; otherwise nothing changes; only the `fights` field may be written, so `timelineData` and the second run stay as they were |
| Deltas.DeltaExample | tests/test_timing.py:43-65 | Boss 1 at 60000 vs 65000 gets −5000; Boss 2 at 120000 vs 115000 gets 5000 |
| TimeFormat.FloorDecompose | src/app.py:58-64 | days, hours < 24, minutes < 60 and seconds < 60 add back up to the total seconds |
| TimeFormat.FormatTimestamp | src/app.py:40-41 | "---" is returned exactly for a non-numeric input |
| TimeFormat.RenderParses | src/app.py:66-73 | the rendered text reads back as the sign, the hours (only when shown), and the two-digit minutes and seconds |
| TimeFormat.UnsignedParsesWithHours | src/app.py:70-71 | the H:MM:SS form reads back as hours, minutes and seconds |
| TimeFormat.UnsignedParsesWithoutHours | src/app.py:72-73 | the MM:SS form is five characters and reads back as minutes and seconds |
| TimeFormat.FormatParses | src/app.py:44-73 | the output reads back as "-" iff ms < 0, then the floor decomposition of abs(ms) / 1000, hours dropped without `include_hours` |
| TimeFormat.FloorNeverRoundsUp | src/app.py:47-64 | the seconds shown (days included) × 1000 ≤ abs(ms) < that + 1000 |
| TimeFormat.DecomposeFields | src/app.py:58-64 | the fields are t div 86400, (t div 3600) mod 24, (t div 60) mod 60 and t mod 60 |
| TimeFormat.NegativeIsSigned | src/app.py:44-47 | a negative input prints as "-" followed by its absolute value's text |
| TimeFormat.DayShift | src/app.py:58-64 | adding a whole day leaves hours, minutes and seconds unchanged |
| TimeFormat.DaysDiscarded | src/app.py:58-73 | adding 86400000 ms does not change the text: days are discarded |
| TimeFormat.FloorAtBoundary | tests/test_timing.py:35-36 | 1591999 ms gives "0:26:31" and 1592000 ms gives "0:26:32" |
| TimeFormat.HoursDroppedAndSign | tests/test_timing.py:27-41 | 3661000 ms without hours gives "01:01"; −60000 ms gives "-0:01:00" |
| Rounding.RoundSeconds | app.py:74 | Python `round(n / 1000)` is within half a second of n, and an exact half goes to the even second |
| Rounding.RoundSecondsUnique | app.py:74 | any whole second with those two properties is the rounded one |
| Rounding.RoundSecondsNonNegative | app.py:74 | a non-negative time rounds to a non-negative second |
| LegacyFormat.LegacyParts | app.py:76-78 | hours are not wrapped, minutes < 60 and seconds < 60, and they add back up to the rounded seconds |
| LegacyFormat.LegacyFormatShows | app.py:69-84 | the rounded seconds lie within 500 ms of abs(ms), and the text reads back as the sign, unwrapped hours (when shown), minutes and seconds |
| LegacyFormat.LegacyDiffersFromFloor | app.py:74-82 | 1591538 ms gives "0:26:32" where the floor formatter gives "0:26:31"; 90000000 ms gives "25:00:00" |
| DeltaRounding.NewMethod | test_rounding_fix.py:52-56 | the new method is a multiple of 1000 within 500 of base − comp |
| DeltaRounding.FormatDeltaShows | test_rounding_fix.py:32-43 | None gives ""; otherwise "+" for positive, "-" for negative, no sign for zero, then the MM:SS floor text of abs(delta) |
| DeltaRounding.OldMethodWithinASecond | test_rounding_fix.py:45-50 | the old method is a multiple of 1000 within 1000 of base − comp |
| DeltaRounding.HuhuranCase | test_rounding_fix.py:64 | 750500 vs 730600: the old method gives 19000 and the new one 20000, shown "+00:20" instead of "+00:19" |
| LegacyResolver.UnrecognizedMeans | app.py:172-180 | the diagnostics hold exactly the name and id of each fight with a zone name and an unrecognised id |
| LegacyResolver.RealFights | app.py:209 | the list without "Unknown" fights is never longer |
| LegacyResolver.RealFightsMembers | app.py:209 | a fight remains iff it is in the input and its name is not "Unknown" |
| LegacyResolver.RealKeepsOrder | app.py:209 | removing "Unknown" fights keeps start order |
| LegacyResolver.GroupAndCollect | app.py:168-180 | the grouping loop builds the seen zones, their groups and the set of unrecognised zones |
| LegacyResolver.LegacyChooseZone | app.py:182-203 | the legacy zone choice equals its specification, including the error that lists unsupported zones |
| LegacyResolver.LegacyFindRaidZoneTimes | app.py:152-219 | the whole legacy resolver equals its specification |
| LegacyResolver.SelectRealFights | app.py:209 | the list comprehension keeps exactly the non-"Unknown" fights in order |
| LegacyResolver.CandidatesNonEmpty | app.py:205-206 | a chosen zone always has candidates |
| LegacyResolver.PrimaryZoneMostFightsHasOne | app.py:183-187 | the primary zone's group is never empty |
| LegacyResolver.LegacyErrors | app.py:165-212 | "missing fights" iff there are none; "unsupported zones" iff no fight has a recognised zone and the top-level zone is not recognised either; "only Unknown" iff every candidate is "Unknown"; "could not find any fights" never happens |
| LegacyResolver.UnsupportedListsZones | app.py:196-203 | the "unsupported zones" error lists exactly the unrecognised zones seen |
| LegacyResolver.LegacyBoundaryFacts | app.py:208-217 | the start is the earliest non-"Unknown" start; the end is the end of the last non-"Unknown" fight in start order |
| LegacyResolver.LegacyFromCandidates | app.py:182-219 | a resolved legacy boundary comes from the sorted candidates of the chosen zone |
| LegacyTimeline.LegacyReport.constructor | app.py:242-250 | a new legacy report has the given title, zone, date and total duration and no fights |
| LegacyTimeline.LegacyReport.AppendFights | app.py:270-304 | the legacy pass appends exactly the encounters of the specification pass |
| LegacyTimeline.LegacyNextEncounter | app.py:271-304 | one iteration emits the specified encounter and the next rounded end and wing table |
| LegacyTimeline.RelevantFights | app.py:259-264 | the relevant list is never longer than the fights |
| LegacyTimeline.RelevantFightsMembers | app.py:259-264 | a fight is relevant iff it starts within [start, end] inclusive and is not "Unknown" |
| LegacyTimeline.SelectRelevant | app.py:259-264 | the comprehension keeps exactly the relevant fights in order |
| LegacyTimeline.LegacyNextCarry | app.py:280-304 | the carried wing table never shrinks |
| LegacyTimeline.LegacyStep | app.py:291-304 | each fight adds exactly one encounter |
| LegacyTimeline.LegacyStepAppends | app.py:291-304 | a step appends the emitted encounter and moves to the next carry |
| LegacyTimeline.LegacyPass | app.py:270-304 | the pass emits one encounter per fight |
| LegacyTimeline.LegacyPassSnoc | app.py:271 | the pass over one more fight is one more step |
| LegacyTimeline.LegacyEncounterAt | app.py:271-303 | encounter i is computed from the state carried over fights 0..i−1 |
| LegacyTimeline.LegacyCarriedEnd | app.py:252-304 | the carried end is 0 before any fight, then the last fight's rounded relative end in seconds |
| LegacyTimeline.LegacyEmittedFields | app.py:273-300 | start and end are the rounded seconds × 1000 (multiples of 1000, within 500 ms of exact); duration = end − start; the idle formula; name and flags; a Naxxramas wing kill's wing time is its unrounded relative end minus the latest clear in the carried table, any other fight's is None |
| LegacyTimeline.LegacyTimes | app.py:273-298 | every emitted time is a multiple of 1000 within 500 ms of the exact relative time, and duration = end − start |
| LegacyTimeline.LegacyIdleFromCarried | app.py:299-300 | idle is (start_s − carried end_s) × 1000 when the carried end is positive, else 0 |
| LegacyTimeline.LegacyPreviousEnd | app.py:252-304 | the carried end is 0 before the first fight, and × 1000 it equals the previous encounter's relative end |
| LegacyTimeline.LegacyIdleTimes | app.py:299-304 | idle is start − previous encounter's end when that end is positive, else 0 |
| LegacyTimeline.LegacyClearsAgree | app.py:280-289 | the legacy wing table evolves exactly as the current one's, on unrounded times |
| LegacyTimeline.LegacyWingTimes | app.py:280-289 | the older pass gives every encounter the same wing time as the current pass |
| LegacyTimeline.LegacyPlanErrors | app.py:235-268 | an error results iff the fetch failed, the resolver failed, or no fight is relevant |
| LegacyTimeline.LegacyPlanFacts | app.py:238-271 | the fights processed are sorted, lie in the resolved zone and bounds, and are exactly the relevant fights of the report |
| LegacyTimeline.LegacyProcessFights | app.py:222-306 | errors pass through; otherwise a fresh report with the title, zone, date, unrounded total duration and the encounters of the legacy pass |
| BestSegments.RunBossNamesMeans | tests/test_display_logic.py:76-78 | a name is collected from a run iff some boss fight in it has that name |
| BestSegments.BossNamesMeans | tests/test_display_logic.py:74-78 | the name set holds exactly the names of boss fights in any run |
| BestSegments.CollectBossNames | tests/test_display_logic.py:74-78 | the nested loop builds exactly that set |
| BestSegments.FirstBossMeans | tests/test_display_logic.py:91 | `next()` gives None iff no boss fight has the name, else the first such fight |
| BestSegments.FindFirstBoss | tests/test_display_logic.py:91 | the scan with early return finds that first fight |
| BestSegments.BestUpToSnoc | tests/test_display_logic.py:90-96 | the best over one more run is the previous best improved by that run's candidate |
| BestSegments.BestIsEarliestMin | tests/test_display_logic.py:86-96 | None iff no run has a candidate; else the best is run b's candidate, no larger than any candidate, strictly smaller than those of earlier runs, and its display value is that fight's relative start |
| BestSegments.BestSegmentFor | tests/test_display_logic.py:86-96 | the loop over runs yields exactly that best |
| BestSegments.TotalOfRemove | tests/test_display_logic.py:98-101 | the total over the names is any one name's best plus the total over the rest, whatever the order |
| BestSegments.TotalOfAdd | tests/test_display_logic.py:98-101 | adding a name adds its best time to the total |
| BestSegments.BestSegments | tests/test_display_logic.py:73-101 | the aggregation yields the best time and the display value of every name, and the sum of the best times only |
| BestSegments.BestSegmentsMeans | tests/test_best_segments_fix.py:88-97 | each name's best time is no larger than every run's candidate and equals one of them |
| BestSegments.CandidateAt | tests/test_display_logic.py:91-92 | the first boss fight with the name, with a segment, is the run's candidate |
| BestSegments.DisplayExample | tests/test_display_logic.py:115-125 | Skeram best 39000 shown 39000; Royalty best 126000 shown 183000; Sartura best 104000 shown 309000 |
| BestSegments.DisplayTotal | tests/test_display_logic.py:121-127 | the names are the three bosses, and the theoretical best is 269000 |
| BestSegments.FixExample | tests/test_best_segments_fix.py:107-113 | Skeram 110000, Royalty 170000, Sartura 140000, Twins 280000, C'Thun 220000, each from the expected run |
| BestSegments.FixNames | tests/test_best_segments_fix.py:77-82 | the names are the five bosses |
| BestSegments.FixTotal | tests/test_best_segments_fix.py:107-115 | the theoretical best is 920000 |
| SegmentTimes.Segments | tests/test_start_times.py:102-119 | there is one segment per fight |
| SegmentTimes.SegmentsAt | tests/test_start_times.py:107-112 | the first segment is its relative end; later ones are the relative end minus the previous relative end |
| SegmentTimes.SegmentsTelescope | tests/test_start_times.py:102-119 | the segments sum to the last relative end |
| SegmentTimes.SegmentsRoundTrip | tests/test_start_times.py:102-119 | the running sums of the segments give back the relative ends |
| SegmentTimes.ComputeSegments | tests/test_start_times.py:102-119 | the loop carrying `previous_end` yields exactly the segments |
| SegmentTimes.SegmentLabels | tests/test_start_times.py:114 | there is one label per fight |
| SegmentTimes.LabelSign | tests/test_start_times.py:114 | a label starts with "-" iff that fight ended before the previous one |
| SegmentTimes.SampleSegments | tests/test_start_times.py:43-53 | for the nine AQ40 bosses the segments start 77412 and 146538, the last is 212274, and they sum to 1591538 |

## Left out

- HTTP fetching and the classic/fresh endpoint fallback of `get_wcl_data` (src/app.py:94-125, app.py:87-149): these are network I/O. A report reaches the core as a `Fetched` value, or as `FetchFailed` carrying the error message.
- The legacy `get_wcl_data` front (app.py:97-104) is not modelled separately: it is the current normalisation without URL extraction.
- Flask routes, app setup and JSON serialisation (src/app.py:351-410, app.py:312-349, wsgi.py): these are the request shell only.
- The `date` string built with `datetime.fromtimestamp(...).strftime`: it depends on timezone and locale, so it is an opaque parameter.
- Loading of environment and config classes (src/config.py): `ZONE_ID_MAP` and the Naxxramas wing bosses are constants in `Config`, passed in as parameters.
- Floats: `abs(ms) / 1000` with `math.floor` is replaced by exact integer division on integer milliseconds, and `round` by integer round-half-to-even. This is exact for integer millisecond inputs. Non-integer millisecond values are not modelled.
- The non-numeric input to `format_timestamp` is `None` of an `Option`, not an arbitrary Python value.
- Timeline.KeepFights: the clamp of `fight["end_time"]` writes into the raw report's fight dictionaries in place. The model returns clamped copies. Nothing reads the raw report after that point, so only the aliasing is lost.
- LegacyResolver.UnrecognizedMeans: the "name (ID: id)" strings are modelled as `UnknownZone(name, id)` pairs in a set. The comma-joined error text, whose order depends on set iteration, is not modelled.
- A fight's missing `boss` is read as 0, a missing `zoneID` as None, and a missing `zoneName` as "". Fights without `start_time` or `end_time` (a KeyError in the source) are not modelled.
- BestSegments.TotalOf: the theoretical best is a ghost sum over the name set, defined by choosing any element. TotalOfRemove shows that the choice does not matter. The method's running total is proved equal to that sum.
- `print` output, the demo loop of test_rounding_fix.py (lines 58-95), the unittest harness of tests/test_timing.py, test_best_segments_display.py, analyze_reference_data.py and debug_api.py are not part of this model.
- tests/app_start_times_test.py is not part of this model. It is cut off mid-expression, and its visible part repeats `find_raid_zone_times` of src/app.py.
- Base 750500 against comparison 730600: the new method of test_rounding_fix.py:52-56 rounds the raw difference 19900 once, to 20000, and the case description at test_rounding_fix.py:64 says it should show "+00:20". The model follows the code (DeltaRounding.HuhuranCase). Formatting the raw difference with the floor formatter would give "+00:19".
- ReportId.ValidIdFormat / ReportId.ValidIdChars: Python's `str.isalnum` accepts every Unicode letter and digit, but the model's `IsAlnum` accepts only ASCII letters and digits. An ID such as "aé" is accepted by the source and refused by the model with "Invalid report ID format". Unicode character classes are not modelled.
- Deltas.CalculateDeltas: the source writes `delta` into each fight dictionary of the first run as its loop reaches it. The model computes the updated list in `ApplyDeltas` and assigns it to the first run once. The final state is the same, but the intermediate states are not modelled.
