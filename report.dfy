/** The raw Warcraft Logs report the core receives from the fetch step: the
    parts of the JSON `fights` response that the timing logic reads. */
module Report {
  import opened Wrappers

  /** One entry of `fights`. A missing `boss` is 0; a missing `zoneID` is None;
      a missing or empty `zoneName` is "". */
  datatype Fight = Fight(
    id: int,
    name: string,
    startTime: int,
    endTime: int,
    boss: int,
    kill: bool,
    zoneId: Option<int>,
    zoneName: string)

  /** One entry of `enemies`: its `type` and the ids listed under its `fights`. */
  datatype Enemy = Enemy(kind: string, fightIds: seq<int>)

  /** One entry of `completeRaids`. */
  datatype CompleteRaid = CompleteRaid(startTime: Option<int>, endTime: Option<int>)

  /** `enemies` may be absent (None), which is not the same as an empty list;
      an absent `completeRaids` is the empty list. */
  datatype RawReport = RawReport(
    title: string,
    fights: seq<Fight>,
    enemies: Option<seq<Enemy>>,
    completeRaids: seq<CompleteRaid>,
    zone: Option<int>)

  /** What the fetch step hands over: a report, or the error dictionary it
      returned instead. */
  datatype Fetched = Fetched(report: RawReport) | FetchFailed(message: string)

  function Duration(f: Fight): int
  {
    f.endTime - f.startTime
  }

  /** `fight.get("boss", 0) > 0 and fight.get("name") != "Trash"`. */
  predicate IsBossFight(f: Fight)
  {
    f.boss > 0 && f.name != "Trash"
  }
}
