/** The configuration tables of src/config.py (identical in app.py), passed to
    the core as values. */
module Config {

  /** `ZONE_ID_MAP`: zone id to recognised raid name. */
  const ZoneIdMap: map<int, string> := map[
    1000 := "Molten Core",
    1002 := "Blackwing Lair",
    1005 := "Temple of Ahn'Qiraj",
    1006 := "Naxxramas",
    1017 := "Blackfathom Deeps",
    1032 := "Gnomeregan",
    1034 := "Blackwing Lair",
    1035 := "Temple of Ahn'Qiraj",
    1036 := "Naxxramas",
    531 := "Temple of Ahn'Qiraj",
    533 := "Naxxramas"]

  /** One entry of `NAXX_CONFIG["wing_bosses"]`: a wing and the boss ids of its
      last boss in the different game releases. */
  datatype WingBosses = WingBosses(wing: string, bossIds: set<int>)

  /** `NAXX_CONFIG["wing_bosses"]`, in the dictionary's order. */
  const NaxxWingBosses: seq<WingBosses> := [
    WingBosses("Spider", {15952, 51116}),
    WingBosses("Plague", {15954, 51117}),
    WingBosses("Abomination", {16028, 51118}),
    WingBosses("Military", {16061, 51113})]

  const NaxxZoneName: string := "Naxxramas"
}
