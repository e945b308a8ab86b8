/** The fixed first-release tables: item and location identifiers. */
module Registry {

  const NETWORK_ID_LIMIT := 0x1F_FFFF_FFFF_FFFF

  const JETBOARD_ITEM := 743_000_108
  const BLASTER_ITEM := 743_010_014
  const ARMOR_ITEM := 743_000_116

  predicate IsItem(id: int) {
    || 743_000_104 <= id <= 743_000_108
    || id == 743_000_113
    || id == ARMOR_ITEM
    || 743_010_000 <= id <= 743_010_022
    || 743_010_100 <= id <= 743_010_114
    || 743_012_000 <= id <= 743_012_014
    || 743_013_000 <= id <= 743_013_004
  }

  /** The three items the client knows how to apply. */
  predicate IsPermanentItem(id: int) {
    id == JETBOARD_ITEM || id == BLASTER_ITEM || id == ARMOR_ITEM
  }

  predicate IsRewardNode(node: int) {
    || node == 10 || node == 11 || node == 12 || node == 23 || node == 36 || node == 39 || node == 41 || node == 44
    || node == 48 || node == 63 || node == 67 || node == 84 || node == 93 || node == 98 || node == 102 || node == 109
    || node == 113 || node == 119 || node == 129 || node == 132 || node == 145 || node == 146 || node == 149
    || node == 152
    || node == 162 || node == 167 || node == 175 || node == 182 || node == 191 || node == 195 || node == 200
    || node == 232
    || node == 238 || node == 240 || node == 243 || node == 252 || node == 256 || node == 259
  }

  predicate IsLocation(id: int) {
    || 743_001_010 <= id <= 743_001_035
    || 743_001_037 <= id <= 743_001_071
    || 743_001_114 <= id <= 743_001_137
    || IsRewardNode(id - 743_020_000)
    || (743_030_025 <= id <= 743_030_600 && id % 25 == 0)
  }

  /** Locations the game itself can report: seven story tasks and one reward. */
  const FIRST_ARMOR_REWARD := 743_020_036

  predicate IsObservable(id: int) {
    743_001_010 <= id <= 743_001_016 || id == FIRST_ARMOR_REWARD
  }

  function TaskOf(location: int): int
    requires IsObservable(location)
  {
    if location == FIRST_ARMOR_REWARD then 16 else location - 743_001_000
  }

  function SourceCodeOf(location: int): int
    requires IsObservable(location)
  {
    if location == FIRST_ARMOR_REWARD then 1 else 0
  }

  function NativeNodeOf(location: int): int
    requires IsObservable(location)
  {
    if location == FIRST_ARMOR_REWARD then 36 else 0
  }

  /** Where the tables begin, end and have holes. */
  lemma TableEdges()
    ensures IsItem(743_000_104) && IsItem(743_000_108) && !IsItem(743_000_109) && IsItem(743_000_113)
    ensures IsItem(743_010_022) && !IsItem(743_010_023) && IsItem(743_010_114) && IsItem(743_012_014)
    ensures IsItem(743_013_004) && !IsItem(743_013_005)
    ensures !IsLocation(743_001_009) && IsLocation(743_001_010) && IsLocation(743_001_035) && !IsLocation(743_001_036)
    ensures IsLocation(743_001_071) && !IsLocation(743_001_072) && IsLocation(743_001_114) && IsLocation(743_001_137)
    ensures IsLocation(743_020_010) && IsLocation(743_020_036) && IsLocation(743_020_259) && !IsLocation(743_020_260)
    ensures IsLocation(743_030_025) && !IsLocation(743_030_026) && IsLocation(743_030_600) && !IsLocation(743_030_625)
  {}
}
