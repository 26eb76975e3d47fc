/** The game versions whose move and catch-rate data a record must be
    checked against, in the order they are tried. */
module Versions {
  import opened GbTypes

  /** Generation 2 versions: Crystal first when Crystal is allowed and the
      encounter is from Crystal, then always Gold/Silver (an encounter of
      all three versions has the same moves in Gold/Silver as in Crystal). */
  function GetGen2Versions(settings: Settings, info: LegalInfo): (r: seq<GameVersion>)
    ensures 1 <= |r| <= 2
    ensures r[|r| - 1] == GameVersion.GS
    ensures r[0] == GameVersion.C <==> settings.allowGen2Crystal(info.korean) && info.game == GameVersion.C
    ensures |r| == 2 <==> r[0] == GameVersion.C
  {
    (if settings.allowGen2Crystal(info.korean) && info.game == GameVersion.C then [GameVersion.C] else [])
    + [GameVersion.GS]
  }

  /** Generation 1 versions: Red/Blue then Yellow for a Stadium Eevee, only
      Yellow for a Yellow encounter, otherwise only Red/Blue (an encounter of
      all three versions has the same moves and catch rate in Red/Blue). */
  function GetGen1Versions(info: LegalInfo): (r: seq<GameVersion>)
    ensures 1 <= |r| <= 2
    ensures |r| == 2 <==> info.encounterSpecies == 133 && info.game == GameVersion.Stadium
    ensures |r| == 2 ==> r == [GameVersion.RB, GameVersion.YW]
    ensures GameVersion.YW in r <==>
      info.game == GameVersion.YW || (info.encounterSpecies == 133 && info.game == GameVersion.Stadium)
    ensures r[0] == GameVersion.YW <==> info.game == GameVersion.YW
    ensures r[0] == GameVersion.RB || r == [GameVersion.YW]
  {
    if info.encounterSpecies == 133 && info.game == GameVersion.Stadium then
      [GameVersion.RB, GameVersion.YW]
    else if info.game == GameVersion.YW then [GameVersion.YW]
    else [GameVersion.RB]
  }
}
