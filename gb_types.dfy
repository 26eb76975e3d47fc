/** Shared vocabulary of the Game Boy (generation 1/2) legality rules: the
    creature record, the tradeback classification, game versions, the
    read-only catalog the rules consult, the process-wide settings, and the
    constant tables declared at the head of GBRestrictions. */
module GbTypes {

  /** Tradeback classification of a record. */
  datatype TradebackType = Any | Gen1NotTradeback | Gen2NotTradeback | WasTradeback

  /** The game versions the rules distinguish; every other version is `Other`. */
  datatype GameVersion = Any | RB | YW | GS | C | Stadium | Other(id: int)

  /** A computation that either yields a value or fails the way C#'s
      out-of-range array read does (an IndexOutOfRangeException). */
  datatype Checked<T> = Ok(value: T) | IndexOutOfRange

  /** The creature record the rules inspect. `catchRate` is the overloaded
      Catch_Rate byte of a generation 1 record; `format == 1` is a
      generation 1 record (a PK1). */
  datatype Specimen = Specimen(
    species: int,
    level: int,
    moves: seq<int>,
    catchRate: int,
    tradeback: TradebackType,
    format: int,
    vc2: bool,
    canInhabitGen1: bool)
  {
    predicate IsPK1() { format == 1 }
    predicate Gen1NotTradeback() { tradeback == TradebackType.Gen1NotTradeback }
  }

  /** Read-only game data, left uninterpreted: every field is a lookup whose
      contents the rules never depend on beyond what they read. */
  datatype Catalog = Catalog(
    // level at which a species learns a move by generation 1 level-up
    levelUpLevel1: (int, int) -> int,
    // generation 1 level-up moves of a species; the two levels are passed
    // in the order the callers pass them
    movesLevelUp1: (int, int, int) -> seq<int>,
    // personal-table index of a species (0 when it has none)
    formeIndexRB: int -> int,
    // starting moves per personal-table index, Red/Blue and Yellow
    startMovesRB: int -> seq<int>,
    startMovesY: int -> seq<int>,
    // level-up level of a move per personal-table index, Red/Blue and Yellow
    levelLearnRB: (int, int) -> int,
    levelLearnY: (int, int) -> int,
    // catch rate per species, Red/Blue and Yellow
    catchRateRB: int -> int,
    catchRateY: int -> int,
    // base (least evolved) species of a species
    baseSpecies: int -> int,
    // item identifiers that exist as held items in Gold/Silver/Crystal
    heldItemsGSC: set<int>)

  /** Process-wide settings, passed in explicitly. */
  datatype Settings = Settings(
    allowGen1Tradeback: bool,
    // whether Crystal is allowed, given whether the record is Korean
    allowGen2Crystal: bool -> bool,
    activeTrainerGame: GameVersion)

  /** The generation 1 entries of the encounter's level-up, TM/HM and tutor move lists. */
  datatype EncounterMoves = EncounterMoves(levelUp: seq<int>, tmhm: seq<int>, tutor: seq<int>)

  /** What the legality analysis already knows about the record's encounter. */
  datatype LegalInfo = LegalInfo(
    game: GameVersion,
    korean: bool,
    encounterSpecies: int,
    encounterMoves: EncounterMoves)

  const G1CaterpieMoves: seq<int> := [33, 81]
  const G1WeedleMoves: seq<int> := [40, 81]
  const G1MetapodMoves: seq<int> := G1CaterpieMoves + [106]
  const G1KakunaMoves: seq<int> := G1WeedleMoves + [106]
  const G1ExeggcuteIncompatibleMoves: seq<int> := [78, 77, 79]

  /** Catch rates of the Stadium gift boxes: Normal Box, Gorgeous Box. */
  const StadiumCatchRate: seq<int> := [167, 168]

  const StadiumGiftSpecies: set<int> := {1, 4, 7, 54, 106, 107, 133, 138, 140}

  const SpecialMinMoveSlots: set<int> :=
    {25, 26, 29, 30, 31, 32, 33, 34, 36, 38, 40, 59, 91, 103, 114, 121}

  const TypesGen1: set<int> := {0, 1, 2, 3, 4, 5, 7, 8, 20, 21, 22, 23, 24, 25, 26}

  const SpeciesNotAvailableCatchRate: set<int> :=
    {12, 18, 31, 34, 38, 45, 53, 59, 62, 65, 68, 71, 78, 91, 103, 121}

  const TradeEvolution1: set<int> := {64, 67, 75, 93}

  function Max(a: int, b: int): int { if a >= b then a else b }

  function Min(a: int, b: int): int { if a <= b then a else b }

  /** 1 when `b` holds, else 0: one slot counted per condition. */
  function Slot(b: bool): nat { if b then 1 else 0 }
}
