# Game Boy legality rules of PKHeX, modelled in Dafny

PKHeX checks whether a creature record is one the games could have produced.
`PKHeX.Core/Legality/GBRestrictions.cs` holds the rules for generation 1 and 2
(Game Boy) records. This project models that file. A record here has a
species, a level, up to four move slots and the overloaded `Catch_Rate` byte.
A generation 1 game writes the species' catch rate into that byte. A
generation 2 game overwrites it with the held item.

The modules follow the file's five rule groups:

- `GbTypes` (`gb_types.dfy`) holds the shared pieces:
  - the record (`Specimen`) and the tradeback classification (`TradebackType`);
  - the game versions;
  - the read-only game data (`Catalog`) and the process-wide settings (`Settings`);
  - the constant tables at the head of the file.
- `EvolutionMoves` (`evolution_moves.dfy`) finds moves that cannot coexist
  across an evolution:
  - the hand-written Nidoking and Exeggutor cases;
  - the generic Eevee comparison, which uses the exclusive level-up moves of
    two species and the level arrays of those moves.
- `MoveSlots` (`move_slots.dfy`) computes the minimum number of filled move
  slots. It dispatches to the special, regular and decrement paths, then adds
  the TM/HM/tutor top-up.
- `Tradeback` (`tradeback.dfy`) classifies a record by its catch rate and
  runs the traded-Kadabra check.
- `Versions` (`versions.dfy`) lists the game versions a record must be
  checked against.

The source's loops stay loops:

- the level arrays are filled in `for` loops, into fresh arrays;
- the exclusive-move filter (`RemoveAll`) is a `while` loop;
- the Eevee flags are appended inside two loops;
- the decrement path lowers a local counter step by step;
- the special path grows its mandatory list.

Each of these methods is proved equal to a specification function, and the
properties are proved about those functions. The source's expression-only
members are functions:

- the regular path;
- `IsMoveCountRequired3`;
- the catch-rate and tradeback classifiers;
- the Kadabra check;
- the version lists.

Quirks of the source are modelled as written:

- Exeggutor's guard (line 115) reads `moves[m]` at the *value* `m` of each
  move. It answers at the first position that does not miss, where a miss is
  a value that is a valid position holding no Exeggcute move. It fails with
  `IndexOutOfRange` only when that first non-miss holds an out-of-range value.
  `ExeggutorGuardNeverFalse` shows what follows: on a four-slot moveset
  holding Stomp (23), the guard never evaluates to false.
- Exeggutor's previous species is 103, Exeggutor itself (line 120).
- Nidoking lists Fury Attack (31) as its current move and Thrash (37) as
  Nidorino's previous move (lines 110-111). The comments at lines 107-108 say
  the reverse: Nidoking learns Thrash and Nidorino learns Fury Attack.
- The decrement path has a case for species 31 (line 231), with Venonat's
  moves and levels. Species 31 is Nidoqueen, which is in the special set, so
  the dispatch at line 174 never reaches that case, and Venonat (48) is never
  decremented. `Species31DecrementUnreachable` states both facts.
- The special path passes its level window to the level-up lookup as
  `(maxlevel, minlevel)` (line 316). The exclusive-move lookup passes
  `(1, 100)` (lines 91-92). `Catalog.movesLevelUp1` takes its arguments in
  the order the callers give them.

Three behaviours of the code are easy to misread, and the model keeps them:

- With tradeback disabled, the classifier returns `Gen1_NotTradeback`
  (lines 386-387).
- The Kadabra check reacts only to `WasTradeback`, not to the ambiguous
  `Any` status (lines 412-413).
- The required slot count is not clamped below. For example, the decrement
  path can go below the number of initial moves, and even below 1.

## Model

| member | source | states |
|---|---|---|
| `EvolutionMoves.GetMinLevelLearnMoveG1` | PKHeX.Core/Legality/GBRestrictions.cs:60-66 | returns a fresh array with one entry per move: the level at which the species learns that move by level-up |
| `EvolutionMoves.GetMaxLevelLearnMoveG1` | PKHeX.Core/Legality/GBRestrictions.cs:68-86 | returns a fresh array with one entry per move. The entries are all 0 without a personal-table index. Otherwise each entry is 1 for a starting move of both Red/Blue and Yellow, else the larger of the two learnset levels |
| `EvolutionMoves.LevelArrays` | PKHeX.Core/Legality/GBRestrictions.cs:60-86 | both level arrays have exactly one entry per move. The latest-level array is all zeros when the forme index is 0. Otherwise an entry is 1 for a starting move of both versions; for any other move it is the larger learnset level and at least both |
| `EvolutionMoves.RemoveAbsentOrCommon` | PKHeX.Core/Legality/GBRestrictions.cs:97-98 | the in-place `RemoveAll` filter, written as a loop, keeps exactly the list `Exclusive` specifies: the moves the record knows that are not common, in their original order |
| `EvolutionMoves.Exclusive` | PKHeX.Core/Legality/GBRestrictions.cs:97-98 | after the filter, a move remains iff it was in the list, the record knows it, and it is not common; the list never grows |
| `EvolutionMoves.GetExclusiveMovesG1` | PKHeX.Core/Legality/GBRestrictions.cs:88-100 | returns the two filtered level-up lists. Each holds only moves the record knows, that are not TM/HM moves, and that its own species learns. The two lists are disjoint |
| `EvolutionMoves.ExclusivePairDisjoint` | PKHeX.Core/Legality/GBRestrictions.cs:94-99 | each exclusive move is known, is not TM/HM, and is learned by its own species but not by the other; so the two lists share no move |
| `EvolutionMoves.ConflictPositions` | PKHeX.Core/Legality/GBRestrictions.cs:133-144 | lists, in strictly increasing order, exactly the positions whose learn level clashes with the other species' levels (some lower one, or some higher one) |
| `EvolutionMoves.FlaggedPrevious` | PKHeX.Core/Legality/GBRestrictions.cs:133-138 | a move is in the list iff it sits at some position whose Eevee level lies above some evolution level; the list is no longer than the move list |
| `EvolutionMoves.FlaggedCurrent` | PKHeX.Core/Legality/GBRestrictions.cs:139-144 | a move is in the list iff it sits at some position whose evolution level lies below some Eevee level; the list is no longer than the move list |
| `EvolutionMoves.FlaggedPreviousInOrder` | PKHeX.Core/Legality/GBRestrictions.cs:133-138 | the flagged previous moves are exactly the Eevee moves at the clashing positions, one entry per position, in learnset order |
| `EvolutionMoves.FlaggedCurrentInOrder` | PKHeX.Core/Legality/GBRestrictions.cs:139-144 | the flagged current moves are exactly the evolution moves at the clashing positions, one entry per position, in learnset order |
| `EvolutionMoves.FlagsAgree` | PKHeX.Core/Legality/GBRestrictions.cs:133-144 | the previous-move flags are non-empty iff some evolution level is below some Eevee level, and so are the current-move flags |
| `EvolutionMoves.AnyIndexedByValue` | PKHeX.Core/Legality/GBRestrictions.cs:115 | the guard answers for the first position that does not miss (a miss is a move value that is a valid position holding no Exeggcute move): true iff the move read there is an Exeggcute move, a failure iff the value there is no valid position, false iff every position misses |
| `EvolutionMoves.IncompatibleEvolutionMoves` | PKHeX.Core/Legality/GBRestrictions.cs:102-150 | species outside {34, 103, 134, 135, 136} get empty lists and previous species 0. So does Nidoking without both Thrash and Fury Attack, and Exeggutor without Stomp. Previous species 0 always comes with empty lists |
| `EvolutionMoves.GetIncompatibleEvolutionMoves` | PKHeX.Core/Legality/GBRestrictions.cs:102-150 | the method, which runs the Eevee flag loops over the level arrays, returns exactly the specified outcome |
| `EvolutionMoves.NidokingCase` | PKHeX.Core/Legality/GBRestrictions.cs:106-113 | Nidoking knowing 31 and 37 gets previous species 33, previous moves [37] and current moves [31] |
| `EvolutionMoves.ExeggutorGuardNeverFalse` | PKHeX.Core/Legality/GBRestrictions.cs:115-121 | with Stomp in a moveset of at most 23 slots, the guard never evaluates to false. Exeggutor's check then either fails out of range or reports Stomp against the three Exeggcute moves |
| `EvolutionMoves.ExeggutorReadsByValue` | PKHeX.Core/Legality/GBRestrictions.cs:115-121 | with moves [1, 78, 23, 0] Exeggutor is reported with Exeggcute's moves because `moves[1]` is Stun Spore (78); with [23, 78, 0, 0] the first read, `moves[23]`, fails out of range |
| `EvolutionMoves.EeveeEvolutionCase` | PKHeX.Core/Legality/GBRestrictions.cs:123-145 | for species 134-136 the previous species is 133. Flagged previous moves are known Eevee-only level-up moves; flagged current moves are known evolution-only ones |
| `EvolutionMoves.EeveeFlagsTogether` | PKHeX.Core/Legality/GBRestrictions.cs:123-145 | for species 134-136 both flagged lists are non-empty together, exactly when some evolution level lies below some Eevee level |
| `EvolutionMoves.EeveeFlagsInOrder` | PKHeX.Core/Legality/GBRestrictions.cs:123-145 | for species 134-136 each flagged list holds the exclusive moves at exactly the clashing positions, in learnset order |
| `MoveSlots.MinimumMoveSlots` | PKHeX.Core/Legality/GBRestrictions.cs:152-170 | the result is 1 for a record that may have left generation 1, and never above 4. Otherwise it equals min(4, level-up requirement + number of taught-move slots) |
| `MoveSlots.GetRequiredMoveCount` | PKHeX.Core/Legality/GBRestrictions.cs:152-170 | the method returns the specified count: 1 when not `Gen1_NotTradeback`, at most 4 always |
| `MoveSlots.CountTaught` | PKHeX.Core/Legality/GBRestrictions.cs:166-167 | equals the number of slot positions holding a non-zero move that is in neither the initial moves nor the level-up moves, and is a TM/HM or tutor move. So it is 0 iff no slot qualifies, and equals the slot count iff all do |
| `MoveSlots.TaughtMovesTopUp` | PKHeX.Core/Legality/GBRestrictions.cs:161-169 | the top-up only raises the count (capped at 4), adds at most one slot per known move, and adds nothing when no known move is a taught one |
| `MoveSlots.RequiredSlots` | PKHeX.Core/Legality/GBRestrictions.cs:172-181 | special species get the special count. Any other record gets 3 when `IsMoveCountRequired3` holds and it was not caught at a later stage, and the decremented count when neither applies |
| `MoveSlots.LaterStageSlots` | PKHeX.Core/Legality/GBRestrictions.cs:172-205 | a Metapod (11), Butterfree (12), Kakuna (14) or Beedrill (15) caught at a later stage requires its later-stage slots, or, when those are 0, the full distinct count: nothing is decremented for these species |
| `MoveSlots.GetRequiredMoveCountFromLearnset` | PKHeX.Core/Legality/GBRestrictions.cs:172-181 | species in the special set always take the special path. Otherwise a non-zero regular result is returned. Only a zero regular result falls to the decrement path |
| `MoveSlots.GetRequiredMoveSlotsRegular` | PKHeX.Core/Legality/GBRestrictions.cs:183-205 | the result is never negative. Metapod (11) or Butterfree (12) with rate 120 need the distinct moves less Caterpie's; Beedrill (15) with rate 45 the distinct moves less Kakuna's; Kakuna (14) with rate 45 or 120, and Beedrill (15) with rate 120, the distinct moves less Weedle's. Every other record needs 3 iff `IsMoveCountRequired3` holds, else 0 |
| `MoveSlots.StageSlots` | PKHeX.Core/Legality/GBRestrictions.cs:192-201 | equals the number of distinct non-zero initial and level-up moves that are not earlier-stage moves; so it removes at most as many slots as there are such moves, and never adds one |
| `MoveSlots.IsMoveCountRequired3` | PKHeX.Core/Legality/GBRestrictions.cs:207-224 | holds iff the species is one of 17, 28, 47, 55, 87, 93, 94, 110, the level is below that species' listed level, and its listed move is absent (the table `Required3Rules`) |
| `MoveSlots.SlotsKnownAbsent` | PKHeX.Core/Legality/GBRestrictions.cs:229-265 | at most 3 slots are known absent, 3 only for Marowak (105), and none for a species outside the switch |
| `MoveSlots.DecrementedSlots` | PKHeX.Core/Legality/GBRestrictions.cs:226-267 | the result lies between (distinct non-zero initial and level-up moves - 3) and that count. The lower end is reached only by Marowak. Unlisted species get exactly the count |
| `MoveSlots.GetRequiredMoveCountDecrement` | PKHeX.Core/Legality/GBRestrictions.cs:226-267 | decrementing the counter step by step yields exactly the specified count |
| `MoveSlots.Species31DecrementUnreachable` | PKHeX.Core/Legality/GBRestrictions.cs:172-181 | species 31 (Nidoqueen) always gets the special count, so the decrement case for it at line 231 is never reached; Venonat (48) gets exactly the undecremented distinct count |
| `MoveSlots.DecrementNotMonotone` | PKHeX.Core/Legality/GBRestrictions.cs:260-263 | the decremented count is not monotone in the level: Gyarados has one slot fewer at 31 than at 32, and Mankey without Low Kick one fewer at 9 than at 8 |
| `MoveSlots.GetRequiredMoveCountLevel` | PKHeX.Core/Legality/GBRestrictions.cs:296-317 | Tangela: no mandatory level-up moves below level 32, otherwise the window from 32 up to its level. Nidoran families at level 8 or above: the window up to 8. Other species: the base species' level-1 moves (nothing at a level below 1) |
| `MoveSlots.MandatoryMoves` | PKHeX.Core/Legality/GBRestrictions.cs:274-290 | the mandatory moves extend the level-window moves by at most two. What follows the level-window moves is exactly: Agility (97) for Pikachu at 33 or above and nothing below; Constrict (132) for Tangela; for Exeggutor at 28 or above Leech Seed (73) then Stomp (23), each only when known, and nothing below 28. Other species get the level-window moves unchanged |
| `MoveSlots.CountExtraLearned` | PKHeX.Core/Legality/GBRestrictions.cs:293 | equals the number of slot positions holding a non-zero, non-mandatory level-up move. So it is 0 iff no slot qualifies, and equals the slot count iff all do |
| `MoveSlots.SpecialSlots` | PKHeX.Core/Legality/GBRestrictions.cs:292-293 | the special count lies between the number of mandatory moves and that number plus the number of slots |
| `MoveSlots.GetRequiredMoveCountSpecial` | PKHeX.Core/Legality/GBRestrictions.cs:269-294 | growing the mandatory list and counting the extra level-up moves yields exactly the specified count |
| `Tradeback.AvailableLineage` | PKHeX.Core/Legality/GBRestrictions.cs:352 | keeps exactly the lineage species that are not marked as having no catch-rate evidence |
| `Tradeback.IsCatchRateRBY` | PKHeX.Core/Legality/GBRestrictions.cs:356 | true iff some species has the catch rate in Red/Blue, or in Yellow unless the species is Dragonite (149) |
| `Tradeback.IsCatchRateTrade` | PKHeX.Core/Legality/GBRestrictions.cs:358 | holds iff the species is Krabby or Kingler (98, 99) and the catch rate is 204, the in-game trade's rate |
| `Tradeback.IsCatchRateStadium` | PKHeX.Core/Legality/GBRestrictions.cs:359 | holds iff the species is a Stadium gift species and the catch rate is 167 or 168, the rates of the two Stadium gift boxes |
| `Tradeback.GetCatchRateMatchesPreEvolution` | PKHeX.Core/Legality/GBRestrictions.cs:349-360 | matches iff one of these holds: some available lineage species has this catch rate; the record is the trade Krabby/Kingler with rate 204; or it is a Stadium gift species with a Stadium box rate |
| `Tradeback.GetTradebackStatusRBY` | PKHeX.Core/Legality/GBRestrictions.cs:384-406 | never `Gen2_NotTradeback`. Tradeback disabled gives `Gen1_NotTradeback`. Otherwise `WasTradeback` iff the rate is 0 or matches no lineage rate. `Any` iff it matches and is also a GSC held item. `Gen1_NotTradeback` only for a matching non-zero rate that is not a held item |
| `Tradeback.NativeCatchRate` | PKHeX.Core/Legality/GBRestrictions.cs:389-405 | a record with the non-zero Red/Blue catch rate of its own available species, which is no held item, is `Gen1_NotTradeback` |
| `Tradeback.GetTradebackStatusInitial` | PKHeX.Core/Legality/GBRestrictions.cs:366-378 | a generation 1 record is classified by its catch rate. Any other record is `Any` or `Gen2_NotTradeback`. It is `Gen2_NotTradeback` iff it is a format 2 or VC2 record whose species cannot live in generation 1 |
| `Tradeback.IsTradedKadabraG1` | PKHeX.Core/Legality/GBRestrictions.cs:408-435 | only a generation 1 Kadabra (64) is ever reported, and always when it was traded back. With an unknown game it is otherwise never reported. With a known game it is reported iff it was traded back or, while `Gen1_NotTradeback`, its rate is the other version's Kadabra rate; outside Yellow also iff it knows Kinesis (134), or Disable (50) below level 20 |
| `Tradeback.KadabraSiblingCatchRate` | PKHeX.Core/Legality/GBRestrictions.cs:417-424 | a non-traded Kadabra in a known game whose catch rate is the sibling version's Kadabra rate is reported as traded |
| `Versions.GetGen2Versions` | PKHeX.Core/Legality/GBRestrictions.cs:319-327 | yields one or two versions and always ends with Gold/Silver. It starts with Crystal iff Crystal is allowed and the game is Crystal, and has two entries exactly then |
| `Versions.GetGen1Versions` | PKHeX.Core/Legality/GBRestrictions.cs:329-347 | yields one or two versions: Red/Blue then Yellow exactly for a Stadium Eevee, only Yellow for a Yellow encounter, otherwise Red/Blue first. Yellow appears iff the game is Yellow or the record is a Stadium Eevee |

## Left out

- Game data lookups are fields of `Catalog`, left uninterpreted. The data
  itself is not reproduced. This covers:
  - the generation 1 level-up lookups;
  - personal tables (forme index, starting moves, catch rates);
  - the Red/Blue and Yellow learnsets;
  - the base species;
  - the GSC held-item list.
- The evolution tree is not part of this model. The valid pre-evolutions of a
  record are a `lineage` parameter. `GetBaseSpecies` is modelled as a function
  of the species alone.
- The settings (`AllowGen1Tradeback`, `AllowGen2Crystal`, the active
  trainer's game) are an explicit `Settings` parameter, not process-wide
  mutable state.
- The PKM/PK1 class hierarchy is not modelled. `pkm is PK1` is modelled as
  `format == 1`. The `(PK1)pk` casts are assumed to succeed: the catch rate is
  a record field.
- `LegalInfo`'s per-generation move arrays are reduced to their generation 1
  entry, the only one the file reads. An index failure on a shorter array is
  not modelled.
- The version enumerators are lazy `yield` sequences in the source. Here they
  are functions returning a finite sequence.
- `Types_Gen1`, `Trade_Evolution1` and `G1MetapodMoves` are declared as
  constants only; nothing in the file reads them.
- No monotonicity in the level is claimed, because the code has none.
  `DecrementNotMonotone` shows it: Gyarados (130) loses a slot below level 32,
  while Mankey (56) without Low Kick loses one from level 9 on.
