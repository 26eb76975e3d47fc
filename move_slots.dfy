/** Minimum number of move slots a generation 1 record must have filled.
    There is no Move Deleter in generation 1, so a record that never left
    generation 1 keeps every move it learned until its four slots are full. */
module MoveSlots {
  import opened GbTypes

  // ---------------------------------------------------------------------
  // Counting helpers
  // ---------------------------------------------------------------------

  /** The distinct non-zero moves of the initial moves and the level-up moves. */
  function DistinctNonZero(initial: seq<int>, learn1: seq<int>): set<int>
  {
    set m | m in initial + learn1 && m != 0
  }

  /** A sequence has no more distinct elements than entries. */
  lemma {:induction false} ElementsCardinality(s: seq<int>)
    ensures |set x | x in s| <= |s|
  {
    if s != [] {
      ElementsCardinality(s[1..]);
      assert (set x | x in s) == (set x | x in s[1..]) + {s[0]};
    }
  }

  /** Distinct non-zero moves that are none of `excluded`: the slots of a
      record caught at a later stage, whose earlier-stage moves it never had. */
  function StageSlots(initial: seq<int>, learn1: seq<int>, excluded: seq<int>): (r: nat)
    ensures r == |DistinctNonZero(initial, learn1) - (set x | x in excluded)|
    ensures |DistinctNonZero(initial, learn1)| - |excluded| <= r <= |DistinctNonZero(initial, learn1)|
  {
    var all := DistinctNonZero(initial, learn1);
    var ex := set x | x in excluded;
    ElementsCardinality(excluded);
    assert all == (all - ex) + (all * ex);
    assert |all * ex| <= |ex| by {
      assert all * ex <= ex;
    }
    |all - ex|
  }

  // ---------------------------------------------------------------------
  // Regular path
  // ---------------------------------------------------------------------

  /** Species whose fourth move is a pre-evolution level-up move learned
      below their own evolution level: the level below which, and the move
      without which, only three slots are required. */
  const Required3Rules: map<int, (int, int)> := map[
    17 := (21, 18),   // Pidgeotto, Whirlwind
    28 := (27, 40),   // Sandslash, Poison Sting
    47 := (30, 147),  // Parasect, Spore
    55 := (39, 93),   // Golduck, Confusion
    87 := (44, 156),  // Dewgong, Rest
    93 := (29, 95),   // Haunter, Hypnosis
    94 := (29, 95),   // Gengar, Hypnosis
    110 := (39, 108)  // Weezing, Smoke Screen
  ]

  function IsMoveCountRequired3(species: int, level: int, moves: seq<int>): (r: bool)
    ensures r <==> species in Required3Rules &&
                   level < Required3Rules[species].0 && Required3Rules[species].1 !in moves
  {
    if species == 17 then level < 21 && 18 !in moves
    else if species == 28 then level < 27 && 40 !in moves
    else if species == 47 then level < 30 && 147 !in moves
    else if species == 55 then level < 39 && 93 !in moves
    else if species == 87 then level < 44 && 156 !in moves
    else if species == 93 || species == 94 then level < 29 && 95 !in moves
    else if species == 110 then level < 39 && 108 !in moves
    else false
  }

  /** A Metapod (11) or Butterfree (12) with Metapod's catch rate, or a
      Kakuna (14) or Beedrill (15) with Kakuna's or Beedrill's catch rate:
      the catch rate shows it was caught at a later stage of its line. */
  predicate CaughtAtLaterStage(pk: Specimen)
  {
    ((pk.species == 11 || pk.species == 12) && pk.catchRate == 120) ||
    ((pk.species == 14 || pk.species == 15) && (pk.catchRate == 45 || pk.catchRate == 120))
  }

  function GetRequiredMoveSlotsRegular(pk: Specimen, moves: seq<int>, learn1: seq<int>, initial: seq<int>): (r: int)
    ensures r >= 0
    ensures CaughtAtLaterStage(pk) ==>
      |DistinctNonZero(initial, learn1)| - 3 <= r <= |DistinctNonZero(initial, learn1)|
    ensures (pk.species == 11 || pk.species == 12) && pk.catchRate == 120 ==>
      r == StageSlots(initial, learn1, G1CaterpieMoves)
    ensures pk.species == 15 && pk.catchRate == 45 ==>
      r == StageSlots(initial, learn1, G1KakunaMoves)
    ensures CaughtAtLaterStage(pk) && !(pk.species == 15 && pk.catchRate == 45) && pk.species != 11 && pk.species != 12 ==>
      r == StageSlots(initial, learn1, G1WeedleMoves)
    ensures !CaughtAtLaterStage(pk) ==>
      (r == 3 <==> IsMoveCountRequired3(pk.species, pk.level, moves)) &&
      (r == 0 <==> !IsMoveCountRequired3(pk.species, pk.level, moves))
  {
    var species := pk.species;
    var catchRate := pk.catchRate;
    if (species == 11 || species == 12) && catchRate == 120 then
      // Metapod/Butterfree caught as Metapod, without Caterpie's moves
      StageSlots(initial, learn1, G1CaterpieMoves)
    else if (species == 14 || species == 15) && (catchRate == 45 || catchRate == 120) then
      if species == 15 && catchRate == 45 then
        // caught as Beedrill, without Weedle's and Kakuna's moves
        StageSlots(initial, learn1, G1KakunaMoves)
      else
        // Kakuna, or Beedrill caught as Kakuna, without Weedle's moves
        StageSlots(initial, learn1, G1WeedleMoves)
    else if IsMoveCountRequired3(species, pk.level, moves) then 3
    else 0
  }

  // ---------------------------------------------------------------------
  // Decrement path
  // ---------------------------------------------------------------------

  /** Species for which some slot of the naive count is known to be empty. */
  const DecrementSpecies: set<int> := {31, 56, 64, 65, 104, 105, 113, 127, 130}

  /** How many slots of the naive count are knowably never filled. */
  function SlotsKnownAbsent(pk: Specimen, moves: seq<int>): (r: nat)
    ensures r <= 3
    ensures r == 3 ==> pk.species == 105
    ensures pk.species !in DecrementSpecies ==> r == 0
  {
    var species := pk.species;
    var level := pk.level;
    if species == 31 then
      // species 31 is Nidoqueen, a special species: this case is never
      // reached (see `Species31DecrementUnreachable`); the rule reads as
      // written for Venonat, Supersonic at 11 and Confusion at 19
      Slot(level >= 11 && 48 !in moves) + Slot(level >= 19 && 93 !in moves)
    else if species == 64 || species == 65 then
      // Yellow Kadabra's initial Kinesis; Disable not before 20 when caught as Abra
      Slot(pk.catchRate != 100) + Slot(pk.catchRate == 200 && level < 20)
    else if species == 104 || species == 105 then
      // Yellow's initial Tail Whip and Bone Club; Marowak evolved without Focus Energy
      Slot(39 !in moves) + Slot(125 !in moves) + Slot(species == 105 && level < 33 && 116 !in moves)
    else if species == 113 then
      // Yellow's initial Tail Whip; Double Slap
      Slot(39 !in moves) + Slot(3 !in moves)
    else if species == 56 then Slot(level >= 9 && 67 !in moves)    // Mankey, Low Kick
    else if species == 127 then Slot(level >= 21 && 20 !in moves)  // Pinsir, Bind
    else if species == 130 then Slot(level < 32)                   // Gyarados
    else 0
  }

  /** The naive slot count less the slots knowably never filled. */
  function DecrementedSlots(pk: Specimen, moves: seq<int>, learn1: seq<int>, initial: seq<int>): (r: int)
    ensures |DistinctNonZero(initial, learn1)| - 3 <= r <= |DistinctNonZero(initial, learn1)|
    ensures r == |DistinctNonZero(initial, learn1)| - 3 ==> pk.species == 105
    ensures pk.species !in DecrementSpecies ==> r == |DistinctNonZero(initial, learn1)|
  {
    |DistinctNonZero(initial, learn1)| - SlotsKnownAbsent(pk, moves)
  }

  method GetRequiredMoveCountDecrement(pk: Specimen, moves: seq<int>, learn1: seq<int>, initial: seq<int>)
    returns (usedSlots: int)
    ensures usedSlots == DecrementedSlots(pk, moves, learn1, initial)
  {
    usedSlots := |DistinctNonZero(initial, learn1)|;
    var species := pk.species;
    if species == 31 {
      if pk.level >= 11 && 48 !in moves { usedSlots := usedSlots - 1; }
      if pk.level >= 19 && 93 !in moves { usedSlots := usedSlots - 1; }
    } else if species == 64 || species == 65 {
      var catchRate := pk.catchRate;
      if catchRate != 100 { usedSlots := usedSlots - 1; }
      if catchRate == 200 && pk.level < 20 { usedSlots := usedSlots - 1; }
    } else if species == 104 || species == 105 {
      if 39 !in moves { usedSlots := usedSlots - 1; }
      if 125 !in moves { usedSlots := usedSlots - 1; }
      if species == 105 && pk.level < 33 && 116 !in moves { usedSlots := usedSlots - 1; }
    } else if species == 113 {
      if 39 !in moves { usedSlots := usedSlots - 1; }
      if 3 !in moves { usedSlots := usedSlots - 1; }
    } else if (species == 56 && pk.level >= 9 && 67 !in moves)
           || (species == 127 && pk.level >= 21 && 20 !in moves)
           || (species == 130 && pk.level < 32) {
      usedSlots := usedSlots - 1;
    }
  }

  // ---------------------------------------------------------------------
  // Special path
  // ---------------------------------------------------------------------

  /** The level-up moves of the base species that are always known: from the
      base species' level-1 moves, up to level 8 for the Nidoran families at
      level 8 or above, and only moves from level 32 on for Tangela. */
  function GetRequiredMoveCountLevel(cat: Catalog, pk: Specimen): (r: seq<int>)
    ensures pk.species == 114 ==>
      r == if pk.level < 32 then [] else cat.movesLevelUp1(cat.baseSpecies(114), pk.level, 32)
    ensures pk.species != 114 && pk.level >= 1 ==>
      r == cat.movesLevelUp1(cat.baseSpecies(pk.species), if 29 <= pk.species <= 34 && pk.level >= 8 then 8 else 1, 1)
    ensures pk.species != 114 && pk.level < 1 ==> r == []
  {
    var species := pk.species;
    var baseSpecies := cat.baseSpecies(species);
    var (maxLevel, minLevel) :=
      if species == 114 then (pk.level, 32)
      else if 29 <= species <= 34 && pk.level >= 8 then (8, 1)
      else (1, 1);
    if minLevel > pk.level then []
    else cat.movesLevelUp1(baseSpecies, maxLevel, minLevel)
  }

  /** The moves a record of a special species must know. */
  function MandatoryMoves(cat: Catalog, pk: Specimen, moves: seq<int>): (r: seq<int>)
    ensures GetRequiredMoveCountLevel(cat, pk) <= r
    ensures |r| <= |GetRequiredMoveCountLevel(cat, pk)| + 2
    ensures pk.species == 25 && pk.level >= 33 ==> 97 in r
    ensures pk.species == 114 ==> 132 in r
    ensures pk.species == 103 && pk.level >= 28 ==> (73 in moves ==> 73 in r) && (23 in moves ==> 23 in r)
    ensures pk.species !in {25, 103, 114} ==> r == GetRequiredMoveCountLevel(cat, pk)
    ensures var added := r[|GetRequiredMoveCountLevel(cat, pk)|..];
      && (pk.species == 25 ==> added == if pk.level >= 33 then [97] else [])
      && (pk.species == 114 ==> added == [132])
      && (pk.species == 103 && pk.level < 28 ==> added == [])
      && (pk.species == 103 && pk.level >= 28 ==>
            added == (if 73 in moves then [73] else []) + (if 23 in moves then [23] else []))
  {
    var levelMoves := GetRequiredMoveCountLevel(cat, pk);
    if pk.species == 103 && pk.level >= 28 then
      // Exeggcute learns Leech Seed at 28, Exeggutor learns Stomp at 28
      levelMoves + (if 73 in moves then [73] else []) + (if 23 in moves then [23] else [])
    else if pk.species == 25 && pk.level >= 33 then levelMoves + [97]  // Pikachu, Agility
    else if pk.species == 114 then levelMoves + [132]                  // Tangela, Constrict
    else levelMoves
  }

  /** A known move beyond the mandatory ones that comes from the level-up table. */
  predicate IsExtraLearned(m: int, mandatory: seq<int>, learn1: seq<int>)
  {
    m != 0 && m !in mandatory && m in learn1
  }

  /** How many slots of `moves` hold an extra learned move. */
  function CountExtraLearned(moves: seq<int>, mandatory: seq<int>, learn1: seq<int>): (r: nat)
    ensures r == |set i | 0 <= i < |moves| && IsExtraLearned(moves[i], mandatory, learn1)|
    ensures r <= |moves|
    ensures r == 0 <==> forall i :: 0 <= i < |moves| ==> !IsExtraLearned(moves[i], mandatory, learn1)
    ensures r == |moves| <==> forall i :: 0 <= i < |moves| ==> IsExtraLearned(moves[i], mandatory, learn1)
    decreases |moves|
  {
    if moves == [] then 0
    else
      var n := |moves| - 1;
      assert forall i :: 0 <= i < n ==> moves[..n][i] == moves[i];
      assert (set i | 0 <= i < |moves| && IsExtraLearned(moves[i], mandatory, learn1)) ==
        (set i | 0 <= i < n && IsExtraLearned(moves[..n][i], mandatory, learn1)) +
        (if IsExtraLearned(moves[n], mandatory, learn1) then {n} else {});
      CountExtraLearned(moves[..n], mandatory, learn1) + Slot(IsExtraLearned(moves[n], mandatory, learn1))
  }

  /** Slots required of a special species: its mandatory moves plus every
      other level-up move it knows. */
  function SpecialSlots(cat: Catalog, pk: Specimen, moves: seq<int>, learn1: seq<int>): (r: int)
    ensures |MandatoryMoves(cat, pk, moves)| <= r <= |MandatoryMoves(cat, pk, moves)| + |moves|
  {
    var mandatory := MandatoryMoves(cat, pk, moves);
    |mandatory| + CountExtraLearned(moves, mandatory, learn1)
  }

  method GetRequiredMoveCountSpecial(cat: Catalog, pk: Specimen, moves: seq<int>, learn1: seq<int>)
    returns (r: int)
    ensures r == SpecialSlots(cat, pk, moves, learn1)
  {
    var mandatory := GetRequiredMoveCountLevel(cat, pk);
    if pk.species == 103 && pk.level >= 28 {
      if 73 in moves { mandatory := mandatory + [73]; }
      if 23 in moves { mandatory := mandatory + [23]; }
    } else if pk.species == 25 && pk.level >= 33 {
      mandatory := mandatory + [97];
    } else if pk.species == 114 {
      mandatory := mandatory + [132];
    }
    assert mandatory == MandatoryMoves(cat, pk, moves);
    r := |mandatory| + CountExtraLearned(moves, mandatory, learn1);
  }

  // ---------------------------------------------------------------------
  // Dispatch and the public count
  // ---------------------------------------------------------------------

  /** Slots required by the level-up table alone. */
  function RequiredSlots(cat: Catalog, pk: Specimen, moves: seq<int>, learn1: seq<int>, initial: seq<int>): (r: int)
    ensures pk.species in SpecialMinMoveSlots ==> r == SpecialSlots(cat, pk, moves, learn1)
    ensures (pk.species !in SpecialMinMoveSlots && !CaughtAtLaterStage(pk) &&
             IsMoveCountRequired3(pk.species, pk.level, moves)) ==> r == 3
    ensures (pk.species !in SpecialMinMoveSlots && !CaughtAtLaterStage(pk) &&
             !IsMoveCountRequired3(pk.species, pk.level, moves)) ==>
      r == DecrementedSlots(pk, moves, learn1, initial)
  {
    if pk.species in SpecialMinMoveSlots then SpecialSlots(cat, pk, moves, learn1)
    else
      var required := GetRequiredMoveSlotsRegular(pk, moves, learn1, initial);
      if required != 0 then required else DecrementedSlots(pk, moves, learn1, initial)
  }

  /** A Metapod (11), Butterfree (12), Kakuna (14) or Beedrill (15) caught at
      a later stage requires its later-stage slots, or, when those come to
      nothing, every distinct learned move: no slot of these species is
      decremented. */
  lemma LaterStageSlots(cat: Catalog, pk: Specimen, moves: seq<int>, learn1: seq<int>, initial: seq<int>)
    requires CaughtAtLaterStage(pk)
    ensures var stage := GetRequiredMoveSlotsRegular(pk, moves, learn1, initial);
      RequiredSlots(cat, pk, moves, learn1, initial) ==
        if stage != 0 then stage else |DistinctNonZero(initial, learn1)|
  {
    assert pk.species !in SpecialMinMoveSlots && pk.species !in DecrementSpecies;
  }

  /** The decrement case for species 31 is dead code: species 31 (Nidoqueen)
      is a special species, so its count is the special one; Venonat (48),
      which that case's moves belong to, is never decremented. */
  lemma Species31DecrementUnreachable(cat: Catalog, pk: Specimen, moves: seq<int>, learn1: seq<int>, initial: seq<int>)
    ensures pk.species == 31 ==> RequiredSlots(cat, pk, moves, learn1, initial) == SpecialSlots(cat, pk, moves, learn1)
    ensures pk.species == 48 ==> DecrementedSlots(pk, moves, learn1, initial) == |DistinctNonZero(initial, learn1)|
  {
  }

  /** The decremented count is not monotone in the level: Gyarados (130)
      loses a slot below level 32, Mankey (56) without Low Kick (67) loses
      one from level 9 on. */
  lemma DecrementNotMonotone(pk: Specimen, moves: seq<int>, learn1: seq<int>, initial: seq<int>)
    ensures var g := pk.(species := 130);
      DecrementedSlots(g.(level := 31), moves, learn1, initial) + 1 ==
        DecrementedSlots(g.(level := 32), moves, learn1, initial)
    ensures var m := pk.(species := 56);
      67 !in moves ==>
        DecrementedSlots(m.(level := 9), moves, learn1, initial) + 1 ==
          DecrementedSlots(m.(level := 8), moves, learn1, initial)
  {
  }

  method GetRequiredMoveCountFromLearnset(cat: Catalog, pk: Specimen, moves: seq<int>, learn1: seq<int>, initial: seq<int>)
    returns (r: int)
    ensures r == RequiredSlots(cat, pk, moves, learn1, initial)
    ensures pk.species in SpecialMinMoveSlots ==> r == SpecialSlots(cat, pk, moves, learn1)
    ensures pk.species !in SpecialMinMoveSlots && GetRequiredMoveSlotsRegular(pk, moves, learn1, initial) != 0 ==>
      r == GetRequiredMoveSlotsRegular(pk, moves, learn1, initial)
    ensures pk.species !in SpecialMinMoveSlots && GetRequiredMoveSlotsRegular(pk, moves, learn1, initial) == 0 ==>
      r == DecrementedSlots(pk, moves, learn1, initial)
  {
    if pk.species in SpecialMinMoveSlots {
      r := GetRequiredMoveCountSpecial(cat, pk, moves, learn1);
      return;
    }
    var required := GetRequiredMoveSlotsRegular(pk, moves, learn1, initial);
    if required != 0 {
      r := required;
    } else {
      r := GetRequiredMoveCountDecrement(pk, moves, learn1, initial);
    }
  }

  /** A known move that fills a free slot by TM, HM or tutor: non-zero,
      neither an initial nor a level-up move, and teachable. */
  predicate IsTaughtMove(m: int, initial: seq<int>, enc: EncounterMoves)
  {
    m != 0 && m !in initial && m !in enc.levelUp && (m in enc.tmhm || m in enc.tutor)
  }

  /** How many slots of `moves` hold a taught move. */
  function CountTaught(moves: seq<int>, initial: seq<int>, enc: EncounterMoves): (r: nat)
    ensures r == |set i | 0 <= i < |moves| && IsTaughtMove(moves[i], initial, enc)|
    ensures r <= |moves|
    ensures r == 0 <==> forall i :: 0 <= i < |moves| ==> !IsTaughtMove(moves[i], initial, enc)
    ensures r == |moves| <==> forall i :: 0 <= i < |moves| ==> IsTaughtMove(moves[i], initial, enc)
    decreases |moves|
  {
    if moves == [] then 0
    else
      var n := |moves| - 1;
      assert forall i :: 0 <= i < n ==> moves[..n][i] == moves[i];
      assert (set i | 0 <= i < |moves| && IsTaughtMove(moves[i], initial, enc)) ==
        (set i | 0 <= i < n && IsTaughtMove(moves[..n][i], initial, enc)) +
        (if IsTaughtMove(moves[n], initial, enc) then {n} else {});
      CountTaught(moves[..n], initial, enc) + Slot(IsTaughtMove(moves[n], initial, enc))
  }

  /** The minimum number of filled move slots. */
  function MinimumMoveSlots(cat: Catalog, pk: Specimen, moves: seq<int>, info: LegalInfo, initial: seq<int>): (r: int)
    ensures !pk.Gen1NotTradeback() ==> r == 1
    ensures r <= 4
    ensures pk.Gen1NotTradeback() ==>
      r == Min(4, RequiredSlots(cat, pk, moves, info.encounterMoves.levelUp, initial)
                  + CountTaught(moves, initial, info.encounterMoves))
  {
    if !pk.Gen1NotTradeback() then 1
    else
      var required := RequiredSlots(cat, pk, moves, info.encounterMoves.levelUp, initial);
      if required >= 4 then 4
      else Min(4, required + CountTaught(moves, initial, info.encounterMoves))
  }

  method GetRequiredMoveCount(cat: Catalog, pk: Specimen, moves: seq<int>, info: LegalInfo, initial: seq<int>)
    returns (r: int)
    ensures r == MinimumMoveSlots(cat, pk, moves, info, initial)
    ensures !pk.Gen1NotTradeback() ==> r == 1
    ensures r <= 4
  {
    if !pk.Gen1NotTradeback() {
      return 1;
    }
    var required := GetRequiredMoveCountFromLearnset(cat, pk, moves, info.encounterMoves.levelUp, initial);
    if required >= 4 {
      return 4;
    }
    required := required + CountTaught(moves, initial, info.encounterMoves);
    r := Min(4, required);
  }

  /** For a record that never left generation 1 the taught-move top-up can
      only raise the count, adds at most one slot per known move, and adds
      nothing when no known move is a taught one. */
  lemma TaughtMovesTopUp(cat: Catalog, pk: Specimen, moves: seq<int>, info: LegalInfo, initial: seq<int>)
    requires pk.Gen1NotTradeback()
    ensures var required := RequiredSlots(cat, pk, moves, info.encounterMoves.levelUp, initial);
      var r := MinimumMoveSlots(cat, pk, moves, info, initial);
      && Min(4, required) <= r <= Min(4, required + |moves|)
      && ((forall i :: 0 <= i < |moves| ==> !IsTaughtMove(moves[i], initial, info.encounterMoves)) ==>
            r == Min(4, required))
  {
  }
}
