/** Moves that cannot coexist across an evolution: the hand-written cases of
    Nidoking and Exeggutor, and the generic comparison of Eevee's level-up
    moves with those of its three generation 1 evolutions. */
module EvolutionMoves {
  import opened GbTypes

  // ---------------------------------------------------------------------
  // Learn levels of a list of moves
  // ---------------------------------------------------------------------

  /** Level at which `species` learns each of `moves` by level-up. */
  function MinLevels(cat: Catalog, species: int, moves: seq<int>): seq<int>
  {
    seq(|moves|, i requires 0 <= i < |moves| => cat.levelUpLevel1(species, moves[i]))
  }

  /** A move `index` starts with in both Red/Blue and Yellow. */
  predicate IsStartingMove(cat: Catalog, index: int, move: int)
  {
    move in cat.startMovesRB(index) && move in cat.startMovesY(index)
  }

  /** The latest level at which the personal-table entry `index` first meets `move`. */
  function HighestLevel(cat: Catalog, index: int, move: int): int
  {
    if IsStartingMove(cat, index, move) then 1
    else Max(cat.levelLearnRB(index, move), cat.levelLearnY(index, move))
  }

  /** Latest learn level of each of `moves`; all zeros when `species` has no personal-table index. */
  function MaxLevels(cat: Catalog, species: int, moves: seq<int>): seq<int>
  {
    var index := cat.formeIndexRB(species);
    if index == 0 then seq(|moves|, _ => 0)
    else seq(|moves|, i requires 0 <= i < |moves| => HighestLevel(cat, index, moves[i]))
  }

  method GetMinLevelLearnMoveG1(cat: Catalog, species: int, moves: seq<int>) returns (r: array<int>)
    ensures fresh(r)
    ensures r[..] == MinLevels(cat, species, moves)
  {
    r := new int[|moves|](_ => 0);
    for i := 0 to r.Length
      invariant forall k :: 0 <= k < i ==> r[k] == cat.levelUpLevel1(species, moves[k])
    {
      r[i] := cat.levelUpLevel1(species, moves[i]);
    }
  }

  method GetMaxLevelLearnMoveG1(cat: Catalog, species: int, moves: seq<int>) returns (r: array<int>)
    ensures fresh(r)
    ensures r[..] == MaxLevels(cat, species, moves)
  {
    r := new int[|moves|](_ => 0);
    var index := cat.formeIndexRB(species);
    if index == 0 {
      return;
    }
    for m := 0 to |moves|
      invariant forall k :: 0 <= k < m ==> r[k] == HighestLevel(cat, index, moves[k])
    {
      var start := moves[m] in cat.startMovesRB(index) && moves[m] in cat.startMovesY(index);
      r[m] := if start then 1 else Max(cat.levelLearnRB(index, moves[m]), cat.levelLearnY(index, moves[m]));
    }
  }

  /** The level arrays have one entry per move; the latest-level array is all
      zeros without a personal-table index, and otherwise holds 1 for a
      starting move of both versions and the larger learnset level else. */
  lemma LevelArrays(cat: Catalog, species: int, moves: seq<int>)
    ensures |MinLevels(cat, species, moves)| == |moves|
    ensures |MaxLevels(cat, species, moves)| == |moves|
    ensures forall i :: 0 <= i < |moves| ==>
      MinLevels(cat, species, moves)[i] == cat.levelUpLevel1(species, moves[i])
    ensures cat.formeIndexRB(species) == 0 ==>
      forall i :: 0 <= i < |moves| ==> MaxLevels(cat, species, moves)[i] == 0
    ensures cat.formeIndexRB(species) != 0 ==>
      forall i :: 0 <= i < |moves| ==>
        var index := cat.formeIndexRB(species);
        var level := MaxLevels(cat, species, moves)[i];
        (IsStartingMove(cat, index, moves[i]) ==> level == 1) &&
        (!IsStartingMove(cat, index, moves[i]) ==>
           level >= cat.levelLearnRB(index, moves[i]) &&
           level >= cat.levelLearnY(index, moves[i]) &&
           (level == cat.levelLearnRB(index, moves[i]) || level == cat.levelLearnY(index, moves[i])))
  {
  }

  // ---------------------------------------------------------------------
  // Moves only one of two species learns by level-up
  // ---------------------------------------------------------------------

  /** Moves both species learn by level-up, together with the TM/HM moves. */
  function CommonMoves(learned1: seq<int>, learned2: seq<int>, tmhm: seq<int>): set<int>
  {
    (set x | x in learned1 && x in learned2) + (set x | x in tmhm)
  }

  /** What remains of `learned` once every move the record does not know,
      and every common move, is removed, in the original order. */
  function Exclusive(learned: seq<int>, known: set<int>, common: set<int>): (r: seq<int>)
    ensures |r| <= |learned|
    ensures forall x :: x in r <==> x in learned && x in known && x !in common
    decreases |learned|
  {
    if learned == [] then []
    else
      var n := |learned| - 1;
      assert learned == learned[..n] + [learned[n]];
      Exclusive(learned[..n], known, common) + (if learned[n] in known && learned[n] !in common then [learned[n]] else [])
  }

  /** Exclusive level-up moves of `species1` and of `species2` that the record knows. */
  function ExclusivePair(cat: Catalog, species1: int, species2: int, tmhm: seq<int>, moves: seq<int>): (seq<int>, seq<int>)
  {
    var learned1 := cat.movesLevelUp1(species1, 1, 100);
    var learned2 := cat.movesLevelUp1(species2, 1, 100);
    var common := CommonMoves(learned1, learned2, tmhm);
    var known := set x | x in moves;
    (Exclusive(learned1, known, common), Exclusive(learned2, known, common))
  }

  /** Removes from `list`, keeping order, each move for which `known` or `common` says so. */
  method RemoveAbsentOrCommon(list: seq<int>, known: set<int>, common: set<int>) returns (kept: seq<int>)
    ensures kept == Exclusive(list, known, common)
  {
    kept := [];
    var i := 0;
    while i < |list|
      invariant 0 <= i <= |list|
      invariant kept == Exclusive(list[..i], known, common)
    {
      assert list[..i + 1][..i] == list[..i];
      if list[i] in known && list[i] !in common {
        kept := kept + [list[i]];
      }
      i := i + 1;
    }
    assert list[..|list|] == list;
  }

  method GetExclusiveMovesG1(cat: Catalog, species1: int, species2: int, tmhm: seq<int>, moves: seq<int>)
    returns (moves1: seq<int>, moves2: seq<int>)
    ensures (moves1, moves2) == ExclusivePair(cat, species1, species2, tmhm, moves)
    ensures forall x :: x in moves1 ==> x in moves && x !in tmhm && x in cat.movesLevelUp1(species1, 1, 100)
    ensures forall x :: x in moves2 ==> x in moves && x !in tmhm && x in cat.movesLevelUp1(species2, 1, 100)
    ensures forall x :: x in moves1 ==> x !in moves2
  {
    moves1 := cat.movesLevelUp1(species1, 1, 100);
    moves2 := cat.movesLevelUp1(species2, 1, 100);
    var common := CommonMoves(moves1, moves2, tmhm);
    var hashMoves := set x | x in moves;
    moves1 := RemoveAbsentOrCommon(moves1, hashMoves, common);
    moves2 := RemoveAbsentOrCommon(moves2, hashMoves, common);
    ExclusivePairDisjoint(cat, species1, species2, tmhm, moves);
  }

  /** Both exclusive lists hold only known moves outside the TM/HM list,
      each learned by its own species and not by the other, so they are disjoint. */
  lemma ExclusivePairDisjoint(cat: Catalog, species1: int, species2: int, tmhm: seq<int>, moves: seq<int>)
    ensures var (ex1, ex2) := ExclusivePair(cat, species1, species2, tmhm, moves);
      var learned1 := cat.movesLevelUp1(species1, 1, 100);
      var learned2 := cat.movesLevelUp1(species2, 1, 100);
      && (forall x :: x in ex1 ==> x in moves && x !in tmhm && x in learned1 && x !in learned2)
      && (forall x :: x in ex2 ==> x in moves && x !in tmhm && x in learned2 && x !in learned1)
      && (forall x :: x in ex1 ==> x !in ex2)
  {
  }

  // ---------------------------------------------------------------------
  // Flagging Eevee and evolution moves against each other
  // ---------------------------------------------------------------------

  /** Some level of `others` is below `level`. */
  predicate HasLowerLevel(others: seq<int>, level: int)
  {
    exists ev :: ev in others && ev < level
  }

  /** Some level of `others` is above `level`. */
  predicate HasHigherLevel(others: seq<int>, level: int)
  {
    exists ev :: ev in others && ev > level
  }

  /** Whether a move learned at `level` clashes with `others`: one of them
      is learned lower (when `lower`) or higher (otherwise). */
  predicate Conflicts(others: seq<int>, level: int, lower: bool)
  {
    if lower then HasLowerLevel(others, level) else HasHigherLevel(others, level)
  }

  /** The positions of `levels` whose level clashes with `others`, in increasing order. */
  function ConflictPositions(levels: seq<int>, others: seq<int>, lower: bool): (p: seq<int>)
    ensures forall k :: 0 <= k < |p| ==> 0 <= p[k] < |levels|
    ensures forall k, l :: 0 <= k < l < |p| ==> p[k] < p[l]
    ensures forall i :: i in p <==> 0 <= i < |levels| && Conflicts(others, levels[i], lower)
    decreases |levels|
  {
    if levels == [] then []
    else
      var n := |levels| - 1;
      assert forall i :: 0 <= i < n ==> levels[..n][i] == levels[i];
      ConflictPositions(levels[..n], others, lower) + (if Conflicts(others, levels[n], lower) then [n] else [])
  }

  /** The moves of `moves` (learned at `levels`) for which some evolution
      level is lower, in their original order (see `FlaggedPreviousInOrder`). */
  function FlaggedPrevious(moves: seq<int>, levels: seq<int>, evoLevels: seq<int>): (r: seq<int>)
    requires |levels| == |moves|
    ensures |r| <= |moves|
    ensures forall x :: x in r <==>
      exists i :: 0 <= i < |moves| && moves[i] == x && HasLowerLevel(evoLevels, levels[i])
    decreases |moves|
  {
    if moves == [] then []
    else
      var n := |moves| - 1;
      var rest := FlaggedPrevious(moves[..n], levels[..n], evoLevels);
      assert forall i :: 0 <= i < n ==> moves[..n][i] == moves[i] && levels[..n][i] == levels[i];
      rest + (if HasLowerLevel(evoLevels, levels[n]) then [moves[n]] else [])
  }

  /** The moves of `moves` (learned at `levels`) for which some Eevee level
      is higher, in their original order (see `FlaggedCurrentInOrder`). */
  function FlaggedCurrent(moves: seq<int>, levels: seq<int>, eeveeLevels: seq<int>): (r: seq<int>)
    requires |levels| == |moves|
    ensures |r| <= |moves|
    ensures forall x :: x in r <==>
      exists i :: 0 <= i < |moves| && moves[i] == x && HasHigherLevel(eeveeLevels, levels[i])
    decreases |moves|
  {
    if moves == [] then []
    else
      var n := |moves| - 1;
      var rest := FlaggedCurrent(moves[..n], levels[..n], eeveeLevels);
      assert forall i :: 0 <= i < n ==> moves[..n][i] == moves[i] && levels[..n][i] == levels[i];
      rest + (if HasHigherLevel(eeveeLevels, levels[n]) then [moves[n]] else [])
  }

  /** The flagged previous moves are exactly the moves at the clashing
      positions, in increasing position order: a move is listed once per
      position that holds it and clashes. */
  lemma {:induction false} FlaggedPreviousInOrder(moves: seq<int>, levels: seq<int>, evoLevels: seq<int>)
    requires |levels| == |moves|
    ensures var r := FlaggedPrevious(moves, levels, evoLevels);
      var p := ConflictPositions(levels, evoLevels, true);
      |r| == |p| && forall k :: 0 <= k < |p| ==> r[k] == moves[p[k]]
    decreases |moves|
  {
    if moves != [] {
      var n := |moves| - 1;
      FlaggedPreviousInOrder(moves[..n], levels[..n], evoLevels);
      var rest := FlaggedPrevious(moves[..n], levels[..n], evoLevels);
      var before := ConflictPositions(levels[..n], evoLevels, true);
      var clash := Conflicts(evoLevels, levels[n], true);
      assert FlaggedPrevious(moves, levels, evoLevels) == rest + (if clash then [moves[n]] else []);
      assert ConflictPositions(levels, evoLevels, true) == before + (if clash then [n] else []);
      SelectedAppend(moves, n, rest, before, clash);
    }
  }

  /** The flagged current moves are exactly the moves at the clashing
      positions, in increasing position order. */
  lemma {:induction false} FlaggedCurrentInOrder(moves: seq<int>, levels: seq<int>, eeveeLevels: seq<int>)
    requires |levels| == |moves|
    ensures var r := FlaggedCurrent(moves, levels, eeveeLevels);
      var p := ConflictPositions(levels, eeveeLevels, false);
      |r| == |p| && forall k :: 0 <= k < |p| ==> r[k] == moves[p[k]]
    decreases |moves|
  {
    if moves != [] {
      var n := |moves| - 1;
      FlaggedCurrentInOrder(moves[..n], levels[..n], eeveeLevels);
      var rest := FlaggedCurrent(moves[..n], levels[..n], eeveeLevels);
      var before := ConflictPositions(levels[..n], eeveeLevels, false);
      var clash := Conflicts(eeveeLevels, levels[n], false);
      assert FlaggedCurrent(moves, levels, eeveeLevels) == rest + (if clash then [moves[n]] else []);
      assert ConflictPositions(levels, eeveeLevels, false) == before + (if clash then [n] else []);
      SelectedAppend(moves, n, rest, before, clash);
    }
  }

  /** Appending position `n` (when selected) keeps a list equal to the
      moves at the selected positions, for positions taken from `moves[..n]`. */
  lemma SelectedAppend(moves: seq<int>, n: int, rest: seq<int>, before: seq<int>, selected: bool)
    requires 0 <= n < |moves|
    requires |rest| == |before|
    requires forall k :: 0 <= k < |before| ==> 0 <= before[k] < n
    requires forall k :: 0 <= k < |before| ==> rest[k] == moves[..n][before[k]]
    ensures var r := rest + (if selected then [moves[n]] else []);
      var p := before + (if selected then [n] else []);
      |r| == |p| && forall k :: 0 <= k < |p| ==> r[k] == moves[p[k]]
  {
  }

  /** Both flag lists are non-empty exactly when some evolution level lies
      below some Eevee level. */
  lemma {:induction false} FlagsAgree(eeveeMoves: seq<int>, eeveeLevels: seq<int>, evoMoves: seq<int>, evoLevels: seq<int>)
    requires |eeveeLevels| == |eeveeMoves| && |evoLevels| == |evoMoves|
    ensures FlaggedPrevious(eeveeMoves, eeveeLevels, evoLevels) != [] <==>
      exists i, j :: 0 <= i < |eeveeMoves| && 0 <= j < |evoMoves| && evoLevels[j] < eeveeLevels[i]
    ensures FlaggedCurrent(evoMoves, evoLevels, eeveeLevels) != [] <==>
      exists i, j :: 0 <= i < |eeveeMoves| && 0 <= j < |evoMoves| && evoLevels[j] < eeveeLevels[i]
  {
    var previous := FlaggedPrevious(eeveeMoves, eeveeLevels, evoLevels);
    var current := FlaggedCurrent(evoMoves, evoLevels, eeveeLevels);
    if previous != [] {
      assert previous[0] in previous;
      var i :| 0 <= i < |eeveeMoves| && eeveeMoves[i] == previous[0] && HasLowerLevel(evoLevels, eeveeLevels[i]);
      var ev :| ev in evoLevels && ev < eeveeLevels[i];
      var j :| 0 <= j < |evoLevels| && evoLevels[j] == ev;
    }
    if current != [] {
      assert current[0] in current;
      var j :| 0 <= j < |evoMoves| && evoMoves[j] == current[0] && HasHigherLevel(eeveeLevels, evoLevels[j]);
      var ev :| ev in eeveeLevels && ev > evoLevels[j];
      var i :| 0 <= i < |eeveeLevels| && eeveeLevels[i] == ev;
    }
    if exists i, j :: 0 <= i < |eeveeMoves| && 0 <= j < |evoMoves| && evoLevels[j] < eeveeLevels[i] {
      var i, j :| 0 <= i < |eeveeMoves| && 0 <= j < |evoMoves| && evoLevels[j] < eeveeLevels[i];
      assert evoLevels[j] in evoLevels && eeveeLevels[i] in eeveeLevels;
      assert eeveeMoves[i] in previous;
      assert evoMoves[j] in current;
    }
  }

  // ---------------------------------------------------------------------
  // The incompatibility check
  // ---------------------------------------------------------------------

  /** The previous species and the incompatible previous and current moves. */
  datatype Incompatibility = Incompatibility(previousSpecies: int, previous: seq<int>, current: seq<int>)

  const NoIncompatibility: Incompatibility := Incompatibility(0, [], [])

  /** Position `k` of `moves` holds a move value that is a valid position of
      `moves` whose move is no Exeggcute move, so the guard reads on. */
  predicate MissAt(moves: seq<int>, k: int)
    requires 0 <= k < |moves|
  {
    0 <= moves[k] < |moves| && moves[moves[k]] !in G1ExeggcuteIncompatibleMoves
  }

  /** The move value at position `k` is a valid position holding an Exeggcute move. */
  predicate HitAt(moves: seq<int>, k: int)
    requires 0 <= k < |moves|
  {
    0 <= moves[k] < |moves| && moves[moves[k]] in G1ExeggcuteIncompatibleMoves
  }

  /** The move value at position `k` is no valid position of `moves`. */
  predicate OutOfRangeAt(moves: seq<int>, k: int)
    requires 0 <= k < |moves|
  {
    !(0 <= moves[k] < |moves|)
  }

  /** Every position from `from` up to (not including) `k` misses. */
  predicate MissesBetween(moves: seq<int>, from: int, k: int)
    requires 0 <= from <= k <= |moves|
  {
    forall j :: from <= j < k ==> MissAt(moves, j)
  }

  /** Exeggutor's guard from position `from` on: it reads `moves` at the
      VALUE of each move, so it answers for the first position that does not
      miss: true when the move read there is an Exeggcute move, a failure
      when the value is no valid position, false when every position misses. */
  function AnyIndexedByValue(moves: seq<int>, from: nat): (r: Checked<bool>)
    requires from <= |moves|
    ensures r == Ok(false) <==> MissesBetween(moves, from, |moves|)
    ensures r == Ok(true) <==>
      exists k :: from <= k < |moves| && MissesBetween(moves, from, k) && HitAt(moves, k)
    ensures r == IndexOutOfRange <==>
      exists k :: from <= k < |moves| && MissesBetween(moves, from, k) && OutOfRangeAt(moves, k)
    decreases |moves| - from
  {
    if from == |moves| then Ok(false)
    else
      var m := moves[from];
      if !(0 <= m < |moves|) then
        GuardStops(moves, from);
        IndexOutOfRange
      else if moves[m] in G1ExeggcuteIncompatibleMoves then
        GuardStops(moves, from);
        Ok(true)
      else
        GuardReadsOn(moves, from);
        AnyIndexedByValue(moves, from + 1)
  }

  /** When position `from` does not miss, it is the one the guard answers for. */
  lemma GuardStops(moves: seq<int>, from: nat)
    requires from < |moves| && !MissAt(moves, from)
    ensures !MissesBetween(moves, from, |moves|)
    ensures (exists k :: from <= k < |moves| && MissesBetween(moves, from, k) && HitAt(moves, k)) <==>
      HitAt(moves, from)
    ensures (exists k :: from <= k < |moves| && MissesBetween(moves, from, k) && OutOfRangeAt(moves, k)) <==>
      OutOfRangeAt(moves, from)
  {
    assert MissesBetween(moves, from, from);
    forall k | from < k < |moves| ensures !MissesBetween(moves, from, k)
    {
      assert !MissAt(moves, from);
    }
  }

  /** When position `from` misses, the guard from `from` answers as the guard from `from + 1`. */
  lemma GuardReadsOn(moves: seq<int>, from: nat)
    requires from < |moves| && MissAt(moves, from)
    ensures MissesBetween(moves, from, |moves|) <==> MissesBetween(moves, from + 1, |moves|)
    ensures (exists k :: from <= k < |moves| && MissesBetween(moves, from, k) && HitAt(moves, k)) <==>
      (exists k :: from + 1 <= k < |moves| && MissesBetween(moves, from + 1, k) && HitAt(moves, k))
    ensures (exists k :: from <= k < |moves| && MissesBetween(moves, from, k) && OutOfRangeAt(moves, k)) <==>
      (exists k :: from + 1 <= k < |moves| && MissesBetween(moves, from + 1, k) && OutOfRangeAt(moves, k))
  {
    forall k | from + 1 <= k <= |moves|
      ensures MissesBetween(moves, from, k) <==> MissesBetween(moves, from + 1, k)
    {
    }
  }

  /** The incompatible moves of a record of `species` knowing `moves`, with
      `tmhm` the moves teachable to both sides. */
  function IncompatibleEvolutionMoves(cat: Catalog, species: int, moves: seq<int>, tmhm: seq<int>): (r: Checked<Incompatibility>)
    ensures species !in {34, 103, 134, 135, 136} ==> r == Ok(NoIncompatibility)
    ensures species == 34 && !(31 in moves && 37 in moves) ==> r == Ok(NoIncompatibility)
    ensures species == 103 && 23 !in moves ==> r == Ok(NoIncompatibility)
    ensures r.Ok? && r.value.previousSpecies == 0 ==> r.value.previous == [] && r.value.current == []
  {
    if species == 34 && 31 in moves && 37 in moves then
      Ok(Incompatibility(33, [37], [31]))
    else if species == 103 && 23 in moves then
      match AnyIndexedByValue(moves, 0)
      case IndexOutOfRange => IndexOutOfRange
      case Ok(found) =>
        if found then Ok(Incompatibility(103, G1ExeggcuteIncompatibleMoves, [23]))
        else Ok(NoIncompatibility)
    else if species == 134 || species == 135 || species == 136 then
      var (eeveeMoves, evoMoves) := ExclusivePair(cat, 133, species, tmhm, moves);
      var eeveeLevels := MinLevels(cat, 133, eeveeMoves);
      var evoLevels := MaxLevels(cat, species, evoMoves);
      Ok(Incompatibility(133,
        FlaggedPrevious(eeveeMoves, eeveeLevels, evoLevels),
        FlaggedCurrent(evoMoves, evoLevels, eeveeLevels)))
    else
      Ok(NoIncompatibility)
  }

  method GetIncompatibleEvolutionMoves(cat: Catalog, pk: Specimen, moves: seq<int>, tmhm: seq<int>)
    returns (r: Checked<Incompatibility>)
    ensures r == IncompatibleEvolutionMoves(cat, pk.species, moves, tmhm)
  {
    if pk.species == 34 && 31 in moves && 37 in moves {
      return Ok(Incompatibility(33, [37], [31]));
    }
    if pk.species == 103 && 23 in moves {
      var found := AnyIndexedByValue(moves, 0);
      if found == IndexOutOfRange {
        return IndexOutOfRange;
      }
      if found == Ok(true) {
        return Ok(Incompatibility(103, G1ExeggcuteIncompatibleMoves, [23]));
      }
    }
    if pk.species == 134 || pk.species == 135 || pk.species == 136 {
      var previous: seq<int> := [];
      var current: seq<int> := [];
      var eeveeMoves, evoMoves := GetExclusiveMovesG1(cat, 133, pk.species, tmhm, moves);
      var eeveeLevels := GetMinLevelLearnMoveG1(cat, 133, eeveeMoves);
      var evoLevels := GetMaxLevelLearnMoveG1(cat, pk.species, evoMoves);

      for i := 0 to |eeveeMoves|
        invariant previous == FlaggedPrevious(eeveeMoves[..i], eeveeLevels[..i], evoLevels[..])
      {
        assert eeveeMoves[..i + 1][..i] == eeveeMoves[..i];
        assert eeveeLevels[..i + 1][..i] == eeveeLevels[..i];
        if HasLowerLevel(evoLevels[..], eeveeLevels[i]) {
          previous := previous + [eeveeMoves[i]];
        }
      }
      for i := 0 to |evoMoves|
        invariant current == FlaggedCurrent(evoMoves[..i], evoLevels[..i], eeveeLevels[..])
      {
        assert evoMoves[..i + 1][..i] == evoMoves[..i];
        assert evoLevels[..i + 1][..i] == evoLevels[..i];
        if HasHigherLevel(eeveeLevels[..], evoLevels[i]) {
          current := current + [evoMoves[i]];
        }
      }
      assert eeveeMoves[..|eeveeMoves|] == eeveeMoves && eeveeLevels[..|eeveeMoves|] == eeveeLevels[..];
      assert evoMoves[..|evoMoves|] == evoMoves && evoLevels[..|evoMoves|] == evoLevels[..];
      return Ok(Incompatibility(133, previous, current));
    }
    return Ok(NoIncompatibility);
  }

  // ---------------------------------------------------------------------
  // Properties of the incompatibility check
  // ---------------------------------------------------------------------

  /** Nidoking knowing both Fury Attack (31) and Thrash (37): Fury Attack
      is listed as the current move, Thrash as Nidorino's, the reverse of
      which species learns which move. */
  lemma NidokingCase(cat: Catalog, moves: seq<int>, tmhm: seq<int>)
    requires 31 in moves && 37 in moves
    ensures IncompatibleEvolutionMoves(cat, 34, moves, tmhm) == Ok(Incompatibility(33, [37], [31]))
  {
  }

  /** On a four-slot moveset holding Stomp (23), Exeggutor's guard never
      evaluates to false: it either fails on the out-of-range read of
      `moves[23]` or finds an Exeggcute move earlier, so the check never
      returns the default outcome. */
  lemma ExeggutorGuardNeverFalse(cat: Catalog, moves: seq<int>, tmhm: seq<int>)
    requires 23 in moves && |moves| <= 23
    ensures AnyIndexedByValue(moves, 0) != Ok(false)
    ensures IncompatibleEvolutionMoves(cat, 103, moves, tmhm) == IndexOutOfRange ||
            IncompatibleEvolutionMoves(cat, 103, moves, tmhm) == Ok(Incompatibility(103, G1ExeggcuteIncompatibleMoves, [23]))
  {
    var k :| 0 <= k < |moves| && moves[k] == 23;
    assert !MissAt(moves, k);
  }

  /** The guard reads by value. In [1, 78, 23, 0] position 0 holds 1, a
      valid position whose move is Stun Spore (78), so Exeggutor is reported
      with Exeggcute's moves; in [23, 78, 0, 0] the first read, `moves[23]`,
      is out of range. */
  lemma ExeggutorReadsByValue(cat: Catalog, tmhm: seq<int>)
    ensures IncompatibleEvolutionMoves(cat, 103, [1, 78, 23, 0], tmhm) ==
      Ok(Incompatibility(103, G1ExeggcuteIncompatibleMoves, [23]))
    ensures IncompatibleEvolutionMoves(cat, 103, [23, 78, 0, 0], tmhm) == IndexOutOfRange
  {
    assert HitAt([1, 78, 23, 0], 0);
    assert OutOfRangeAt([23, 78, 0, 0], 0);
  }

  /** For Eevee's evolutions the previous species is Eevee, the flagged
      previous moves are known Eevee-only level-up moves and the flagged
      current moves are known evolution-only level-up moves. */
  lemma EeveeEvolutionCase(cat: Catalog, species: int, moves: seq<int>, tmhm: seq<int>)
    requires species == 134 || species == 135 || species == 136
    ensures var r := IncompatibleEvolutionMoves(cat, species, moves, tmhm);
      var (eeveeMoves, evoMoves) := ExclusivePair(cat, 133, species, tmhm, moves);
      && r.Ok?
      && r.value.previousSpecies == 133
      && (forall x :: x in r.value.previous ==>
            x in eeveeMoves && x in moves && x !in tmhm &&
            x in cat.movesLevelUp1(133, 1, 100) && x !in cat.movesLevelUp1(species, 1, 100))
      && (forall x :: x in r.value.current ==>
            x in evoMoves && x in moves && x !in tmhm &&
            x in cat.movesLevelUp1(species, 1, 100) && x !in cat.movesLevelUp1(133, 1, 100))
  {
    ExclusivePairDisjoint(cat, 133, species, tmhm, moves);
  }

  /** For Eevee's evolutions the two flagged lists are non-empty together,
      exactly when some evolution level is below some Eevee level. */
  lemma EeveeFlagsTogether(cat: Catalog, species: int, moves: seq<int>, tmhm: seq<int>)
    requires species == 134 || species == 135 || species == 136
    ensures var r := IncompatibleEvolutionMoves(cat, species, moves, tmhm);
      var (eeveeMoves, evoMoves) := ExclusivePair(cat, 133, species, tmhm, moves);
      var eeveeLevels := MinLevels(cat, 133, eeveeMoves);
      var evoLevels := MaxLevels(cat, species, evoMoves);
      && r.Ok?
      && (r.value.previous != [] <==> r.value.current != [])
      && (r.value.previous != [] <==>
            exists i, j :: 0 <= i < |eeveeMoves| && 0 <= j < |evoMoves| && evoLevels[j] < eeveeLevels[i])
  {
    var (eeveeMoves, evoMoves) := ExclusivePair(cat, 133, species, tmhm, moves);
    FlagsAgree(eeveeMoves, MinLevels(cat, 133, eeveeMoves), evoMoves, MaxLevels(cat, species, evoMoves));
  }

  /** For Eevee's evolutions each flagged list holds the exclusive moves at
      exactly the clashing positions, in the order of the species' learnset. */
  lemma EeveeFlagsInOrder(cat: Catalog, species: int, moves: seq<int>, tmhm: seq<int>)
    requires species == 134 || species == 135 || species == 136
    ensures var r := IncompatibleEvolutionMoves(cat, species, moves, tmhm);
      var (eeveeMoves, evoMoves) := ExclusivePair(cat, 133, species, tmhm, moves);
      var eeveeLevels := MinLevels(cat, 133, eeveeMoves);
      var evoLevels := MaxLevels(cat, species, evoMoves);
      var p := ConflictPositions(eeveeLevels, evoLevels, true);
      var q := ConflictPositions(evoLevels, eeveeLevels, false);
      && r.Ok?
      && |r.value.previous| == |p| && (forall k :: 0 <= k < |p| ==> r.value.previous[k] == eeveeMoves[p[k]])
      && |r.value.current| == |q| && (forall k :: 0 <= k < |q| ==> r.value.current[k] == evoMoves[q[k]])
  {
    var (eeveeMoves, evoMoves) := ExclusivePair(cat, 133, species, tmhm, moves);
    var eeveeLevels := MinLevels(cat, 133, eeveeMoves);
    var evoLevels := MaxLevels(cat, species, evoMoves);
    FlaggedPreviousInOrder(eeveeMoves, eeveeLevels, evoLevels);
    FlaggedCurrentInOrder(evoMoves, evoLevels, eeveeLevels);
  }
}
