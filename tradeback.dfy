/** Tradeback classification of a record from its catch-rate byte, which a
    generation 1 game writes as the species' catch rate and a generation 2
    game overwrites with the held item, and the traded-Kadabra check. */
module Tradeback {
  import opened GbTypes

  /** `catchRate` is the Red/Blue catch rate of `s`, or its Yellow catch rate
      (except Dragonite's, which has no Yellow encounter). */
  predicate MatchesSpeciesCatchRate(cat: Catalog, s: int, catchRate: int)
  {
    catchRate == cat.catchRateRB(s) || (s != 149 && catchRate == cat.catchRateY(s))
  }

  /** The in-game trade Krabby/Kingler with its special catch rate. */
  function IsCatchRateTrade(species: int, catchRate: int): (r: bool)
    ensures r <==> species in {98, 99} && catchRate == 204
  {
    (species == 98 || species == 99) && catchRate == 204
  }

  /** A Stadium gift species with the catch rate of a Stadium gift box. */
  function IsCatchRateStadium(species: int, catchRate: int): (r: bool)
    ensures r <==> species in StadiumGiftSpecies && (catchRate == 167 || catchRate == 168)
  {
    species in StadiumGiftSpecies && catchRate in StadiumCatchRate
  }

  /** The lineage with the species that have no encounter of their own left out. */
  function AvailableLineage(gen1: seq<int>): (r: seq<int>)
    ensures forall s :: s in r <==> s in gen1 && s !in SpeciesNotAvailableCatchRate
  {
    if gen1 == [] then []
    else
      (if gen1[0] in SpeciesNotAvailableCatchRate then [] else [gen1[0]]) + AvailableLineage(gen1[1..])
  }

  /** Some species of `ds` has `catchRate` as its catch rate. */
  function IsCatchRateRBY(cat: Catalog, catchRate: int, ds: seq<int>): (r: bool)
    ensures r <==> exists s :: s in ds && MatchesSpeciesCatchRate(cat, s, catchRate)
  {
    if ds == [] then false
    else MatchesSpeciesCatchRate(cat, ds[0], catchRate) || IsCatchRateRBY(cat, catchRate, ds[1..])
  }

  /** Whether the catch-rate byte of a record of `species` is explained by
      the catch rate of a species of its lineage `gen1` or by the trade and
      Stadium exceptions. */
  function GetCatchRateMatchesPreEvolution(cat: Catalog, species: int, catchRate: int, gen1: seq<int>): (r: bool)
    ensures r <==>
      (exists s :: s in gen1 && s !in SpeciesNotAvailableCatchRate && MatchesSpeciesCatchRate(cat, s, catchRate)) ||
      IsCatchRateTrade(species, catchRate) || IsCatchRateStadium(species, catchRate)
  {
    IsCatchRateRBY(cat, catchRate, AvailableLineage(gen1)) ||
    IsCatchRateTrade(species, catchRate) || IsCatchRateStadium(species, catchRate)
  }

  /** Tradeback status of a generation 1 record whose lineage (its species
      and the pre-evolutions valid at its level) is `lineage`. */
  function GetTradebackStatusRBY(settings: Settings, cat: Catalog, pk: Specimen, lineage: seq<int>): (r: TradebackType)
    ensures r != TradebackType.Gen2NotTradeback
    ensures !settings.allowGen1Tradeback ==> r == TradebackType.Gen1NotTradeback
    ensures r == TradebackType.WasTradeback <==>
      settings.allowGen1Tradeback &&
      (pk.catchRate == 0 || !GetCatchRateMatchesPreEvolution(cat, pk.species, pk.catchRate, lineage))
    ensures r == TradebackType.Any <==>
      settings.allowGen1Tradeback && pk.catchRate != 0 &&
      GetCatchRateMatchesPreEvolution(cat, pk.species, pk.catchRate, lineage) &&
      pk.catchRate in cat.heldItemsGSC
    ensures r == TradebackType.Gen1NotTradeback && settings.allowGen1Tradeback ==>
      pk.catchRate != 0 && pk.catchRate !in cat.heldItemsGSC &&
      GetCatchRateMatchesPreEvolution(cat, pk.species, pk.catchRate, lineage)
  {
    if !settings.allowGen1Tradeback then TradebackType.Gen1NotTradeback
    else
      var catchRate := pk.catchRate;
      if catchRate == 0 then TradebackType.WasTradeback
      else if !GetCatchRateMatchesPreEvolution(cat, pk.species, catchRate, lineage) then TradebackType.WasTradeback
      else if catchRate in cat.heldItemsGSC then TradebackType.Any
      else TradebackType.Gen1NotTradeback
  }

  /** A record whose catch rate is the own (available) species' Red/Blue
      catch rate and no generation 2 held item never left generation 1. */
  lemma NativeCatchRate(settings: Settings, cat: Catalog, pk: Specimen, lineage: seq<int>)
    requires settings.allowGen1Tradeback
    requires pk.species in lineage && pk.species !in SpeciesNotAvailableCatchRate
    requires pk.catchRate == cat.catchRateRB(pk.species) && pk.catchRate != 0
    requires pk.catchRate !in cat.heldItemsGSC
    ensures GetTradebackStatusRBY(settings, cat, pk, lineage) == TradebackType.Gen1NotTradeback
  {
    assert MatchesSpeciesCatchRate(cat, pk.species, pk.catchRate);
  }

  /** Initial tradeback status of any record: a generation 1 record is
      classified by its catch rate; a generation 2 or Virtual Console 2
      record is generation 2 only when its species cannot live in
      generation 1; every other record may have been traded back. */
  function GetTradebackStatusInitial(settings: Settings, cat: Catalog, pk: Specimen, lineage: seq<int>): (r: TradebackType)
    ensures pk.IsPK1() ==> r == GetTradebackStatusRBY(settings, cat, pk, lineage)
    ensures !pk.IsPK1() ==> r == TradebackType.Any || r == TradebackType.Gen2NotTradeback
    ensures r == TradebackType.Gen2NotTradeback <==>
      !pk.IsPK1() && (pk.format == 2 || pk.vc2) && !pk.canInhabitGen1
  {
    if pk.IsPK1() then GetTradebackStatusRBY(settings, cat, pk, lineage)
    else if pk.format == 2 || pk.vc2 then
      if !pk.canInhabitGen1 then TradebackType.Gen2NotTradeback else TradebackType.Any
    else TradebackType.Any
  }

  /** Whether a generation 1 Kadabra must have been traded before evolving:
      it is known to be traded back, or, with a known game, its catch rate
      is the other version's Kadabra catch rate, or it holds a Yellow-only
      move (Kinesis, or Disable below level 20) outside Yellow. */
  function IsTradedKadabraG1(settings: Settings, cat: Catalog, pk: Specimen): (r: bool)
    ensures r ==> pk.IsPK1() && pk.species == 64
    ensures pk.IsPK1() && pk.species == 64 && pk.tradeback == TradebackType.WasTradeback ==> r
    ensures pk.tradeback != TradebackType.WasTradeback && settings.activeTrainerGame == GameVersion.Any ==> !r
    ensures r && pk.tradeback != TradebackType.WasTradeback ==>
      (pk.Gen1NotTradeback() &&
        pk.catchRate == (if settings.activeTrainerGame == GameVersion.YW then cat.catchRateRB(64) else cat.catchRateY(64))) ||
      (settings.activeTrainerGame != GameVersion.YW && (134 in pk.moves || (pk.level < 20 && 50 in pk.moves)))
    ensures pk.IsPK1() && pk.species == 64 && settings.activeTrainerGame == GameVersion.YW ==>
      (r <==> pk.tradeback == TradebackType.WasTradeback ||
              (pk.Gen1NotTradeback() && pk.catchRate == cat.catchRateRB(64)))
    ensures (pk.IsPK1() && pk.species == 64 &&
             settings.activeTrainerGame != GameVersion.Any && settings.activeTrainerGame != GameVersion.YW) ==>
      (r <==> pk.tradeback == TradebackType.WasTradeback ||
              (pk.Gen1NotTradeback() && pk.catchRate == cat.catchRateY(64)) ||
              134 in pk.moves || (pk.level < 20 && 50 in pk.moves))
  {
    if !pk.IsPK1() || pk.species != 64 then false
    else if pk.tradeback == TradebackType.WasTradeback then true
    else if settings.activeTrainerGame == GameVersion.Any then false
    else
      var isYellow := settings.activeTrainerGame == GameVersion.YW;
      var otherRate := if isYellow then cat.catchRateRB(64) else cat.catchRateY(64);
      if pk.Gen1NotTradeback() && pk.catchRate == otherRate then true
      else if isYellow then false
      else if 134 in pk.moves then true   // Kinesis, a Yellow-only move
      else pk.level < 20 && 50 in pk.moves  // Disable before level 20
  }

  /** A non-traded Kadabra, in a known game, whose catch rate is the sibling
      version's Kadabra catch rate is reported as traded. */
  lemma KadabraSiblingCatchRate(settings: Settings, cat: Catalog, pk: Specimen)
    requires pk.IsPK1() && pk.species == 64 && pk.Gen1NotTradeback()
    requires settings.activeTrainerGame != GameVersion.Any
    requires pk.catchRate ==
      (if settings.activeTrainerGame == GameVersion.YW then cat.catchRateRB(64) else cat.catchRateY(64))
    ensures IsTradedKadabraG1(settings, cat, pk)
  {
  }
}
