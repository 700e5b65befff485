/** The reference data the game loads once per session, as typed records.
    A catalog entry's optional fields are `Option`s so that the defaults the
    code applies to missing keys can be modelled. */
module Catalog {
  import opened Common

  /** A move catalog entry; every field may be missing. */
  datatype MoveData = MoveData(
    moveType: Option<string>,
    category: Option<string>,
    power: Option<int>,
    accuracy: Option<int>,
    pp: Option<int>,
    priority: Option<int>,
    effect: Option<string>)

  /** A species' base stat table. */
  datatype BaseStats = BaseStats(hp: int, attack: int, defense: int, spAtk: int, spDef: int, speed: int)

  /** One entry of a species' moveset: a move name and the level it is learnt at. */
  type Learnable = (string, int)

  /** A species catalog entry. The moveset keeps the insertion order of the
      catalog's dictionary; a missing moveset is the empty sequence. */
  datatype SpeciesData = SpeciesData(types: seq<string>, baseStats: BaseStats, moveset: seq<Learnable>)

  /** One row of an area's encounter table; a missing weight counts as 1. */
  datatype EncounterEntry = EncounterEntry(species: string, minLevel: int, maxLevel: int, weight: Option<real>)

  type MoveCatalog = map<string, MoveData>
  type SpeciesCatalog = map<string, SpeciesData>
  type AreaCatalog = map<string, seq<EncounterEntry>>

  /** The keys of a dictionary are distinct, so a moveset names each move once. */
  predicate DistinctNames(moveset: seq<Learnable>) {
    forall i, j :: 0 <= i < j < |moveset| ==> moveset[i].0 != moveset[j].0
  }
}
