/** Monsters (dunkemon_game/monster.py and its identical copy under
    dunkemon_game_online/), the shared party list, save/restore and
    monster generation (dunkemon_game/utils.py, generate_monster). */
module Monsters {
  import opened Common
  import opened Catalog
  import opened Moves
  import opened Combat
  import opened Loadout

  /** The saved form of a monster. Species and level are required keys;
      current HP may be missing; a missing status and a saved `null` are
      both `None`; a missing move list is the empty sequence. */
  datatype MonsterRecord = MonsterRecord(
    species: string,
    level: int,
    currentHp: Option<int>,
    status: Option<string>,
    moves: seq<MoveRecord>)

  /** `mv` was built from the catalog entry of `name`. */
  predicate MadeFrom(mv: Move, name: string, movesData: MoveCatalog) {
    && name in movesData
    && var data := movesData[name];
    && mv.name == name
    && mv.moveType == data.moveType.GetOr("Normal")
    && mv.category == data.category.GetOr("Physical")
    && mv.power == data.power.GetOr(0)
    && mv.accuracy == data.accuracy.GetOr(100)
    && mv.pp == data.pp.GetOr(20)
    && mv.priority == data.priority.GetOr(0)
    && mv.effect == data.effect.GetOr("None")
  }

  /** HP after one poison tick: lose an eighth of max HP (at least 1), never below 0. */
  function PoisonedHp(hp: int, maxHp: int): (r: int)
    ensures r >= 0
    ensures r <= hp || hp < 0
    ensures hp > 0 ==> r < hp
  {
    var damage := Max(1, maxHp / 8);
    Max(0, hp - damage)
  }

  /** HP after `n` consecutive poison ticks. */
  function PoisonedHpAfter(hp: int, maxHp: int, n: nat): int
    decreases n
  {
    if n == 0 then hp else PoisonedHpAfter(PoisonedHp(hp, maxHp), maxHp, n - 1)
  }

  /** Poison alone makes a monster with `hp` HP faint within `hp` ticks. */
  lemma {:induction false} PoisonFaintsWithin(hp: int, maxHp: int, n: nat)
    requires 0 <= hp <= n
    ensures PoisonedHpAfter(hp, maxHp, n) == 0
  {
    if n > 0 {
      var next := PoisonedHp(hp, maxHp);
      assert next <= n - 1;
      PoisonFaintsWithin(next, maxHp, n - 1);
    }
  }

  /** A monster's HP after a status tick and the lines the tick reports. */
  datatype Tick = Tick(hp: int, lines: seq<Line>)

  /** The status tick: only poison acts. It costs `PoisonedHp`, reports that
      the monster is hurt, and reports a faint as well when HP reaches 0;
      without poison nothing happens and nothing is reported. */
  function StatusTick(hp: int, maxHp: int, status: Option<string>, species: string): (t: Tick)
    ensures status != Some("Poison") ==> t == Tick(hp, [])
    ensures status == Some("Poison") ==>
      && t.hp == PoisonedHp(hp, maxHp)
      && 1 <= |t.lines| <= 2
      && t.lines[0] == HurtByPoison(species)
      && (|t.lines| == 2 <==> t.hp == 0)
      && (|t.lines| == 2 ==> t.lines[1] == Fainted(species))
  {
    if status == Some("Poison") then
      var after := PoisonedHp(hp, maxHp);
      Tick(after, [HurtByPoison(species)] + (if after == 0 then [Fainted(species)] else []))
    else Tick(hp, [])
  }

  class Monster {
    const species: string
    const level: int
    const types: seq<string>
    const baseStats: BaseStats
    const stats: Stats
    const maxHp: int
    var currentHp: int
    var status: Option<string>
    const moves: seq<Move>

    /** Derives the stats and builds the loadout from the catalogs. */
    constructor (species: string, level: int, info: SpeciesData, movesData: MoveCatalog)
      ensures this.species == species && this.level == level
      ensures types == info.types && baseStats == info.baseStats
      ensures stats == CalculateStats(info.baseStats, level)
      ensures maxHp == stats.hp && currentHp == maxHp && status == None
      ensures |moves| == |Choose(info.moveset, level, movesData)|
      ensures forall i :: 0 <= i < |moves| ==>
        MadeFrom(moves[i], Choose(info.moveset, level, movesData)[i].0, movesData) &&
        moves[i].currentPp == moves[i].pp && fresh(moves[i])
      ensures forall i, j :: 0 <= i < j < |moves| ==> moves[i] != moves[j]
    {
      this.species := species;
      this.level := level;
      types := info.types;
      baseStats := info.baseStats;
      stats := CalculateStats(info.baseStats, level);
      maxHp := CalculateStats(info.baseStats, level).hp;
      currentHp := CalculateStats(info.baseStats, level).hp;
      status := None;
      var sorted := SortByLevel(info.moveset);
      var learnt: seq<Move> := [];
      var i := 0;
      while i < |sorted|
        invariant 0 <= i <= |sorted|
        invariant |learnt| == |Eligible(sorted[..i], level, movesData)|
        invariant forall k :: 0 <= k < |learnt| ==>
          MadeFrom(learnt[k], Eligible(sorted[..i], level, movesData)[k].0, movesData) &&
          learnt[k].currentPp == learnt[k].pp && fresh(learnt[k])
        invariant forall k, l :: 0 <= k < l < |learnt| ==> learnt[k] != learnt[l]
      {
        assert sorted[..i + 1][..i] == sorted[..i];
        var (name, learnLevel) := sorted[i];
        if level >= learnLevel && name in movesData {
          var mv := new Move(name, movesData[name]);
          learnt := learnt + [mv];
        }
        i := i + 1;
      }
      assert sorted[..i] == sorted;
      moves := if |learnt| <= 4 then learnt else learnt[..4];
    }

    /** The end-of-turn status tick, as `StatusTick` describes it. */
    method ApplyStatusEffects() returns (lines: seq<Line>)
      modifies this`currentHp
      ensures Tick(currentHp, lines) == StatusTick(old(currentHp), maxHp, status, species)
    {
      lines := [];
      if status == Some("Poison") {
        var damage := Max(1, maxHp / 8);
        currentHp := Max(0, currentHp - damage);
        lines := lines + [HurtByPoison(species)];
        if currentHp == 0 {
          lines := lines + [Fainted(species)];
        }
      }
    }

    /** A monster is fainted when its HP is not positive. */
    predicate IsFainted()
      reads this
      ensures IsFainted() <==> currentHp <= 0
    {
      currentHp <= 0
    }

    /** Full heal. The new state depends only on constants, so healing twice
        is the same as healing once. */
    method Heal()
      modifies this`currentHp, this`status, moves
      ensures currentHp == maxHp && status == None
      ensures forall i :: 0 <= i < |moves| ==> moves[i].currentPp == moves[i].pp
    {
      currentHp := maxHp;
      status := None;
      for i := 0 to |moves|
        invariant currentHp == maxHp && status == None
        invariant forall k :: 0 <= k < i ==> moves[k].currentPp == moves[k].pp
      {
        moves[i].RestorePp();
      }
    }

    /** Bounds-checked move lookup; never mutates anything. */
    function SelectMove(index: int): (r: Option<Move>)
      ensures r.None? <==> index < 0 || index >= |moves|
      ensures r.Some? ==> 0 <= index < |moves| && r.value == moves[index]
    {
      if index < 0 || index >= |moves| then None else Some(moves[index])
    }

    /** The saved form of this monster. */
    function AsDict(): (r: MonsterRecord)
      reads this, moves
      ensures r.species == species && r.level == level
      ensures r.currentHp == Some(currentHp) && r.status == status
      ensures |r.moves| == |moves|
      ensures forall i :: 0 <= i < |moves| ==> r.moves[i] == MoveRecord(Some(moves[i].name), Some(moves[i].currentPp))
    {
      MonsterRecord(species, level, Some(currentHp), status, MoveRecords(moves))
    }
  }

  /** The saved forms of a list of moves, in order. */
  function MoveRecords(ms: seq<Move>): (r: seq<MoveRecord>)
    reads ms
    ensures |r| == |ms|
    ensures forall i :: 0 <= i < |ms| ==> r[i] == ms[i].AsDict()
  {
    if ms == [] then [] else MoveRecords(ms[..|ms| - 1]) + [ms[|ms| - 1].AsDict()]
  }

  /** The PP a rebuilt move named `name` (maximum `pp`) ends with: the last
      saved entry with that name decides, a missing saved PP meaning `pp`;
      with no such entry the move keeps its full `pp`. */
  function RestoredPp(saved: seq<MoveRecord>, name: string, pp: int): int {
    if saved == [] then pp
    else if saved[|saved| - 1].name == Some(name) then saved[|saved| - 1].currentPp.GetOr(pp)
    else RestoredPp(saved[..|saved| - 1], name, pp)
  }

  /** A saved move whose name is unique in the list restores its own PP. */
  lemma {:induction false} RestoredPpFindsSaved(saved: seq<MoveRecord>, i: nat, pp: int)
    requires i < |saved| && saved[i].name.Some? && saved[i].currentPp.Some?
    requires forall j :: 0 <= j < |saved| && j != i ==> saved[j].name != saved[i].name
    ensures RestoredPp(saved, saved[i].name.value, pp) == saved[i].currentPp.value
  {
    if i != |saved| - 1 {
      RestoredPpFindsSaved(saved[..|saved| - 1], i, pp);
    }
  }

  /** Saved moves matching no rebuilt move are ignored: the move keeps full PP. */
  lemma {:induction false} RestoredPpUnmatched(saved: seq<MoveRecord>, name: string, pp: int)
    requires forall j :: 0 <= j < |saved| ==> saved[j].name != Some(name)
    ensures RestoredPp(saved, name, pp) == pp
  {
    if saved != [] {
      RestoredPpUnmatched(saved[..|saved| - 1], name, pp);
    }
  }

  /** Rebuilds a monster from its saved form and the catalogs, then
      overwrites HP, status and the PP of every move matched by name. */
  method FromDict(data: MonsterRecord, speciesData: SpeciesCatalog, movesData: MoveCatalog) returns (m: Monster)
    requires data.species in speciesData
    ensures m.species == data.species && m.level == data.level
    ensures m.types == speciesData[data.species].types
    ensures m.maxHp == CalculateStats(speciesData[data.species].baseStats, data.level).hp
    ensures m.currentHp == data.currentHp.GetOr(m.maxHp)
    ensures m.status == data.status
    ensures |m.moves| == |Choose(speciesData[data.species].moveset, data.level, movesData)|
    ensures forall i :: 0 <= i < |m.moves| ==>
      && MadeFrom(m.moves[i], Choose(speciesData[data.species].moveset, data.level, movesData)[i].0, movesData)
      && m.moves[i].currentPp == RestoredPp(data.moves, m.moves[i].name, m.moves[i].pp)
  {
    m := new Monster(data.species, data.level, speciesData[data.species], movesData);
    m.currentHp := data.currentHp.GetOr(m.maxHp);
    m.status := data.status;
    var saved := data.moves;
    for i := 0 to |saved|
      invariant m.currentHp == data.currentHp.GetOr(m.maxHp) && m.status == data.status
      invariant forall k :: 0 <= k < |m.moves| ==>
        m.moves[k].currentPp == RestoredPp(saved[..i], m.moves[k].name, m.moves[k].pp)
    {
      assert saved[..i + 1][..i] == saved[..i];
      var name := saved[i].name;
      for j := 0 to |m.moves|
        invariant m.currentHp == data.currentHp.GetOr(m.maxHp) && m.status == data.status
        invariant forall k :: 0 <= k < j ==>
          m.moves[k].currentPp == RestoredPp(saved[..i + 1], m.moves[k].name, m.moves[k].pp)
        invariant forall k :: j <= k < |m.moves| ==>
          m.moves[k].currentPp == RestoredPp(saved[..i], m.moves[k].name, m.moves[k].pp)
      {
        var mv := m.moves[j];
        if Some(mv.name) == name {
          mv.currentPp := saved[i].currentPp.GetOr(mv.pp);
        }
      }
    }
    assert saved[..|saved|] == saved;
  }

  /** `m` has the loadout that rebuilding it from these catalogs gives. */
  predicate Rebuildable(m: Monster, speciesData: SpeciesCatalog, movesData: MoveCatalog) {
    && m.species in speciesData
    && DistinctNames(speciesData[m.species].moveset)
    && var c := Choose(speciesData[m.species].moveset, m.level, movesData);
    && |m.moves| == |c|
    && forall i :: 0 <= i < |c| ==> m.moves[i].name == c[i].0
  }

  /** Save/restore round trip: restoring what `AsDict` saved gives back the
      species, level, HP, status and every move's PP. */
  method SaveAndRestore(m: Monster, speciesData: SpeciesCatalog, movesData: MoveCatalog) returns (r: Monster)
    requires Rebuildable(m, speciesData, movesData)
    ensures r.species == m.species && r.level == m.level
    ensures r.currentHp == m.currentHp && r.status == m.status
    ensures |r.moves| == |m.moves|
    ensures forall i :: 0 <= i < |m.moves| ==> r.moves[i].name == m.moves[i].name && r.moves[i].currentPp == m.moves[i].currentPp
  {
    var saved := m.AsDict();
    r := FromDict(saved, speciesData, movesData);
    var c := Choose(speciesData[m.species].moveset, m.level, movesData);
    ChooseDistinct(speciesData[m.species].moveset, m.level, movesData);
    forall i | 0 <= i < |m.moves|
      ensures r.moves[i].name == m.moves[i].name && r.moves[i].currentPp == m.moves[i].currentPp
    {
      assert r.moves[i].name == c[i].0 == m.moves[i].name;
      RestoredPpFindsSaved(saved.moves, i, r.moves[i].pp);
    }
  }

  /** A wild or trainer monster of the named species at the drawn level. */
  method GenerateMonster(speciesName: string, minLevel: int, maxLevel: int,
                         speciesData: SpeciesCatalog, movesData: MoveCatalog, levelDraw: int)
    returns (m: Monster)
    requires minLevel <= levelDraw <= maxLevel
    requires speciesName in speciesData
    ensures m.species == speciesName && m.level == levelDraw && minLevel <= m.level <= maxLevel
    ensures m.currentHp == m.maxHp && m.status == None
    ensures m.maxHp == CalculateStats(speciesData[speciesName].baseStats, levelDraw).hp
  {
    m := new Monster(speciesName, levelDraw, speciesData[speciesName], movesData);
  }

  /** A party: an ordered list of monsters, shared by reference between
      the world and the battle in progress. */
  class Party {
    var members: seq<Monster>

    constructor (members: seq<Monster>)
      ensures this.members == members
    {
      this.members := members;
    }

    method Append(m: Monster)
      modifies this
      ensures members == old(members) + [m]
    {
      members := members + [m];
    }
  }

  /** Every move of every monster in `ms`: what healing a whole party touches. */
  function MovesOf(ms: seq<Monster>): set<Move> {
    set m, mv | m in ms && mv in m.moves :: mv
  }
}
