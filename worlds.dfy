/** The overworld (dunkemon_game/world.py and its identical copy under
    dunkemon_game_online/): a character grid, the player's position and
    party, trainers keyed by their position, and wild encounters. */
module Worlds {
  import opened Common
  import opened Catalog
  import opened Combat
  import opened Monsters

  /** The tile characters and their types. */
  const TileMapping: map<char, string> := map[
    '#' := "wall", '.' := "normal", '=' := "path", '~' := "water",
    '^' := "cave", 'P' := "start", 'C' := "center", 'T' := "trainer"]

  /** The type of `ch`, or `default` for a character not in the table. */
  function TileType(ch: char, default: string): string {
    if ch in TileMapping then TileMapping[ch] else default
  }

  predicate IsPrefix(p: string, s: string) {
    |p| <= |s| && s[..|p|] == p
  }

  /** `needle` occurs in `hay` as a contiguous piece: Python's `in` between strings. */
  predicate Occurs(needle: string, hay: string)
    decreases |hay|
  {
    IsPrefix(needle, hay) || (|hay| > 0 && Occurs(needle, hay[1..]))
  }

  lemma {:induction false} OccursNeedsRoom(needle: string, hay: string)
    requires |needle| > |hay|
    ensures !Occurs(needle, hay)
  {
    if |hay| > 0 {
      OccursNeedsRoom(needle, hay[1..]);
    }
  }

  /** A string of four characters or more occurs in "wall" only if it is "wall". */
  lemma OccursInWall(t: string)
    requires |t| >= 4
    ensures Occurs(t, "wall") <==> t == "wall"
  {
    OccursNeedsRoom(t, "wall"[1..]);
  }

  /** Walkability as the source tests it: the tile's type, unknown
      characters counting as "wall", must not occur in the string "wall".
      The parenthesised `('wall')` is a string, not a one-element tuple. */
  predicate IsWalkableChar(ch: char) {
    !Occurs(TileType(ch, "wall"), "wall")
  }

  /** The substring test agrees with the intended one: a character is
      walkable exactly when it is in the table and is not the wall '#'. */
  lemma WalkableChars(ch: char)
    ensures IsWalkableChar(ch) <==> ch in TileMapping && ch != '#'
  {
    var t := TileType(ch, "wall");
    assert |t| >= 4 by {
      if ch in TileMapping {
        assert ch in {'#', '.', '=', '~', '^', 'P', 'C', 'T'};
      }
    }
    OccursInWall(t);
    if ch in TileMapping && ch != '#' {
      assert ch in {'.', '=', '~', '^', 'P', 'C', 'T'};
    }
  }

  /** What a map character becomes in the grid: the start and trainer
      markers are plain ground. */
  function Cleared(ch: char): char {
    if ch == 'P' || ch == 'T' then '.' else ch
  }

  /** The last index of `c` in `line`, if it occurs. */
  function LastIndex(line: string, c: char): (r: Option<nat>)
    ensures r.None? ==> forall i :: 0 <= i < |line| ==> line[i] != c
    ensures r.Some? ==> r.value < |line| && line[r.value] == c && forall i :: r.value < i < |line| ==> line[i] != c
  {
    if line == [] then None
    else if line[|line| - 1] == c then Some(|line| - 1)
    else LastIndex(line[..|line| - 1], c)
  }

  /** Where the player stands after row `y` holding `line` is scanned from
      `start`: on its last 'P', or still at `start` when it has none. */
  function LastMarkerOr(line: string, y: int, start: (int, int)): (int, int) {
    match LastIndex(line, 'P')
    case Some(x) => (x, y)
    case None => start
  }

  /** The position (x, y) of the last 'P' in reading order, if any. */
  function StartOf(lines: seq<string>): (r: Option<(int, int)>)
    ensures r.None? ==> forall y, x :: 0 <= y < |lines| && 0 <= x < |lines[y]| ==> lines[y][x] != 'P'
    ensures r.Some? ==>
      var (x, y) := r.value;
      && 0 <= y < |lines| && 0 <= x < |lines[y]| && lines[y][x] == 'P'
      && (forall x' :: x < x' < |lines[y]| ==> lines[y][x'] != 'P')
      && forall y', x' :: y < y' < |lines| && 0 <= x' < |lines[y']| ==> lines[y'][x'] != 'P'
  {
    if lines == [] then None
    else
      var y := |lines| - 1;
      match LastIndex(lines[y], 'P')
      case Some(x) => Some((x, y))
      case None =>
        assert forall k :: 0 <= k < y ==> lines[..y][k] == lines[k];
        StartOf(lines[..y])
  }

  /** Where the player stands after `lines` are scanned from `start`. */
  function StartOr(lines: seq<string>, start: (int, int)): (int, int) {
    match StartOf(lines)
    case Some(p) => p
    case None => start
  }

  /** Reading one more row: its last 'P', if any, is the new start. */
  lemma StartOrNextRow(lines: seq<string>, y: nat, start: (int, int))
    requires y < |lines|
    ensures StartOr(lines[..y + 1], start) == LastMarkerOr(lines[y], y, StartOr(lines[..y], start))
  {
    assert lines[..y + 1][..y] == lines[..y];
    assert lines[..y + 1][y] == lines[y];
  }

  /** The cells (x', y) with x' < x where `line`, row `y` of the map
      text, holds a trainer marker. */
  function TrainerMarks(line: string, y: int, x: nat): set<(int, int)>
    requires x <= |line|
  {
    if x == 0 then {}
    else TrainerMarks(line, y, x - 1) + if line[x - 1] == 'T' then {(x - 1, y)} else {}
  }

  lemma {:induction false} TrainerMarksCells(lines: seq<string>, y: nat, x: nat)
    requires y < |lines| && x <= |lines[y]|
    ensures forall p :: p in TrainerMarks(lines[y], y, x) <==> IsTrainerCell(lines, p) && p.1 == y && p.0 < x
  {
    if x > 0 {
      TrainerMarksCells(lines, y, x - 1);
    }
  }

  /** Cell (x, y) of the map text holds a trainer marker. */
  predicate IsTrainerCell(lines: seq<string>, p: (int, int)) {
    0 <= p.1 < |lines| && 0 <= p.0 < |lines[p.1]| && lines[p.1][p.0] == 'T'
  }

  /** The length of the longest line. */
  function MaxLength(lines: seq<string>): (w: nat)
    requires |lines| > 0
    ensures forall y :: 0 <= y < |lines| ==> |lines[y]| <= w
    ensures exists y :: 0 <= y < |lines| && |lines[y]| == w
  {
    if |lines| == 1 then |lines[0]|
    else
      var w := MaxLength(lines[..|lines| - 1]);
      assert forall y :: 0 <= y < |lines| - 1 ==> lines[y] == lines[..|lines| - 1][y];
      if |lines[|lines| - 1]| > w then |lines[|lines| - 1]| else w
  }

  /** `line` with its markers cleared. */
  function ClearedLine(line: string): (row: seq<char>)
    ensures |row| == |line| && forall x :: 0 <= x < |line| ==> row[x] == Cleared(line[x])
  {
    if line == [] then []
    else
      var init := line[..|line| - 1];
      assert forall x :: 0 <= x < |init| ==> init[x] == line[x];
      ClearedLine(init) + [Cleared(line[|line| - 1])]
  }

  /** Scanning one more cell of `line`. */
  lemma ScanStep(line: string, y: int, x: nat)
    requires x < |line|
    ensures TrainerMarks(line, y, x + 1) == TrainerMarks(line, y, x) + if line[x] == 'T' then {(x as int, y)} else {}
    ensures LastIndex(line[..x + 1], 'P') == if line[x] == 'P' then Some(x) else LastIndex(line[..x], 'P')
    ensures ClearedLine(line[..x + 1]) == ClearedLine(line[..x]) + [Cleared(line[x])]
  {
    assert line[..x + 1][..x] == line[..x];
  }

  /** `line` with its markers cleared, padded with '#' to `width`. */
  function PaddedRow(line: string, width: nat): seq<char> {
    seq(width, x => if 0 <= x < |line| then Cleared(line[x]) else '#')
  }

  /** The rows of the grid built from `lines`, `width` cells each. */
  function PaddedRows(lines: seq<string>, width: nat): (g: seq<seq<char>>)
    ensures |g| == |lines|
    ensures forall y :: 0 <= y < |lines| ==> g[y] == PaddedRow(lines[y], width)
  {
    if lines == [] then []
    else
      var init := lines[..|lines| - 1];
      assert forall y :: 0 <= y < |init| ==> init[y] == lines[y];
      PaddedRows(init, width) + [PaddedRow(lines[|lines| - 1], width)]
  }

  /** Fills a scanned row with '#' up to the width of the grid. */
  method PadRow(row: seq<char>, line: string, width: nat) returns (padded: seq<char>)
    requires row == ClearedLine(line) && |line| <= width
    ensures padded == PaddedRow(line, width)
  {
    padded := row;
    while |padded| < width
      invariant |line| <= |padded| <= width
      invariant forall x :: 0 <= x < |padded| ==> padded[x] == (if x < |line| then Cleared(line[x]) else '#')
    {
      padded := padded + ['#'];
    }
  }

  /** `g` with cell (x, y) set to `ch`; a cell off the grid leaves it as it is. */
  function Retiled(g: seq<seq<char>>, x: int, y: int, ch: char): seq<seq<char>> {
    if 0 <= y < |g| && 0 <= x < |g[y]| then g[y := g[y][x := ch]] else g
  }

  /** A monster after a full heal. */
  ghost predicate FullyHealed(m: Monster)
    reads m, m.moves
  {
    && m.currentHp == m.maxHp && m.status == None
    && forall j :: 0 <= j < |m.moves| ==> m.moves[j].currentPp == m.moves[j].pp
  }

  /** A trainer just filed from a 'T' of the map text: undefeated, with
      `members` as its party. */
  ghost predicate NewlyFiled(t: Trainer, p: (int, int), members: seq<Monster>)
    reads t, t.party
  {
    t.position == p && !t.defeated && t.party.members == members
  }

  lemma MergeUpdate<K, V>(a: map<K, V>, b: map<K, V>, k: K, v: V)
    ensures (a + b)[k := v] == a + b[k := v]
  {
  }

  lemma MergeAssoc<K, V>(a: map<K, V>, b: map<K, V>, c: map<K, V>)
    ensures (a + b) + c == a + (b + c)
  {
  }

  /** Every trainer in `filed` was allocated since the previous state,
      with its party, and is newly filed at its key. */
  twostate predicate AllNew(new filed: map<(int, int), Trainer>, partyFor: (int, int) -> seq<Monster>)
    reads set p | p in filed :: filed[p], set p | p in filed :: filed[p].party
  {
    forall p :: p in filed ==> fresh(filed[p]) && fresh(filed[p].party) && NewlyFiled(filed[p], p, partyFor(p.0, p.1))
  }

  /** An NPC trainer with a fixed party. */
  class Trainer {
    const position: (int, int)
    const party: Party
    var defeated: bool

    /** A trainer starts undefeated. */
    constructor (position: (int, int), party: Party)
      ensures this.position == position && this.party == party && !defeated
    {
      this.position := position;
      this.party := party;
      defeated := false;
    }
  }

  /** What a step of the player leads to: nothing, a heal at a center, or
      a challenge by an undefeated trainer. */
  datatype MoveEvent = NoEvent | Healed | Challenge(trainer: Trainer)

  /** Heals every monster of a party in turn: full HP, no status, full PP. */
  method HealAll(members: seq<Monster>)
    modifies members, MovesOf(members)
    ensures forall i :: 0 <= i < |members| ==> FullyHealed(members[i])
  {
    for i := 0 to |members|
      invariant forall k :: 0 <= k < i ==> FullyHealed(members[k])
    {
      assert forall mv :: mv in members[i].moves ==> mv in MovesOf(members);
      members[i].Heal();
    }
  }

  class World {
    const speciesData: SpeciesCatalog
    const movesData: MoveCatalog
    const areaData: AreaCatalog
    var grid: seq<seq<char>>
    var width: int
    var height: int
    var playerX: int
    var playerY: int
    const playerParty: Party
    var items: map<string, int>
    var trainers: map<(int, int), Trainer>

    /** The grid is `height` rows of `width` cells, and every trainer is
        filed under its own position. */
    ghost predicate Valid()
      reads this
    {
      && |grid| == height
      && (forall y :: 0 <= y < |grid| ==> |grid[y]| == width)
      && (forall p :: p in trainers ==> trainers[p].position == p)
    }

    /** An empty world: no map, the player at (0, 0) with an empty party,
        three potions and five balls. */
    constructor (speciesData: SpeciesCatalog, movesData: MoveCatalog, areaData: AreaCatalog)
      ensures Valid()
      ensures this.speciesData == speciesData && this.movesData == movesData && this.areaData == areaData
      ensures grid == [] && width == 0 && height == 0 && playerX == 0 && playerY == 0
      ensures fresh(playerParty) && playerParty.members == []
      ensures items == map["Potion" := 3, "NetBall" := 5] && trainers == map[]
    {
      this.speciesData := speciesData;
      this.movesData := movesData;
      this.areaData := areaData;
      grid := [];
      width := 0;
      height := 0;
      playerX := 0;
      playerY := 0;
      playerParty := new Party([]);
      items := map["Potion" := 3, "NetBall" := 5];
      trainers := map[];
    }

    function InBounds(x: int, y: int): bool
      reads this
    {
      0 <= x < width && 0 <= y < height
    }

    /** The tile at (x, y); every position off the grid reads as a wall. */
    function Tile(x: int, y: int): (ch: char)
      reads this
      requires Valid()
      ensures !InBounds(x, y) ==> ch == '#'
      ensures InBounds(x, y) ==> ch == grid[y][x]
    {
      if InBounds(x, y) then grid[y][x] else '#'
    }

    /** Writes one cell; a write off the grid is ignored. */
    method SetTile(x: int, y: int, ch: char)
      requires Valid()
      modifies this`grid
      ensures Valid()
      ensures grid == Retiled(old(grid), x, y, ch)
      ensures InBounds(x, y) ==> Tile(x, y) == ch
      ensures forall x', y' :: (x', y') != (x, y) ==> Tile(x', y') == old(Tile(x', y'))
      ensures !InBounds(x, y) ==> grid == old(grid)
    {
      if 0 <= x < width && 0 <= y < height {
        grid := grid[y := grid[y][x := ch]];
      }
    }

    /** Whether the player may stand on (x, y): never off the grid, and on
        the grid exactly on the known tiles other than '#'. */
    function IsWalkable(x: int, y: int): (w: bool)
      reads this
      requires Valid()
      ensures w <==> InBounds(x, y) && grid[y][x] in TileMapping && grid[y][x] != '#'
    {
      WalkableChars(Tile(x, y));
      IsWalkableChar(Tile(x, y))
    }

    /** The encounter area of a tile: its type when `areaData` lists it,
        else "normal" (also for characters not in the table). */
    function AreaKey(tileCh: char): (key: string)
      ensures key in areaData || key == "normal"
      ensures key != "normal" ==> tileCh in TileMapping && TileMapping[tileCh] == key
      ensures tileCh in TileMapping && TileMapping[tileCh] in areaData ==> key == TileMapping[tileCh]
    {
      var t := TileType(tileCh, "normal");
      if t in areaData then t else "normal"
    }

    /** The draws of an encounter are usable: the chosen entry's species is
        in the catalog and the level draw lies in its range. */
    predicate EncounterDrawsFit(encounterDraw: real, choiceDraw: real, levelDraw: int)
      reads this
      requires Valid()
    {
      var key := AreaKey(Tile(playerX, playerY));
      key in areaData && encounterDraw < 0.10 ==>
        var options := areaData[key];
        && |options| > 0
        && InDrawRange(choiceDraw, RunningWeight(options, |options|))
        && options[ChoiceIndex(options, choiceDraw)].species in speciesData
        && options[ChoiceIndex(options, choiceDraw)].minLevel <= levelDraw <= options[ChoiceIndex(options, choiceDraw)].maxLevel
    }

    /** A wild monster appears with probability 0.10 on a tile whose area
        has an encounter table; it is drawn from that table. */
    method MaybeTriggerEncounter(encounterDraw: real, choiceDraw: real, levelDraw: int) returns (wild: Option<Monster>)
      requires Valid()
      requires 0.0 <= encounterDraw < 1.0
      requires EncounterDrawsFit(encounterDraw, choiceDraw, levelDraw)
      ensures var key := AreaKey(Tile(playerX, playerY));
        if key !in areaData || encounterDraw >= 0.10 then wild == None
        else
          var e := areaData[key][ChoiceIndex(areaData[key], choiceDraw)];
          && wild.Some?
          && wild.value.species == e.species && wild.value.level == levelDraw
          && e.minLevel <= wild.value.level <= e.maxLevel
          && wild.value.currentHp == wild.value.maxHp && wild.value.status == None
    {
      var tileCh := Tile(playerX, playerY);
      var key := AreaKey(tileCh);
      if key !in areaData {
        return None;
      }
      if encounterDraw < 0.10 {
        var options := areaData[key];
        var selection := WeightedChoice(options, choiceDraw);
        var m := GenerateMonster(selection.species, selection.minLevel, selection.maxLevel,
                                 speciesData, movesData, levelDraw);
        return Some(m);
      }
      return None;
    }

    /** One step by (dx, dy). A blocked step changes nothing. A step onto a
        center heals the whole party before any trainer check; a step onto
        an undefeated trainer's cell yields that trainer. */
    method MovePlayer(dx: int, dy: int) returns (event: MoveEvent)
      requires Valid()
      modifies this`playerX, this`playerY, playerParty.members, MovesOf(playerParty.members)
      ensures Valid()
      ensures var nx, ny := old(playerX) + dx, old(playerY) + dy;
        if !IsWalkable(nx, ny) then
          && event == NoEvent && playerX == old(playerX) && playerY == old(playerY)
          && unchanged(playerParty.members) && unchanged(MovesOf(playerParty.members))
        else
          && playerX == nx && playerY == ny
          && if Tile(nx, ny) == 'C' then
               && event == Healed
               && forall i :: 0 <= i < |playerParty.members| ==> FullyHealed(playerParty.members[i])
             else
               && unchanged(playerParty.members) && unchanged(MovesOf(playerParty.members))
               && event == (if (nx, ny) in trainers && !trainers[(nx, ny)].defeated then Challenge(trainers[(nx, ny)]) else NoEvent)
    {
      var newX, newY := playerX + dx, playerY + dy;
      if !IsWalkable(newX, newY) {
        return NoEvent;
      }
      var tileCh := Tile(newX, newY);
      playerX := newX;
      playerY := newY;
      if tileCh == 'C' {
        HealAll(playerParty.members);
        return Healed;
      }
      var pos := (newX, newY);
      if pos in trainers && !trainers[pos].defeated {
        return Challenge(trainers[pos]);
      }
      return NoEvent;
    }

    /** Marks a trainer defeated and clears its cell to '.'. Nothing makes a
        trainer undefeated again, and removing a removed trainer changes nothing. */
    method RemoveTrainer(trainer: Trainer)
      requires Valid()
      modifies trainer, this`grid
      ensures Valid() && trainer.defeated
      ensures grid == Retiled(old(grid), trainer.position.0, trainer.position.1, '.')
      ensures InBounds(trainer.position.0, trainer.position.1) ==> Tile(trainer.position.0, trainer.position.1) == '.'
      ensures old(trainer.defeated) && old(Tile(trainer.position.0, trainer.position.1)) == '.' ==>
        grid == old(grid) && unchanged(trainer)
    {
      trainer.defeated := true;
      var (x, y) := trainer.position;
      if InBounds(x, y) && grid[y][x] == '.' {
        assert grid[y][x := '.'] == grid[y];
      }
      SetTile(x, y, '.');
    }

    /** Files a new, undefeated trainer at (x, y) with the party `partyFor`
        gives, replacing any trainer filed there before. */
    method FileTrainer(x: int, y: int, partyFor: (int, int) -> seq<Monster>,
                       ghost base: map<(int, int), Trainer>, ghost filed: map<(int, int), Trainer>)
      returns (ghost filed': map<(int, int), Trainer>)
      requires trainers == base + filed
      modifies this`trainers
      ensures (x, y) in filed' && filed' == filed[(x, y) := filed'[(x, y)]]
      ensures fresh(filed'[(x, y)]) && fresh(filed'[(x, y)].party)
      ensures NewlyFiled(filed'[(x, y)], (x, y), partyFor(x, y))
      ensures trainers == base + filed'
    {
      var party := new Party(partyFor(x, y));
      var t := new Trainer((x, y), party);
      trainers := trainers[(x, y) := t];
      filed' := filed[(x, y) := t];
      MergeUpdate(base, filed, (x, y), t);
    }

    /** Reads cell (x, y) of the map text: a 'P' moves the player there, a
        'T' files a new, undefeated trainer there with the party `partyFor`
        gives (replacing any trainer filed there before), and the cleared
        cell is returned; `filed` grows by the trainer filed, if any. */
    method ScanCell(lines: seq<string>, x: nat, y: nat, partyFor: (int, int) -> seq<Monster>,
                    ghost base: map<(int, int), Trainer>, ghost filed: map<(int, int), Trainer>)
      returns (cell: char, ghost filed': map<(int, int), Trainer>)
      requires y < |lines| && x < |lines[y]|
      requires trainers == base + filed
      modifies this`playerX, this`playerY, this`trainers
      ensures cell == Cleared(lines[y][x])
      ensures (playerX, playerY) == if lines[y][x] == 'P' then (x as int, y as int) else old((playerX, playerY))
      ensures trainers == base + filed'
      ensures lines[y][x] != 'T' ==> filed' == filed
      ensures lines[y][x] == 'T' ==>
        && (x, y) in filed' && filed' == filed[(x, y) := filed'[(x, y)]]
        && fresh(filed'[(x, y)]) && fresh(filed'[(x, y)].party)
        && NewlyFiled(filed'[(x, y)], (x, y), partyFor(x, y))
    {
      filed' := filed;
      var ch := lines[y][x];
      if ch == 'P' {
        playerX := x;
        playerY := y;
        cell := '.';
      } else if ch == 'T' {
        cell := '.';
        filed' := FileTrainer(x, y, partyFor, base, filed);
      } else {
        cell := ch;
      }
    }

    /** Scans one line of the map text, cell by cell; `filed` holds the
        trainers it files. */
    method ScanRow(lines: seq<string>, y: nat, partyFor: (int, int) -> seq<Monster>)
      returns (row: seq<char>, ghost filed: map<(int, int), Trainer>)
      requires y < |lines|
      modifies this`playerX, this`playerY, this`trainers
      ensures row == ClearedLine(lines[y])
      ensures (playerX, playerY) == LastMarkerOr(lines[y], y, (old(playerX), old(playerY)))
      ensures trainers == old(trainers) + filed
      ensures forall p :: p in filed <==> IsTrainerCell(lines, p) && p.1 == y
      ensures AllNew(filed, partyFor)
    {
      var line := lines[y];
      row := [];
      filed := map[];
      for x := 0 to |line|
        invariant row == ClearedLine(line[..x])
        invariant (playerX, playerY) == LastMarkerOr(line[..x], y, (old(playerX), old(playerY)))
        invariant trainers == old(trainers) + filed
        invariant filed.Keys == TrainerMarks(line, y, x)
        invariant forall p :: p in filed ==> NewlyFiled(filed[p], p, partyFor(p.0, p.1))
        invariant forall p :: p in filed ==> fresh(filed[p]) && fresh(filed[p].party)
      {
        ScanStep(line, y, x);
        var cell;
        ghost var before := filed;
        cell, filed := ScanCell(lines, x, y, partyFor, old(trainers), filed);
        assert filed.Keys == before.Keys + if line[x] == 'T' then {(x as int, y as int)} else {};
        row := row + [cell];
      }
      assert line[..|line|] == line;
      TrainerMarksCells(lines, y, |line|);
    }

    /** Scans the lines of a map text row by row, padding each row to
        `w`; `filed` holds the trainers it files. */
    method ScanLines(lines: seq<string>, w: nat, partyFor: (int, int) -> seq<Monster>)
      returns (rows: seq<seq<char>>, ghost filed: map<(int, int), Trainer>)
      requires forall y :: 0 <= y < |lines| ==> |lines[y]| <= w
      modifies this`playerX, this`playerY, this`trainers
      ensures rows == PaddedRows(lines, w)
      ensures (playerX, playerY) == StartOr(lines, (old(playerX), old(playerY)))
      ensures trainers == old(trainers) + filed
      ensures forall p :: p in filed <==> IsTrainerCell(lines, p)
      ensures AllNew(filed, partyFor)
    {
      rows := [];
      filed := map[];
      for y := 0 to |lines|
        invariant rows == PaddedRows(lines[..y], w)
        invariant (playerX, playerY) == StartOr(lines[..y], (old(playerX), old(playerY)))
        invariant trainers == old(trainers) + filed
        invariant forall p :: p in filed <==> IsTrainerCell(lines, p) && p.1 < y
        invariant AllNew(filed, partyFor)
      {
        StartOrNextRow(lines, y, (old(playerX), old(playerY)));
        var row, rowFiled := ScanRow(lines, y, partyFor);
        MergeAssoc(old(trainers), filed, rowFiled);
        forall p | p in filed + rowFiled
          ensures fresh((filed + rowFiled)[p]) && fresh((filed + rowFiled)[p].party)
          ensures NewlyFiled((filed + rowFiled)[p], p, partyFor(p.0, p.1))
        {
          if p !in rowFiled {
            assert (filed + rowFiled)[p] == filed[p];
          }
        }
        filed := filed + rowFiled;
        row := PadRow(row, lines[y], w);
        assert lines[..y + 1][..y] == lines[..y];
        rows := rows + [row];
      }
      assert lines[..|lines|] == lines;
    }

    /** Builds the grid from the lines of a map file: every row is padded
        with '#' to the longest line, markers become ground, the last 'P'
        sets the player's position (kept when there is none) and each 'T'
        files a new trainer, replacing any trainer filed there before. */
    method LoadMap(lines: seq<string>, partyFor: (int, int) -> seq<Monster>)
      requires Valid()
      requires |lines| > 0
      modifies this`grid, this`width, this`height, this`playerX, this`playerY, this`trainers
      ensures Valid()
      ensures height == |lines| && width == MaxLength(lines)
      ensures grid == PaddedRows(lines, width)
      ensures StartOf(lines).Some? ==> (playerX, playerY) == StartOf(lines).value
      ensures StartOf(lines).None? ==> playerX == old(playerX) && playerY == old(playerY)
      ensures forall p :: p in trainers <==> p in old(trainers) || IsTrainerCell(lines, p)
      ensures forall p :: IsTrainerCell(lines, p) ==>
        fresh(trainers[p]) && fresh(trainers[p].party) && NewlyFiled(trainers[p], p, partyFor(p.0, p.1))
      ensures forall p :: p in old(trainers) && !IsTrainerCell(lines, p) ==> trainers[p] == old(trainers)[p]
    {
      height := |lines|;
      width := MaxLength(lines);
      var rows, filed := ScanLines(lines, width, partyFor);
      grid := rows;
      forall p | p in trainers
        ensures trainers[p].position == p
        ensures IsTrainerCell(lines, p) ==>
          fresh(trainers[p]) && fresh(trainers[p].party) && NewlyFiled(trainers[p], p, partyFor(p.0, p.1))
      {
        if p in filed {
          assert trainers[p] == filed[p];
        }
      }
    }
  }
}
