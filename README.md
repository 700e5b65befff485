# dunkemon core, modelled in Dafny

This project models the game logic of dunkemon, a small monster-catching
game. The logic lives in five Python files:

- `dunkemon_game/move.py`: a battle move with a power-point (PP) counter.
- `dunkemon_game/monster.py`: a monster with derived stats, a loadout of at
  most four moves, poison, healing, and save/restore through a dictionary.
- `dunkemon_game/utils.py`: stat derivation, the fixed type chart, the
  weighted choice over an encounter table, the damage formula and monster
  generation.
- `dunkemon_game/battle.py`: one battle between two parties. It covers the
  active monster, player and opponent attacks, the end-of-turn poison tick
  and capture.
- `dunkemon_game/world.py`: the overworld. It covers loading a map, tiles,
  walkability, encounter areas, wild encounters, player movement with
  healing at centers and trainer challenges, and defeating trainers.

The copies of `monster.py`, `utils.py` and `world.py` under
`dunkemon_game_online/dunkemon_game/` are identical to these files, so one
model covers both.

The Dafny modules follow the source:

| module | what it holds |
|---|---|
| `Common` | `Option` and the kinds of log line. |
| `Catalog` | The typed move, species and area catalogs. |
| `Moves` | `class Move`. |
| `Combat` | The functions of `utils.py` that work on values. |
| `Loadout` | The sorted, filtered, four-move loadout a monster learns. |
| `Monsters` | `class Monster`, `class Party`, save/restore and generation. |
| `Battles` | `class Battle`. |
| `Worlds` | `class Trainer` and `class World`. |

Objects that Python updates in place are Dafny classes with `modifies`
frames:

- moves (their PP);
- monsters (their HP and status);
- parties;
- trainers;
- the world.

A party is a `Party` object. The world and the battle share it by reference,
as the Python lists are shared: a capture appends to the very list the world
holds. Every random draw is a parameter whose range is a precondition:

- the accuracy roll, from 1 to 100;
- the damage factor, from 0.85 to 1.0;
- the poison draw and the capture draw, in [0, 1);
- the encounter draws;
- the opponent's move choice;
- a generated monster's level.

## Model

| member | source | states |
|---|---|---|
| Moves.Move.constructor | dunkemon_game/move.py:13-22 | Every field takes the catalog value or its default (`Normal`, `Physical`, 0, 100, 20, 0, `None`). The PP counter starts full. |
| Moves.Move.UsePp | dunkemon_game/move.py:34-39 | The move was usable iff PP was positive. Only then is one PP spent; otherwise PP is unchanged. PP never goes negative. |
| Moves.Move.RestorePp | dunkemon_game/move.py:30-32 | PP becomes the maximum, so restoring twice is the same as restoring once. |
| Moves.Move.AsDict | dunkemon_game/move.py:41-42 | The saved form holds exactly the name and the current PP. |
| Moves.HitChance | dunkemon_game/move.py:24-28 | Of the 100 equally likely rolls, exactly `accuracy` hit, clamped to [0, 100]. Every roll hits from accuracy 100 up. |
| Combat.CalculateStats | dunkemon_game/utils.py:6-20 | Stat derivation: HP is `(2*base*level)//100 + level + 10`, every other stat the same term + 5. It has no ensures of its own; its properties are carried by `StatsExample`, `StatsLowerBounds` and `StatsMonotoneInLevel`. |
| Combat.StatsExample | dunkemon_game/utils.py:6-20 | Base 50 at level 50 gives HP 110 and 55 for every other stat. |
| Combat.StatsLowerBounds | dunkemon_game/utils.py:6-20 | With non-negative inputs, HP is at least level + 10 and every other stat at least 5. |
| Combat.ScaledNonNegative | dunkemon_game/utils.py:15-19 | The level-scaled term `(2*base*level)//100` is non-negative for non-negative inputs. |
| Combat.ScaledMonotone | dunkemon_game/utils.py:15-19 | The level-scaled term never decreases as the level grows. |
| Combat.StatsMonotoneInLevel | dunkemon_game/utils.py:6-20 | Every derived stat is nondecreasing in the level. |
| Combat.Factor | dunkemon_game/utils.py:26-39 | Every chart factor, including the 1.0 default for a missing pair, is 0.5, 1.0 or 2.0. |
| Combat.Effectiveness | dunkemon_game/utils.py:23-40 | The multiplier is always positive. |
| Combat.TypeEffectiveness | dunkemon_game/utils.py:36-40 | The accumulator loop computes the reference multiplier: 1.0 for an unlisted attacking type, else the product of the per-defender factors. |
| Combat.EffectivenessExample | dunkemon_game/utils.py:27 | Fire against Grass/Water is 2.0 * 0.5 = 1.0. |
| Combat.UnlistedTypeIsNeutral | dunkemon_game/utils.py:37 | An attacking type missing from the chart is neutral against every defender. |
| Combat.EffectivenessIsPowerOfTwo | dunkemon_game/utils.py:36-40 | The multiplier is 2 to the power (super-effective count minus resisted count). |
| Combat.ExponentConcat | dunkemon_game/utils.py:38-39 | The exponent of a concatenated type list is the sum of the exponents of its parts. |
| Combat.ExponentRemove | dunkemon_game/utils.py:38-39 | Taking one type out of the list takes its own exponent out of the total. |
| Combat.ExponentOrderIndependent | dunkemon_game/utils.py:38-39 | Type lists with equal multisets have equal exponents. |
| Combat.EffectivenessOrderIndependent | dunkemon_game/utils.py:23-40 | The multiplier does not depend on the order of the defending types. |
| Combat.ChoiceFrom | dunkemon_game/utils.py:47-53 | A scan from option `i` stops at the first option whose running weight reaches `r`, or at the last option. |
| Combat.ChoiceIndex | dunkemon_game/utils.py:43-53 | Reference choice: the first option whose running weight reaches the draw, else the last option. No earlier running weight reaches the draw. |
| Combat.WeightedChoice | dunkemon_game/utils.py:43-53 | The loop, given a draw in the range `uniform(0, total)` yields, returns the reference choice. A missing weight counts as 1. |
| Combat.Stab | dunkemon_game/utils.py:72 | The bonus is 1.5 iff the move's type is one of the attacker's types, else 1.0. |
| Combat.Damage | dunkemon_game/utils.py:56-78 | Every hit deals at least 1 damage. |
| Combat.DamageStatSelection | dunkemon_game/utils.py:64-69 | A physical move reads only attack and defense. Any other category reads only the special pair. |
| Combat.DamageExample | dunkemon_game/utils.py:56-78 | Level 50, power 100, attack 55 against defense 50, no STAB, neutral types and factor 1.0 give 50 damage. |
| Combat.BaseDamagePositive | dunkemon_game/utils.py:70 | The base damage is positive for a non-negative level, power and attacking stat. |
| Combat.DamageMonotoneInRandomFactor | dunkemon_game/utils.py:70-78 | Damage never decreases as the random factor grows. |
| Loadout.InsertMultiset | dunkemon_game/monster.py:32 | One insertion step of the sort adds exactly the inserted entry. |
| Loadout.InsertSorted | dunkemon_game/monster.py:32 | Inserting into a level-sorted list keeps it sorted. |
| Loadout.SortProperties | dunkemon_game/monster.py:32 | Sorting by learn level yields a level-ordered permutation of the moveset. |
| Loadout.AtLevelInsert | dunkemon_game/monster.py:32 | Insertion puts the new entry ahead of every entry already learnt at its own level. |
| Loadout.SortIsStable | dunkemon_game/monster.py:32 | The sort is stable: entries learnt at the same level keep their moveset order, as Python's `sorted` does. |
| Loadout.EligibleMembers | dunkemon_game/monster.py:32-34 | An entry is kept iff it is in the moveset, learnt by the level and known to the move catalog. |
| Loadout.EligibleSorted | dunkemon_game/monster.py:32-34 | Filtering a sorted list keeps it sorted. |
| Loadout.EligibleDistinct | dunkemon_game/monster.py:32-34 | Filtering keeps move names distinct. |
| Loadout.InsertDistinct | dunkemon_game/monster.py:32 | Inserting a new name into a list of distinct names keeps the names distinct. |
| Loadout.SortDistinct | dunkemon_game/monster.py:32 | Sorting keeps move names distinct. |
| Loadout.Choose | dunkemon_game/monster.py:29-36 | The loadout: the first four eligible entries of the level-sorted moveset. It has no ensures of its own; its properties are carried by `ChooseProperties`, `ChooseDistinct` and `SortIsStable`. |
| Loadout.ChooseMembers | dunkemon_game/monster.py:29-36 | Every loadout entry comes from the moveset, is in the move catalog and is learnt by the level. |
| Loadout.ChooseKeepsEarliest | dunkemon_game/monster.py:29-36 | The loadout is level-ordered. An eligible entry is left out only when four are kept, each learnt no later than it. |
| Loadout.ChooseProperties | dunkemon_game/monster.py:29-36 | Everything the loadout promises: at most four entries, each from the moveset, catalogued and learnt, in level order, dropping only the latest-learnt extras. |
| Loadout.ChooseDistinct | dunkemon_game/monster.py:29-36 | A moveset with distinct names (dictionary keys) yields a loadout with distinct names. |
| Monsters.PoisonedHp | dunkemon_game/monster.py:43-44 | One poison tick never leaves HP negative and takes at least 1 HP from a monster with HP left. |
| Monsters.PoisonFaintsWithin | dunkemon_game/monster.py:41-47 | Poison alone makes a monster with `hp` HP faint within `hp` ticks. |
| Monsters.StatusTick | dunkemon_game/monster.py:38-48 | Without poison nothing happens. Poison costs max(1, maxHp//8) HP (floored at 0) and reports the hurt line. A faint line follows exactly when HP reaches 0. |
| Monsters.Monster.constructor | dunkemon_game/monster.py:17-36 | Stats derive from the base stats and level. HP starts full with no status. The moves are fresh, distinct objects built from the catalog for exactly the loadout entries, with full PP. |
| Monsters.Monster.ApplyStatusEffects | dunkemon_game/monster.py:38-48 | The new HP and the lines are exactly the status tick of the old HP. |
| Monsters.Monster.IsFainted | dunkemon_game/monster.py:50-51 | Fainted iff HP is not positive. |
| Monsters.Monster.Heal | dunkemon_game/monster.py:53-57 | Full HP, no status, and every move's PP full. |
| Monsters.Monster.SelectMove | dunkemon_game/monster.py:59-62 | `None` exactly for an index out of range; otherwise the move at that index. |
| Monsters.Monster.AsDict | dunkemon_game/monster.py:64-72 | The saved form holds species, level, HP, status and each move's name and PP, in order. |
| Monsters.MoveRecords | dunkemon_game/monster.py:71 | The saved move list has one record per move, in order. |
| Monsters.RestoredPpFindsSaved | dunkemon_game/monster.py:84-88 | A saved move whose name is unique in the list restores its own saved PP. |
| Monsters.RestoredPpUnmatched | dunkemon_game/monster.py:84-88 | A move that no saved entry names keeps full PP. |
| Monsters.FromDict | dunkemon_game/monster.py:74-89 | The rebuilt monster has the saved species and level and the catalog loadout. HP defaults to max HP; a missing status is `None`. Each move's PP comes from the last saved entry with its name. |
| Monsters.SaveAndRestore | dunkemon_game/monster.py:64-89 | Round trip: restoring what `as_dict` saved gives back species, level, HP, status and every move's name and PP. |
| Monsters.GenerateMonster | dunkemon_game/utils.py:81-86 | A monster of the named species at the drawn level, within [min, max], at full HP and without status. |
| Monsters.Party.constructor | dunkemon_game/world.py:41 | A party holds exactly the given members. |
| Monsters.Party.Append | dunkemon_game/battle.py:140 | Appending adds the monster at the end and changes nothing else in the list. |
| Battles.ActiveIndex | dunkemon_game/battle.py:25-29 | The least index of a monster that is not fainted. `None` iff every monster is fainted, the empty party included. |
| Battles.Available | dunkemon_game/battle.py:85 | The moves with PP left: each one in the list has PP, and every move with PP is in the list. |
| Battles.StrikeOutcome | dunkemon_game/battle.py:56-73 | A miss changes nothing and logs only the miss. A hit deals the damage, floored at 0 HP. Status changes iff the move poisons, the draw is below 0.3 and the defender has no status. A hit logs exactly the damage line, then a poison line iff poison landed, then a faint line iff HP reaches 0. |
| Battles.CatchProbability | dunkemon_game/battle.py:132-136 | The capture chance is clamped to [0.05, 0.95]. |
| Battles.CatchProbabilityMonotone | dunkemon_game/battle.py:132-136 | With a non-negative ball bonus, a healthier target is never easier to catch. |
| Battles.Battle.constructor | dunkemon_game/battle.py:19-23 | The battle keeps the very party objects it is given; no copy is made. |
| Battles.Battle.GetActive | dunkemon_game/battle.py:25-29 | The scan returns the reference active index. |
| Battles.Battle.PlayerActiveIndex | dunkemon_game/battle.py:31-32 | The player's active index. |
| Battles.Battle.OpponentActiveIndex | dunkemon_game/battle.py:34-35 | The opponent's active index. |
| Battles.Battle.IsOver | dunkemon_game/battle.py:37-38 | The battle is over iff one whole party is fainted. |
| Battles.Battle.Strike | dunkemon_game/battle.py:56-73 | One PP is spent. The defender's HP and status and the lines are the strike outcome for the given draws. |
| Battles.Battle.PlayerAttack | dunkemon_game/battle.py:40-73 | No lines without two active monsters. A bad index reports no such move. An empty move reports no PP and changes nothing. Otherwise the player's active monster strikes the opponent's. The battle invariant is kept. |
| Battles.Battle.OpponentAttack | dunkemon_game/battle.py:75-105 | No lines without two active monsters. Without moves with PP left the opponent only says so. Otherwise the chosen move with PP strikes the player's active monster. The battle invariant is kept. |
| Battles.Battle.TickActive | dunkemon_game/battle.py:110-113 | A party's active monster, if any, takes its status tick. No status changes. |
| Battles.Battle.ApplyStatusEffects | dunkemon_game/battle.py:107-114 | The player's active monster ticks, then the opponent's, with lines in that order. No status changes. Only the two active monsters' HP changes. |
| Battles.Battle.AttemptCapture | dunkemon_game/battle.py:116-146 | Trainer battles refuse, and so does an opponent party with nothing active. Otherwise: caught iff the draw is below the catch probability. A catch appends the target to the player's party and sets its HP to 0; a failure changes nothing. |
| Worlds.OccursNeedsRoom | dunkemon_game/world.py:86 | A string longer than another cannot occur in it. |
| Worlds.OccursInWall | dunkemon_game/world.py:86 | A string of four characters or more occurs in "wall" only if it is "wall". |
| Worlds.WalkableChars | dunkemon_game/world.py:84-86 | The substring test `not in ('wall')` accepts exactly the characters in the tile table other than '#'. |
| Worlds.LastIndex | dunkemon_game/world.py:56-60 | The last occurrence of a character in a line, if any. |
| Worlds.StartOf | dunkemon_game/world.py:54-60 | The last 'P' in reading order. `None` iff the map has no 'P'. |
| Worlds.StartOrNextRow | dunkemon_game/world.py:54-60 | Reading one more row, its last 'P', if any, becomes the start. |
| Worlds.TrainerMarksCells | dunkemon_game/world.py:61-67 | The trainer marks collected from a row prefix are exactly the 'T' cells of that prefix. |
| Worlds.MaxLength | dunkemon_game/world.py:52 | The width is the length of a longest line. |
| Worlds.ClearedLine | dunkemon_game/world.py:56-69 | Each cell keeps its character, with 'P' and 'T' turned into '.'. |
| Worlds.ScanStep | dunkemon_game/world.py:56-69 | Scanning one more cell adds its trainer mark, moves the last 'P' if the cell holds one, and appends its cleared character. |
| Worlds.PaddedRows | dunkemon_game/world.py:54-73 | Row `y` of the grid is line `y` cleared and padded with '#' to the width. |
| Worlds.PadRow | dunkemon_game/world.py:71-72 | The padding loop fills a cleared row with '#' up to the width. |
| Worlds.Trainer.constructor | dunkemon_game/world.py:25-28 | A trainer keeps its position and party and starts undefeated. |
| Worlds.HealAll | dunkemon_game/world.py:128-129 | Every monster of the party ends at full HP, without status and with full PP. |
| Worlds.World.constructor | dunkemon_game/world.py:32-45 | An empty world: no map, the player at (0, 0), an empty party, three potions, five balls and no trainers. |
| Worlds.World.Tile | dunkemon_game/world.py:75-78 | The grid cell on the grid, '#' everywhere off it. |
| Worlds.World.SetTile | dunkemon_game/world.py:80-82 | Only cell (x, y) changes, and only on the grid. A write off the grid is ignored. |
| Worlds.World.IsWalkable | dunkemon_game/world.py:84-86 | Walkable iff on the grid on a tile character from the table other than '#'. |
| Worlds.World.AreaKey | dunkemon_game/world.py:88-94 | The tile type when the area catalog lists it, else "normal". |
| Worlds.World.MaybeTriggerEncounter | dunkemon_game/world.py:96-115 | No encounter off a listed area or for a draw of 0.10 or more. Otherwise the weighted choice's species appears at the drawn level within its range, at full HP. |
| Worlds.World.MovePlayer | dunkemon_game/world.py:117-136 | A blocked step changes nothing. Otherwise the player moves. A center heals the whole party. An undefeated trainer on the new cell challenges. |
| Worlds.World.RemoveTrainer | dunkemon_game/world.py:138-143 | The trainer is defeated and its cell becomes '.'. Removing a removed trainer changes nothing. |
| Worlds.World.FileTrainer | dunkemon_game/world.py:64-67 | A fresh, undefeated trainer with a fresh party is filed at (x, y), replacing any previous one. |
| Worlds.World.ScanCell | dunkemon_game/world.py:56-69 | A 'P' moves the player there, a 'T' files a new trainer there, and the cleared character is returned. |
| Worlds.World.ScanRow | dunkemon_game/world.py:55-69 | The row is the line cleared. The player is at the row's last 'P', if any. Exactly the row's 'T' cells get new trainers. |
| Worlds.World.ScanLines | dunkemon_game/world.py:53-73 | The rows are padded and cleared. The player is at the last 'P' in reading order. Exactly the 'T' cells get new trainers. |
| Worlds.World.LoadMap | dunkemon_game/world.py:47-73 | Height and width come from the lines, and the grid is padded and cleared. The player is at the last 'P', or stays where it was. Exactly the 'T' cells get fresh, undefeated trainers; other trainers stay. |

## Left out

- `main.py` and `online.py`: the terminal UI, file saving and the network. They call the core but are not part of this model.
- Reading the map file: `LoadMap` takes the lines already read, with newlines stripped.
- Trainer parties: `load_map` generates two random monsters per trainer. The model takes a function `partyFor` that supplies the party for a trainer's cell, because random species and levels come from a generator this model does not include.
- `LoadMap`: an empty map raises `ValueError` in `max`; the model requires at least one line instead of modelling the exception.
- `LoadMap`: it builds the rows locally and assigns the grid once at the end, whereas the source appends to `self.map` row by row. No caller observes a half-built map.
- Random draws are parameters; the model says nothing about their distributions beyond `HitChance`'s counting form.
- Floating point is modelled as exact reals. Rounding in `base_damage`, `hp_ratio` and the catch probability is not modelled.
- Log messages are modelled as `Line` values: their kind and the names they mention, not their wording.
- `Moves.Move.Hit`: it has no `ensures`. It is stated through `HitChance` instead.
- `Combat.WeightedChoice`: an empty option list makes `options[-1]` raise `IndexError` (dunkemon_game/utils.py:53); the model requires a non-empty list instead of modelling the exception.
- `Monsters.FromDict`: a saved species missing from the species catalog raises `KeyError` (dunkemon_game/monster.py:78); the model requires the species to be in the catalog instead.
- `Monsters.GenerateMonster`: a species missing from the catalog raises `KeyError` (dunkemon_game/utils.py:85), and `min_level > max_level` makes `random.randint` raise `ValueError` (dunkemon_game/utils.py:83); the model requires the species to be in the catalog and takes a level draw within [min, max], which excludes both.
- `Worlds.World.MaybeTriggerEncounter`: through `EncounterDrawsFit` it requires, when an encounter happens, a non-empty encounter table (an empty one raises `IndexError` at dunkemon_game/utils.py:53), a chosen species in the catalog (else `KeyError` at dunkemon_game/utils.py:85) and a level range with min not above max (else `ValueError` from `randint` at dunkemon_game/utils.py:83); these exceptions are not modelled.
- `Battles.Battle.AttemptCapture`: `target.max_hp == 0` raises `ZeroDivisionError` in the source; the model requires a non-zero max HP instead.
- `Battles.Battle.ApplyStatusEffects`: it states each tick exactly only when no monster that can still fight is in both parties (the battle invariant). Without the invariant, a shared monster can be ticked twice.
- `Battles.Battle.OpponentAttack`: `random.choice` becomes the index `choice` into the moves with PP left.
- Battle methods use the `ActiveIndex` function where the source calls `player_active_index()` and `opponent_active_index()`. The methods are proved to compute that function.
- `Worlds.World.MaybeTriggerEncounter`: it does not state that the wild monster is a fresh object.
- The world's `items` are set up but never changed by the core, and `playerParty` is a constant reference to a party whose members change.
