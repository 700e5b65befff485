/** One battle between the player's party and an opponent's party
    (dunkemon_game/battle.py). The parties are `Party` objects shared with
    the caller, so every change made here is seen by the world afterwards. */
module Battles {
  import opened Common
  import opened Moves
  import opened Combat
  import opened Monsters

  /** Reference definition of the active monster: the least index of a
      monster that is not fainted, or `None` when every one is (the empty
      party included). */
  function ActiveIndex(members: seq<Monster>): (r: Option<nat>)
    reads members
    ensures r.None? <==> forall i :: 0 <= i < |members| ==> members[i].IsFainted()
    ensures r.Some? ==>
      && r.value < |members|
      && !members[r.value].IsFainted()
      && forall j :: 0 <= j < r.value ==> members[j].IsFainted()
  {
    if members == [] then None
    else if !members[0].IsFainted() then Some(0)
    else match ActiveIndex(members[1..])
      case None => None
      case Some(k) => Some(k + 1)
  }

  /** The moves of `ms` with PP left, in order. */
  function Available(ms: seq<Move>): (r: seq<Move>)
    reads ms
    ensures forall i :: 0 <= i < |r| ==> r[i] in ms && r[i].currentPp > 0
    ensures forall i :: 0 <= i < |ms| && ms[i].currentPp > 0 ==> ms[i] in r
  {
    if ms == [] then []
    else Available(ms[..|ms| - 1]) + (if ms[|ms| - 1].currentPp > 0 then [ms[|ms| - 1]] else [])
  }

  /** The damage `mv` used by `attacker` deals to `defender`. */
  function DamageOf(attacker: Monster, defender: Monster, mv: Move, randomFactor: real): int
    requires 0.85 <= randomFactor <= 1.0
  {
    Damage(attacker.level, mv.power, mv.category, mv.moveType,
           attacker.stats, attacker.types, defender.stats, defender.types, randomFactor)
  }

  /** What one resolved use of a move does to the defender. */
  datatype Outcome = Outcome(hp: int, status: Option<string>, lines: seq<Line>)

  /** The fixed resolution order after the PP is spent: hit roll, damage,
      poison, faint check. A miss changes nothing; a hit takes `damage` HP
      (never below 0); poison lands only for a "Poison" move, a draw below
      0.3 and a defender without status, and an existing status is never
      overwritten; a faint is reported exactly when HP reaches 0. */
  function StrikeOutcome(hp: int, status: Option<string>, species: string, hit: bool,
                         damage: int, effect: string, poisonDraw: real): (o: Outcome)
    ensures !hit ==> o == Outcome(hp, status, [Missed])
    ensures hit ==> o.hp == Max(0, hp - damage) && |o.lines| >= 1 && o.lines[0] == Dealt(damage)
    ensures status.Some? ==> o.status == status
    ensures o.status != status <==> hit && effect == "Poison" && poisonDraw < 0.3 && status == None
    ensures o.status != status ==> o.status == Some("Poison") && Poisoned(species) in o.lines
    ensures hit ==> (Fainted(species) in o.lines <==> o.hp == 0)
    ensures hit ==> o.lines == [Dealt(damage)] + (if o.status != status then [Poisoned(species)] else [])
                               + (if o.hp == 0 then [Fainted(species)] else [])
  {
    if !hit then Outcome(hp, status, [Missed])
    else
      var after := Max(0, hp - damage);
      var poisons := effect == "Poison" && poisonDraw < 0.3 && status == None;
      Outcome(after, if poisons then Some("Poison") else status,
              [Dealt(damage)] + (if poisons then [Poisoned(species)] else []) + (if after <= 0 then [Fainted(species)] else []))
  }

  /** The state after `attacker` spent one PP of `mv` on `defender` and the
      move was resolved as `StrikeOutcome` says, logging `lines`. */
  twostate predicate Struck(attacker: Monster, defender: Monster, mv: Move, foe: bool,
                            hitRoll: int, randomFactor: real, poisonDraw: real, lines: seq<Line>)
    requires 1 <= hitRoll <= 100 && 0.85 <= randomFactor <= 1.0
    reads mv, defender
  {
    var o := StrikeOutcome(old(defender.currentHp), old(defender.status), defender.species,
                           mv.Hit(hitRoll), DamageOf(attacker, defender, mv, randomFactor), mv.effect, poisonDraw);
    && mv.currentPp == old(mv.currentPp) - 1
    && defender.currentHp == o.hp && defender.status == o.status
    && lines == [Used(attacker.species, mv.name, foe)] + o.lines
  }

  /** The probability that a ball catches the target, clamped to [0.05, 0.95]. */
  function CatchProbability(hp: int, maxHp: int, ballBonus: real): (p: real)
    requires maxHp != 0
    ensures 0.05 <= p <= 0.95
  {
    var ratio := hp as real / maxHp as real;
    var raw := (1.0 - ratio) * 0.8 * ballBonus;
    if raw > 0.95 then 0.95 else if raw < 0.05 then 0.05 else raw
  }

  /** With a non-negative bonus, a healthier target is never easier to catch. */
  lemma CatchProbabilityMonotone(hp1: int, hp2: int, maxHp: int, ballBonus: real)
    requires maxHp > 0 && ballBonus >= 0.0 && hp1 <= hp2
    ensures CatchProbability(hp1, maxHp, ballBonus) >= CatchProbability(hp2, maxHp, ballBonus)
  {
    var m := maxHp as real;
    var r1, r2 := hp1 as real / m, hp2 as real / m;
    ScaleMonotone(1.0 / m, hp1 as real, hp2 as real);
    assert r1 <= r2;
    ScaleMonotone(0.8 * ballBonus, 1.0 - r2, 1.0 - r1);
    assert (1.0 - r2) * 0.8 * ballBonus <= (1.0 - r1) * 0.8 * ballBonus;
  }

  class Battle {
    const player: Party
    const opponent: Party
    const isTrainer: bool

    /** Keeps the very party objects it is given: no copy is made. */
    constructor (player: Party, opponent: Party, isTrainer: bool)
      ensures this.player == player && this.opponent == opponent && this.isTrainer == isTrainer
    {
      this.player := player;
      this.opponent := opponent;
      this.isTrainer := isTrainer;
    }

    /** No monster that can still fight is in both parties. A captured
        monster ends up in both, but with 0 HP. */
    ghost predicate Valid()
      reads this, player, opponent, player.members, opponent.members
    {
      forall m :: m in player.members && m in opponent.members ==> m.IsFainted()
    }

    /** The index scan for the first monster that is not fainted. */
    method GetActive(party: Party) returns (idx: Option<nat>)
      ensures idx == ActiveIndex(party.members)
    {
      var i := 0;
      while i < |party.members|
        invariant 0 <= i <= |party.members|
        invariant forall j :: 0 <= j < i ==> party.members[j].IsFainted()
      {
        if !party.members[i].IsFainted() {
          return Some(i);
        }
        i := i + 1;
      }
      return None;
    }

    method PlayerActiveIndex() returns (idx: Option<nat>)
      ensures idx == ActiveIndex(player.members)
    {
      idx := GetActive(player);
    }

    method OpponentActiveIndex() returns (idx: Option<nat>)
      ensures idx == ActiveIndex(opponent.members)
    {
      idx := GetActive(opponent);
    }

    /** The battle is over exactly when one whole party is fainted. */
    method IsOver() returns (over: bool)
      ensures over <==>
        (forall i :: 0 <= i < |player.members| ==> player.members[i].IsFainted()) ||
        (forall i :: 0 <= i < |opponent.members| ==> opponent.members[i].IsFainted())
    {
      var p := PlayerActiveIndex();
      var o := OpponentActiveIndex();
      over := p.None? || o.None?;
    }

    /** Spends one PP of `mv`, then resolves it as `StrikeOutcome` says. */
    method Strike(attacker: Monster, defender: Monster, mv: Move, foe: bool,
                  hitRoll: int, randomFactor: real, poisonDraw: real) returns (lines: seq<Line>)
      requires 1 <= hitRoll <= 100 && 0.85 <= randomFactor <= 1.0
      requires mv.currentPp > 0
      modifies mv`currentPp, defender`currentHp, defender`status
      ensures Struck(attacker, defender, mv, foe, hitRoll, randomFactor, poisonDraw, lines)
    {
      var _ := mv.UsePp();
      lines := [Used(attacker.species, mv.name, foe)];
      if !mv.Hit(hitRoll) {
        lines := lines + [Missed];
        return;
      }
      var dmg := DamageOf(attacker, defender, mv, randomFactor);
      defender.currentHp := Max(0, defender.currentHp - dmg);
      lines := lines + [Dealt(dmg)];
      if mv.effect == "Poison" && poisonDraw < 0.3 {
        if defender.status == None {
          defender.status := Some("Poison");
          lines := lines + [Poisoned(defender.species)];
        }
      }
      if defender.currentHp <= 0 {
        lines := lines + [Fainted(defender.species)];
      }
    }

    /** The objects a player attack may change: the opponent's active
        monster and the chosen move of the player's active monster. */
    function PlayerAttackFrame(moveIndex: int): set<object>
      reads this, player, opponent, player.members, opponent.members
    {
      var p, o := ActiveIndex(player.members), ActiveIndex(opponent.members);
      if p.None? || o.None? then {}
      else
        var attacker := player.members[p.value];
        if 0 <= moveIndex < |attacker.moves| then {attacker.moves[moveIndex], opponent.members[o.value]} else {}
    }

    /** The player's active monster uses move `moveIndex` on the opponent's
        active monster. */
    method PlayerAttack(moveIndex: int, hitRoll: int, randomFactor: real, poisonDraw: real) returns (lines: seq<Line>)
      requires 1 <= hitRoll <= 100 && 0.85 <= randomFactor <= 1.0 && 0.0 <= poisonDraw < 1.0
      modifies PlayerAttackFrame(moveIndex)
      ensures old(Valid()) ==> Valid()
      ensures old(ActiveIndex(player.members)).None? || old(ActiveIndex(opponent.members)).None? ==> lines == []
      ensures old(ActiveIndex(player.members)).Some? && old(ActiveIndex(opponent.members)).Some? ==>
        var attacker := old(player.members[ActiveIndex(player.members).value]);
        var defender := old(opponent.members[ActiveIndex(opponent.members).value]);
        if moveIndex < 0 || moveIndex >= |attacker.moves| then lines == [NoSuchMove(attacker.species)]
        else
          var mv := attacker.moves[moveIndex];
          if old(mv.currentPp) <= 0 then lines == [NoPpLeft(mv.name)] && unchanged(mv, defender)
          else Struck(attacker, defender, mv, false, hitRoll, randomFactor, poisonDraw, lines)
    {
      lines := [];
      var p := ActiveIndex(player.members);
      var o := ActiveIndex(opponent.members);
      if p.None? || o.None? {
        return;
      }
      var attacker := player.members[p.value];
      var defender := opponent.members[o.value];
      var selected := attacker.SelectMove(moveIndex);
      if selected.None? {
        lines := lines + [NoSuchMove(attacker.species)];
        return;
      }
      var mv := selected.value;
      if mv.currentPp <= 0 {
        lines := lines + [NoPpLeft(mv.name)];
        return;
      }
      lines := Strike(attacker, defender, mv, false, hitRoll, randomFactor, poisonDraw);
    }

    /** The objects an opponent attack may change: the player's active
        monster and the `choice`-th move with PP left of the opponent's
        active monster. */
    function OpponentAttackFrame(choice: nat): set<object>
      reads this, player, opponent, player.members, opponent.members, MovesOf(opponent.members)
    {
      var p, o := ActiveIndex(player.members), ActiveIndex(opponent.members);
      if p.None? || o.None? then {}
      else
        var attacker := opponent.members[o.value];
        assert forall mv :: mv in attacker.moves ==> mv in MovesOf(opponent.members);
        var avail := Available(attacker.moves);
        if choice < |avail| then {player.members[p.value], avail[choice]} else {}
    }

    /** The opponent's active monster uses the `choice`-th of its moves with
        PP left on the player's active monster; with none left, it only
        says so. */
    method OpponentAttack(choice: nat, hitRoll: int, randomFactor: real, poisonDraw: real) returns (lines: seq<Line>)
      requires 1 <= hitRoll <= 100 && 0.85 <= randomFactor <= 1.0 && 0.0 <= poisonDraw < 1.0
      requires var o := ActiveIndex(opponent.members);
        o.Some? ==> var avail := Available(opponent.members[o.value].moves); avail == [] || choice < |avail|
      modifies OpponentAttackFrame(choice)
      ensures old(Valid()) ==> Valid()
      ensures old(ActiveIndex(player.members)).None? || old(ActiveIndex(opponent.members)).None? ==> lines == []
      ensures old(ActiveIndex(player.members)).Some? && old(ActiveIndex(opponent.members)).Some? ==>
        var attacker := old(opponent.members[ActiveIndex(opponent.members).value]);
        var defender := old(player.members[ActiveIndex(player.members).value]);
        var avail := old(Available(attacker.moves));
        if avail == [] then lines == [NoMovesLeft(attacker.species)]
        else
          && avail[choice] in attacker.moves && old(avail[choice].currentPp) > 0
          && Struck(attacker, defender, avail[choice], true, hitRoll, randomFactor, poisonDraw, lines)
    {
      lines := [];
      var o := ActiveIndex(opponent.members);
      var p := ActiveIndex(player.members);
      if o.None? || p.None? {
        return;
      }
      var attacker := opponent.members[o.value];
      var defender := player.members[p.value];
      var avail := Available(attacker.moves);
      if avail == [] {
        lines := lines + [NoMovesLeft(attacker.species)];
        return;
      }
      var mv := avail[choice];
      lines := Strike(attacker, defender, mv, true, hitRoll, randomFactor, poisonDraw);
    }

    /** The status tick of one party's active monster, if it has one. */
    method TickActive(party: Party) returns (lines: seq<Line>)
      modifies ActiveSet(party)
      ensures forall m :: m in old(ActiveSet(party)) ==> m.status == old(m.status)
      ensures lines == old(ActiveTick(party)).lines
      ensures old(ActiveIndex(party.members)).Some? ==>
        party.members[old(ActiveIndex(party.members)).value].currentHp == old(ActiveTick(party)).hp
    {
      lines := [];
      var idx := GetActive(party);
      if idx.Some? {
        lines := party.members[idx.value].ApplyStatusEffects();
      }
    }

    /** The end-of-turn pass: the player's active monster ticks, then the
        opponent's active monster. When no monster is in both parties while
        able to fight, the two ticks touch different monsters. */
    method ApplyStatusEffects() returns (lines: seq<Line>)
      modifies player.members, opponent.members
      ensures forall m :: m in old(player.members) || m in old(opponent.members) ==> m.status == old(m.status)
      ensures old(Valid()) ==> Valid()
      ensures old(Valid()) ==> lines == old(ActiveTick(player)).lines + old(ActiveTick(opponent)).lines
      ensures old(Valid()) && old(ActiveIndex(player.members)).Some? ==>
        player.members[old(ActiveIndex(player.members)).value].currentHp == old(ActiveTick(player)).hp
      ensures old(Valid()) && old(ActiveIndex(opponent.members)).Some? ==>
        opponent.members[old(ActiveIndex(opponent.members)).value].currentHp == old(ActiveTick(opponent)).hp
      ensures old(Valid()) ==> forall m :: m in old(player.members) || m in old(opponent.members) ==>
        m.currentHp == old(m.currentHp) || m in old(ActiveSet(player)) || m in old(ActiveSet(opponent))
    {
      ghost var valid := Valid();
      ghost var oActive := ActiveIndex(opponent.members);
      ghost var oTick := ActiveTick(opponent);
      ghost var oSet := ActiveSet(opponent);
      assert valid ==> forall m :: m in ActiveSet(player) ==> m !in opponent.members;
      lines := TickActive(player);
      assert valid ==> Valid() && ActiveIndex(opponent.members) == oActive;
      assert valid ==> ActiveTick(opponent) == oTick && ActiveSet(opponent) == oSet;
      var more := TickActive(opponent);
      lines := lines + more;
    }

    /** The objects a capture may change: the player's party and the target. */
    function CaptureFrame(): set<object>
      reads this, opponent, opponent.members
    {
      var o := ActiveIndex(opponent.members);
      if isTrainer || o.None? then {} else {player, opponent.members[o.value]}
    }

    /** Throws a ball with the given bonus; `draw` is the uniform draw from [0, 1). */
    method AttemptCapture(ballBonus: real, draw: real) returns (caught: bool, lines: seq<Line>)
      requires 0.0 <= draw < 1.0
      requires var o := ActiveIndex(opponent.members); o.Some? ==> opponent.members[o.value].maxHp != 0
      modifies CaptureFrame()
      ensures old(Valid()) ==> Valid()
      ensures isTrainer ==> !caught && lines == [CannotCaptureTrainerMonster]
      ensures !isTrainer && old(ActiveIndex(opponent.members)).None? ==> !caught && lines == [NothingToCapture]
      ensures !isTrainer && old(ActiveIndex(opponent.members)).Some? ==>
        var target := old(opponent.members[ActiveIndex(opponent.members).value]);
        && caught == (draw < CatchProbability(old(target.currentHp), target.maxHp, ballBonus))
        && target.status == old(target.status)
        && (caught ==> player.members == old(player.members) + [target] && target.currentHp == 0 &&
                       lines == [Caught(target.species)])
        && (!caught ==> player.members == old(player.members) && target.currentHp == old(target.currentHp) &&
                        lines == [BrokeFree])
    {
      if isTrainer {
        return false, [CannotCaptureTrainerMonster];
      }
      var o := ActiveIndex(opponent.members);
      if o.None? {
        return false, [NothingToCapture];
      }
      var target := opponent.members[o.value];
      var catchProb := CatchProbability(target.currentHp, target.maxHp, ballBonus);
      if draw < catchProb {
        player.Append(target);
        target.currentHp := 0;
        return true, [Caught(target.species)];
      } else {
        return false, [BrokeFree];
      }
    }
  }

  /** The active monster of a party as a set: empty when there is none. */
  function ActiveSet(party: Party): set<Monster>
    reads party, party.members
  {
    var i := ActiveIndex(party.members);
    if i.Some? then {party.members[i.value]} else {}
  }

  /** The status tick of a party's active monster; no lines without one. */
  function ActiveTick(party: Party): Tick
    reads party, party.members
  {
    var i := ActiveIndex(party.members);
    if i.Some? then TickOf(party.members[i.value]) else Tick(0, [])
  }

  /** A monster's status tick, read from the heap. */
  function TickOf(m: Monster): Tick
    reads m
  {
    StatusTick(m.currentHp, m.maxHp, m.status, m.species)
  }
}
