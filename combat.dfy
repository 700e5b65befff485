/** Combat math (dunkemon_game/utils.py): stat derivation, the fixed type
    chart, weighted choice over an encounter table and the damage formula.
    Floating-point quantities are modelled as exact `real`s. */
module Combat {
  import opened Common
  import opened Catalog

  // ---------------------------------------------------------------- stats

  /** A monster's computed stat table. */
  datatype Stats = Stats(hp: int, attack: int, defense: int, spAtk: int, spDef: int, speed: int)

  /** The level-scaled part shared by every stat; Python's `//` by a positive
      divisor is floor division, which is Dafny's `/` on `int`. */
  function Scaled(base: int, level: int): int {
    (2 * base * level) / 100
  }

  /** Stat derivation: hp gets `level + 10` on top, every other stat `5`. */
  function CalculateStats(base: BaseStats, level: int): Stats {
    Stats(
      Scaled(base.hp, level) + level + 10,
      Scaled(base.attack, level) + 5,
      Scaled(base.defense, level) + 5,
      Scaled(base.spAtk, level) + 5,
      Scaled(base.spDef, level) + 5,
      Scaled(base.speed, level) + 5)
  }

  /** The worked example: base 50 at level 50 gives hp 110 and 55 elsewhere. */
  lemma StatsExample()
    ensures CalculateStats(BaseStats(50, 50, 50, 50, 50, 50), 50) == Stats(110, 55, 55, 55, 55, 55)
  {
  }

  predicate NonNegative(b: BaseStats) {
    b.hp >= 0 && b.attack >= 0 && b.defense >= 0 && b.spAtk >= 0 && b.spDef >= 0 && b.speed >= 0
  }

  /** With non-negative inputs, hp is at least `level + 10` and every other stat at least 5. */
  lemma StatsLowerBounds(b: BaseStats, level: int)
    requires NonNegative(b) && level >= 0
    ensures var s := CalculateStats(b, level);
      s.hp >= level + 10 && s.attack >= 5 && s.defense >= 5 && s.spAtk >= 5 && s.spDef >= 5 && s.speed >= 5
  {
    ScaledNonNegative(b.hp, level);
    ScaledNonNegative(b.attack, level);
    ScaledNonNegative(b.defense, level);
    ScaledNonNegative(b.spAtk, level);
    ScaledNonNegative(b.spDef, level);
    ScaledNonNegative(b.speed, level);
  }

  lemma ScaledNonNegative(base: int, level: int)
    requires base >= 0 && level >= 0
    ensures Scaled(base, level) >= 0
  {
    assert 2 * base * level >= 0;
  }

  lemma ScaledMonotone(base: int, l1: int, l2: int)
    requires base >= 0 && l1 <= l2
    ensures Scaled(base, l1) <= Scaled(base, l2)
  {
    assert 2 * base * l2 - 2 * base * l1 == 2 * base * (l2 - l1);
    assert 2 * base * (l2 - l1) >= 0;
  }

  /** Every stat is nondecreasing in the level. */
  lemma StatsMonotoneInLevel(b: BaseStats, l1: int, l2: int)
    requires NonNegative(b) && l1 <= l2
    ensures var s1, s2 := CalculateStats(b, l1), CalculateStats(b, l2);
      s1.hp <= s2.hp && s1.attack <= s2.attack && s1.defense <= s2.defense &&
      s1.spAtk <= s2.spAtk && s1.spDef <= s2.spDef && s1.speed <= s2.speed
  {
    ScaledMonotone(b.hp, l1, l2);
    ScaledMonotone(b.attack, l1, l2);
    ScaledMonotone(b.defense, l1, l2);
    ScaledMonotone(b.spAtk, l1, l2);
    ScaledMonotone(b.spDef, l1, l2);
    ScaledMonotone(b.speed, l1, l2);
  }

  // ------------------------------------------------------- type chart

  /** The fixed attacker-type -> defender-type -> multiplier chart. */
  const Chart: map<string, map<string, real>> := map[
    "Fire" := map["Grass" := 2.0, "Water" := 0.5, "Rock" := 0.5, "Fire" := 0.5],
    "Water" := map["Fire" := 2.0, "Rock" := 2.0, "Water" := 0.5, "Grass" := 0.5],
    "Grass" := map["Water" := 2.0, "Rock" := 2.0, "Grass" := 0.5, "Fire" := 0.5, "Poison" := 0.5, "Flying" := 0.5],
    "Electric" := map["Water" := 2.0, "Flying" := 2.0, "Electric" := 0.5, "Grass" := 0.5],
    "Rock" := map["Fire" := 2.0, "Flying" := 2.0, "Rock" := 0.5],
    "Flying" := map["Grass" := 2.0, "Electric" := 0.5, "Rock" := 0.5, "Flying" := 0.5],
    "Poison" := map["Grass" := 2.0, "Poison" := 0.5, "Rock" := 0.5],
    "Normal" := map["Rock" := 0.5]
  ]

  /** The chart's factor for one defending type; a missing pair counts as 1.0. */
  function Factor(moveType: string, defType: string): (f: real)
    requires moveType in Chart
    ensures f == 0.5 || f == 1.0 || f == 2.0
  {
    if defType in Chart[moveType] then Chart[moveType][defType] else 1.0
  }

  /** Reference definition of the multiplier: 1.0 for an attacking type
      missing from the chart, else the product of the per-defender factors. */
  function Effectiveness(moveType: string, defTypes: seq<string>): (m: real)
    ensures m > 0.0
  {
    if moveType !in Chart || defTypes == [] then 1.0
    else Effectiveness(moveType, defTypes[..|defTypes| - 1]) * Factor(moveType, defTypes[|defTypes| - 1])
  }

  /** The accumulator loop of the source, proved to compute `Effectiveness`. */
  method TypeEffectiveness(moveType: string, defTypes: seq<string>) returns (multiplier: real)
    ensures multiplier == Effectiveness(moveType, defTypes)
  {
    multiplier := 1.0;
    if moveType in Chart {
      var i := 0;
      while i < |defTypes|
        invariant 0 <= i <= |defTypes|
        invariant multiplier == Effectiveness(moveType, defTypes[..i])
      {
        assert defTypes[..i + 1][..i] == defTypes[..i];
        multiplier := multiplier * Factor(moveType, defTypes[i]);
        i := i + 1;
      }
      assert defTypes[..i] == defTypes;
    }
  }

  /** Fire against a Grass/Water dual type: 2.0 * 0.5 = 1.0. */
  lemma EffectivenessExample()
    ensures Effectiveness("Fire", ["Grass", "Water"]) == 1.0
  {
    assert ["Grass", "Water"][..1] == ["Grass"];
    assert ["Grass"][..0] == [];
  }

  /** An attacking type the chart does not list is neutral against anything. */
  lemma UnlistedTypeIsNeutral(moveType: string, defTypes: seq<string>)
    requires moveType !in Chart
    ensures Effectiveness(moveType, defTypes) == 1.0
  {
  }

  /** Each chart factor as a power of two: +1 for 2.0, -1 for 0.5, 0 for 1.0. */
  function FactorExponent(moveType: string, defType: string): int {
    if moveType !in Chart then 0
    else var f := Factor(moveType, defType);
      if f == 2.0 then 1 else if f == 0.5 then -1 else 0
  }

  /** The number of super-effective defending types minus the number of resisting ones. */
  function Exponent(moveType: string, defTypes: seq<string>): int {
    if defTypes == [] then 0
    else Exponent(moveType, defTypes[..|defTypes| - 1]) + FactorExponent(moveType, defTypes[|defTypes| - 1])
  }

  function Pow2(n: int): real
    decreases if n >= 0 then n else -n
  {
    if n == 0 then 1.0 else if n > 0 then 2.0 * Pow2(n - 1) else 0.5 * Pow2(n + 1)
  }

  /** The multiplier is 2 raised to (super-effective count - resisted count). */
  lemma {:induction false} EffectivenessIsPowerOfTwo(moveType: string, defTypes: seq<string>)
    ensures Effectiveness(moveType, defTypes) == Pow2(Exponent(moveType, defTypes))
  {
    if defTypes != [] {
      var init := defTypes[..|defTypes| - 1];
      var d := defTypes[|defTypes| - 1];
      EffectivenessIsPowerOfTwo(moveType, init);
      var e := Exponent(moveType, init);
      if moveType !in Chart {
        assert Effectiveness(moveType, defTypes) == 1.0;
        assert Exponent(moveType, defTypes) == e;
      } else if Factor(moveType, d) == 2.0 {
        assert Effectiveness(moveType, defTypes) == Effectiveness(moveType, init) * 2.0;
        assert Pow2(e + 1) == 2.0 * Pow2(e);
      } else if Factor(moveType, d) == 0.5 {
        assert Effectiveness(moveType, defTypes) == Effectiveness(moveType, init) * 0.5;
        assert Pow2(e - 1) == 0.5 * Pow2(e);
      } else {
        assert Effectiveness(moveType, defTypes) == Effectiveness(moveType, init) * 1.0;
      }
    }
  }

  lemma {:induction false} ExponentConcat(moveType: string, a: seq<string>, b: seq<string>)
    ensures Exponent(moveType, a + b) == Exponent(moveType, a) + Exponent(moveType, b)
  {
    if b == [] {
      assert a + b == a;
    } else {
      var last := |b| - 1;
      assert (a + b)[..|a + b| - 1] == a + b[..last];
      assert (a + b)[|a + b| - 1] == b[last];
      ExponentConcat(moveType, a, b[..last]);
    }
  }

  lemma MultisetRemove(b: seq<string>, k: nat)
    requires k < |b|
    ensures multiset(b[..k] + b[k + 1..]) == multiset(b) - multiset{b[k]}
  {
    assert b == b[..k] + [b[k]] + b[k + 1..];
  }

  lemma ExponentRemove(moveType: string, b: seq<string>, k: nat)
    requires k < |b|
    ensures Exponent(moveType, b) == Exponent(moveType, b[..k] + b[k + 1..]) + Exponent(moveType, [b[k]])
  {
    assert b == b[..k] + [b[k]] + b[k + 1..];
    ExponentConcat(moveType, b[..k] + [b[k]], b[k + 1..]);
    ExponentConcat(moveType, b[..k], [b[k]]);
    ExponentConcat(moveType, b[..k], b[k + 1..]);
  }

  lemma {:induction false} ExponentOrderIndependent(moveType: string, a: seq<string>, b: seq<string>)
    requires multiset(a) == multiset(b)
    ensures Exponent(moveType, a) == Exponent(moveType, b)
    decreases |a|
  {
    if a != [] {
      var last := |a| - 1;
      var x := a[last];
      assert x in multiset(b) by {
        assert a[last] in a;
      }
      var k :| 0 <= k < |b| && b[k] == x;
      var rest := b[..k] + b[k + 1..];
      MultisetRemove(a, last);
      MultisetRemove(b, k);
      assert a[..last] + a[last + 1..] == a[..last];
      ExponentOrderIndependent(moveType, a[..last], rest);
      ExponentRemove(moveType, a, last);
      ExponentRemove(moveType, b, k);
    } else {
      assert b == [];
    }
  }

  /** The multiplier does not depend on the order of the defending types. */
  lemma EffectivenessOrderIndependent(moveType: string, a: seq<string>, b: seq<string>)
    requires multiset(a) == multiset(b)
    ensures Effectiveness(moveType, a) == Effectiveness(moveType, b)
  {
    EffectivenessIsPowerOfTwo(moveType, a);
    EffectivenessIsPowerOfTwo(moveType, b);
    ExponentOrderIndependent(moveType, a, b);
  }

  // ------------------------------------------------------- weighted choice

  /** An option's weight, 1 when the entry has none. */
  function Weight(e: EncounterEntry): real {
    e.weight.GetOr(1.0)
  }

  /** The running weight of the first `n` options. */
  function RunningWeight(options: seq<EncounterEntry>, n: nat): real
    requires n <= |options|
  {
    if n == 0 then 0.0 else RunningWeight(options, n - 1) + Weight(options[n - 1])
  }

  /** The range `random.uniform(0, total)` draws from. */
  predicate InDrawRange(r: real, total: real) {
    if total >= 0.0 then 0.0 <= r <= total else total <= r <= 0.0
  }

  /** The choice made by a scan that starts at option `i`. */
  function ChoiceFrom(options: seq<EncounterEntry>, i: nat, r: real): (k: nat)
    requires |options| > 0 && i <= |options|
    ensures i <= k < |options| || (i == |options| && k == |options| - 1)
    ensures forall n :: i < n <= k ==> RunningWeight(options, n) < r
    ensures RunningWeight(options, k + 1) >= r || k == |options| - 1
    decreases |options| - i
  {
    if i == |options| then |options| - 1
    else if RunningWeight(options, i + 1) >= r then i
    else ChoiceFrom(options, i + 1, r)
  }

  /** Reference definition: the first option whose running weight reaches
      `r`, else the last option. */
  function ChoiceIndex(options: seq<EncounterEntry>, r: real): (k: nat)
    requires |options| > 0
    ensures k < |options|
    ensures forall n :: 0 < n <= k ==> RunningWeight(options, n) < r
    ensures RunningWeight(options, k + 1) >= r || k == |options| - 1
  {
    ChoiceFrom(options, 0, r)
  }

  /** The accumulator loop of the source, given its uniform draw `r`. */
  method WeightedChoice(options: seq<EncounterEntry>, r: real) returns (choice: EncounterEntry)
    requires |options| > 0
    requires InDrawRange(r, RunningWeight(options, |options|))
    ensures choice == options[ChoiceIndex(options, r)]
  {
    var upto := 0.0;
    var i := 0;
    while i < |options|
      invariant 0 <= i <= |options|
      invariant upto == RunningWeight(options, i)
      invariant ChoiceFrom(options, i, r) == ChoiceIndex(options, r)
    {
      var w := Weight(options[i]);
      if upto + w >= r {
        return options[i];
      }
      upto := upto + w;
      i := i + 1;
    }
    return options[|options| - 1];
  }

  // ------------------------------------------------------- damage

  function Max(a: int, b: int): int {
    if a >= b then a else b
  }

  /** Python's `int()` on a float: truncation toward zero. */
  function Trunc(x: real): int {
    if x >= 0.0 then x.Floor else -((-x).Floor)
  }

  /** The attacker's stat a move of this category uses. */
  function AttackingStat(category: string, s: Stats): int {
    if category == "Physical" then s.attack else s.spAtk
  }

  /** The defender's stat a move of this category is resisted by. */
  function DefendingStat(category: string, s: Stats): int {
    if category == "Physical" then s.defense else s.spDef
  }

  /** The formula before modifiers; the divisor `max(1, defense)` is never 0. */
  function BaseDamage(level: int, power: int, attack: int, defense: int): real {
    ((2.0 * level as real / 5.0 + 2.0) * power as real * (attack as real / Max(1, defense) as real) / 50.0) + 2.0
  }

  /** Same-type attack bonus. */
  function Stab(moveType: string, attackerTypes: seq<string>): (s: real)
    ensures s == 1.5 <==> moveType in attackerTypes
    ensures s == 1.0 <==> moveType !in attackerTypes
  {
    if moveType in attackerTypes then 1.5 else 1.0
  }

  /** Damage of one hit, given the random factor drawn from [0.85, 1.0]. */
  function Damage(level: int, power: int, category: string, moveType: string,
                  attackerStats: Stats, attackerTypes: seq<string>,
                  defenderStats: Stats, defenderTypes: seq<string>,
                  randomFactor: real): (dmg: int)
    requires 0.85 <= randomFactor <= 1.0
    ensures dmg >= 1
  {
    var base := BaseDamage(level, power, AttackingStat(category, attackerStats), DefendingStat(category, defenderStats));
    Max(1, Trunc(base * Stab(moveType, attackerTypes) * Effectiveness(moveType, defenderTypes) * randomFactor))
  }

  /** A physical move reads only attack and defense, any other move only the special pair. */
  lemma DamageStatSelection(level: int, power: int, category: string, moveType: string,
                            a1: Stats, a2: Stats, types: seq<string>,
                            d1: Stats, d2: Stats, defTypes: seq<string>, randomFactor: real)
    requires 0.85 <= randomFactor <= 1.0
    requires category == "Physical" ==> a1.attack == a2.attack && d1.defense == d2.defense
    requires category != "Physical" ==> a1.spAtk == a2.spAtk && d1.spDef == d2.spDef
    ensures Damage(level, power, category, moveType, a1, types, d1, defTypes, randomFactor)
         == Damage(level, power, category, moveType, a2, types, d2, defTypes, randomFactor)
  {
  }

  /** The worked example: level 50, power 100, attack 55 against defense 50,
      no STAB, neutral types and random factor 1.0 give 50 damage. */
  lemma DamageExample()
    ensures Damage(50, 100, "Physical", "Normal", Stats(110, 55, 55, 55, 55, 55), ["Fire"],
                   Stats(110, 55, 50, 55, 55, 55), ["Fire"], 1.0) == 50
  {
    assert ["Fire"][..0] == [];
    assert Effectiveness("Normal", ["Fire"]) == 1.0;
    assert BaseDamage(50, 100, 55, 50) == 50.4;
  }

  lemma FloorMonotone(x: real, y: real)
    requires x <= y
    ensures x.Floor <= y.Floor
  {
  }

  lemma ProductPositive(a: real, b: real)
    requires a > 0.0 && b > 0.0
    ensures a * b > 0.0
  {
  }

  lemma ScaleMonotone(x: real, a: real, b: real)
    requires x >= 0.0 && a <= b
    ensures x * a <= x * b
  {
  }

  /** The base damage is positive for a non-negative level, power and
      attacking stat. */
  lemma BaseDamagePositive(level: int, power: int, attack: int, defense: int)
    requires level >= 0 && power >= 0 && attack >= 0
    ensures BaseDamage(level, power, attack, defense) > 0.0
  {
    var lv := 2.0 * level as real / 5.0 + 2.0;
    var ratio := attack as real / Max(1, defense) as real;
    assert ratio >= 0.0;
    ScaleMonotone(lv, 0.0, power as real);
    ScaleMonotone(lv * power as real, 0.0, ratio);
  }

  /** With non-negative power and attacking stat and a non-negative level,
      damage never decreases as the random factor grows. */
  lemma DamageMonotoneInRandomFactor(level: int, power: int, category: string, moveType: string,
                                     attackerStats: Stats, attackerTypes: seq<string>,
                                     defenderStats: Stats, defenderTypes: seq<string>,
                                     rf1: real, rf2: real)
    requires 0.85 <= rf1 <= rf2 <= 1.0
    requires level >= 0 && power >= 0 && AttackingStat(category, attackerStats) >= 0
    ensures Damage(level, power, category, moveType, attackerStats, attackerTypes, defenderStats, defenderTypes, rf1)
         <= Damage(level, power, category, moveType, attackerStats, attackerTypes, defenderStats, defenderTypes, rf2)
  {
    var base := BaseDamage(level, power, AttackingStat(category, attackerStats), DefendingStat(category, defenderStats));
    BaseDamagePositive(level, power, AttackingStat(category, attackerStats), DefendingStat(category, defenderStats));
    var s, e := Stab(moveType, attackerTypes), Effectiveness(moveType, defenderTypes);
    ProductPositive(base, s);
    ProductPositive(base * s, e);
    var x := base * s * e;
    ScaleMonotone(x, rf1, rf2);
    assert 0.0 <= x * rf1 by {
      ScaleMonotone(x, 0.0, rf1);
    }
    FloorMonotone(x * rf1, x * rf2);
  }
}
