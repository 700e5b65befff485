/** Battle moves: a definition taken from the move catalog plus a mutable
    power-point (PP) counter (dunkemon_game/move.py). */
module Moves {
  import opened Common
  import opened Catalog

  /** The saved form of a move: its name and current PP, either of which a
      save file may lack. */
  datatype MoveRecord = MoveRecord(name: Option<string>, currentPp: Option<int>)

  class Move {
    const name: string
    const moveType: string
    const category: string
    const power: int
    const accuracy: int
    const pp: int
    const priority: int
    const effect: string
    var currentPp: int

    /** Builds a move from its catalog entry, filling in the defaults for
        missing fields, with a full PP counter. */
    constructor (name: string, data: MoveData)
      ensures this.name == name
      ensures moveType == data.moveType.GetOr("Normal")
      ensures category == data.category.GetOr("Physical")
      ensures power == data.power.GetOr(0)
      ensures accuracy == data.accuracy.GetOr(100)
      ensures pp == data.pp.GetOr(20)
      ensures priority == data.priority.GetOr(0)
      ensures effect == data.effect.GetOr("None")
      ensures currentPp == pp
    {
      this.name := name;
      moveType := data.moveType.GetOr("Normal");
      category := data.category.GetOr("Physical");
      power := data.power.GetOr(0);
      accuracy := data.accuracy.GetOr(100);
      pp := data.pp.GetOr(20);
      priority := data.priority.GetOr(0);
      effect := data.effect.GetOr("None");
      currentPp := pp;
    }

    /** The accuracy check, given the integer the game would draw uniformly
        from [1, 100]. It reads only constant fields, so it changes nothing. */
    function Hit(roll: int): bool
      requires 1 <= roll <= 100
    {
      accuracy >= 100 || roll <= accuracy
    }

    /** Spends one PP if any is left; reports whether the move was usable. */
    method UsePp() returns (ok: bool)
      modifies this`currentPp
      ensures ok <==> old(currentPp) > 0
      ensures currentPp == if ok then old(currentPp) - 1 else old(currentPp)
      ensures old(currentPp) >= 0 ==> currentPp >= 0
    {
      if currentPp <= 0 {
        return false;
      }
      currentPp := currentPp - 1;
      ok := true;
    }

    /** Refills the PP counter. The new value depends only on the constant
        maximum, so a second call changes nothing. */
    method RestorePp()
      modifies this`currentPp
      ensures currentPp == pp
    {
      currentPp := pp;
    }

    /** The saved form: exactly the name and the current PP. */
    function AsDict(): (r: MoveRecord)
      reads this
      ensures r.name == Some(name) && r.currentPp == Some(currentPp)
    {
      MoveRecord(Some(name), Some(currentPp))
    }
  }

  /** How many of the rolls 1..n make `mv` hit. */
  function HitsUpTo(mv: Move, n: nat): nat
    requires n <= 100
  {
    if n == 0 then 0 else HitsUpTo(mv, n - 1) + (if mv.Hit(n) then 1 else 0)
  }

  /** Counting form of the hit probability: of the 100 equally likely rolls,
      exactly `accuracy` hit (all of them from accuracy 100 up, none below 1). */
  lemma {:induction false} HitChance(mv: Move, n: nat)
    requires n <= 100
    ensures HitsUpTo(mv, n) == if mv.accuracy >= 100 then n
                               else if mv.accuracy < 0 then 0
                               else if mv.accuracy < n then mv.accuracy else n
  {
    if n > 0 {
      HitChance(mv, n - 1);
    }
  }
}
