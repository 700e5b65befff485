/** Small shared vocabulary: an optional value and the kinds of log line
    that the battle and monster operations report to their caller. */
module Common {

  /** An optional value, the model of Python's `None`-or-value. */
  datatype Option<+T> = None | Some(value: T) {
    /** The value when present, else `default` (Python's `dict.get(key, default)`). */
    function GetOr(default: T): T {
      match this
      case Some(v) => v
      case None => default
    }
  }

  /** One human-readable log line, kept as its kind and the names it mentions;
      the exact wording of the messages is not modelled. */
  datatype Line =
    | HurtByPoison(species: string)
    | Fainted(species: string)
    | NoSuchMove(species: string)
    | NoPpLeft(moveName: string)
    | Used(species: string, moveName: string, foe: bool)
    | Missed
    | Dealt(damage: int)
    | Poisoned(species: string)
    | NoMovesLeft(species: string)
    | CannotCaptureTrainerMonster
    | NothingToCapture
    | Caught(species: string)
    | BrokeFree
}
