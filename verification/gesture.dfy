/** Touch samples as the container sees them: an action and a vertical coordinate.
    Coordinates are whole pixels; the only arithmetic the container does on them is
    the sign of `y - downY`, which on finite floats agrees with the integer comparison. */
module Gesture {

  /** The actions the intercept switch distinguishes. `Other` stands for cancel,
      pointer-down/up of secondary fingers and every other action code. */
  datatype Action = Down | Move | Up | Other

  datatype Event = Event(action: Action, y: int)
}
