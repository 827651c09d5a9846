/** The optional value the game state uses for `lastWildColor`, the selected
    wild action and the round winner (`null` in the original). */
module Wrappers {

  datatype Option<+T> = None | Some(value: T)
}
