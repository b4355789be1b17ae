/** The absent-or-present value used wherever the game reads something that
    may not exist, such as a grid cell outside the board. */
module Options {

  datatype Option<+T> = None | Some(value: T)
}
