/** Failure-compatible values standing in for the engine's fatal paths.

    The engine reports a grammar violation, an unknown component tag or an
    unresolved asset, then calls System.exit; a null component lookup, an
    out-of-range list index, a subimage region outside its image, a
    malformed number or a read past the end of the parse buffer throws a
    runtime exception that ends the game loop. The model turns every one of
    these into a `Fail` value. */
module Results {

  /** Why an operation stopped. Parser diagnostics carry the line counter. */
  datatype Failure =
    | Unexpected(expected: char, actual: char, line: int)
    | OutOfInput
    | WrongKey(key: string, found: string, line: int)
    | NotBoolean(actual: char, line: int)
    | BadNumber(token: string)
    | UnknownComponent(tag: string, line: int)
    | MissingSprite(path: string)
    | MissingSpritesheet(path: string)
    | DuplicateSprite(path: string)
    | MissingFile(path: string)
    | IndexOutOfRange(index: int)
    | SubimageOutside(tile: int)
    | NullComponent(capability: string)
    | ConcurrentModification
    | UnreadableArchive

  datatype Option<+T> = None | Some(value: T)

  datatype Result<+T> = Ok(value: T) | Fail(error: Failure) {

    predicate IsFailure() {
      Fail?
    }

    function PropagateFailure<U>(): Result<U>
      requires Fail?
    {
      Fail(error)
    }

    function Extract(): T
      requires Ok?
    {
      value
    }
  }
}
