/** Failure values for the places where the program prints a message and
    calls exit(0), or where an exception escapes and ends the process.
 */
module Results {

  datatype Option<+T> = None | Some(value: T)

  /** Why an operation stopped early. */
  datatype Error =
    | ObjectNotFound(digest: string)           // readObject: no file under the digest's path
    | NotARepository                           // ".mygit does not exist"
    | OutOfRange                               // std::string::substr called past the end
    | NothingStaged                            // commit: index file missing or empty
    | NoTree                                   // checkout: commit object without a "Tree:" line
    | CannotCreateDirectory(path: seq<string>) // create_directory: parent missing or a file in the way
    | OutOfFuel                                // the model's recursion bound ran out

  datatype Result<+T> = Ok(value: T) | Err(error: Error) {

    predicate IsFailure() {
      Err?
    }

    function PropagateFailure<U>(): Result<U>
      requires Err?
    {
      Err(error)
    }

    function Extract(): T
      requires Ok?
    {
      value
    }
  }

  /** The outcome of an operation that may stop part-way through after it has
      already changed something: `state` is what is left at that moment. */
  datatype Run<+S> = Completed(state: S) | Aborted(error: Error, state: S)
}
