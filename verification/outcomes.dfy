/** How an operation of the program ends. The C and C++ sources never
    return an error code: a failed check prints a diagnostic and exits
    (`SSC_assertMsg`, `Base_assert_msg`, `errx`), and `-h` prints the help
    text and exits successfully. */
module Outcomes {

  /** A pointer that may be NULL. */
  datatype Option<+T> = None | Some(value: T)

  /** The diagnostic a failing check prints. */
  datatype Reason =
    | NoCharacterSets   // "No valid character sets chosen."
    | MinPwSize         // "Minimum password size is 1 character."
    | MaxPwSize         // "Maximum password size is 125 characters."
    | PwSizeRange       // "Minimum password size is 1 ...; maximum ... 125 characters."
    | NoArguments       // "Called with no arguments."
    | InvalidArgument(arg: string)  // strict builds only: "Invalid argument (%s)"

  datatype Status<+T> =
    | Continue(value: T)      // the program goes on with this value
    | ExitSuccess             // help printed, process exits with EXIT_SUCCESS
    | ExitFailure(reason: Reason)
  {
    predicate IsFailure() { !Continue? }

    function PropagateFailure<U>(): Status<U>
      requires !Continue?
    {
      match this
      case ExitSuccess => ExitSuccess
      case ExitFailure(r) => ExitFailure(r)
    }

    function Extract(): T
      requires Continue?
    {
      value
    }
  }
}
