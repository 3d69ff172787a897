/**
 * How a run of usdzconvert can end early.  The Python code raises
 * `usdUtils.ConvertError` for usage and conversion errors and
 * `usdUtils.ConvertExit` for help and the bare usage banner; anything
 * else (an IndexError, say) escapes `tryProcess` uncaught.
 */
module Outcomes {

  /** Why a `ConvertError` was raised, one constructor per error message. */
  datatype Reason =
    | NeedsMoreParameters       // fewer tokens left than a directive takes
    | UnexpectedParameter       // a parameter that looks like a flag
    | ExpectedPositiveFloat     // -metersPerUnit without a positive number
    | UnknownArgument           // a token that is no directive, or a third path
    | TooFewArguments           // no input path
    | LoopConflict              // both loop flags given
    | ArgumentFileNotFound      // the argument file of -f is not found
    | InputFileMissing          // the input file is not found
    | UnsupportedInputExtension // no importer for the input extension
    | UnsupportedOutputExtension // the output is not a USD file
    | InvalidMaterialName       // a material name that is not an identifier

  datatype Failure =
    | ConvertError(reason: Reason)
    | ConvertExit
      /** an exception `tryProcess` does not catch */
    | Uncaught
      /** the source runs forever */
    | Diverges
      /** the model read more argument files than its bound allows */
    | LoadLimit

  /** A value or the failure that ended the computation; usable with `:-`. */
  datatype Outcome<+T> = Ok(value: T) | Stop(failure: Failure) {
    predicate IsFailure() { Stop? }

    function PropagateFailure<U>(): Outcome<U>
      requires Stop?
    {
      Stop(failure)
    }

    function Extract(): T
      requires Ok?
    {
      value
    }
  }

  datatype Option<+T> = None | Some(value: T)
}
