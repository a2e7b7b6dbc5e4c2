/** Failure-carrying values for the two places where the program gives up:
    the usage path (print the usage block, exit with status 1) and the
    panic on a missing program name. */
module Outcomes {

  /** An optional value, as Rust's `Option`. */
  datatype Option<+T> = None | Some(value: T)

  /** Why an invocation produces no figure. */
  datatype Failure =
    | MissingProgramName      // `args[0]` does not exist: indexing it panics
    | BadToken(token: string) // a token that is neither a flag nor a `u32`
    | NoBands                 // no band token at all
    | UnknownBand(band: nat)  // a band that is not a row of the band table

  /** The outcome of one stage of the pipeline. */
  datatype Result<+T> = Ok(value: T) | Err(failure: Failure)
}
