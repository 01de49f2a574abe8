/** Failure-compatible wrappers and the fatal conditions of the lowering pass. */
module Outcome {

  datatype Option<+T> = None | Some(value: T)

  /** Every condition under which the lowering pass aborts the whole compilation. */
  datatype Fault =
    | NotAnLvalue      // assignment or address of a non-identifier
    | Unreachable      // a statement node reached expression lowering
    | UnknownNode      // an expression node reached statement lowering
    | BadParameter     // a parameter that is not a plain identifier
    | ParseError       // a top-level node that is not a function definition
    | TooManyArgs      // a call with more than six arguments
    | CannotConvert    // a token with no arithmetic opcode

  datatype Result<+T> = Ok(value: T) | Err(fault: Fault)
}
