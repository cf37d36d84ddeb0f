/** The parse-time error taxonomy of src/error.rs. The run-time one
    (`ExecutionError`) mentions states and segments, so it lives in module
    Machine next to the engine that produces it. */
module Errors {

  /** Why a program (or a tape) text was rejected. Parsing stops at the
      first of these it meets. */
  datatype InvalidProgram =
    | MissingFrom
    | MissingTo
    | MissingCondition
    | MissingWrite
    | MissingAction
    | InvalidState
    | InvalidSegment
    | InvalidAction
    | MissingInitialState
}
