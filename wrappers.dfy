/** Outcomes shared by the recorder: optional results and the fatal exits of the source. */
module Wrappers {

  datatype Option<+T> = None | Some(value: T)

  /** Why the recorder would terminate the process (each is a fatal exit in the source). */
  datatype Reason =
    | ValueMissed                // a value name skipped an earlier iteration
    | ValueWithoutIteration      // a second value for the current iteration, or no iteration at all
    | SubphaseMissed             // a subphase name skipped an earlier iteration
    | SubphaseWithoutIteration   // a second subphase for the current iteration, or no iteration at all
    | StartedTwice               // beginIteration while an iteration is open
    | EndedUnstarted             // endIteration with no open iteration
    | ValueMissedInIteration     // toXml: a value list shorter than the iteration count
    | PhaseMissedInIteration     // toXml: a subphase list shorter than the iteration count
    | IterationEndMissing        // endLoop while the innermost phase has an open iteration
    | PhaseBeginMissing          // endLoop popped the last phase of the stack
    | IncompleteProfile          // Profile toXml with phases still open

  /** The result of a recording step: it went through, or the process would have exited. */
  datatype Status = Ok | Fatal(reason: Reason)

  /** A computed value, or the fatal exit that happens instead. */
  datatype Result<+T> = Done(value: T) | Abort(reason: Reason)
}
