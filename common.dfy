/** Result and option values shared by the integration engine model. */
module Common {

  datatype Option<T> = None | Some(value: T)

  /** Why an operation of the engine stops instead of producing a value. */
  datatype Error =
    | InvalidStep        // a step of zero (or negative) samples or time
    | UnitMismatch       // an integer step (or none) combined with a phase function
    | ZeroLength         // the output stream would have no samples (division by zero)
    | SeekOutOfRange     // the underlying reader refuses a position
    | EndOfStream        // fewer samples left than the frame needs
    | FieldMismatch      // the output dtype does not fit the averaging mode
    | UnsortedEdges      // resolved bin edges decrease inside a frame
    | NoPhaseEvaluated   // the phase search never evaluated a phase
    | NotConverged       // the phase search hit its iteration cap

  datatype Result<T> = Success(value: T) | Failure(error: Error)
}
