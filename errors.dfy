/** Failure-compatible result type and the error kinds of the decoder. */
module Errors {

  datatype Option<+T> = None | Some(value: T)

  /** The fixed-constant fields the header validator checks. */
  datatype Field =
    | DocumentDomain
    | GribVersion
    | MasterTableVersion
    | LocalTableVersion
    | CreationStatus
    | DocumentKind
    | GridSystemDefinition
    | GridSystemDefinitionTemplate
    | EarthFigure
    | PointsAlongParallel
    | PointsAlongMeridian
    | CreationRangeAngle
    | ScanningMode
    | RepresentationTemplate
    | BitsPerData
    | DataValueFactor

  /** What a debug build of the decoder panics on. */
  datatype Panic =
    | SubtractionUnderflow
    | ArithmeticOverflow
    | DivisionByZero
    | IndexOutOfBounds
    | AssertionFailed

  datatype Error =
    | Truncated
    | NotGrib
    | UnexpectedConstant(field: Field, expected: nat, actual: nat)
    | SectionNumberMismatch(expected: nat, actual: nat)
    | InvalidDateTime
    | PointCountMismatch(section3: nat, section5: nat)
    | ReadCountMismatch(expected: nat, actual: nat)
    | MissingEndMarker
    | Panicked(panic: Panic)

  datatype Result<+T> = Ok(value: T) | Err(error: Error) {

    predicate IsFailure() {
      Err?
    }

    function PropagateFailure<U>(): Result<U>
      requires Err?
    {
      Err(error)
    }

    function Extract(): T
      requires Ok?
    {
      value
    }
  }
}
