/** The parts of graphql.validation the rules report through: the error
    kinds, the errors, and the collector that rules append to. */
module Validation {
  import opened Ast

  datatype ValidationErrorType =
    | FieldsConflict
    | FragmentCycle
    | UnusedFragment
    | MissingFieldArgument
    | NullValueForNonNullArgument
    | MissingDirectiveArgument
    | InlineFragmentTypeConditionInvalid

  /** A validation error: its kind, its message (empty when none is given),
      the spread path of a fragment cycle and the fields of a conflict. */
  datatype ValidationError = ValidationError(
    errorType: ValidationErrorType,
    message: string,
    spreadPath: seq<FragmentSpread>,
    fields: seq<Field>)

  /** `new ValidationError(type)`: no message and no nodes. */
  function ErrorOfType(errorType: ValidationErrorType): (e: ValidationError)
    ensures e.errorType == errorType && e.message == [] && e.spreadPath == [] && e.fields == []
  {
    ValidationError(errorType, [], [], [])
  }

  /** ValidationErrorCollector: the errors added so far, in order. */
  class ValidationErrorCollector {
    var errors: seq<ValidationError>

    constructor ()
      ensures errors == []
    {
      errors := [];
    }

    method AddError(error: ValidationError)
      modifies this
      ensures errors == old(errors) + [error]
    {
      errors := errors + [error];
    }
  }
}
