/**
 * The closed set of reasons the semantic analyzer reports. A diagnostic is
 * recorded as its reason code (plus the name or position it is about); the
 * text a user would read is produced elsewhere and is not modelled.
 */
module Errors {

  /** What a failed name lookup was looking for. */
  datatype Reason =
    | LookingForType
    | LookingForClass
    | LookingForInterface
    | LookingForVariable
    | LookingForFunction

  datatype Diag =
    | DeclConflict(name: string)
    | NotDeclared(name: string, reason: Reason)
    | IncompatibleOperand(op: string)
    | IncompatibleOperands(op: string)
    | ThisOutsideClassScope
    | BracketsOnNonArray
    | SubscriptNotInteger
    | NewArraySizeNotInteger
    | NumArgsMismatch(callee: string, expected: nat, given: nat)
    | ArgMismatch(callee: string, index: int)
    | FieldNotFoundInBase(field: string)
    | InaccessibleField(field: string)
    | TestNotBoolean
    | BreakOutsideLoop
    | ReturnOutsideFunction
    | ReturnMismatch
    | PrintArgMismatch(position: nat)
    | OverrideMismatch(name: string)
    | InterfaceNotImplemented(className: string, interfaceName: string)
}
