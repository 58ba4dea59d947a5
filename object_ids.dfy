/** `validObjectId`, the identifier check the by-id handlers run first.
    Whether a string is a well-formed ObjectId (mongoose's
    `ObjectId.isValid`) is given to the model as a boolean. */
module ObjectIds {

  /** What a call of the check does: return a boolean, or throw. */
  datatype Check = Returned(valid: bool) | Threw(error: string)

  /** The check as written: its invalid branch logs a variable `userId`
      that the module never declares, so evaluating that branch throws a
      ReferenceError before `return false` is reached. */
  function ValidObjectIdAsWritten(isValid: bool): Check {
    if !isValid then Threw("ReferenceError: userId is not defined") else Returned(true)
  }

  /** The check as intended: it never throws and answers `isValid`. */
  function ValidObjectId(isValid: bool): (c: Check)
    ensures c.Returned? && (c.valid <==> isValid)
  {
    if !isValid then Returned(false) else Returned(true)
  }

  /** The two agree on well-formed identifiers; on a malformed one the
      check as written throws where the intended one returns false, so as
      written the handlers' 400 branch is never taken. */
  lemma AsWrittenThrowsOnMalformedId(isValid: bool)
    ensures isValid ==> ValidObjectIdAsWritten(isValid) == ValidObjectId(isValid)
    ensures !isValid ==> ValidObjectIdAsWritten(isValid).Threw? && ValidObjectId(isValid) == Returned(false)
  {
  }
}
