/** The injected input validator and the two questions a FormTextField puts to it. */
module Validation {
  import opened Wrappers

  /** A range of UTF-16 units in the field's text, as the platform reports an edit. */
  datatype NSRange = NSRange(location: nat, length: nat)

  /**
    * An injected validator: `validateString` judges a whole text, `validateReplacementString`
    * judges one edit (the replacement, the field's text before it, the replaced range).
    */
  datatype Validator = Validator(
    validateString: string -> bool,
    validateReplacementString: (string, Option<string>, NSRange) -> bool)

  /** The verdict of `validate()` on the field's text: valid when no validator is set. */
  function Verdict(validator: Option<Validator>, text: Option<string>): (ok: bool)
    ensures validator.None? ==> ok
    ensures validator.Some? ==> (ok <==> validator.value.validateString(text.GetOr("")))
  {
    match validator
    case None => true
    case Some(v) => v.validateString(text.GetOr(""))
  }

  /**
    * The keystroke gate: whether the field lets an edit replacing `range` of `fullString` with
    * `replacement` through. A lone newline always passes, so Return is never blocked.
    */
  function AcceptsReplacement(validator: Option<Validator>, fullString: Option<string>, range: NSRange,
                              replacement: string): (accept: bool)
    ensures replacement == "\n" ==> accept
    ensures validator.None? ==> accept
    ensures replacement != "\n" && validator.Some? ==>
      (accept <==> validator.value.validateReplacementString(replacement, fullString, range))
  {
    if replacement == "\n" then true
    else match validator
      case None => true
      case Some(v) => v.validateReplacementString(replacement, fullString, range)
  }
}
