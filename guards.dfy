/**
 * The two guard shapes the JSON routes apply to a body or query field:
 * `if (!x || typeof x !== 'string')` alone, or followed by
 * `if (x.trim().length === 0)`.
 */
module Guards {
  import opened JsValues
  import opened JsStrings

  /** A field passes `!x || typeof x !== 'string'` exactly when it is a non-empty string. */
  predicate IsNonEmptyString(v: JsValue): (r: bool)
    ensures r <==> !(!Truthy(v) || !v.Str?)
  {
    v.Str? && v.s != ""
  }

  /** A field passes both guards: a string with some character that is not whitespace. */
  predicate IsText(v: JsValue): (r: bool)
    ensures r <==> IsNonEmptyString(v) && |Trim(v.s)| != 0
  {
    if v.Str? then
      TrimEmptyIffBlank(v.s);
      !Blank(v.s)
    else false
  }

  /** The verdict of a guard chain: the field's string, or the message of the 400 answer. */
  datatype Checked = Valid(text: string) | Invalid(message: string)

  /** `if (!x || typeof x !== 'string') return 400 message`. */
  function RequireString(v: JsValue, message: string): (r: Checked)
    ensures r.Valid? <==> IsNonEmptyString(v)
    ensures r.Valid? ==> v == Str(r.text)
    ensures r.Invalid? ==> r.message == message
  {
    if !Truthy(v) || !v.Str? then Invalid(message) else Valid(v.s)
  }

  /**
   * `RequireString` followed by `if (x.trim().length === 0) return 400 emptyMessage`.
   * The first guard wins: `""` gets `requiredMessage`. A valid field is
   * returned as it was sent, untrimmed.
   */
  function RequireText(v: JsValue, requiredMessage: string, emptyMessage: string): (r: Checked)
    ensures r.Valid? <==> IsText(v)
    ensures r.Valid? ==> v == Str(r.text)
    ensures !IsNonEmptyString(v) ==> r == Invalid(requiredMessage)
    ensures IsNonEmptyString(v) && Blank(v.s) ==> r == Invalid(emptyMessage)
  {
    match RequireString(v, requiredMessage)
    case Invalid(m) => Invalid(m)
    case Valid(s) =>
      TrimEmptyIffBlank(s);
      if |Trim(s)| == 0 then Invalid(emptyMessage) else Valid(s)
  }
}
