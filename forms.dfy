/**
 * What the client's forms share: the `errors` object (a message per field, `null` once the
 * field is edited again), its clearing on change, and the amount check of the two money forms.
 */
module Forms {

  import opened Wrappers
  import opened Numbers

  /** Field name to message; `None` is a message cleared to `null`. */
  type Errors = map<string, Option<string>>

  const AmountRequiredMessage: string := "Amount is required"
  const AmountPositiveMessage: string := "Amount must be a positive number"

  /** JavaScript truthiness of `errors[name]`. */
  predicate HasError(errors: Errors, name: string) {
    name in errors && errors[name].Some? && errors[name].value != []
  }

  /** `if (errors[name]) setErrors({ ...errors, [name]: null })`: only that field's message goes. */
  function ClearField(errors: Errors, name: string): (r: Errors)
    ensures !HasError(r, name)
    ensures HasError(errors, name) ==> name in r && r[name].None?
    ensures !HasError(errors, name) ==> r == errors
    ensures forall k :: k != name ==> (k in r <==> k in errors) && (k in r ==> r[k] == errors[k])
  {
    if HasError(errors, name) then errors[name := None] else errors
  }

  /** An amount the money forms accept: non-empty text that `Number` reads as a positive number. */
  predicate AmountOk(amount: string) {
    amount != [] && ParseNumber(amount).Some? && ParseNumber(amount).value > 0.0
  }

  /** The message for the amount field: required when empty, else positive when not a positive number. */
  function AmountError(amount: string): (m: Option<string>)
    ensures m.None? <==> AmountOk(amount)
    ensures amount == [] ==> m == Some(AmountRequiredMessage)
    ensures amount != [] && !AmountOk(amount) ==> m == Some(AmountPositiveMessage)
  {
    if amount == [] then Some(AmountRequiredMessage)
    else if ParseNumber(amount).None? || ParseNumber(amount).value <= 0.0 then Some(AmountPositiveMessage)
    else None
  }
}
