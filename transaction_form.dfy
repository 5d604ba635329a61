/**
 * The add/edit transaction form: its fields, `validateForm`, the submitted payload, the
 * categories offered for the chosen type, and the error clearing of `handleChange`.
 */
module TransactionForm {

  import opened Wrappers
  import opened Numbers
  import opened Sorting
  import opened Forms
  import TransactionModel
  import TransactionsRoute
  import opened CategoryModel

  /** `formData`; every field is the text of its input. */
  datatype Form = Form(txType: string, amount: string, category: string, description: string)

  datatype Field = TypeField | AmountField | CategoryField | DescriptionField

  function FieldName(f: Field): string {
    match f
    case TypeField => "type"
    case AmountField => "amount"
    case CategoryField => "category"
    case DescriptionField => "description"
  }

  const CategoryRequiredMessage: string := "Category is required"

  /** `initialFormData`. */
  const InitialForm: Form := Form("debit", "", "", "")

  /** The form for editing `t`, its amount written by `amountText` (`toString`). */
  function FormFor(t: TransactionModel.Transaction, amountText: real -> string): (f: Form)
    ensures f.txType == TransactionModel.TypeName(t.txType) && f.amount == amountText(t.amount)
    ensures f.category == t.category && f.description == t.description.GetOr("")
  {
    Form(TransactionModel.TypeName(t.txType), amountText(t.amount), t.category, t.description.GetOr(""))
  }

  /** A form `validateForm` accepts. */
  predicate FormValid(form: Form) {
    AmountOk(form.amount) && form.category != []
  }

  /** `validateForm`: the messages of the failing fields; valid iff there are none. */
  method ValidateForm(form: Form) returns (errors: Errors, valid: bool)
    ensures "amount" in errors <==> !AmountOk(form.amount)
    ensures "amount" in errors ==> errors["amount"] == AmountError(form.amount)
    ensures "category" in errors <==> form.category == []
    ensures "category" in errors ==> errors["category"] == Some(CategoryRequiredMessage)
    ensures forall k :: k in errors ==> k == "amount" || k == "category"
    ensures valid <==> errors == map[]
    ensures valid <==> FormValid(form)
  {
    errors := map[];
    var amountError := AmountError(form.amount);
    if amountError.Some? {
      errors := errors["amount" := amountError];
    }
    assert errors.Keys <= {"amount"} && ("amount" in errors <==> amountError.Some?);
    if form.category == [] {
      errors := errors["category" := Some(CategoryRequiredMessage)];
    }
    valid := |errors| == 0;
  }

  /** `{ ...formData, amount: Number(formData.amount) }`. */
  datatype Payload = Payload(txType: string, amount: real, category: string, description: string)

  /** `handleSubmit`: the payload for `onSubmit` when the form is valid, and the errors shown. */
  method HandleSubmit(form: Form) returns (errors: Errors, submitted: Option<Payload>)
    ensures submitted.Some? <==> FormValid(form)
    ensures "amount" in errors <==> !AmountOk(form.amount)
    ensures "amount" in errors ==> errors["amount"] == AmountError(form.amount)
    ensures "category" in errors <==> form.category == []
    ensures "category" in errors ==> errors["category"] == Some(CategoryRequiredMessage)
    ensures forall k :: k in errors ==> k == "amount" || k == "category"
    ensures submitted.Some? ==> errors == map[]
    ensures submitted.Some? ==>
      submitted.value == Payload(form.txType, ParseNumber(form.amount).value, form.category, form.description)
  {
    var valid;
    errors, valid := ValidateForm(form);
    if valid {
      submitted := Some(Payload(form.txType, ParseNumber(form.amount).value, form.category, form.description));
    } else {
      submitted := None;
    }
  }

  /** The request body the server receives for a payload. */
  function RequestOf(p: Payload): TransactionsRoute.TxRequest {
    TransactionsRoute.TxRequest(p.txType, Num(p.amount), p.category, Some(p.description))
  }

  /** A payload from a valid form with a type from the radio buttons passes the server's checks. */
  lemma ValidFormIsAccepted(form: Form)
    requires FormValid(form) && (form.txType == "credit" || form.txType == "debit")
    ensures var p := Payload(form.txType, ParseNumber(form.amount).value, form.category, form.description);
      TransactionsRoute.CheckRequest(RequestOf(p)).Accepted?
  {
  }

  /** `handleChange`: the field takes the new text, and only its own error is cleared. */
  function HandleChange(form: Form, errors: Errors, field: Field, value: string): (r: (Form, Errors))
    ensures r.1 == ClearField(errors, FieldName(field))
    ensures r.0.txType == if field == TypeField then value else form.txType
    ensures r.0.amount == if field == AmountField then value else form.amount
    ensures r.0.category == if field == CategoryField then value else form.category
    ensures r.0.description == if field == DescriptionField then value else form.description
  {
    var f := match field
      case TypeField => form.(txType := value)
      case AmountField => form.(amount := value)
      case CategoryField => form.(category := value)
      case DescriptionField => form.(description := value);
    (f, ClearField(errors, FieldName(field)))
  }

  /** The filter of `availableCategories`. */
  function OfferedFor(txType: string): Category -> bool {
    (c: Category) =>
      || c.catType == Both
      || (txType == "credit" && (c.catType == Income || c.catType == Both))
      || (txType == "debit" && (c.catType == Expense || c.catType == Both))
  }

  /** `availableCategories`: the categories offered for the chosen type, in their order. */
  function AvailableCategories(categories: seq<Category>, txType: string): seq<Category> {
    Filter(categories, OfferedFor(txType))
  }

  /**
   * A category is offered exactly when it is for both types, or an income category for a
   * credit, or an expense category for a debit.
   */
  lemma AvailableIff(categories: seq<Category>, txType: string, c: Category)
    ensures c in AvailableCategories(categories, txType) <==>
      c in categories &&
      (c.catType == Both || (txType == "credit" && c.catType == Income) || (txType == "debit" && c.catType == Expense))
  {
  }
}
