/**
 * The add/edit budget dialog: its fields, the reset to blank when no budget is edited,
 * `validateForm`, the submitted payload and the categories offered (expense ones only).
 */
module BudgetModal {

  import opened Wrappers
  import opened Numbers
  import opened Sorting
  import opened Forms
  import opened BudgetModel
  import opened CategoryModel

  /** `formData`; the amount is the text of its input. */
  datatype Form = Form(category: string, amount: string, period: string)

  datatype Field = CategoryField | AmountField | PeriodField

  function FieldName(f: Field): string {
    match f
    case CategoryField => "category"
    case AmountField => "amount"
    case PeriodField => "period"
  }

  const CategoryRequiredMessage: string := "Category is required"

  /** `initialFormData`. */
  const InitialForm: Form := Form("", "", "monthly")

  /**
   * The form the dialog shows: the edited budget's fields, its amount written by `amountText`
   * (`toString`), or the blank form when there is no budget to edit.
   */
  function FormFor(budget: Option<Budget>, amountText: real -> string): (f: Form)
    ensures budget.None? ==> f == Form("", "", "monthly")
    ensures budget.Some? ==>
      && f.category == budget.value.category
      && f.amount == amountText(budget.value.amount)
      && ParsePeriod(f.period) == Some(budget.value.period)
  {
    match budget
    case None => InitialForm
    case Some(b) => Form(b.category, amountText(b.amount), PeriodName(b.period))
  }

  /** A form `validateForm` accepts. */
  predicate FormValid(form: Form) {
    form.category != [] && AmountOk(form.amount)
  }

  /** `validateForm`: the messages of the failing fields; valid iff there are none. */
  method ValidateForm(form: Form) returns (errors: Errors, valid: bool)
    ensures "category" in errors <==> form.category == []
    ensures "category" in errors ==> errors["category"] == Some(CategoryRequiredMessage)
    ensures "amount" in errors <==> !AmountOk(form.amount)
    ensures "amount" in errors ==> errors["amount"] == AmountError(form.amount)
    ensures forall k :: k in errors ==> k == "amount" || k == "category"
    ensures valid <==> errors == map[]
    ensures valid <==> FormValid(form)
  {
    errors := map[];
    if form.category == [] {
      errors := errors["category" := Some(CategoryRequiredMessage)];
    }
    assert errors.Keys <= {"category"} && ("category" in errors <==> form.category == []);
    var amountError := AmountError(form.amount);
    if amountError.Some? {
      errors := errors["amount" := amountError];
    }
    valid := |errors| == 0;
  }

  /** `{ ...formData, amount: Number(formData.amount) }`. */
  datatype Payload = Payload(category: string, amount: real, period: string)

  /** `handleSubmit`: the payload for `onSubmit` when the form is valid, and the errors shown. */
  method HandleSubmit(form: Form) returns (errors: Errors, submitted: Option<Payload>)
    ensures submitted.Some? <==> FormValid(form)
    ensures "category" in errors <==> form.category == []
    ensures "category" in errors ==> errors["category"] == Some(CategoryRequiredMessage)
    ensures "amount" in errors <==> !AmountOk(form.amount)
    ensures "amount" in errors ==> errors["amount"] == AmountError(form.amount)
    ensures forall k :: k in errors ==> k == "amount" || k == "category"
    ensures submitted.Some? ==> errors == map[]
    ensures submitted.Some? ==> submitted.value == Payload(form.category, ParseNumber(form.amount).value, form.period)
    ensures submitted.Some? ==> submitted.value.amount > 0.0
  {
    var valid;
    errors, valid := ValidateForm(form);
    if valid {
      submitted := Some(Payload(form.category, ParseNumber(form.amount).value, form.period));
    } else {
      submitted := None;
    }
  }

  /** `handleChange`: the field takes the new text, and only its own error is cleared. */
  function HandleChange(form: Form, errors: Errors, field: Field, value: string): (r: (Form, Errors))
    ensures r.1 == ClearField(errors, FieldName(field))
    ensures r.0.category == if field == CategoryField then value else form.category
    ensures r.0.amount == if field == AmountField then value else form.amount
    ensures r.0.period == if field == PeriodField then value else form.period
  {
    var f := match field
      case CategoryField => form.(category := value)
      case AmountField => form.(amount := value)
      case PeriodField => form.(period := value);
    (f, ClearField(errors, FieldName(field)))
  }

  /** The filter of `expenseCategories`. */
  function ForSpending(c: Category): bool {
    c.catType == Expense || c.catType == Both
  }

  /** `expenseCategories`: the categories a budget can be set for, in their order. */
  function ExpenseCategories(categories: seq<Category>): seq<Category> {
    Filter(categories, ForSpending)
  }

  /** The selectable categories are exactly the expense and the both-ways categories. */
  lemma ExpenseCategoriesIff(categories: seq<Category>, c: Category)
    ensures c in ExpenseCategories(categories) <==> c in categories && c.catType != Income
  {
  }
}
