/**
 * The add/edit category dialog: the defaults of a new category, `validateForm` on the trimmed
 * name, and the submitted data with the name trimmed.
 */
module CategoryModal {

  import opened Wrappers
  import opened Text
  import opened Forms
  import opened CategoryModel
  import CategoriesRoute

  /** `formData`; the type is the text of the selected option. */
  datatype Form = Form(name: string, catType: string, color: string, icon: string)

  datatype Field = NameField | TypeField | ColorField | IconField

  function FieldName(f: Field): string {
    match f
    case NameField => "name"
    case TypeField => "type"
    case ColorField => "color"
    case IconField => "icon"
  }

  const NameRequiredMessage: string := "Category name is required"

  /** `initialFormData`. */
  const InitialForm: Form := Form("", "both", "#6366f1", "tag")

  /** A new category starts with the type, colour and icon the server gives one sent without them. */
  lemma InitialFormHasServerDefaults()
    ensures ParseCatType(InitialForm.catType) == Some(DefaultType)
    ensures InitialForm.color == DefaultColor && InitialForm.icon == DefaultIcon
  {
  }

  /** The form the dialog shows: the edited category's fields, or the blank form. */
  function FormFor(category: Option<Category>): (f: Form)
    ensures category.None? ==> f == InitialForm
    ensures category.Some? ==>
      && f.name == category.value.name && ParseCatType(f.catType) == Some(category.value.catType)
      && f.color == category.value.color && f.icon == category.value.icon
  {
    match category
    case None => InitialForm
    case Some(c) => Form(c.name, CatTypeName(c.catType), c.color, c.icon)
  }

  /** A form `validateForm` accepts: a name that is not blank. */
  predicate FormValid(form: Form) {
    Trim(form.name) != []
  }

  /** `validateForm`: the message for a blank name; valid iff there is none. */
  method ValidateForm(form: Form) returns (errors: Errors, valid: bool)
    ensures "name" in errors <==> Trim(form.name) == []
    ensures "name" in errors ==> errors["name"] == Some(NameRequiredMessage)
    ensures forall k :: k in errors ==> k == "name"
    ensures valid <==> errors == map[]
    ensures valid <==> FormValid(form)
  {
    errors := map[];
    if Trim(form.name) == [] {
      errors := errors["name" := Some(NameRequiredMessage)];
    }
    valid := |errors| == 0;
  }

  /** `handleSubmit`: the form with its name trimmed when the form is valid, and the errors shown. */
  method HandleSubmit(form: Form) returns (errors: Errors, submitted: Option<Form>)
    ensures submitted.Some? <==> FormValid(form)
    ensures "name" in errors <==> Trim(form.name) == []
    ensures "name" in errors ==> errors["name"] == Some(NameRequiredMessage)
    ensures forall k :: k in errors ==> k == "name"
    ensures submitted.Some? ==> errors == map[]
    ensures submitted.Some? ==> submitted.value == form.(name := Trim(form.name))
    ensures submitted.Some? ==> submitted.value.name != [] && Trimmed(submitted.value.name)
  {
    var valid;
    errors, valid := ValidateForm(form);
    if valid {
      TrimIdempotent(form.name);
      TrimmedIff(Trim(form.name));
      submitted := Some(form.(name := Trim(form.name)));
    } else {
      submitted := None;
    }
  }

  /** The request body the server receives for the submitted data. */
  function RequestOf(f: Form): CategoriesRoute.CategoryRequest {
    CategoriesRoute.CategoryRequest(f.name, f.catType, f.color, f.icon)
  }

  /**
   * Data submitted with one of the dialog's types passes the server's field checks and is
   * stored under the name as submitted, which trimming again does not change.
   */
  lemma SubmittedIsAccepted(form: Form)
    requires FormValid(form) && ParseCatType(form.catType).Some?
    ensures var r := CategoriesRoute.FieldsOf(RequestOf(form.(name := Trim(form.name))));
      r.Some? && r.value.name == Trim(form.name)
  {
    TrimIdempotent(form.name);
  }

  /** `handleChange`: the field takes the new text, and only its own error is cleared. */
  function HandleChange(form: Form, errors: Errors, field: Field, value: string): (r: (Form, Errors))
    ensures r.1 == ClearField(errors, FieldName(field))
    ensures r.0.name == if field == NameField then value else form.name
    ensures r.0.catType == if field == TypeField then value else form.catType
    ensures r.0.color == if field == ColorField then value else form.color
    ensures r.0.icon == if field == IconField then value else form.icon
  {
    var f := match field
      case NameField => form.(name := value)
      case TypeField => form.(catType := value)
      case ColorField => form.(color := value)
      case IconField => form.(icon := value);
    (f, ClearField(errors, FieldName(field)))
  }
}
