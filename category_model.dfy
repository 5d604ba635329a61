/**
 * The Category schema: a unique, trimmed name, a type saying which transactions it is for,
 * a display colour and icon, and whether it is one of the built-in defaults.
 */
module CategoryModel {

  import opened Wrappers
  import opened Text
  import Dates

  datatype CatType = Expense | Income | Both

  /** The stored spelling of a category type: the schema's enum values. */
  function CatTypeName(t: CatType): (s: string)
    ensures s == "expense" || s == "income" || s == "both"
  {
    match t
    case Expense => "expense"
    case Income => "income"
    case Both => "both"
  }

  /** The schema's enum check. */
  function ParseCatType(s: string): (r: Option<CatType>)
    ensures r.Some? <==> s == "expense" || s == "income" || s == "both"
    ensures r.Some? ==> CatTypeName(r.value) == s
  {
    if s == "expense" then Some(Expense)
    else if s == "income" then Some(Income)
    else if s == "both" then Some(Both)
    else None
  }

  const DefaultType: CatType := Both
  const DefaultColor: string := "#6366f1"
  const DefaultIcon: string := "tag"

  datatype Category = Category(
    id: nat,
    name: string,
    catType: CatType,
    color: string,
    icon: string,
    isDefault: bool,
    createdAt: Dates.Timestamp)

  /** A stored category: a name that is not empty and has no white space at either end. */
  predicate Valid(c: Category) {
    && c.name != []
    && Trimmed(c.name)
    && Dates.Valid(c.createdAt)
  }

  /** The `unique` index on the name. */
  ghost predicate UniqueNames(docs: map<nat, Category>) {
    forall i, j :: i in docs && j in docs && i != j ==> docs[i].name != docs[j].name
  }

  /** Some category other than `except` already has the name `name`. */
  predicate NameTaken(docs: map<nat, Category>, name: string, except: Option<nat>) {
    exists id :: id in docs && Some(id) != except && docs[id].name == name
  }

  /** A category whose name no other category has can be filed under `id` keeping names unique. */
  lemma StoreKeepsUnique(docs: map<nat, Category>, id: nat, c: Category)
    requires UniqueNames(docs) && !NameTaken(docs, c.name, Some(id))
    ensures UniqueNames(docs[id := c])
  {
  }
}
