/**
 * The category routes: the list by name, create and update with their defaults, delete with
 * the guard on built-in categories, and the one-time installation of the built-in set.
 */
module CategoriesRoute {

  import opened Wrappers
  import opened Text
  import Dates
  import opened Store
  import opened Sorting
  import opened Http
  import opened CategoryModel

  /** The fields of a create or update body; a missing string is "". */
  datatype CategoryRequest = CategoryRequest(name: string, catType: string, color: string, icon: string)

  const NameMessage: string := "Category name is required"
  const ExistsMessage: string := "Category already exists"
  const NameExistsMessage: string := "Category name already exists"
  const CreateErrorMessage: string := "Error creating category"
  const UpdateErrorMessage: string := "Error updating category"
  const NotFoundMessage: string := "Category not found"
  const DefaultGuardMessage: string := "Cannot delete default category"
  const DeletedMessage: string := "Category deleted successfully"
  const InitializedMessage: string := "Default categories initialized"
  const AlreadyExistMessage: string := "Categories already exist"

  /** The fields a create or update writes, after the validators. */
  datatype Fields = Fields(name: string, catType: CatType, color: string, icon: string)

  /**
   * `name.trim()`, `type || 'both'`, `color || '#6366f1'`, `icon || 'tag'`, then the required
   * and enum validators: a name of only white space, or a type outside the enum, gives none.
   */
  function FieldsOf(req: CategoryRequest): (r: Option<Fields>)
    ensures r.Some? <==> Trim(req.name) != [] && (req.catType == [] || ParseCatType(req.catType).Some?)
    ensures r.Some? ==> r.value.name == Trim(req.name) && Trimmed(r.value.name)
    ensures r.Some? ==> r.value.catType == (if req.catType == [] then DefaultType else ParseCatType(req.catType).value)
    ensures r.Some? ==> r.value.color == (if req.color == [] then DefaultColor else req.color)
    ensures r.Some? ==> r.value.icon == (if req.icon == [] then DefaultIcon else req.icon)
  {
    var name := Trim(req.name);
    match ParseCatType(if req.catType == [] then "both" else req.catType)
    case None => None
    case Some(t) =>
      if name == [] then None
      else Some(Fields(name, t, if req.color == [] then DefaultColor else req.color,
                       if req.icon == [] then DefaultIcon else req.icon))
  }

  /** A new category takes the fields and is not one of the defaults. */
  function NewCategory(f: Fields, id: nat, now: Dates.Timestamp): Category {
    Category(id, f.name, f.catType, f.color, f.icon, false, now)
  }

  /** An update replaces all four fields, so omitted ones go back to their defaults. */
  function Updated(c: Category, f: Fields): (r: Category)
    ensures r.id == c.id && r.isDefault == c.isDefault && r.createdAt == c.createdAt
    ensures r.name == f.name && r.catType == f.catType && r.color == f.color && r.icon == f.icon
  {
    c.(name := f.name, catType := f.catType, color := f.color, icon := f.icon)
  }

  /** Updating with only a name resets type, colour and icon to their defaults. */
  lemma UpdateResetsOmitted(c: Category, name: string)
    requires Trim(name) != []
    ensures var f := FieldsOf(CategoryRequest(name, [], [], []));
      && f.Some?
      && Updated(c, f.value).catType == DefaultType
      && Updated(c, f.value).color == DefaultColor
      && Updated(c, f.value).icon == DefaultIcon
  {
  }

  /** The eight built-in categories, as (name, type, colour, icon). */
  const Defaults: seq<(string, CatType, string, string)> := [
    ("Food", Expense, "#ef4444", "utensils"),
    ("Travel", Expense, "#3b82f6", "plane"),
    ("Billing", Expense, "#f59e0b", "receipt"),
    ("Shopping", Expense, "#8b5cf6", "shopping-bag"),
    ("Entertainment", Expense, "#ec4899", "music"),
    ("Salary", Income, "#10b981", "dollar-sign"),
    ("Freelance", Income, "#06b6d4", "briefcase"),
    ("Others", Both, "#6b7280", "more-horizontal")
  ]

  /** The built-in category number `k`, filed under `id`. */
  function DefaultCategory(k: nat, id: nat, now: Dates.Timestamp): (c: Category)
    requires k < |Defaults|
    ensures c.isDefault && c.id == id && c.name == Defaults[k].0
  {
    var d := Defaults[k];
    Category(id, d.0, d.1, d.2, d.3, true, now)
  }

  /** Every built-in category is valid. */
  lemma DefaultsValid(now: Dates.Timestamp)
    requires Dates.Valid(now)
    ensures forall k, id :: 0 <= k < |Defaults| ==> Valid(DefaultCategory(k, id, now))
  {
  }

  /** No two built-in categories share a name. */
  lemma DefaultNamesDistinct()
    ensures forall i, j :: 0 <= i < j < |Defaults| ==> Defaults[i].0 != Defaults[j].0
  {
  }

  /** The ids `insertMany` gives the built-in categories: `start`, `start + 1`, ... in order. */
  function InstallOrder(start: nat): (order: seq<nat>)
    ensures |order| == |Defaults|
    ensures forall k :: 0 <= k < |order| ==> order[k] == start + k
    ensures forall id :: id in order <==> start <= id < start + |Defaults|
  {
    var order := seq(|Defaults|, k requires 0 <= k < |Defaults| => start + k);
    assert forall id :: id in order <==> start <= id < start + |Defaults| by {
      forall id | start <= id < start + |Defaults| ensures id in order {
        assert order[id - start] == id;
      }
    }
    order
  }

  /** `insertMany` of the built-in categories, filed under those ids. */
  function InstallDocs(start: nat, now: Dates.Timestamp): (docs: map<nat, Category>)
    ensures forall id :: id in docs <==> start <= id < start + |Defaults|
  {
    map id | id in InstallOrder(start) :: DefaultCategory(id - start, id, now)
  }

  /** The installed built-in set is a coherent collection of valid categories with unique names. */
  lemma InstallValid(start: nat, now: Dates.Timestamp)
    requires Dates.Valid(now)
    ensures Coherent(InstallDocs(start, now), InstallOrder(start))
    ensures forall id :: id in InstallDocs(start, now) ==>
      InstallDocs(start, now)[id].id == id && Valid(InstallDocs(start, now)[id])
    ensures UniqueNames(InstallDocs(start, now))
  {
    InstallCoherent(start, now);
    InstallUnique(start, now);
    DefaultsValid(now);
  }

  /** The installed ids are listed once each, in order. */
  lemma InstallCoherent(start: nat, now: Dates.Timestamp)
    ensures Coherent(InstallDocs(start, now), InstallOrder(start))
  {
    var docs := InstallDocs(start, now);
    var order := InstallOrder(start);
    assert Store.Distinct(order);
    forall id | id in docs ensures id in order {
      assert order[id - start] == id;
    }
  }

  /** No two installed categories share a name. */
  lemma InstallUnique(start: nat, now: Dates.Timestamp)
    ensures UniqueNames(InstallDocs(start, now))
  {
    var docs := InstallDocs(start, now);
    DefaultNamesDistinct();
    forall i, j | i in docs && j in docs && i != j ensures docs[i].name != docs[j].name {
      assert docs[i].name == Defaults[i - start].0 && docs[j].name == Defaults[j - start].0;
    }
  }

  /** `sort({ name: 1 })`. */
  predicate NameFirst(a: Category, b: Category) {
    StringLe(a.name, b.name)
  }

  lemma NameFirstIsPreorder()
    ensures TotalPreorder(NameFirst)
  {
    forall a: Category, b: Category ensures NameFirst(a, b) || NameFirst(b, a) {
      StringLeTotal(a.name, b.name);
    }
    forall a: Category, b: Category, c: Category | NameFirst(a, b) && NameFirst(b, c) ensures NameFirst(a, c) {
      StringLeTransitive(a.name, b.name, c.name);
    }
  }

  /** Every stored category is valid and filed under its own id, and names are unique. */
  ghost predicate StoreValid(docs: map<Id, Category>, order: seq<Id>, nextId: nat) {
    && Coherent(docs, order)
    && (forall id :: id in docs ==> id < nextId && docs[id].id == id && CategoryModel.Valid(docs[id]))
    && UniqueNames(docs)
  }

  /** Filing a valid category with an untaken name under the next id keeps the collection valid. */
  lemma InsertValid(docs: map<Id, Category>, order: seq<Id>, nextId: nat, c: Category)
    requires StoreValid(docs, order, nextId)
    requires c.id == nextId && CategoryModel.Valid(c) && !NameTaken(docs, c.name, None)
    ensures nextId !in docs
    ensures StoreValid(docs[nextId := c], order + [nextId], nextId + 1)
  {
    StoreKeepsUnique(docs, nextId, c);
    AppendCoherent(docs, order, nextId, c);
  }

  /** Replacing a stored category by a valid one with an untaken name keeps the collection valid. */
  lemma RewriteValid(docs: map<Id, Category>, order: seq<Id>, nextId: nat, c: Category)
    requires StoreValid(docs, order, nextId) && c.id in docs
    requires CategoryModel.Valid(c) && !NameTaken(docs, c.name, Some(c.id))
    ensures StoreValid(docs[c.id := c], order, nextId)
  {
    StoreKeepsUnique(docs, c.id, c);
  }

  /** Giving stored category `id` new fields with an untaken name keeps the collection valid. */
  lemma UpdateValid(docs: map<Id, Category>, order: seq<Id>, nextId: nat, id: Id, f: Fields)
    requires StoreValid(docs, order, nextId) && id in docs
    requires f.name != [] && Trimmed(f.name) && !NameTaken(docs, f.name, Some(id))
    ensures StoreValid(docs[id := Updated(docs[id], f)], order, nextId)
  {
    var c := Updated(docs[id], f);
    assert docs[id].id == id && CategoryModel.Valid(docs[id]);
    assert c.id == id && c.name == f.name;
    RewriteValid(docs, order, nextId, c);
  }

  /** The `categories` collection. */
  class CategoryStore {
    var docs: map<Id, Category>
    var order: seq<Id>
    var nextId: nat

    ghost predicate Valid()
      reads this
    {
      StoreValid(docs, order, nextId)
    }

    constructor ()
      ensures Valid() && docs == map[] && order == []
    {
      docs := map[];
      order := [];
      nextId := 0;
    }

    /** GET `/`: every category, by name. */
    method List() returns (r: seq<Category>)
      requires Valid()
      ensures multiset(r) == multiset(Listing(docs, order))
      ensures SortedBy(r, NameFirst)
    {
      NameFirstIsPreorder();
      SortBySorted(Listing(docs, order), NameFirst);
      r := SortBy(Listing(docs, order), NameFirst);
    }

    /** POST `/`: 400 without a name, 500 when validation fails, 400 for a taken name, else 201. */
    method Create(req: CategoryRequest, now: Dates.Timestamp) returns (r: Reply<Category>)
      requires Valid() && Dates.Valid(now)
      modifies this
      ensures Valid()
      ensures req.name == [] ==> r == Failure(400, NameMessage) && docs == old(docs) && order == old(order)
      ensures req.name != [] && FieldsOf(req).None? ==>
        r == Failure(500, CreateErrorMessage) && docs == old(docs) && order == old(order)
      ensures req.name != [] && FieldsOf(req).Some? && NameTaken(old(docs), FieldsOf(req).value.name, None) ==>
        r == Failure(400, ExistsMessage) && docs == old(docs) && order == old(order)
      ensures req.name != [] && FieldsOf(req).Some? && !NameTaken(old(docs), FieldsOf(req).value.name, None) ==>
        var c := NewCategory(FieldsOf(req).value, old(nextId), now);
        && old(nextId) !in old(docs)
        && r == Success(201, c)
        && docs == old(docs)[old(nextId) := c]
        && order == old(order) + [old(nextId)]
    {
      if req.name == [] {
        return Failure(400, NameMessage);
      }
      var f := FieldsOf(req);
      if f.None? {
        return Failure(500, CreateErrorMessage);
      }
      if NameTaken(docs, f.value.name, None) {
        return Failure(400, ExistsMessage);
      }
      var c := NewCategory(f.value, nextId, now);
      InsertValid(docs, order, nextId, c);
      docs := docs[nextId := c];
      order := order + [nextId];
      nextId := nextId + 1;
      r := Success(201, c);
    }

    /**
     * PUT `/:id`: 400 without a name, 500 when validation fails, 404 for an unknown id, 400
     * when another category has the name; otherwise all four fields are replaced.
     */
    method Update(id: Id, req: CategoryRequest) returns (r: Reply<Category>)
      requires Valid()
      modifies this
      ensures Valid() && order == old(order)
      ensures req.name == [] ==> r == Failure(400, NameMessage) && docs == old(docs)
      ensures req.name != [] && FieldsOf(req).None? ==> r == Failure(500, UpdateErrorMessage) && docs == old(docs)
      ensures req.name != [] && FieldsOf(req).Some? && id !in old(docs) ==>
        r == Failure(404, NotFoundMessage) && docs == old(docs)
      ensures req.name != [] && FieldsOf(req).Some? && id in old(docs) && NameTaken(old(docs), FieldsOf(req).value.name, Some(id)) ==>
        r == Failure(400, NameExistsMessage) && docs == old(docs)
      ensures req.name != [] && FieldsOf(req).Some? && id in old(docs) && !NameTaken(old(docs), FieldsOf(req).value.name, Some(id)) ==>
        var c := Updated(old(docs)[id], FieldsOf(req).value);
        r == Success(200, c) && docs == old(docs)[id := c]
    {
      if req.name == [] {
        return Failure(400, NameMessage);
      }
      var f := FieldsOf(req);
      if f.None? {
        return Failure(500, UpdateErrorMessage);
      }
      if id !in docs {
        return Failure(404, NotFoundMessage);
      }
      if NameTaken(docs, f.value.name, Some(id)) {
        return Failure(400, NameExistsMessage);
      }
      UpdateValid(docs, order, nextId, id, f.value);
      var c := Updated(docs[id], f.value);
      docs := docs[id := c];
      r := Success(200, c);
    }

    /** DELETE `/:id`: 404 for an unknown id, 400 for a built-in category, else removes it alone. */
    method Delete(id: Id) returns (r: Reply<string>)
      requires Valid()
      modifies this
      ensures Valid()
      ensures id !in old(docs) ==> r == Failure(404, NotFoundMessage) && docs == old(docs) && order == old(order)
      ensures id in old(docs) && old(docs)[id].isDefault ==>
        r == Failure(400, DefaultGuardMessage) && docs == old(docs) && order == old(order)
      ensures id in old(docs) && !old(docs)[id].isDefault ==>
        r == Success(200, DeletedMessage) && docs == old(docs) - {id} && order == Without(old(order), id)
    {
      if id !in docs {
        return Failure(404, NotFoundMessage);
      }
      if docs[id].isDefault {
        return Failure(400, DefaultGuardMessage);
      }
      RemoveCoherent(docs, order, id);
      docs := docs - {id};
      order := Without(order, id);
      r := Success(200, DeletedMessage);
    }

    /**
     * POST `/initialize`: into an empty collection, the eight built-in categories in their
     * listed order (201); a collection with any category in it is left as it is (200).
     */
    method Initialize(now: Dates.Timestamp) returns (r: Reply<string>)
      requires Valid() && Dates.Valid(now)
      modifies this
      ensures Valid()
      ensures old(docs) != map[] ==> r == Success(200, AlreadyExistMessage) && docs == old(docs) && order == old(order)
      ensures old(docs) == map[] ==>
        && r == Success(201, InitializedMessage)
        && |order| == |Defaults|
        && docs == InstallDocs(old(nextId), now)
        && order == InstallOrder(old(nextId))
    {
      if docs != map[] {
        return Success(200, AlreadyExistMessage);
      }
      var start := nextId;
      InstallValid(start, now);
      docs := InstallDocs(start, now);
      order := InstallOrder(start);
      nextId := start + |Defaults|;
      r := Success(201, InitializedMessage);
    }
  }
}
