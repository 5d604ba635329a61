/**
 * The transaction routes: request validation for create and update, the collection of stored
 * transactions with its list, get, create, update and delete handlers, and the monthly summary.
 */
module TransactionsRoute {

  import opened Wrappers
  import opened Numbers
  import opened Text
  import Dates
  import opened Store
  import opened Sorting
  import opened Http
  import opened TransactionModel
  import MonthlySummary

  /**
   * The fields of a create or update body. A missing string field is "", which is exactly as
   * falsy as an empty one; `amount` may be absent, a JSON number or a string.
   */
  datatype TxRequest = TxRequest(txType: string, amount: NumField, category: string, description: Option<string>)

  /** The outcome of the handler's checks: the type and amount to store, or the 400 message. */
  datatype Checked = Accepted(txType: TxType, amount: real) | Rejected(message: string)

  const RequiredMessage: string := "Type, amount, and category are required"
  const TypeMessage: string := "Type must be credit or debit"
  const AmountMessage: string := "Amount must be a positive number"
  const NotFoundMessage: string := "Transaction not found"
  const DeletedMessage: string := "Transaction deleted successfully"

  /** `!type || !amount || !category`. */
  predicate MissingField(req: TxRequest) {
    req.txType == [] || !Truthy(req.amount) || req.category == []
  }

  /** `isNaN(amount) || amount <= 0`, with a string amount read as `Number` reads it. */
  predicate NotPositive(f: NumField) {
    match ToNumber(f)
    case None => true
    case Some(v) => v <= 0.0
  }

  /**
   * The three checks in the order the handlers run them; the first one that fails decides the
   * message, and a request that passes all three has a type and a positive amount.
   */
  function CheckRequest(req: TxRequest): (c: Checked)
    ensures MissingField(req) ==> c == Rejected(RequiredMessage)
    ensures !MissingField(req) && ParseType(req.txType).None? ==> c == Rejected(TypeMessage)
    ensures !MissingField(req) && ParseType(req.txType).Some? && NotPositive(req.amount) ==> c == Rejected(AmountMessage)
    ensures c.Accepted? <==> !MissingField(req) && ParseType(req.txType).Some? && !NotPositive(req.amount)
    ensures c.Accepted? ==> TypeName(c.txType) == req.txType && ToNumber(req.amount) == Some(c.amount) && c.amount > 0.0
  {
    if MissingField(req) then Rejected(RequiredMessage)
    else match ParseType(req.txType)
      case None => Rejected(TypeMessage)
      case Some(ty) =>
        match ToNumber(req.amount)
        case None => Rejected(AmountMessage)
        case Some(v) => if v <= 0.0 then Rejected(AmountMessage) else Accepted(ty, v)
  }

  /** An amount of 0, as a number or as the empty string, is reported as missing. */
  lemma ZeroAmountIsMissing(req: TxRequest)
    requires req.amount == Num(0.0) || req.amount == Str([]) || req.amount == Missing
    ensures CheckRequest(req) == Rejected(RequiredMessage)
  {
  }

  /** The string "0" is truthy, so it passes the first check and fails the amount check. */
  lemma ZeroStringIsNotPositive(t: TxType, category: string, description: Option<string>)
    requires category != []
    ensures CheckRequest(TxRequest(TypeName(t), Str("0"), category, description)) == Rejected(AmountMessage)
  {
    var req := TxRequest(TypeName(t), Str("0"), category, description);
    assert !MissingField(req);
    ParseTypeName(t);
    assert NatString(0) == "0";
    NatStringParses(0);
    assert ToNumber(req.amount) == Some(0.0);
  }

  /** A request that passes the checks, stamped with a valid instant, is a valid transaction. */
  lemma AcceptedIsValid(req: TxRequest, id: nat, now: Dates.Timestamp)
    requires CheckRequest(req).Accepted? && Dates.Valid(now)
    ensures Valid(Transaction(id, CheckRequest(req).txType, CheckRequest(req).amount, req.category, req.description, now))
  {
  }

  /** The list order, `sort({ timestamp: -1 })`: `a` may come before `b` when it is not older. */
  predicate Newer(a: Transaction, b: Transaction) {
    Dates.NotAfter(b.timestamp, a.timestamp)
  }

  lemma NewerIsPreorder()
    ensures TotalPreorder(Newer)
  {
    forall a: Transaction, b: Transaction ensures Newer(a, b) || Newer(b, a) {
      Dates.NotAfterTotal(a.timestamp, b.timestamp);
    }
    forall a: Transaction, b: Transaction, c: Transaction | Newer(a, b) && Newer(b, c) ensures Newer(a, c) {
      Dates.NotAfterTransitive(c.timestamp, b.timestamp, a.timestamp);
    }
  }

  /** The stored transaction after an update: type, amount, category and, when given, description. */
  function Updated(prev: Transaction, ty: TxType, amount: real, req: TxRequest): (t: Transaction)
    ensures t.id == prev.id && t.timestamp == prev.timestamp
    ensures t.txType == ty && t.amount == amount && t.category == req.category
    ensures t.description == if req.description.Some? then req.description else prev.description
  {
    prev.(txType := ty, amount := amount, category := req.category,
         description := if req.description.Some? then req.description else prev.description)
  }

  /** The `transactions` collection. */
  class TransactionStore {
    var docs: map<Id, Transaction>
    var order: seq<Id>
    var nextId: nat

    /** Every stored transaction is valid and filed under its own id; ids below `nextId` are used. */
    ghost predicate Valid()
      reads this
    {
      && Coherent(docs, order)
      && forall id :: id in docs ==> id < nextId && docs[id].id == id && TransactionModel.Valid(docs[id])
    }

    constructor ()
      ensures Valid() && docs == map[] && order == []
    {
      docs := map[];
      order := [];
      nextId := 0;
    }

    /** GET `/`: every stored transaction, newest first. */
    method List() returns (r: seq<Transaction>)
      requires Valid()
      ensures multiset(r) == multiset(Listing(docs, order))
      ensures SortedBy(r, Newer)
    {
      NewerIsPreorder();
      r := SortBy(Listing(docs, order), Newer);
      SortBySorted(Listing(docs, order), Newer);
    }

    /** GET `/monthly-summary`: the aggregation over every stored transaction. */
    method Summary() returns (r: seq<MonthlySummary.Entry>)
      requires Valid()
      ensures r == MonthlySummary.Summary(Listing(docs, order))
    {
      r := MonthlySummary.Summary(Listing(docs, order));
    }

    /** GET `/:id`. */
    method Get(id: Id) returns (r: Reply<Transaction>)
      requires Valid()
      ensures id in docs ==> r == Success(200, docs[id])
      ensures id !in docs ==> r == Failure(404, NotFoundMessage)
    {
      if id in docs {
        r := Success(200, docs[id]);
      } else {
        r := Failure(404, NotFoundMessage);
      }
    }

    /** POST `/`: checks the request, then stores a new transaction stamped `now`, at the end. */
    method Create(req: TxRequest, now: Dates.Timestamp) returns (r: Reply<Transaction>)
      requires Valid() && Dates.Valid(now)
      modifies this
      ensures Valid()
      ensures CheckRequest(req).Rejected? ==>
        r == Failure(400, CheckRequest(req).message) && docs == old(docs) && order == old(order)
      ensures CheckRequest(req).Accepted? ==>
        var c := CheckRequest(req);
        var t := Transaction(old(nextId), c.txType, c.amount, req.category, req.description, now);
        && old(nextId) !in old(docs)
        && r == Success(201, t)
        && docs == old(docs)[old(nextId) := t]
        && order == old(order) + [old(nextId)]
    {
      var c := CheckRequest(req);
      if c.Rejected? {
        r := Failure(400, c.message);
        return;
      }
      var t := Transaction(nextId, c.txType, c.amount, req.category, req.description, now);
      AcceptedIsValid(req, nextId, now);
      AppendCoherent(docs, order, nextId, t);
      docs := docs[nextId := t];
      order := order + [nextId];
      nextId := nextId + 1;
      r := Success(201, t);
    }

    /**
     * PUT `/:id`: the checks first, then 404 for an unknown id; otherwise only type, amount,
     * category and (when given) description change, and the others stay as they were.
     */
    method Update(id: Id, req: TxRequest) returns (r: Reply<Transaction>)
      requires Valid()
      modifies this
      ensures Valid() && order == old(order)
      ensures CheckRequest(req).Rejected? ==>
        r == Failure(400, CheckRequest(req).message) && docs == old(docs)
      ensures CheckRequest(req).Accepted? && id !in old(docs) ==>
        r == Failure(404, NotFoundMessage) && docs == old(docs)
      ensures CheckRequest(req).Accepted? && id in old(docs) ==>
        var c := CheckRequest(req);
        var t := Updated(old(docs)[id], c.txType, c.amount, req);
        r == Success(200, t) && docs == old(docs)[id := t]
    {
      var c := CheckRequest(req);
      if c.Rejected? {
        r := Failure(400, c.message);
        return;
      }
      if id !in docs {
        r := Failure(404, NotFoundMessage);
        return;
      }
      var t := Updated(docs[id], c.txType, c.amount, req);
      docs := docs[id := t];
      r := Success(200, t);
    }

    /** DELETE `/:id`: removes that transaction and no other, or answers 404. */
    method Delete(id: Id) returns (r: Reply<string>)
      requires Valid()
      modifies this
      ensures Valid()
      ensures id !in old(docs) ==> r == Failure(404, NotFoundMessage) && docs == old(docs) && order == old(order)
      ensures id in old(docs) ==>
        r == Success(200, DeletedMessage) && docs == old(docs) - {id} && order == Without(old(order), id)
    {
      if id !in docs {
        r := Failure(404, NotFoundMessage);
        return;
      }
      RemoveCoherent(docs, order, id);
      docs := docs - {id};
      order := Without(order, id);
      r := Success(200, DeletedMessage);
    }
  }
}
