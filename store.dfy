/**
 * What the route handlers see of a MongoDB collection: documents by id, listed in natural
 * (insertion) order, and `findOne`, which returns the first document in that order that
 * matches a filter.
 */
module Store {

  import opened Wrappers

  /** A document id (`_id`). */
  type Id = nat

  /** No id occurs twice in `order`. */
  predicate Distinct(order: seq<Id>) {
    forall i, j :: 0 <= i < j < |order| ==> order[i] != order[j]
  }

  /** `order` lists every id of `docs` exactly once. */
  ghost predicate Coherent<R>(docs: map<Id, R>, order: seq<Id>) {
    && Distinct(order)
    && (forall i :: 0 <= i < |order| ==> order[i] in docs)
    && (forall id :: id in docs ==> id in order)
  }

  /** The documents in natural order (`find()` without a sort). */
  function Listing<R>(docs: map<Id, R>, order: seq<Id>): (r: seq<R>)
    requires forall i :: 0 <= i < |order| ==> order[i] in docs
    ensures |r| == |order|
    ensures forall i :: 0 <= i < |order| ==> r[i] == docs[order[i]]
  {
    seq(|order|, i requires 0 <= i < |order| => docs[order[i]])
  }

  /** Every document of a coherent collection occurs in its listing. */
  lemma ListingHasAll<R>(docs: map<Id, R>, order: seq<Id>, id: Id)
    requires Coherent(docs, order) && id in docs
    ensures docs[id] in Listing(docs, order)
  {
    var i :| 0 <= i < |order| && order[i] == id;
    assert Listing(docs, order)[i] == docs[id];
  }

  /** `order` with `id` taken out, the others keeping their relative order. */
  function Without(order: seq<Id>, id: Id): (r: seq<Id>)
    ensures forall x :: x in r <==> x in order && x != id
    ensures |r| <= |order|
    decreases |order|
  {
    if order == [] then []
    else if order[0] == id then Without(order[1..], id)
    else [order[0]] + Without(order[1..], id)
  }

  /** Taking an id out of an order without repetitions leaves an order without repetitions. */
  lemma {:induction false} WithoutDistinct(order: seq<Id>, id: Id)
    requires Distinct(order)
    ensures Distinct(Without(order, id))
    decreases |order|
  {
    if order != [] {
      var tail := order[1..];
      assert Distinct(tail) by {
        forall i, j | 0 <= i < j < |tail| ensures tail[i] != tail[j] {
          assert tail[i] == order[i + 1] && tail[j] == order[j + 1];
        }
      }
      WithoutDistinct(tail, id);
      var rest := Without(tail, id);
      assert order[0] !in tail by {
        forall k | 0 <= k < |tail| ensures tail[k] != order[0] {
          assert tail[k] == order[k + 1];
        }
      }
      if order[0] != id {
        var r := [order[0]] + rest;
        assert Without(order, id) == r;
        forall i, j | 0 <= i < j < |r| ensures r[i] != r[j] {
          assert r[j] == rest[j - 1] && rest[j - 1] in rest;
          if i > 0 {
            assert r[i] == rest[i - 1];
          }
        }
      }
    }
  }

  /** Removing document `id` keeps the collection coherent. */
  lemma RemoveCoherent<R>(docs: map<Id, R>, order: seq<Id>, id: Id)
    requires Coherent(docs, order)
    ensures Coherent(docs - {id}, Without(order, id))
  {
    WithoutDistinct(order, id);
    var r := Without(order, id);
    forall i | 0 <= i < |r| ensures r[i] in docs - {id} {
      assert r[i] in r;
    }
  }

  /** Adding a fresh document at the end keeps the collection coherent. */
  lemma AppendCoherent<R>(docs: map<Id, R>, order: seq<Id>, id: Id, r: R)
    requires Coherent(docs, order) && id !in docs
    ensures Coherent(docs[id := r], order + [id])
  {
  }

  /** Position `k` holds a match, and no earlier position does. */
  ghost predicate FirstMatch<R>(docs: map<Id, R>, order: seq<Id>, matches: R -> bool, k: nat)
    requires forall i :: 0 <= i < |order| ==> order[i] in docs
  {
    k < |order| && matches(docs[order[k]]) && forall i :: 0 <= i < k ==> !matches(docs[order[i]])
  }

  /**
   * `findOne(filter)`: the position in `order` of the first document satisfying `matches`,
   * or `None` when no document does.
   */
  function FindFirst<R>(docs: map<Id, R>, order: seq<Id>, matches: R -> bool): (r: Option<nat>)
    requires forall i :: 0 <= i < |order| ==> order[i] in docs
    ensures r.Some? ==> r.value < |order| && matches(docs[order[r.value]])
    ensures r.Some? ==> forall i :: 0 <= i < r.value ==> !matches(docs[order[i]])
    ensures r.None? ==> forall i :: 0 <= i < |order| ==> !matches(docs[order[i]])
    decreases |order|
  {
    if order == [] then None
    else if matches(docs[order[0]]) then Some(0)
    else
      match FindFirst(docs, order[1..], matches)
      case Some(k) => Some(k + 1)
      case None => None
  }

  /**
   * `findOne(filter)` itself: the first matching document in natural order, or `None` when no
   * document of the collection matches.
   */
  function FindOne<R>(docs: map<Id, R>, order: seq<Id>, matches: R -> bool): (r: Option<R>)
    requires Coherent(docs, order)
    ensures r.Some? ==> matches(r.value) && exists id :: id in docs && docs[id] == r.value
    ensures r.Some? ==> exists k :: 0 <= k < |order| && docs[order[k]] == r.value && FirstMatch(docs, order, matches, k)
    ensures r.None? ==> forall id :: id in docs ==> !matches(docs[id])
  {
    match FindFirst(docs, order, matches)
    case Some(k) => Some(docs[order[k]])
    case None => None
  }
}
