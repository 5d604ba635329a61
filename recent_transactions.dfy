/**
 * The dashboard's recent transactions: a sorted copy of the list, newest first, cut to five.
 */
module RecentTransactions {

  import opened Sorting
  import opened TransactionModel
  import opened TransactionsRoute

  const Shown: nat := 5

  /** `[...transactions].sort(newest first).slice(0, 5)`. */
  function Recent(ts: seq<Transaction>): seq<Transaction> {
    Take(SortBy(ts, Newer), Shown)
  }

  /** The transactions the dashboard leaves out. */
  function Omitted(ts: seq<Transaction>): seq<Transaction> {
    SortBy(ts, Newer)[|Recent(ts)|..]
  }

  /**
   * At most five are shown, five whenever there are that many; they are newest first; together
   * with the omitted ones they are the whole list; and none omitted is newer than any shown.
   */
  lemma RecentMeaning(ts: seq<Transaction>)
    ensures |Recent(ts)| == if |ts| < Shown then |ts| else Shown
    ensures SortedBy(Recent(ts), Newer)
    ensures multiset(Recent(ts)) + multiset(Omitted(ts)) == multiset(ts)
    ensures forall a, b :: a in Recent(ts) && b in Omitted(ts) ==> Newer(a, b)
  {
    var sorted := SortBy(ts, Newer);
    NewerIsPreorder();
    SortBySorted(ts, Newer);
    var n := |Recent(ts)|;
    assert Recent(ts) == sorted[..n] && Omitted(ts) == sorted[n..];
    assert sorted == sorted[..n] + sorted[n..];
    SortedSplit(sorted, n);
  }

  /** Cutting a newest-first list leaves a newest-first front, none of it older than the rest. */
  lemma SortedSplit(s: seq<Transaction>, n: nat)
    requires SortedBy(s, Newer) && n <= |s|
    ensures SortedBy(s[..n], Newer)
    ensures forall a, b :: a in s[..n] && b in s[n..] ==> Newer(a, b)
  {
    forall a, b | a in s[..n] && b in s[n..] ensures Newer(a, b) {
      var i :| 0 <= i < n && s[..n][i] == a;
      var j :| 0 <= j < |s| - n && s[n..][j] == b;
      assert s[i] == a && s[n + j] == b;
    }
  }
}
