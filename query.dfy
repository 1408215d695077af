/**
 * The database side of every listing handler: `Model.find(filter).sort(key)`.
 * A collection is a map from id to document; a query keeps the ids whose
 * document matches the filter and orders them by a sort key.
 */
module Query {

  /** Sorted by `rank`, smallest first. */
  ghost predicate SortedBy<K>(r: seq<K>, rank: K -> int) {
    forall i, j :: 0 <= i < j < |r| ==> rank(r[i]) <= rank(r[j])
  }

  ghost predicate Distinct<K>(r: seq<K>) {
    forall i, j :: 0 <= i < j < |r| ==> r[i] != r[j]
  }

  /**
   * Every key of `keys` that `keep` accepts, each exactly once, ordered by
   * `rank` ascending (a descending sort passes the negated key). The order of
   * keys of equal rank is not specified, as in the database.
   */
  method SelectSorted<K(==)>(keys: set<K>, keep: K -> bool, rank: K -> int) returns (r: seq<K>)
    ensures forall k :: k in r <==> k in keys && keep(k)
    ensures Distinct(r)
    ensures SortedBy(r, rank)
  {
    r := [];
    var rest := keys;
    while rest != {}
      invariant rest <= keys
      invariant forall k :: k in r <==> k in keys && k !in rest && keep(k)
      invariant Distinct(r)
      invariant SortedBy(r, rank)
      decreases rest
    {
      var k :| k in rest;
      rest := rest - {k};
      if keep(k) {
        r := InsertByRank(r, k, rank);
      }
    }
  }

  /** Inserts `k` into a sorted sequence, after every element of rank at most `rank(k)`. */
  method InsertByRank<K(==)>(r: seq<K>, k: K, rank: K -> int) returns (t: seq<K>)
    requires SortedBy(r, rank)
    requires Distinct(r) && k !in r
    ensures forall x :: x in t <==> x in r || x == k
    ensures |t| == |r| + 1
    ensures Distinct(t)
    ensures SortedBy(t, rank)
  {
    var p := 0;
    while p < |r| && rank(r[p]) <= rank(k)
      invariant 0 <= p <= |r|
      invariant forall i :: 0 <= i < p ==> rank(r[i]) <= rank(k)
    {
      p := p + 1;
    }
    assert forall i :: p <= i < |r| ==> rank(k) < rank(r[i]) by {
      forall i | p <= i < |r| ensures rank(k) < rank(r[i]) {
        assert rank(k) < rank(r[p]);
      }
    }
    t := r[..p] + [k] + r[p..];
    assert forall i :: 0 <= i < |t| ==> t[i] == (if i < p then r[i] else if i == p then k else r[i - 1]);
    assert forall x :: x in r <==> x in r[..p] || x in r[p..] by {
      assert r == r[..p] + r[p..];
    }
  }
}
