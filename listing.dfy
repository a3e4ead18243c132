/**
 * The order in which the list endpoints return a table's rows
 * (`orderBy: { id: 'desc' }` or `orderBy: { createdAt: 'desc' }`).
 *
 * Rows are listed by descending rank; the database leaves rows of equal rank
 * in no particular order, and this model lists those by descending id.
 */
module Listing {

  /** Row `a` is listed before row `b`. */
  predicate Before(rank: map<int, int>, a: int, b: int)
    requires a in rank && b in rank
  {
    rank[a] > rank[b] || (rank[a] == rank[b] && a > b)
  }

  /** `m` is the row of `ks` listed first. */
  predicate IsFirst(ks: set<int>, rank: map<int, int>, m: int)
    requires ks <= rank.Keys
  {
    m in ks && forall k | k in ks && k != m :: Before(rank, m, k)
  }

  lemma HasElement(ks: set<int>)
    ensures ks == {} || exists x :: x in ks
  {
    if forall x :: x !in ks {
      assert ks == {};
    }
  }

  /** Every nonempty set of rows has a first one. */
  lemma {:induction false} FirstExists(ks: set<int>, rank: map<int, int>)
    requires ks != {} && ks <= rank.Keys
    ensures exists m :: IsFirst(ks, rank, m)
  {
    HasElement(ks);
    var x :| x in ks;
    if ks == {x} {
      assert IsFirst(ks, rank, x);
    } else {
      var rest := ks - {x};
      FirstExists(rest, rank);
      var m :| IsFirst(rest, rank, m);
      if Before(rank, m, x) {
        assert IsFirst(ks, rank, m);
      } else {
        forall k | k in ks && k != x
          ensures Before(rank, x, k)
        {
          if k != m {
            assert Before(rank, m, k);
          }
        }
        assert IsFirst(ks, rank, x);
      }
    }
  }

  /** The keys `ks`, each exactly once, in listing order. */
  function Order(ks: set<int>, rank: map<int, int>): (r: seq<int>)
    requires ks <= rank.Keys
    ensures |r| == |ks|
    ensures forall i | 0 <= i < |r| :: r[i] in ks
    ensures forall k | k in ks :: k in r
    ensures forall i, j | 0 <= i < j < |r| :: Before(rank, r[i], r[j])
    decreases |ks|
  {
    if ks == {} then []
    else
      FirstExists(ks, rank);
      var m :| IsFirst(ks, rank, m);
      var rest := Order(ks - {m}, rank);
      PrependFirst(ks, rank, m, rest);
      [m] + rest
  }

  /** Putting the first row in front of the listing of the others lists them all. */
  lemma PrependFirst(ks: set<int>, rank: map<int, int>, m: int, rest: seq<int>)
    requires ks <= rank.Keys && IsFirst(ks, rank, m)
    requires |rest| == |ks - {m}|
    requires forall i | 0 <= i < |rest| :: rest[i] in ks - {m}
    requires forall k | k in ks - {m} :: k in rest
    requires forall i, j | 0 <= i < j < |rest| :: Before(rank, rest[i], rest[j])
    ensures |[m] + rest| == |ks|
    ensures forall i | 0 <= i < |[m] + rest| :: ([m] + rest)[i] in ks
    ensures forall k | k in ks :: k in [m] + rest
    ensures forall i, j | 0 <= i < j < |[m] + rest| :: Before(rank, ([m] + rest)[i], ([m] + rest)[j])
  {
    var r := [m] + rest;
    forall i, j | 0 <= i < j < |r|
      ensures Before(rank, r[i], r[j])
    {
      if i == 0 {
        assert r[j] == rest[j - 1];
      } else {
        assert r[i] == rest[i - 1] && r[j] == rest[j - 1];
      }
    }
  }

  /** Ranking rows by their own id. */
  function IdRank(ks: set<int>): (rank: map<int, int>)
    ensures rank.Keys == ks
    ensures forall a, b | a in ks && b in ks :: Before(rank, a, b) <==> a > b
  {
    map k | k in ks :: k
  }

  /** All rows of `m` as (id, row) pairs in listing order. */
  function List<T>(m: map<int, T>, rank: map<int, int>): (r: seq<(int, T)>)
    requires m.Keys <= rank.Keys
    ensures |r| == |m|
    ensures forall i | 0 <= i < |r| :: r[i].0 in m && r[i].1 == m[r[i].0]
    ensures forall k | k in m :: exists i :: 0 <= i < |r| && r[i].0 == k
    ensures forall i, j | 0 <= i < j < |r| :: Before(rank, r[i].0, r[j].0)
  {
    var ids := Order(m.Keys, rank);
    var r := Pair(m, ids);
    PairCovers(m, ids);
    r
  }

  /** The rows of `m` named by `ids`, as (id, row) pairs in the order of `ids`. */
  function Pair<T>(m: map<int, T>, ids: seq<int>): (r: seq<(int, T)>)
    requires forall i | 0 <= i < |ids| :: ids[i] in m
    ensures |r| == |ids|
    ensures forall i | 0 <= i < |r| :: r[i] == (ids[i], m[ids[i]])
  {
    seq(|ids|, i requires 0 <= i < |ids| => (ids[i], m[ids[i]]))
  }

  lemma PairCovers<T>(m: map<int, T>, ids: seq<int>)
    requires forall i | 0 <= i < |ids| :: ids[i] in m
    requires forall k | k in m :: k in ids
    ensures forall k | k in m :: exists i :: 0 <= i < |Pair(m, ids)| && Pair(m, ids)[i].0 == k
  {
    forall k | k in m
      ensures exists i :: 0 <= i < |Pair(m, ids)| && Pair(m, ids)[i].0 == k
    {
      var i :| 0 <= i < |ids| && ids[i] == k;
      assert Pair(m, ids)[i].0 == k;
    }
  }

  /** The rank of each row: its key. */
  function KeyRank<T>(m: map<int, T>, key: T -> int): (rank: map<int, int>)
    ensures rank.Keys == m.Keys
    ensures forall id | id in m :: rank[id] == key(m[id])
  {
    map id | id in m :: key(m[id])
  }

  /** All rows of `m`, the highest key first. */
  function ListByKeyDesc<T>(m: map<int, T>, key: T -> int): (r: seq<(int, T)>)
    ensures |r| == |m|
    ensures forall i | 0 <= i < |r| :: r[i].0 in m && r[i].1 == m[r[i].0]
    ensures forall k | k in m :: exists i :: 0 <= i < |r| && r[i].0 == k
    ensures forall i, j | 0 <= i < j < |r| :: key(r[i].1) >= key(r[j].1)
  {
    var rank := KeyRank(m, key);
    var r := List(m, rank);
    KeyOrdered(m, key, r);
    r
  }

  /** Rows listed in the order of their key rank are listed by non-increasing key. */
  lemma KeyOrdered<T>(m: map<int, T>, key: T -> int, r: seq<(int, T)>)
    requires forall i | 0 <= i < |r| :: r[i].0 in m && r[i].1 == m[r[i].0]
    requires forall i, j | 0 <= i < j < |r| :: Before(KeyRank(m, key), r[i].0, r[j].0)
    ensures forall i, j | 0 <= i < j < |r| :: key(r[i].1) >= key(r[j].1)
  {
    var rank := KeyRank(m, key);
    forall i, j | 0 <= i < j < |r|
      ensures key(r[i].1) >= key(r[j].1)
    {
      assert Before(rank, r[i].0, r[j].0);
      assert rank[r[i].0] == key(r[i].1) && rank[r[j].0] == key(r[j].1);
    }
  }

  /** All rows of `m`, newest id first. */
  function ListByIdDesc<T>(m: map<int, T>): (r: seq<(int, T)>)
    ensures |r| == |m|
    ensures forall i | 0 <= i < |r| :: r[i].0 in m && r[i].1 == m[r[i].0]
    ensures forall k | k in m :: exists i :: 0 <= i < |r| && r[i].0 == k
    ensures forall i, j | 0 <= i < j < |r| :: r[i].0 > r[j].0
  {
    List(m, IdRank(m.Keys))
  }
}
