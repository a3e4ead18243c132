/**
 * The offline-transaction table and the handlers of
 * controllers/offlineTransactionController.js.
 *
 * Each transaction carries a `synced` flag that starts false; only the update
 * handler (given a boolean) and the mark-synced handler change it.
 */
module OfflineTransactions {
  import opened Js
  import Listing

  datatype OfflineTransaction = OfflineTransaction(data: Json, synced: bool, createdAt: int)

  /** The create handler's guard: `data` present, truthy, and of type object. */
  predicate CreateAccepts(data: Option<Json>) {
    Truthy(data) && IsObjectType(data.value)
  }

  /** Create accepts exactly objects and arrays: null and every non-object value are refused. */
  lemma CreateAcceptsObjectsAndArrays(data: Option<Json>)
    ensures CreateAccepts(data) <==> data.Some? && (data.value.JObject? || data.value.JArray?)
  {
  }

  /** The update handler's guard: `data`, when truthy, must be of type object. */
  predicate UpdateRejects(data: Option<Json>) {
    Truthy(data) && !IsObjectType(data.value)
  }

  /** The update refuses exactly the truthy scalars: `true`, a nonzero number and a nonempty string. */
  lemma UpdateRejectsTruthyScalars(data: Option<Json>)
    ensures UpdateRejects(data) <==>
      || data == Some(JBool(true))
      || (data.Some? && data.value.JNum? && data.value.n != 0)
      || (data.Some? && data.value.JStr? && data.value.s != "")
  {
  }

  /** A transaction after an accepted update request. */
  function Patched(t: OfflineTransaction, data: Option<Json>, synced: Option<Json>): (r: OfflineTransaction)
    ensures r.createdAt == t.createdAt
    ensures r.synced == (if synced.Some? && synced.value.JBool? then synced.value.b else t.synced)
    ensures r.data == (if data.None? || data.value.JNull? then t.data else data.value)
  {
    t.(data := if data.None? || data.value.JNull? then t.data else data.value,
       synced := if synced.Some? && synced.value.JBool? then synced.value.b else t.synced)
  }

  /**
   * The update guard lets falsy values through, and `data ?? undefined` then
   * stores them: an update with `data: false`, `0` or `""` replaces the data
   * with that value.
   */
  lemma UpdateStoresFalsyData(t: OfflineTransaction, data: Option<Json>, synced: Option<Json>)
    requires data.Some? && !data.value.JNull? && !Truthy(data)
    ensures !UpdateRejects(data)
    ensures Patched(t, data, synced).data == data.value
  {
  }

  /** A transaction after mark-synced: only the flag changes. */
  function Synced(t: OfflineTransaction): (r: OfflineTransaction)
    ensures r.synced && r.data == t.data && r.createdAt == t.createdAt
  {
    t.(synced := true)
  }

  lemma SyncIdempotent(t: OfflineTransaction)
    ensures Synced(Synced(t)) == Synced(t)
  {
  }


  class OfflineTransactionTable {
    var rows: map<int, OfflineTransaction>
    var nextId: int

    ghost predicate Valid()
      reads this
    {
      1 <= nextId && forall id | id in rows :: 1 <= id < nextId
    }

    constructor ()
      ensures Valid() && rows == map[] && nextId == 1
    {
      rows := map[];
      nextId := 1;
    }

    /** createOfflineTransaction: a new transaction is never synced. */
    method Create(data: Option<Json>, now: int) returns (r: Reply<int>)
      requires Valid()
      modifies this
      ensures Valid()
      ensures !CreateAccepts(data) ==>
        && r == Error(400, "Transaction data is required and must be a JSON object")
        && rows == old(rows) && nextId == old(nextId)
      ensures CreateAccepts(data) ==>
        && r == Ok(201, old(nextId))
        && old(nextId) !in old(rows)
        && rows == old(rows)[old(nextId) := OfflineTransaction(data.value, false, now)]
        && nextId == old(nextId) + 1
    {
      if !Truthy(data) || !IsObjectType(data.value) {
        return Error(400, "Transaction data is required and must be a JSON object");
      }
      var id := nextId;
      rows := rows[id := OfflineTransaction(data.value, false, now)];
      nextId := nextId + 1;
      r := Ok(201, id);
    }

    /** getOfflineTransactions: every transaction, newest first. */
    function List(): (r: seq<(int, OfflineTransaction)>)
      reads this
      ensures |r| == |rows|
      ensures forall i | 0 <= i < |r| :: r[i].0 in rows && r[i].1 == rows[r[i].0]
      ensures forall k | k in rows :: exists i :: 0 <= i < |r| && r[i].0 == k
      ensures forall i, j | 0 <= i < j < |r| :: r[i].1.createdAt >= r[j].1.createdAt
    {
      Listing.ListByKeyDesc(rows, (x: OfflineTransaction) => x.createdAt)
    }

    /** getOfflineTransactionById */
    function Get(id: Option<int>): (r: Reply<OfflineTransaction>)
      reads this
      ensures r.Ok? <==> id.Some? && id.value in rows
      ensures r.Ok? ==> r == Ok(200, rows[id.value])
      ensures id.Some? && id.value !in rows ==> r == Error(404, "Offline transaction not found")
      ensures id.None? ==> r.Error? && r.status == 500
    {
      if id.None? then Error(500, "Failed to fetch offline transaction")
      else if id.value !in rows then Error(404, "Offline transaction not found")
      else Ok(200, rows[id.value])
    }

    /** updateOfflineTransaction: the type check on `data` comes before the lookup. */
    method Update(id: Option<int>, data: Option<Json>, synced: Option<Json>) returns (r: Reply<OfflineTransaction>)
      requires Valid()
      modifies this
      ensures Valid() && nextId == old(nextId)
      ensures UpdateRejects(data) ==>
        rows == old(rows) && r == Error(400, "`data` field must be a JSON object")
      ensures !UpdateRejects(data) && id.Some? && id.value in old(rows) ==>
        && rows == old(rows)[id.value := Patched(old(rows)[id.value], data, synced)]
        && r == Ok(200, rows[id.value])
      ensures !UpdateRejects(data) && !(id.Some? && id.value in old(rows)) ==>
        rows == old(rows) && r == Error(500, "Failed to update offline transaction")
    {
      if Truthy(data) && !IsObjectType(data.value) {
        return Error(400, "`data` field must be a JSON object");
      }
      if id.None? || id.value !in rows {
        return Error(500, "Failed to update offline transaction");
      }
      var t := Patched(rows[id.value], data, synced);
      rows := rows[id.value := t];
      r := Ok(200, t);
    }

    /** deleteOfflineTransaction: removes exactly the given transaction. */
    method Delete(id: Option<int>) returns (r: Reply<()>)
      requires Valid()
      modifies this
      ensures Valid() && nextId == old(nextId)
      ensures id.Some? && id.value in old(rows) ==>
        && rows.Keys == old(rows).Keys - {id.value}
        && (forall k | k in rows :: rows[k] == old(rows)[k])
        && r == Ok(200, ())
      ensures !(id.Some? && id.value in old(rows)) ==>
        rows == old(rows) && r == Error(500, "Failed to delete offline transaction")
    {
      if id.None? || id.value !in rows {
        return Error(500, "Failed to delete offline transaction");
      }
      rows := rows - {id.value};
      r := Ok(200, ());
    }

    /** markAsSynced */
    method MarkAsSynced(id: Option<int>) returns (r: Reply<OfflineTransaction>)
      requires Valid()
      modifies this
      ensures Valid() && nextId == old(nextId) && rows.Keys == old(rows).Keys
      ensures id.Some? && id.value in old(rows) ==>
        && rows == old(rows)[id.value := Synced(old(rows)[id.value])]
        && r == Ok(200, rows[id.value])
      ensures !(id.Some? && id.value in old(rows)) ==>
        rows == old(rows) && r == Error(500, "Failed to mark offline transaction as synced")
    {
      if id.None? || id.value !in rows {
        return Error(500, "Failed to mark offline transaction as synced");
      }
      var t := Synced(rows[id.value]);
      rows := rows[id.value := t];
      r := Ok(200, t);
    }
  }

  /** Marking a transaction synced twice leaves the table as marking it once. */
  method SyncTwice(t: OfflineTransactionTable, id: Option<int>) returns (r1: Reply<OfflineTransaction>, r2: Reply<OfflineTransaction>)
    requires t.Valid()
    modifies t
    ensures t.Valid()
    ensures id.Some? && id.value in old(t.rows) ==>
      t.rows == old(t.rows)[id.value := Synced(old(t.rows)[id.value])] && r1 == r2
  {
    r1 := t.MarkAsSynced(id);
    ghost var once := t.rows;
    r2 := t.MarkAsSynced(id);
    if id.Some? && id.value in old(t.rows) {
      SyncIdempotent(old(t.rows)[id.value]);
      assert t.rows == once;
    }
  }
}
