/**
 * The sale-item table and the handlers of controllers/saleItemController.js.
 *
 * The handlers only record line items: none of them touches a product's
 * stock level or a sale's total.
 */
module SaleItems {
  import opened Js
  import Listing

  datatype SaleItem = SaleItem(saleId: int, productId: int, quantity: int, price: int)

  /** The body of a create request. */
  datatype ItemFields = ItemFields(saleId: Option<int>, productId: Option<int>, quantity: Option<int>, price: Option<int>)

  /** The create handler's guard: every field truthy, so an explicit 0 counts as missing. */
  predicate HasRequiredFields(f: ItemFields)
    ensures HasRequiredFields(f) <==>
      && Truthy(NumJson(f.saleId)) && Truthy(NumJson(f.productId))
      && Truthy(NumJson(f.quantity)) && Truthy(NumJson(f.price))
  {
    TruthyInt(f.saleId) && TruthyInt(f.productId) && TruthyInt(f.quantity) && TruthyInt(f.price)
  }

  /** The row a create request with all required fields inserts. */
  function FromFields(f: ItemFields): (item: SaleItem)
    requires HasRequiredFields(f)
    ensures item.saleId != 0 && item.productId != 0 && item.quantity != 0 && item.price != 0
    ensures item.saleId == f.saleId.value && item.productId == f.productId.value
    ensures item.quantity == f.quantity.value && item.price == f.price.value
  {
    SaleItem(f.saleId.value, f.productId.value, f.quantity.value, f.price.value)
  }

  /** An item after an update request: quantity and price change only when the new value is truthy. */
  function Patched(item: SaleItem, quantity: Option<int>, price: Option<int>): (r: SaleItem)
    ensures r.saleId == item.saleId && r.productId == item.productId
    ensures TruthyInt(quantity) ==> r.quantity == quantity.value
    ensures !TruthyInt(quantity) ==> r.quantity == item.quantity
    ensures TruthyInt(price) ==> r.price == price.value
    ensures !TruthyInt(price) ==> r.price == item.price
    ensures r.quantity == 0 ==> item.quantity == 0
    ensures r.price == 0 ==> item.price == 0
    ensures !TruthyInt(quantity) && !TruthyInt(price) ==> r == item
  {
    item.(quantity := IfTruthy(quantity, item.quantity), price := IfTruthy(price, item.price))
  }

  /** Sending the same update twice leaves the item as sending it once. */
  lemma PatchIdempotent(item: SaleItem, quantity: Option<int>, price: Option<int>)
    ensures Patched(Patched(item, quantity, price), quantity, price) == Patched(item, quantity, price)
  {
  }

  /** An item after a delete request: it stays, with quantity 0. */
  function SoftDeleted(item: SaleItem): (r: SaleItem)
    ensures r.quantity == 0
    ensures r.saleId == item.saleId && r.productId == item.productId && r.price == item.price
  {
    item.(quantity := 0)
  }

  lemma SoftDeleteIdempotent(item: SaleItem)
    ensures SoftDeleted(SoftDeleted(item)) == SoftDeleted(item)
  {
  }

  /** An update cannot undo a soft delete: truthy values are never 0, and falsy ones leave quantity 0. */
  lemma PatchKeepsSoftDelete(item: SaleItem, quantity: Option<int>, price: Option<int>)
    requires item.quantity == 0
    ensures Patched(item, quantity, price).quantity == 0 <==> !TruthyInt(quantity)
  {
  }

  /** Rows inserted at consecutive ids starting at `first`, in the order of `items`. */
  function Consecutive(first: int, items: seq<SaleItem>): (m: map<int, SaleItem>)
    ensures forall id :: id in m <==> first <= id < first + |items|
    ensures forall k | 0 <= k < |items| :: first + k in m && m[first + k] == items[k]
  {
    if items == [] then map[]
    else Consecutive(first, items[..|items| - 1])[first + |items| - 1 := items[|items| - 1]]
  }

  class SaleItemTable {
    var rows: map<int, SaleItem>
    var nextId: int

    /** Ids are positive and below the next id to be handed out. */
    ghost predicate Valid()
      reads this
    {
      1 <= nextId && forall id | id in rows :: 1 <= id < nextId
    }

    constructor ()
      ensures Valid() && rows == map[] && nextId == 1
    {
      rows := map[];
      nextId := 1;
    }

    /** createSaleItem */
    method Create(f: ItemFields) returns (r: Reply<int>)
      requires Valid()
      modifies this
      ensures Valid()
      ensures !HasRequiredFields(f) ==> r == Error(400, "Missing required fields") && rows == old(rows) && nextId == old(nextId)
      ensures HasRequiredFields(f) ==>
        && r == Ok(201, old(nextId))
        && old(nextId) !in old(rows)
        && rows == old(rows)[old(nextId) := FromFields(f)]
        && nextId == old(nextId) + 1
    {
      if !HasRequiredFields(f) {
        return Error(400, "Missing required fields");
      }
      var id := nextId;
      rows := rows[id := FromFields(f)];
      nextId := nextId + 1;
      r := Ok(201, id);
    }

    /** The nested create of a sale's line items: one row per item, consecutive ids, in order. */
    method InsertAll(items: seq<SaleItem>) returns (first: int)
      requires Valid()
      modifies this
      ensures Valid()
      ensures first == old(nextId) && nextId == old(nextId) + |items|
      ensures forall k | k in Consecutive(first, items) :: k !in old(rows)
      ensures rows == old(rows) + Consecutive(first, items)
    {
      first := nextId;
      rows := rows + Consecutive(first, items);
      nextId := nextId + |items|;
    }

    /** getSaleItems: every item exactly once, highest id first. */
    function List(): (r: seq<(int, SaleItem)>)
      reads this
      ensures |r| == |rows|
      ensures forall i | 0 <= i < |r| :: r[i].0 in rows && r[i].1 == rows[r[i].0]
      ensures forall k | k in rows :: exists i :: 0 <= i < |r| && r[i].0 == k
      ensures forall i, j | 0 <= i < j < |r| :: r[i].0 > r[j].0
    {
      Listing.ListByIdDesc(rows)
    }

    /** getSaleItemById; an id that is not a number makes the database query fail. */
    function Get(id: Option<int>): (r: Reply<SaleItem>)
      reads this
      ensures r.Ok? <==> id.Some? && id.value in rows
      ensures r.Ok? ==> r == Ok(200, rows[id.value])
      ensures id.Some? && id.value !in rows ==> r == Error(404, "Sale item not found")
      ensures id.None? ==> r.Error? && r.status == 500
    {
      if id.None? then Error(500, "Failed to fetch sale item")
      else if id.value !in rows then Error(404, "Sale item not found")
      else Ok(200, rows[id.value])
    }

    /** updateSaleItem; updating a missing row makes the database call fail. */
    method Update(id: Option<int>, quantity: Option<int>, price: Option<int>) returns (r: Reply<SaleItem>)
      requires Valid()
      modifies this
      ensures Valid() && nextId == old(nextId)
      ensures id.Some? && id.value in old(rows) ==>
        && rows == old(rows)[id.value := Patched(old(rows)[id.value], quantity, price)]
        && r == Ok(200, rows[id.value])
      ensures !(id.Some? && id.value in old(rows)) ==>
        rows == old(rows) && r == Error(500, "Failed to update sale item")
    {
      if id.None? || id.value !in rows {
        return Error(500, "Failed to update sale item");
      }
      var item := Patched(rows[id.value], quantity, price);
      rows := rows[id.value := item];
      r := Ok(200, item);
    }

    /** deleteSaleItem: a soft delete that sets the quantity to 0 and keeps the row. */
    method Delete(id: Option<int>) returns (r: Reply<SaleItem>)
      requires Valid()
      modifies this
      ensures Valid() && nextId == old(nextId) && rows.Keys == old(rows).Keys
      ensures id.Some? && id.value in old(rows) ==>
        && rows == old(rows)[id.value := SoftDeleted(old(rows)[id.value])]
        && r == Ok(200, rows[id.value])
      ensures !(id.Some? && id.value in old(rows)) ==>
        rows == old(rows) && r == Error(500, "Failed to delete sale item")
    {
      if id.None? || id.value !in rows {
        return Error(500, "Failed to delete sale item");
      }
      var item := SoftDeleted(rows[id.value]);
      rows := rows[id.value := item];
      r := Ok(200, item);
    }
  }

  /** Deleting the same item twice leaves the table as deleting it once. */
  method DeleteTwice(t: SaleItemTable, id: Option<int>) returns (r1: Reply<SaleItem>, r2: Reply<SaleItem>)
    requires t.Valid()
    modifies t
    ensures t.Valid()
    ensures id.Some? && id.value in old(t.rows) ==>
      t.rows == old(t.rows)[id.value := SoftDeleted(old(t.rows)[id.value])] && r1 == r2
  {
    r1 := t.Delete(id);
    ghost var once := t.rows;
    r2 := t.Delete(id);
    if id.Some? && id.value in old(t.rows) {
      SoftDeleteIdempotent(old(t.rows)[id.value]);
      assert t.rows == once;
    }
  }
}
