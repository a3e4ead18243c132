/**
 * The sale table and the handlers of controllers/saleController.js.
 *
 * A sale's total is whatever the client supplied; it is never derived from
 * the sale's items.
 */
module Sales {
  import opened Js
  import Listing
  import SaleItems

  datatype Sale = Sale(
    userId: int,
    customerId: Option<int>,
    total: int,
    discount: int,
    tax: int,
    paymentType: string,
    status: string,
    createdAt: int)

  /** One element of the request's `items` array. */
  datatype LineInput = LineInput(productId: int, quantity: int, price: int)

  /** The request's `items` field: absent or falsy, present but not an array, or an array. */
  datatype ItemsField = NoItems | NotAnArray | Lines(lines: seq<LineInput>)

  datatype SaleFields = SaleFields(
    userId: Option<int>,
    customerId: Option<int>,
    total: Option<int>,
    discount: Option<int>,
    tax: Option<int>,
    paymentType: Option<string>,
    status: Option<string>,
    items: ItemsField)

  /** The fields an update request may carry. */
  datatype SalePatch = SalePatch(
    total: Option<int>,
    discount: Option<int>,
    tax: Option<int>,
    paymentType: Option<string>,
    status: Option<string>)

  /** The create handler's guard: userId, total and paymentType truthy, items a nonempty array. */
  predicate Accepts(f: SaleFields)
    ensures Accepts(f) <==>
      && Truthy(NumJson(f.userId)) && Truthy(NumJson(f.total)) && Truthy(StrJson(f.paymentType))
      && f.items.Lines? && f.items.lines != []
  {
    && TruthyInt(f.userId)
    && TruthyInt(f.total)
    && TruthyStr(f.paymentType)
    && f.items.Lines?
    && |f.items.lines| > 0
  }

  /** The sale row a valid create request inserts, stamped with creation time `now`. */
  function NewSale(f: SaleFields, now: int): (s: Sale)
    requires Accepts(f)
    ensures s.userId == f.userId.value && s.paymentType == f.paymentType.value && s.createdAt == now
    ensures s.total == f.total.value && s.total != 0
    ensures s.customerId == (if TruthyInt(f.customerId) then Some(f.customerId.value) else None)
    ensures s.discount == (if TruthyInt(f.discount) then f.discount.value else 0)
    ensures s.tax == (if TruthyInt(f.tax) then f.tax.value else 0)
    ensures s.status == (if TruthyStr(f.status) then f.status.value else "completed")
  {
    Sale(
      f.userId.value,
      if TruthyInt(f.customerId) then Some(f.customerId.value) else None,
      f.total.value,
      IfTruthy(f.discount, 0),
      IfTruthy(f.tax, 0),
      f.paymentType.value,
      if TruthyStr(f.status) then f.status.value else "completed",
      now)
  }

  /** The stored total depends only on the supplied total, never on the items. */
  lemma TotalIgnoresItems(f: SaleFields, g: SaleFields, now: int)
    requires Accepts(f) && Accepts(g)
    requires f.total == g.total
    ensures NewSale(f, now).total == NewSale(g, now).total
  {
  }

  /** The sale-item rows built from the request's items, one per item and in order. */
  function LineItems(saleId: int, lines: seq<LineInput>): (items: seq<SaleItems.SaleItem>)
    ensures |items| == |lines|
    ensures forall k | 0 <= k < |lines| ::
      items[k] == SaleItems.SaleItem(saleId, lines[k].productId, lines[k].quantity, lines[k].price)
  {
    seq(|lines|, k requires 0 <= k < |lines| =>
      SaleItems.SaleItem(saleId, lines[k].productId, lines[k].quantity, lines[k].price))
  }

  /** A sale after an update request. */
  function Patched(s: Sale, p: SalePatch): (r: Sale)
    ensures r.userId == s.userId && r.customerId == s.customerId && r.createdAt == s.createdAt
    ensures r.total == (if TruthyInt(p.total) then p.total.value else s.total)
    ensures r.discount == (if TruthyInt(p.discount) then p.discount.value else s.discount)
    ensures r.tax == (if TruthyInt(p.tax) then p.tax.value else s.tax)
    ensures r.paymentType == (if p.paymentType.Some? then p.paymentType.value else s.paymentType)
    ensures r.status == (if p.status.Some? then p.status.value else s.status)
  {
    s.(total := IfTruthy(p.total, s.total),
       discount := IfTruthy(p.discount, s.discount),
       tax := IfTruthy(p.tax, s.tax),
       paymentType := IfDefined(p.paymentType, s.paymentType),
       status := IfDefined(p.status, s.status))
  }

  /** An update that supplies nothing leaves the sale unchanged. */
  lemma EmptyPatchKeeps(s: Sale)
    ensures Patched(s, SalePatch(None, None, None, None, None)) == s
  {
  }

  /** Sending the same update twice leaves the sale as sending it once. */
  lemma PatchIdempotent(s: Sale, p: SalePatch)
    ensures Patched(Patched(s, p), p) == Patched(s, p)
  {
  }

  /** A sale after a delete request: kept, with status "cancelled". */
  function Cancelled(s: Sale): (r: Sale)
    ensures r.status == "cancelled"
    ensures r.(status := s.status) == s
  {
    s.(status := "cancelled")
  }

  lemma CancelIdempotent(s: Sale)
    ensures Cancelled(Cancelled(s)) == Cancelled(s)
  {
  }


  class SaleTable {
    var rows: map<int, Sale>
    var nextId: int

    ghost predicate Valid()
      reads this
    {
      1 <= nextId && forall id | id in rows :: 1 <= id < nextId
    }

    constructor ()
      ensures Valid() && rows == map[] && nextId == 1
    {
      rows := map[];
      nextId := 1;
    }

    /** createSale: the sale row and its item rows are inserted together. */
    method Create(f: SaleFields, now: int, items: SaleItems.SaleItemTable) returns (r: Reply<int>)
      requires Valid() && items.Valid()
      modifies this, items
      ensures Valid() && items.Valid()
      ensures !Accepts(f) ==>
        && r == Error(400, "Missing required fields or items")
        && rows == old(rows) && nextId == old(nextId)
        && items.rows == old(items.rows) && items.nextId == old(items.nextId)
      ensures Accepts(f) ==>
        && r == Ok(201, old(nextId))
        && old(nextId) !in old(rows)
        && rows == old(rows)[old(nextId) := NewSale(f, now)]
        && nextId == old(nextId) + 1
        && items.rows == old(items.rows) + SaleItems.Consecutive(old(items.nextId), LineItems(old(nextId), f.items.lines))
        && items.nextId == old(items.nextId) + |f.items.lines|
    {
      if !TruthyInt(f.userId) || !TruthyInt(f.total) || !TruthyStr(f.paymentType)
         || !f.items.Lines? || |f.items.lines| == 0 {
        return Error(400, "Missing required fields or items");
      }
      var id := nextId;
      var sale := NewSale(f, now);
      rows := rows[id := sale];
      nextId := nextId + 1;
      var _ := items.InsertAll(LineItems(id, f.items.lines));
      r := Ok(201, id);
    }

    /** getSales: every sale exactly once, newest first. */
    function List(): (r: seq<(int, Sale)>)
      reads this
      ensures |r| == |rows|
      ensures forall i | 0 <= i < |r| :: r[i].0 in rows && r[i].1 == rows[r[i].0]
      ensures forall k | k in rows :: exists i :: 0 <= i < |r| && r[i].0 == k
      ensures forall i, j | 0 <= i < j < |r| :: r[i].1.createdAt >= r[j].1.createdAt
    {
      Listing.ListByKeyDesc(rows, (x: Sale) => x.createdAt)
    }

    /** getSaleById */
    function Get(id: Option<int>): (r: Reply<Sale>)
      reads this
      ensures r.Ok? <==> id.Some? && id.value in rows
      ensures r.Ok? ==> r == Ok(200, rows[id.value])
      ensures id.Some? && id.value !in rows ==> r == Error(404, "Sale not found")
      ensures id.None? ==> r.Error? && r.status == 500
    {
      if id.None? then Error(500, "Failed to fetch sale")
      else if id.value !in rows then Error(404, "Sale not found")
      else Ok(200, rows[id.value])
    }

    /** updateSale */
    method Update(id: Option<int>, p: SalePatch) returns (r: Reply<Sale>)
      requires Valid()
      modifies this
      ensures Valid() && nextId == old(nextId)
      ensures id.Some? && id.value in old(rows) ==>
        && rows == old(rows)[id.value := Patched(old(rows)[id.value], p)]
        && r == Ok(200, rows[id.value])
      ensures !(id.Some? && id.value in old(rows)) ==>
        rows == old(rows) && r == Error(500, "Failed to update sale")
    {
      if id.None? || id.value !in rows {
        return Error(500, "Failed to update sale");
      }
      var s := Patched(rows[id.value], p);
      rows := rows[id.value := s];
      r := Ok(200, s);
    }

    /** deleteSale: the sale stays, cancelled. */
    method Delete(id: Option<int>) returns (r: Reply<Sale>)
      requires Valid()
      modifies this
      ensures Valid() && nextId == old(nextId) && rows.Keys == old(rows).Keys
      ensures id.Some? && id.value in old(rows) ==>
        && rows == old(rows)[id.value := Cancelled(old(rows)[id.value])]
        && r == Ok(200, rows[id.value])
      ensures !(id.Some? && id.value in old(rows)) ==>
        rows == old(rows) && r == Error(500, "Failed to cancel sale")
    {
      if id.None? || id.value !in rows {
        return Error(500, "Failed to cancel sale");
      }
      var s := Cancelled(rows[id.value]);
      rows := rows[id.value := s];
      r := Ok(200, s);
    }
  }
}
