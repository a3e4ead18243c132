/**
 * The product table and the handlers of controllers/productController.js.
 *
 * Fields the database would refuse when absent (a text column without a
 * default) are kept as `Option` here, since the schema is not part of this
 * model; numeric fields converted with `Number(...)` from an absent value
 * become NaN, which the database refuses.
 */
module Products {
  import opened Js

  datatype Product = Product(
    sku: Option<string>,
    categoryId: int,
    name: Option<string>,
    description: Option<string>,
    price: int,
    stockLevel: int,
    taxRate: Option<int>,
    status: string)

  datatype ProductFields = ProductFields(
    sku: Option<string>,
    categoryId: Option<int>,
    name: Option<string>,
    description: Option<string>,
    price: Option<int>,
    stockLevel: Option<int>,
    taxRate: Option<int>)

  /** The fields an update request may carry. */
  datatype ProductPatch = ProductPatch(
    sku: Option<string>,
    categoryId: Option<int>,
    name: Option<string>,
    description: Option<string>,
    price: Option<int>,
    stockLevel: Option<int>,
    taxRate: Option<int>,
    status: Option<string>)

  /** `Number(categoryId)` and `Number(price)` are numbers, not NaN. */
  predicate Storable(f: ProductFields) {
    f.categoryId.Some? && f.price.Some?
  }

  /** The product row a create request inserts. */
  function NewProduct(f: ProductFields): (p: Product)
    requires Storable(f)
    ensures p.status == "active"
    ensures p.stockLevel == (if TruthyInt(f.stockLevel) then f.stockLevel.value else 0)
    ensures p.taxRate == (if TruthyInt(f.taxRate) then Some(f.taxRate.value) else None)
    ensures p.categoryId == f.categoryId.value && p.price == f.price.value
    ensures p.sku == f.sku && p.name == f.name && p.description == f.description
  {
    Product(f.sku, f.categoryId.value, f.name, f.description, f.price.value,
            IfTruthy(f.stockLevel, 0),
            if TruthyInt(f.taxRate) then Some(f.taxRate.value) else None,
            "active")
  }

  /** A product after an update request. */
  function Patched(p: Product, u: ProductPatch): (r: Product)
    ensures r.sku == (if u.sku.Some? then u.sku else p.sku)
    ensures r.name == (if u.name.Some? then u.name else p.name)
    ensures r.description == (if u.description.Some? then u.description else p.description)
    ensures r.categoryId == (if TruthyInt(u.categoryId) then u.categoryId.value else p.categoryId)
    ensures r.price == (if TruthyInt(u.price) then u.price.value else p.price)
    ensures r.stockLevel == (if TruthyInt(u.stockLevel) then u.stockLevel.value else p.stockLevel)
    ensures r.taxRate == (if TruthyInt(u.taxRate) then Some(u.taxRate.value) else p.taxRate)
    ensures r.status == (if u.status.Some? then u.status.value else p.status)
  {
    p.(sku := if u.sku.Some? then u.sku else p.sku,
       categoryId := IfTruthy(u.categoryId, p.categoryId),
       name := if u.name.Some? then u.name else p.name,
       description := if u.description.Some? then u.description else p.description,
       price := IfTruthy(u.price, p.price),
       stockLevel := IfTruthy(u.stockLevel, p.stockLevel),
       taxRate := if TruthyInt(u.taxRate) then Some(u.taxRate.value) else p.taxRate,
       status := IfDefined(u.status, p.status))
  }

  /** No update request sets the stock level of a product in stock to 0. */
  lemma StockNeverZeroedByUpdate(p: Product, u: ProductPatch)
    requires p.stockLevel != 0
    ensures Patched(p, u).stockLevel != 0
  {
  }

  /** An update that supplies nothing leaves the product unchanged. */
  lemma EmptyPatchKeeps(p: Product)
    ensures Patched(p, ProductPatch(None, None, None, None, None, None, None, None)) == p
  {
  }

  /** Sending the same update twice leaves the product as sending it once. */
  lemma PatchIdempotent(p: Product, u: ProductPatch)
    ensures Patched(Patched(p, u), u) == Patched(p, u)
  {
  }

  /** A product after a delete request: kept, with status "inactive". */
  function Deactivated(p: Product): (r: Product)
    ensures r.status == "inactive"
    ensures r.(status := p.status) == p
  {
    p.(status := "inactive")
  }

  lemma DeactivateIdempotent(p: Product)
    ensures Deactivated(Deactivated(p)) == Deactivated(p)
  {
  }

  class ProductTable {
    var rows: map<int, Product>
    var nextId: int

    ghost predicate Valid()
      reads this
    {
      1 <= nextId && forall id | id in rows :: 1 <= id < nextId
    }

    constructor ()
      ensures Valid() && rows == map[] && nextId == 1
    {
      rows := map[];
      nextId := 1;
    }

    /** getProductById; an id `parseInt` cannot read makes the query fail. */
    function Get(id: Option<int>): (r: Reply<Product>)
      reads this
      ensures r.Ok? <==> id.Some? && id.value in rows
      ensures r.Ok? ==> r == Ok(200, rows[id.value])
      ensures id.Some? && id.value !in rows ==> r == Error(404, "Product not found")
      ensures id.None? ==> r.Error? && r.status == 500
    {
      if id.None? then Error(500, "Failed to fetch product")
      else if id.value !in rows then Error(404, "Product not found")
      else Ok(200, rows[id.value])
    }

    /** createProduct: no validation of its own; defaults for stock level, tax rate and status. */
    method Create(f: ProductFields) returns (r: Reply<int>)
      requires Valid()
      modifies this
      ensures Valid()
      ensures !Storable(f) ==> r == Error(500, "Failed to create product") && rows == old(rows) && nextId == old(nextId)
      ensures Storable(f) ==>
        && r == Ok(201, old(nextId))
        && old(nextId) !in old(rows)
        && rows == old(rows)[old(nextId) := NewProduct(f)]
        && nextId == old(nextId) + 1
    {
      if f.categoryId.None? || f.price.None? {
        return Error(500, "Failed to create product");
      }
      var p := NewProduct(f);
      var id := nextId;
      rows := rows[id := p];
      nextId := nextId + 1;
      r := Ok(201, id);
    }

    /** updateProduct */
    method Update(id: Option<int>, u: ProductPatch) returns (r: Reply<Product>)
      requires Valid()
      modifies this
      ensures Valid() && nextId == old(nextId)
      ensures id.Some? && id.value in old(rows) ==>
        && rows == old(rows)[id.value := Patched(old(rows)[id.value], u)]
        && r == Ok(200, rows[id.value])
      ensures !(id.Some? && id.value in old(rows)) ==>
        rows == old(rows) && r == Error(500, "Failed to update product")
    {
      if id.None? || id.value !in rows {
        return Error(500, "Failed to update product");
      }
      var p := Patched(rows[id.value], u);
      rows := rows[id.value := p];
      r := Ok(200, p);
    }

    /** deleteProduct: a soft delete. */
    method Delete(id: Option<int>) returns (r: Reply<Product>)
      requires Valid()
      modifies this
      ensures Valid() && nextId == old(nextId) && rows.Keys == old(rows).Keys
      ensures id.Some? && id.value in old(rows) ==>
        && rows == old(rows)[id.value := Deactivated(old(rows)[id.value])]
        && r == Ok(200, rows[id.value])
      ensures !(id.Some? && id.value in old(rows)) ==>
        rows == old(rows) && r == Error(500, "Failed to delete product")
    {
      if id.None? || id.value !in rows {
        return Error(500, "Failed to delete product");
      }
      var p := Deactivated(rows[id.value]);
      rows := rows[id.value := p];
      r := Ok(200, p);
    }
  }
}
