/**
 * The sale-item handlers next to the product and sale tables.
 *
 * controllers/saleItemController.js writes only the sale-item table: no
 * handler reserves or releases stock, and none recomputes a sale's total.
 */
module Store {
  import opened Js
  import SaleItems
  import Products
  import Sales

  class Backend {
    const items: SaleItems.SaleItemTable
    const products: Products.ProductTable
    const sales: Sales.SaleTable

    ghost predicate Valid()
      reads this, items, products, sales
    {
      items.Valid() && products.Valid() && sales.Valid()
    }

    constructor ()
      ensures Valid() && fresh(items) && fresh(products) && fresh(sales)
      ensures items.rows == map[] && products.rows == map[] && sales.rows == map[]
    {
      items := new SaleItems.SaleItemTable();
      products := new Products.ProductTable();
      sales := new Sales.SaleTable();
    }

    /** The product and sale tables are unchanged, so every product keeps its
     * stock level and every sale its total. */
    twostate predicate StockAndTotalsKept()
      reads this, products, sales
    {
      products.rows == old(products.rows) && sales.rows == old(sales.rows)
    }

    method CreateSaleItem(f: SaleItems.ItemFields) returns (r: Reply<int>)
      requires Valid()
      modifies items
      ensures Valid() && StockAndTotalsKept()
      ensures SaleItems.HasRequiredFields(f) ==> r.Ok? && items.rows == old(items.rows)[r.body := SaleItems.FromFields(f)]
    {
      r := items.Create(f);
    }

    method UpdateSaleItem(id: Option<int>, quantity: Option<int>, price: Option<int>) returns (r: Reply<SaleItems.SaleItem>)
      requires Valid()
      modifies items
      ensures Valid() && StockAndTotalsKept()
      ensures id.Some? && id.value in old(items.rows) ==> items.rows == old(items.rows)[id.value := SaleItems.Patched(old(items.rows)[id.value], quantity, price)]
    {
      r := items.Update(id, quantity, price);
    }

    /** Deleting an item zeroes its quantity and returns nothing to stock. */
    method DeleteSaleItem(id: Option<int>) returns (r: Reply<SaleItems.SaleItem>)
      requires Valid()
      modifies items
      ensures Valid() && StockAndTotalsKept()
      ensures id.Some? && id.value in old(items.rows) ==> items.rows == old(items.rows)[id.value := SaleItems.SoftDeleted(old(items.rows)[id.value])]
    {
      r := items.Delete(id);
    }
  }
}
