/** The relational store behind the services (the Prisma client of
    packages/prisma): three tables held in storage order, and the
    constraints the database enforces on them. */
module Store {
  import opened Wrappers
  import opened Catalog
  import opened Ledger
  import opened SaleRecords

  predicate ProductIdsUnique(products: seq<Product>) {
    forall i, j :: 0 <= i < j < |products| ==> products[i].id != products[j].id
  }

  /** `barcode` is `@unique` (it is a `findUnique` key). */
  predicate BarcodesUnique(products: seq<Product>) {
    forall i, j :: 0 <= i < j < |products| ==> products[i].barcode != products[j].barcode
  }

  predicate IsProduct(products: seq<Product>, id: string) {
    IndexOf(products, id).Some?
  }

  /** The foreign key from inventory log entries to products. */
  predicate LogsReferenceProducts(products: seq<Product>, logs: seq<LogEntry>) {
    forall k :: 0 <= k < |logs| ==> IsProduct(products, logs[k].productId)
  }

  predicate SaleIdsUnique(sales: seq<Sale>) {
    forall i, j :: 0 <= i < j < |sales| ==> sales[i].id != sales[j].id
  }

  /** `receiptNumber` is `@unique` (it is a `findUnique` key). */
  predicate ReceiptsUnique(sales: seq<Sale>) {
    forall i, j :: 0 <= i < j < |sales| ==> sales[i].receiptNumber != sales[j].receiptNumber
  }

  /** The foreign key from sale items to products. */
  predicate ItemsReferenceProducts(products: seq<Product>, items: seq<SaleLine>) {
    forall j :: 0 <= j < |items| ==> IsProduct(products, items[j].productId)
  }

  predicate SalesReferenceProducts(products: seq<Product>, sales: seq<Sale>) {
    forall k :: 0 <= k < |sales| ==> ItemsReferenceProducts(products, sales[k].items)
  }

  class Database {
    var products: seq<Product>
    var inventoryLogs: seq<LogEntry>
    var sales: seq<Sale>

    /** The database's own constraints: primary keys, unique columns and
        foreign keys. */
    ghost predicate Valid()
      reads this
    {
      && ProductIdsUnique(products)
      && BarcodesUnique(products)
      && LogsReferenceProducts(products, inventoryLogs)
      && SaleIdsUnique(sales)
      && ReceiptsUnique(sales)
      && SalesReferenceProducts(products, sales)
    }

    constructor ()
      ensures Valid()
      ensures products == [] && inventoryLogs == [] && sales == []
    {
      products, inventoryLogs, sales := [], [], [];
    }
  }

  /** Rewriting one product row without changing its id keeps every lookup
      by id where it was. */
  lemma {:induction false} IndexOfAfterRowUpdate(products: seq<Product>, i: nat, p: Product, id: string)
    requires i < |products| && p.id == products[i].id
    ensures IndexOf(products[i := p], id) == IndexOf(products, id)
    decreases |products|
  {
    if |products| > 0 {
      var n := |products| - 1;
      if i < n {
        assert products[i := p][..n] == products[..n][i := p];
        IndexOfAfterRowUpdate(products[..n], i, p, id);
      } else {
        assert products[i := p][..n] == products[..n];
      }
    }
  }

  /** Hence the foreign keys survive such a rewrite. */
  lemma ReferencesAfterRowUpdate(products: seq<Product>, i: nat, p: Product, logs: seq<LogEntry>, sales: seq<Sale>)
    requires i < |products| && p.id == products[i].id
    requires LogsReferenceProducts(products, logs) && SalesReferenceProducts(products, sales)
    ensures LogsReferenceProducts(products[i := p], logs) && SalesReferenceProducts(products[i := p], sales)
  {
    forall id {
      IndexOfAfterRowUpdate(products, i, p, id);
    }
  }

  /** Rewriting one sale row while keeping its id, receipt number and items
      keeps the sale constraints. */
  lemma SaleConstraintsAfterRowUpdate(products: seq<Product>, sales: seq<Sale>, i: nat, s: Sale)
    requires i < |sales| && s.id == sales[i].id && s.receiptNumber == sales[i].receiptNumber && s.items == sales[i].items
    requires SaleIdsUnique(sales) && ReceiptsUnique(sales) && SalesReferenceProducts(products, sales)
    ensures SaleIdsUnique(sales[i := s]) && ReceiptsUnique(sales[i := s]) && SalesReferenceProducts(products, sales[i := s])
  {
    var t := sales[i := s];
    forall a, b | 0 <= a < b < |t| ensures t[a].id != t[b].id && t[a].receiptNumber != t[b].receiptNumber {
      assert t[a].id == sales[a].id && t[b].id == sales[b].id;
      assert t[a].receiptNumber == sales[a].receiptNumber && t[b].receiptNumber == sales[b].receiptNumber;
    }
    forall k | 0 <= k < |t| ensures ItemsReferenceProducts(products, t[k].items) {
      assert t[k].items == sales[k].items;
    }
  }

  /** Appending a sale with a fresh id, a fresh receipt number and items
      that reference products keeps the sale constraints. */
  lemma SaleConstraintsAfterAppend(products: seq<Product>, sales: seq<Sale>, s: Sale)
    requires forall k :: 0 <= k < |sales| ==> sales[k].id != s.id && sales[k].receiptNumber != s.receiptNumber
    requires ItemsReferenceProducts(products, s.items)
    requires SaleIdsUnique(sales) && ReceiptsUnique(sales) && SalesReferenceProducts(products, sales)
    ensures SaleIdsUnique(sales + [s]) && ReceiptsUnique(sales + [s]) && SalesReferenceProducts(products, sales + [s])
  {
  }

  /** With unique ids, looking a sale up by its id finds that row. */
  lemma FindSaleOfUnique(sales: seq<Sale>, i: nat)
    requires SaleIdsUnique(sales) && i < |sales|
    ensures FindSale(sales, sales[i].id) == Some(sales[i])
  {
  }
}
