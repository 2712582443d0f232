/** The state-changing operations of the product catalog
    (apps/api/src/products/products.service.ts): `update` and the soft
    `remove`, both of which look the row up with `findOne` first. */
module ProductsService {
  import opened Wrappers
  import opened Catalog
  import opened Store

  /** Some row other than row `i` already carries `barcode`. */
  predicate BarcodeHeldElsewhere(products: seq<Product>, i: nat, barcode: string) {
    exists k :: 0 <= k < |products| && k != i && products[k].barcode == barcode
  }

  /** The product table after `update(id, patch)`: NotFound for an unknown
      id, the unique-barcode constraint refusing a barcode another row
      holds, otherwise the one row rewritten by the patch. */
  function UpdateRows(products: seq<Product>, id: string, patch: ProductPatch): (r: Result<seq<Product>, Error>)
    ensures r == Failure(NotFound(id)) <==> !IsProduct(products, id)
    ensures r.Failure? ==> r.error == NotFound(id) || r.error == UniqueViolation("barcode")
    ensures r.Success? ==>
      && |r.value| == |products|
      && (forall k :: 0 <= k < |products| && products[k].id != id ==> r.value[k] == products[k])
      && (ProductIdsUnique(products) ==> ProductIdsUnique(r.value))
      && (BarcodesUnique(products) ==> BarcodesUnique(r.value))
    ensures r.Success? && ProductIdsUnique(products) ==>
      forall k :: 0 <= k < |products| && products[k].id == id ==> r.value[k] == ApplyPatch(products[k], patch)
  {
    match IndexOf(products, id)
    case None => Failure(NotFound(id))
    case Some(i) =>
      var updated := ApplyPatch(products[i], patch);
      if BarcodeHeldElsewhere(products, i, updated.barcode) then Failure(UniqueViolation("barcode"))
      else Success(products[i := updated])
  }

  /** An update is refused for a barcode clash exactly when another row
      holds the barcode the patched row would get. */
  lemma UpdateRefusedOnlyForClash(products: seq<Product>, id: string, patch: ProductPatch)
    requires IsProduct(products, id)
    ensures var i := IndexOf(products, id).value;
      UpdateRows(products, id, patch).Failure? <==>
        exists k :: 0 <= k < |products| && k != i && products[k].barcode == ApplyPatch(products[i], patch).barcode
  {
  }

  /** The patch `remove` writes. */
  const Deactivate := EmptyPatch.(isActive := Some(false))

  /** The product table after `remove(id)`: NotFound for an unknown id,
      otherwise the row kept with `isActive` cleared. */
  function RemoveRows(products: seq<Product>, id: string): (r: Result<seq<Product>, Error>)
    ensures r.Failure? <==> !IsProduct(products, id)
    ensures r.Failure? ==> r.error == NotFound(id)
    ensures r.Success? ==>
      && |r.value| == |products|
      && (forall k :: 0 <= k < |products| ==> r.value[k].id == products[k].id)
      && (forall k :: 0 <= k < |products| && products[k].id != id ==> r.value[k] == products[k])
      && IsProduct(r.value, id) && !r.value[IndexOf(r.value, id).value].isActive
    ensures r.Success? ==>
      r.value[IndexOf(products, id).value] == products[IndexOf(products, id).value].(isActive := false)
  {
    match IndexOf(products, id)
    case None => Failure(NotFound(id))
    case Some(i) =>
      IndexOfAfterRowUpdate(products, i, products[i].(isActive := false), id);
      Success(products[i := products[i].(isActive := false)])
  }

  /** `remove` is the update whose patch holds only `isActive: false`; that
      patch keeps the barcode, so the unique constraint never refuses it. */
  lemma RemoveIsDeactivatingUpdate(products: seq<Product>, id: string)
    requires BarcodesUnique(products)
    ensures UpdateRows(products, id, Deactivate) == RemoveRows(products, id)
  {
    match IndexOf(products, id)
    case None =>
    case Some(i) =>
      assert ApplyPatch(products[i], Deactivate) == products[i].(isActive := false);
  }

  /** Removing twice leaves the table as removing once. */
  lemma RemoveIdempotent(products: seq<Product>, id: string)
    requires RemoveRows(products, id).Success?
    ensures RemoveRows(RemoveRows(products, id).value, id) == RemoveRows(products, id)
  {
    var once := RemoveRows(products, id).value;
    var i := IndexOf(products, id).value;
    IndexOfAfterRowUpdate(products, i, products[i].(isActive := false), id);
    assert once[i := once[i].(isActive := false)] == once;
  }

  /** `update(id, patch)`. */
  method Update(db: Database, id: string, patch: ProductPatch) returns (r: Result<Product, Error>)
    requires db.Valid()
    modifies db
    ensures db.Valid()
    ensures db.inventoryLogs == old(db.inventoryLogs) && db.sales == old(db.sales)
    ensures match UpdateRows(old(db.products), id, patch)
      case Failure(e) => r == Failure(e) && db.products == old(db.products)
      case Success(rows) => (db.products == rows && r.Success? && r.value in rows && r.value.id == id
        && r.value == ApplyPatch(old(db.products)[IndexOf(old(db.products), id).value], patch))
  {
    var found := FindOne(db.products, id);
    if found.Failure? {
      return Failure(found.error);
    }
    var i := IndexOf(db.products, id).value;
    var updated := ApplyPatch(db.products[i], patch);
    if exists k :: 0 <= k < |db.products| && k != i && db.products[k].barcode == updated.barcode {
      return Failure(UniqueViolation("barcode"));
    }
    ReferencesAfterRowUpdate(db.products, i, updated, db.inventoryLogs, db.sales);
    db.products := db.products[i := updated];
    r := Success(updated);
  }

  /** `remove(id)`: the soft delete. */
  method Remove(db: Database, id: string) returns (r: Result<Product, Error>)
    requires db.Valid()
    modifies db
    ensures db.Valid()
    ensures db.inventoryLogs == old(db.inventoryLogs) && db.sales == old(db.sales)
    ensures match RemoveRows(old(db.products), id)
      case Failure(e) => r == Failure(e) && db.products == old(db.products)
      case Success(rows) => db.products == rows && r.Success? && r.value in rows && r.value.id == id && !r.value.isActive
  {
    var found := FindOne(db.products, id);
    if found.Failure? {
      return Failure(found.error);
    }
    var i := IndexOf(db.products, id).value;
    var removed := db.products[i].(isActive := false);
    ReferencesAfterRowUpdate(db.products, i, removed, db.inventoryLogs, db.sales);
    db.products := db.products[i := removed];
    r := Success(removed);
  }
}
