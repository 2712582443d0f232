/** The inventory service (apps/api/src/inventory/inventory.service.ts):
    appending to the ledger, paginated listing of entries, and the stock
    level queries over the catalog. */
module InventoryService {
  import opened Wrappers
  import opened Catalog
  import opened Ledger
  import opened Store
  import opened InventoryLogDto
  import Sorting

  /** The row `createLog` writes: the DTO's fields and a server timestamp. */
  function EntryOf(dto: CreateInventoryLogDto, now: int): (e: LogEntry)
    ensures e.productId == dto.productId && e.quantity == dto.quantity && e.action == dto.action
    ensures e.notes == dto.notes && e.reference == dto.reference && e.createdAt == now
  {
    LogEntry(dto.productId, dto.quantity, dto.action, dto.notes, dto.reference, now)
  }

  /** `createLog`: appends exactly one entry, equal to its input, and changes
      nothing else; the foreign key to products rejects an unknown id. No
      check is made on the sign of the resulting stock. */
  method CreateLog(db: Database, dto: CreateInventoryLogDto, now: int) returns (r: Result<LogEntry, Error>)
    requires db.Valid()
    modifies db
    ensures db.Valid()
    ensures db.products == old(db.products) && db.sales == old(db.sales)
    ensures !IsProduct(db.products, dto.productId) ==>
      r == Failure(ForeignKeyViolation(dto.productId)) && db.inventoryLogs == old(db.inventoryLogs)
    ensures IsProduct(db.products, dto.productId) ==>
      r == Success(EntryOf(dto, now)) && db.inventoryLogs == old(db.inventoryLogs) + [EntryOf(dto, now)]
  {
    if !IsProduct(db.products, dto.productId) {
      return Failure(ForeignKeyViolation(dto.productId));
    }
    var entry := EntryOf(dto, now);
    db.inventoryLogs := db.inventoryLogs + [entry];
    r := Success(entry);
  }

  // ------------------------------------------------------------- findAll

  /** The `where` of `findAll`: an absent or empty productId is no filter. */
  predicate LogMatches(e: LogEntry, productId: Option<string>, action: Option<InventoryAction>) {
    && (productId.None? || productId.value == "" || e.productId == productId.value)
    && (action.None? || e.action == action.value)
  }

  function FilterLogs(logs: seq<LogEntry>, productId: Option<string>, action: Option<InventoryAction>): (r: seq<LogEntry>)
    ensures |r| <= |logs|
    ensures Sorting.IsSubsequence(r, logs)
    ensures forall e :: e in r <==> e in logs && LogMatches(e, productId, action)
    decreases |logs|
  {
    if logs == [] then []
    else
      var init, last := logs[..|logs| - 1], logs[|logs| - 1];
      var earlier := FilterLogs(init, productId, action);
      assert logs == init + [last];
      Sorting.SubsequenceSnoc(earlier, logs);
      if LogMatches(last, productId, action) then earlier + [last] else earlier
  }

  /** The filter keeps every copy of a matching entry and no copy of any
      other, so the page count `count()` reports counts repeated entries. */
  lemma {:induction false} FilterLogsCounts(logs: seq<LogEntry>, productId: Option<string>, action: Option<InventoryAction>)
    ensures forall e ::
      multiset(FilterLogs(logs, productId, action))[e] == if LogMatches(e, productId, action) then multiset(logs)[e] else 0
    decreases |logs|
  {
    if logs != [] {
      var init, last := logs[..|logs| - 1], logs[|logs| - 1];
      FilterLogsCounts(init, productId, action);
      assert logs == init + [last];
    }
  }

  datatype PageMeta = PageMeta(page: int, limit: int, total: nat, totalPages: int)

  datatype LogPage = LogPage(data: seq<LogEntry>, meta: PageMeta)

  /** `Math.ceil(total / limit)` for a positive limit. */
  function CeilDiv(total: nat, limit: int): (r: int)
    requires limit > 0
    ensures (r - 1) * limit < total <= r * limit
  {
    (total + limit - 1) / limit
  }

  /** The matching entries, newest first (`orderBy: { createdAt: 'desc' }`). */
  function NewestFirstLogs(logs: seq<LogEntry>, productId: Option<string>, action: Option<InventoryAction>): seq<LogEntry> {
    Sorting.SortBy(FilterLogs(logs, productId, action), Ledger.NewestFirst)
  }

  function Min(a: int, b: int): int { if a < b then a else b }

  /** `(page - 1) * limit`, the number of entries skipped. */
  function Skip(page: int, limit: int): nat
    requires page >= 1 && limit >= 1
  {
    MulMonotone(0, page - 1, limit);
    (page - 1) * limit
  }

  /** `skip` then `take`: the entries from position `skip` on, at most
      `limit` of them, and none when `skip` is past the end. */
  function Window<T>(s: seq<T>, skip: nat, limit: nat): (r: seq<T>)
    ensures |r| == if skip >= |s| then 0 else Min(limit, |s| - skip)
    ensures forall m :: 0 <= m < |r| ==> r[m] == s[skip + m]
  {
    s[Min(skip, |s|)..Min(skip + limit, |s|)]
  }

  /** `findAll(productId, action, page, limit)`: skip `(page - 1) * limit`,
      take `limit`, and the page metadata. A page below 1 makes the skip
      negative, which the database client refuses. */
  function FindAll(logs: seq<LogEntry>, productId: Option<string>, action: Option<InventoryAction>, page: int, limit: int): (r: Result<LogPage, Error>)
    requires limit >= 1
    ensures r.Failure? <==> page < 1
    ensures r.Failure? ==> r.error == InvalidQueryArgument("skip")
    ensures r.Success? ==>
      var total := |FilterLogs(logs, productId, action)|;
      && r.value.meta == PageMeta(page, limit, total, CeilDiv(total, limit))
      && |r.value.data| == (if Skip(page, limit) >= total then 0 else Min(limit, total - Skip(page, limit)))
  {
    if page < 1 then Failure(InvalidQueryArgument("skip"))
    else
      var sorted := NewestFirstLogs(logs, productId, action);
      Success(LogPage(Window(sorted, Skip(page, limit), limit), PageMeta(page, limit, |sorted|, CeilDiv(|sorted|, limit))))
  }

  /** Every entry of a page matches the filters, and a page lists its entries
      newest first. */
  lemma PageEntriesMatch(logs: seq<LogEntry>, productId: Option<string>, action: Option<InventoryAction>, page: int, limit: int)
    requires limit >= 1
    ensures FindAll(logs, productId, action, page, limit).Success? ==>
      var data := FindAll(logs, productId, action, page, limit).value.data;
      && (forall e :: e in data ==> e in logs && LogMatches(e, productId, action))
      && (forall i, j :: 0 <= i < j < |data| ==> data[i].createdAt >= data[j].createdAt)
  {
    if page >= 1 {
      WindowOfNewestFirst(NewestFirstLogs(logs, productId, action), Skip(page, limit), limit);
    }
  }

  /** A window of a newest-first sequence holds entries of it only, still
      newest first. */
  lemma WindowOfNewestFirst(sorted: seq<LogEntry>, skip: nat, limit: nat)
    requires Sorting.SortedBy(sorted, Ledger.NewestFirst)
    ensures var data := Window(sorted, skip, limit);
      && (forall e :: e in data ==> e in sorted)
      && (forall i, j :: 0 <= i < j < |data| ==> data[i].createdAt >= data[j].createdAt)
  {
    var from, to := Min(skip, |sorted|), Min(skip + limit, |sorted|);
    var data := Window(sorted, skip, limit);
    assert data == sorted[from..to];
    forall e | e in data ensures e in sorted {
      var i :| 0 <= i < |data| && data[i] == e;
      assert sorted[from + i] == e;
    }
    forall i, j | 0 <= i < j < |data| ensures data[i].createdAt >= data[j].createdAt {
      assert Ledger.NewestFirst(sorted[from + i]) <= Ledger.NewestFirst(sorted[from + j]);
    }
  }

  lemma MulMonotone(a: int, b: int, c: int)
    requires a <= b && c >= 0
    ensures a * c <= b * c
  {
  }

  lemma WindowAt<T>(s: seq<T>, limit: nat, q: nat, m: nat)
    requires m < limit && q * limit + m < |s|
    ensures m < |Window(s, q * limit, limit)| && Window(s, q * limit, limit)[m] == s[q * limit + m]
  {
  }

  lemma CeilDivBound(total: nat, limit: int, q: nat, m: nat)
    requires limit >= 1 && m < limit && q * limit + m < total
    ensures q + 1 <= CeilDiv(total, limit)
  {
    var c := CeilDiv(total, limit);
    if c < q + 1 {
      MulMonotone(c, q, limit);
    }
  }

  /** Pages tile the ordered matches: entry `m` of page `page` is entry
      `(page - 1) * limit + m` of the newest-first order, whenever that
      position exists, and such a page is one of the `totalPages` reported. */
  lemma PagesTileMatches(logs: seq<LogEntry>, productId: Option<string>, action: Option<InventoryAction>, page: int, limit: int, m: nat)
    requires page >= 1 && limit >= 1 && m < limit
    requires (page - 1) * limit + m < |NewestFirstLogs(logs, productId, action)|
    ensures var p := FindAll(logs, productId, action, page, limit);
      && p.Success?
      && m < |p.value.data| && p.value.data[m] == NewestFirstLogs(logs, productId, action)[(page - 1) * limit + m]
      && page <= p.value.meta.totalPages
  {
    var sorted := NewestFirstLogs(logs, productId, action);
    var p := FindAll(logs, productId, action, page, limit);
    assert p == Success(LogPage(Window(sorted, Skip(page, limit), limit), PageMeta(page, limit, |sorted|, CeilDiv(|sorted|, limit))));
    PageAt(sorted, page, limit, m);
  }

  /** Entry `m` of page `page` of any sequence, and the page count. */
  lemma PageAt<T>(sorted: seq<T>, page: int, limit: int, m: nat)
    requires page >= 1 && limit >= 1 && m < limit
    requires (page - 1) * limit + m < |sorted|
    ensures m < |Window(sorted, Skip(page, limit), limit)|
    ensures Window(sorted, Skip(page, limit), limit)[m] == sorted[(page - 1) * limit + m]
    ensures page <= CeilDiv(|sorted|, limit)
  {
    var q: nat := page - 1;
    assert Skip(page, limit) == q * limit;
    WindowAt(sorted, limit, q, m);
    CeilDivBound(|sorted|, limit, q, m);
  }

  // --------------------------------------------------------- stock levels

  /** A row of `getStockLevels`. */
  datatype StockLevel = StockLevel(
    productId: string,
    name: string,
    barcode: string,
    currentStock: int,
    lowStockThreshold: int,
    isLowStock: bool)

  function LevelOf(p: Product, logs: seq<LogEntry>, threshold: int): StockLevel {
    var stock := GetCurrentStock(logs, p.id);
    StockLevel(p.id, p.name, p.barcode, stock, threshold, stock <= threshold)
  }

  /** `getStockLevels(threshold)`: one row per product that is both tracked
      and active, in table order, with its current stock. */
  function GetStockLevels(products: seq<Product>, logs: seq<LogEntry>, threshold: int): (r: seq<StockLevel>)
    ensures forall k :: 0 <= k < |r| ==>
      && r[k].currentStock == StockOf(logs, r[k].productId)
      && r[k].lowStockThreshold == threshold
      && (r[k].isLowStock <==> r[k].currentStock <= threshold)
    ensures forall k :: 0 <= k < |r| ==> FromTrackedActive(products, r[k])
    ensures ProductIdsUnique(products) ==> forall i, j :: 0 <= i < j < |r| ==> r[i].productId != r[j].productId
    decreases |products|
  {
    if products == [] then []
    else
      var init, last := products[..|products| - 1], products[|products| - 1];
      var earlier := GetStockLevels(init, logs, threshold);
      LevelsFromPrefix(products, earlier);
      if last.trackInventory && last.isActive then
        var x := LevelOf(last, logs, threshold);
        LevelsAppend(products, earlier, x);
        earlier + [x]
      else earlier
  }

  /** Appending the last product's level keeps every level drawn from the
      table and, with unique ids, one level per product. */
  lemma LevelsAppend(products: seq<Product>, earlier: seq<StockLevel>, x: StockLevel)
    requires products != []
    requires var last := products[|products| - 1];
      x.productId == last.id && x.name == last.name && x.barcode == last.barcode && last.trackInventory && last.isActive
    requires forall k :: 0 <= k < |earlier| ==> FromTrackedActive(products, earlier[k])
    requires ProductIdsUnique(products) ==>
      && (forall i, j :: 0 <= i < j < |earlier| ==> earlier[i].productId != earlier[j].productId)
      && (forall k :: 0 <= k < |earlier| ==> earlier[k].productId != products[|products| - 1].id)
    ensures forall k :: 0 <= k < |earlier + [x]| ==> FromTrackedActive(products, (earlier + [x])[k])
    ensures ProductIdsUnique(products) ==>
      forall i, j :: 0 <= i < j < |earlier + [x]| ==> (earlier + [x])[i].productId != (earlier + [x])[j].productId
  {
    var r := earlier + [x];
    assert FromTrackedActive(products, x) by {
      assert products[|products| - 1].id == x.productId;
    }
    forall k | 0 <= k < |r| ensures FromTrackedActive(products, r[k]) {
      if k < |earlier| {
        assert r[k] == earlier[k];
      }
    }
  }

  /** The level names a tracked, active product and carries its name and
      barcode. */
  predicate FromTrackedActive(products: seq<Product>, l: StockLevel) {
    exists i :: 0 <= i < |products| && products[i].id == l.productId && products[i].name == l.name
      && products[i].barcode == l.barcode && products[i].trackInventory && products[i].isActive
  }

  /** Levels drawn from all but the last product still come from the
      table, and, with unique ids, none of them is the last product's. */
  lemma LevelsFromPrefix(products: seq<Product>, earlier: seq<StockLevel>)
    requires products != []
    requires forall k :: 0 <= k < |earlier| ==> FromTrackedActive(products[..|products| - 1], earlier[k])
    requires ProductIdsUnique(products[..|products| - 1]) ==>
      forall i, j :: 0 <= i < j < |earlier| ==> earlier[i].productId != earlier[j].productId
    ensures forall k :: 0 <= k < |earlier| ==> FromTrackedActive(products, earlier[k])
    ensures ProductIdsUnique(products) ==>
      && (forall i, j :: 0 <= i < j < |earlier| ==> earlier[i].productId != earlier[j].productId)
      && (forall k :: 0 <= k < |earlier| ==> earlier[k].productId != products[|products| - 1].id)
  {
    var init := products[..|products| - 1];
    forall k | 0 <= k < |earlier|
      ensures FromTrackedActive(products, earlier[k])
      ensures ProductIdsUnique(products) ==> earlier[k].productId != products[|products| - 1].id
    {
      assert FromTrackedActive(init, earlier[k]);
      var i :| 0 <= i < |init| && init[i].id == earlier[k].productId && init[i].name == earlier[k].name
        && init[i].barcode == earlier[k].barcode && init[i].trackInventory && init[i].isActive;
      assert products[i] == init[i];
    }
    if ProductIdsUnique(products) {
      assert ProductIdsUnique(init) by {
        forall i, j | 0 <= i < j < |init| ensures init[i].id != init[j].id {
          assert init[i] == products[i] && init[j] == products[j];
        }
      }
    }
  }

  predicate HasLevelFor(levels: seq<StockLevel>, id: string) {
    exists k :: 0 <= k < |levels| && levels[k].productId == id
  }

  predicate IsTrackedActive(products: seq<Product>, id: string) {
    exists k :: 0 <= k < |products| && products[k].id == id && products[k].trackInventory && products[k].isActive
  }

  /** The stock levels list exactly the products that are tracked and
      active: untracked or inactive products are left out entirely. */
  lemma {:induction false} StockLevelsCoverTrackedActive(products: seq<Product>, logs: seq<LogEntry>, threshold: int, id: string)
    ensures HasLevelFor(GetStockLevels(products, logs, threshold), id) <==> IsTrackedActive(products, id)
    decreases |products|
  {
    if products != [] {
      var init, last := products[..|products| - 1], products[|products| - 1];
      StockLevelsCoverTrackedActive(init, logs, threshold, id);
      TrackedActiveSnoc(products, id);
      var earlier := GetStockLevels(init, logs, threshold);
      if last.trackInventory && last.isActive {
        HasLevelSnoc(earlier, LevelOf(last, logs, threshold), id);
      }
    }
  }

  lemma HasLevelSnoc(levels: seq<StockLevel>, x: StockLevel, id: string)
    ensures HasLevelFor(levels + [x], id) <==> HasLevelFor(levels, id) || x.productId == id
  {
    var r := levels + [x];
    if HasLevelFor(levels, id) {
      var j :| 0 <= j < |levels| && levels[j].productId == id;
      assert r[j] == levels[j];
    }
    if x.productId == id {
      assert r[|levels|] == x;
    }
  }

  lemma TrackedActiveSnoc(products: seq<Product>, id: string)
    requires products != []
    ensures var last := products[|products| - 1];
      IsTrackedActive(products, id) <==>
        IsTrackedActive(products[..|products| - 1], id) || (last.id == id && last.trackInventory && last.isActive)
  {
    var init := products[..|products| - 1];
    if IsTrackedActive(init, id) {
      var k :| 0 <= k < |init| && init[k].id == id && init[k].trackInventory && init[k].isActive;
      assert products[k] == init[k];
    }
    if IsTrackedActive(products, id) {
      var k :| 0 <= k < |products| && products[k].id == id && products[k].trackInventory && products[k].isActive;
      if k < |init| {
        assert init[k] == products[k];
      }
    }
  }


  function OnlyLow(levels: seq<StockLevel>): (r: seq<StockLevel>)
    ensures Sorting.IsSubsequence(r, levels)
    ensures forall x :: x in r <==> x in levels && x.isLowStock
    decreases |levels|
  {
    if levels == [] then []
    else
      var init, last := levels[..|levels| - 1], levels[|levels| - 1];
      var earlier := OnlyLow(init);
      assert levels == init + [last];
      if last.isLowStock then
        var r := earlier + [last];
        assert r[..|r| - 1] == earlier;
        r
      else
        earlier
  }

  /** `getLowStockProducts(threshold)`: the stock levels with `isLowStock`,
      in the same order. */
  function GetLowStockProducts(products: seq<Product>, logs: seq<LogEntry>, threshold: int): (r: seq<StockLevel>)
    ensures Sorting.IsSubsequence(r, GetStockLevels(products, logs, threshold))
    ensures forall x :: x in r <==> x in GetStockLevels(products, logs, threshold) && x.currentStock <= threshold
  {
    OnlyLow(GetStockLevels(products, logs, threshold))
  }
}
