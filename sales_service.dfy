/** The sale engine (apps/api/src/sales/sales.service.ts): `create`
    validates every cart line before anything is written, stores the sale,
    then posts one ledger entry per tracked line; `refund` guards on the
    sale's status, marks it refunded, then posts the returns. */
module SalesService {
  import opened Wrappers
  import opened Catalog
  import opened Ledger
  import opened Store
  import opened SaleRecords
  import opened SaleDto
  import opened Receipt
  import opened InventoryLogDto
  import opened InventoryService
  import Sorting

  /** The row `productsService.findOne` yields for a known id. */
  function ProductOf(products: seq<Product>, id: string): Product
    requires IsProduct(products, id)
  {
    products[IndexOf(products, id).value]
  }

  /** The product exists and has `trackInventory` set. */
  predicate Tracked(products: seq<Product>, id: string) {
    IsProduct(products, id) && ProductOf(products, id).trackInventory
  }

  // ------------------------------------------------------------ validation

  /** The checks one cart line gets before the sale is written: `findOne`
      (NotFound), the active flag, and for a tracked product the current
      stock against the requested quantity. `None` means the line passes. */
  function CheckLine(products: seq<Product>, logs: seq<LogEntry>, line: SaleLine): (r: Option<Error>)
    ensures r.None? <==>
      && IsProduct(products, line.productId)
      && ProductOf(products, line.productId).isActive
      && (Tracked(products, line.productId) ==> StockOf(logs, line.productId) >= line.quantity)
    ensures !IsProduct(products, line.productId) ==> r == Some(NotFound(line.productId))
    ensures IsProduct(products, line.productId) && !ProductOf(products, line.productId).isActive ==>
      r == Some(BadRequest(ProductInactive(ProductOf(products, line.productId).name)))
    ensures IsProduct(products, line.productId) && ProductOf(products, line.productId).isActive && r.Some? ==>
      var p := ProductOf(products, line.productId);
      r == Some(BadRequest(InsufficientStock(p.name, StockOf(logs, line.productId), line.quantity)))
  {
    match FindOne(products, line.productId)
    case Failure(e) => Some(e)
    case Success(p) =>
      if !p.isActive then Some(BadRequest(ProductInactive(p.name)))
      else if p.trackInventory then
        var stock := GetCurrentStock(logs, line.productId);
        if stock < line.quantity then Some(BadRequest(InsufficientStock(p.name, stock, line.quantity)))
        else None
      else None
  }

  /** The position of the first line, in input order, that fails its check. */
  function FirstFailing(products: seq<Product>, logs: seq<LogEntry>, lines: seq<SaleLine>): (r: Option<nat>)
    ensures r.None? <==> forall k :: 0 <= k < |lines| ==> CheckLine(products, logs, lines[k]).None?
    ensures r.Some? ==>
      && r.value < |lines|
      && CheckLine(products, logs, lines[r.value]).Some?
      && forall k :: 0 <= k < r.value ==> CheckLine(products, logs, lines[k]).None?
    decreases |lines|
  {
    if lines == [] then None
    else
      var init := lines[..|lines| - 1];
      var r0 := FirstFailing(products, logs, init);
      assert forall k :: 0 <= k < |init| ==> init[k] == lines[k];
      if r0.Some? then r0
      else if CheckLine(products, logs, lines[|lines| - 1]).Some? then Some(|lines| - 1)
      else None
  }

  /** A line for an untracked product never consults the ledger: its
      outcome is the same whatever the ledger holds. */
  lemma UntrackedIgnoresLedger(products: seq<Product>, logs1: seq<LogEntry>, logs2: seq<LogEntry>, line: SaleLine)
    requires !Tracked(products, line.productId)
    ensures CheckLine(products, logs1, line) == CheckLine(products, logs2, line)
  {
  }

  /** Every line is checked against the same pre-sale stock: two lines for
      one tracked product holding 5 units, asking for 3 each, both pass,
      though together they ask for 6. */
  lemma DuplicateLinesNotAggregated()
    ensures var p := Product("p1", "4800000000017", "Soap", None, 2500, None, None, None, true, true, None, 0);
      var logs := [LogEntry("p1", 5, StockIn, None, None, 0)];
      var line := SaleLine("p1", 3, 2500, 0, 7500);
      && StockOf(logs, "p1") == 5
      && FirstFailing([p], logs, [line, line]).None?
  {
    var p := Product("p1", "4800000000017", "Soap", None, 2500, None, None, None, true, true, None, 0);
    var logs := [LogEntry("p1", 5, StockIn, None, None, 0)];
    var line := SaleLine("p1", 3, 2500, 0, 7500);
    assert logs[..0] == [];
    assert StockOf(logs, "p1") == 5;
    assert CheckLine([p], logs, line).None?;
  }

  // -------------------------------------------------------- ledger postings

  /** The two kinds of ledger posting the sale engine writes. */
  datatype Posting = SalePosting | RefundPosting

  /** The entry posted for one tracked line, as written: a sale posts
      `quantity: -item.quantity` with action SALE, a refund posts
      `quantity: item.quantity` with action RETURN; both reference the
      receipt number. */
  function PostingEntry(line: SaleLine, kind: Posting, receipt: string, now: int): (e: LogEntry)
    ensures e.productId == line.productId && e.reference == Some(receipt) && e.createdAt == now
    ensures kind == SalePosting ==> e.action == InventoryAction.Sale && e.quantity == -line.quantity
    ensures kind == RefundPosting ==> e.action == Return && e.quantity == line.quantity
    ensures SignedDelta(e) == line.quantity
  {
    match kind
    case SalePosting => LogEntry(line.productId, -line.quantity, InventoryAction.Sale, Some("Sale: " + receipt), Some(receipt), now)
    case RefundPosting => LogEntry(line.productId, line.quantity, Return, Some("Refund: " + receipt), Some(receipt), now)
  }

  /** The lines whose product is tracked, in line order. */
  function TrackedLines(products: seq<Product>, lines: seq<SaleLine>): (r: seq<SaleLine>)
    ensures Sorting.IsSubsequence(r, lines)
    ensures forall l :: l in r <==> l in lines && Tracked(products, l.productId)
    decreases |lines|
  {
    if lines == [] then []
    else
      var init, last := lines[..|lines| - 1], lines[|lines| - 1];
      var earlier := TrackedLines(products, init);
      assert lines == init + [last];
      if Tracked(products, last.productId) then
        var r := earlier + [last];
        assert r[..|r| - 1] == earlier;
        r
      else earlier
  }

  /** Every copy of a tracked line posts, and no copy of an untracked one:
      repeated identical lines are not merged. */
  lemma {:induction false} TrackedLinesCounts(products: seq<Product>, lines: seq<SaleLine>)
    ensures forall l ::
      multiset(TrackedLines(products, lines))[l] == if Tracked(products, l.productId) then multiset(lines)[l] else 0
    decreases |lines|
  {
    if lines != [] {
      var init, last := lines[..|lines| - 1], lines[|lines| - 1];
      TrackedLinesCounts(products, init);
      assert lines == init + [last];
    }
  }

  /** The entries the post-commit loop appends: one per tracked line, in
      line order; untracked lines append nothing. */
  function Postings(products: seq<Product>, lines: seq<SaleLine>, kind: Posting, receipt: string, now: int): (r: seq<LogEntry>)
    ensures |r| == |TrackedLines(products, lines)|
    ensures forall k :: 0 <= k < |r| ==> r[k] == PostingEntry(TrackedLines(products, lines)[k], kind, receipt, now)
    decreases |lines|
  {
    if lines == [] then []
    else
      var init, last := lines[..|lines| - 1], lines[|lines| - 1];
      Postings(products, init, kind, receipt, now)
        + (if Tracked(products, last.productId) then [PostingEntry(last, kind, receipt, now)] else [])
  }

  /** The postings for one more line are those for the lines before it,
      then its own entry when its product is tracked. */
  lemma PostingsStep(products: seq<Product>, lines: seq<SaleLine>, k: nat, kind: Posting, receipt: string, now: int)
    requires k < |lines|
    ensures Postings(products, lines[..k + 1], kind, receipt, now)
      == Postings(products, lines[..k], kind, receipt, now)
         + (if Tracked(products, lines[k].productId) then [PostingEntry(lines[k], kind, receipt, now)] else [])
  {
    assert lines[..k + 1][..k] == lines[..k];
  }

  /** The postings of a non-empty list of lines are those of all but the
      last line, then the last line's own entry when it is tracked. */
  lemma PostingsSnoc(products: seq<Product>, lines: seq<SaleLine>, kind: Posting, receipt: string, now: int)
    requires lines != []
    ensures var last := lines[|lines| - 1];
      Postings(products, lines, kind, receipt, now)
        == Postings(products, lines[..|lines| - 1], kind, receipt, now)
           + (if Tracked(products, last.productId) then [PostingEntry(last, kind, receipt, now)] else [])
  {
  }

  /** `PostingsStep` behind an earlier log. */
  lemma PostingsStepAfter(logs0: seq<LogEntry>, products: seq<Product>, lines: seq<SaleLine>, k: nat, kind: Posting, receipt: string, now: int)
    requires k < |lines|
    ensures logs0 + Postings(products, lines[..k + 1], kind, receipt, now)
      == (logs0 + Postings(products, lines[..k], kind, receipt, now))
         + (if Tracked(products, lines[k].productId) then [PostingEntry(lines[k], kind, receipt, now)] else [])
  {
    PostingsStep(products, lines, k, kind, receipt, now);
  }

  /** The composed effect of the postings on a product's stock, as written:
      a SALE entry carries `-q` and the reducer subtracts SALE quantities,
      so a sale RAISES the stock of each tracked product by the units sold;
      a refund raises it by the same amount again. */
  lemma {:induction false} StockAfterPostings(products: seq<Product>, logs: seq<LogEntry>, lines: seq<SaleLine>, kind: Posting, receipt: string, now: int, productId: string)
    ensures StockOf(logs + Postings(products, lines, kind, receipt, now), productId)
      == StockOf(logs, productId) + (if Tracked(products, productId) then QuantityOf(lines, productId) else 0)
    decreases |lines|
  {
    if lines == [] {
      assert logs + Postings(products, lines, kind, receipt, now) == logs;
    } else {
      var init, last := lines[..|lines| - 1], lines[|lines| - 1];
      var earlier := Postings(products, init, kind, receipt, now);
      var step := if Tracked(products, last.productId) then [PostingEntry(last, kind, receipt, now)] else [];
      PostingsSnoc(products, lines, kind, receipt, now);
      assert logs + (earlier + step) == (logs + earlier) + step;
      StockAfterPostings(products, logs, init, kind, receipt, now, productId);
      StockOfConcat(logs + earlier, step, productId);
      StockOfOnePosting(products, last, kind, receipt, now, productId);
    }
  }

  /** The stock effect of the (at most one) entry posted for one line. */
  lemma StockOfOnePosting(products: seq<Product>, line: SaleLine, kind: Posting, receipt: string, now: int, productId: string)
    ensures StockOf(if Tracked(products, line.productId) then [PostingEntry(line, kind, receipt, now)] else [], productId)
      == (if Tracked(products, productId) && line.productId == productId then line.quantity else 0)
  {
    if Tracked(products, line.productId) {
      var step := [PostingEntry(line, kind, receipt, now)];
      assert step[..0] == [];
    }
  }

  /** A sale followed by its refund leaves each tracked product with twice
      the units sold more than it had before the sale. */
  lemma SaleThenRefund(products: seq<Product>, logs: seq<LogEntry>, lines: seq<SaleLine>, receipt: string, t1: int, t2: int, productId: string)
    ensures var after := logs + Postings(products, lines, SalePosting, receipt, t1) + Postings(products, lines, RefundPosting, receipt, t2);
      StockOf(after, productId) == StockOf(logs, productId) + (if Tracked(products, productId) then 2 * QuantityOf(lines, productId) else 0)
  {
    var sold := logs + Postings(products, lines, SalePosting, receipt, t1);
    StockAfterPostings(products, logs, lines, SalePosting, receipt, t1, productId);
    StockAfterPostings(products, sold, lines, RefundPosting, receipt, t2, productId);
  }

  /** The SALE entry the design intends: the units sold as a positive
      quantity, which the reducer subtracts. */
  function IntendedSaleEntry(line: SaleLine, receipt: string, now: int): (e: LogEntry)
    ensures e.action == InventoryAction.Sale && SignedDelta(e) == -line.quantity
  {
    LogEntry(line.productId, line.quantity, InventoryAction.Sale, Some("Sale: " + receipt), Some(receipt), now)
  }

  /** The corrected postings of a sale: one intended entry per tracked line,
      in line order. */
  function IntendedSaleEntries(products: seq<Product>, lines: seq<SaleLine>, receipt: string, now: int): (r: seq<LogEntry>)
    ensures |r| == |TrackedLines(products, lines)|
    ensures forall k :: 0 <= k < |r| ==> r[k] == IntendedSaleEntry(TrackedLines(products, lines)[k], receipt, now)
    decreases |lines|
  {
    if lines == [] then []
    else
      var init, last := lines[..|lines| - 1], lines[|lines| - 1];
      IntendedSaleEntries(products, init, receipt, now)
        + (if Tracked(products, last.productId) then [IntendedSaleEntry(last, receipt, now)] else [])
  }

  /** With the intended entries a sale lowers each tracked product's stock
      by the units sold. */
  lemma {:induction false} StockAfterIntendedSale(products: seq<Product>, logs: seq<LogEntry>, lines: seq<SaleLine>, receipt: string, now: int, productId: string)
    ensures StockOf(logs + IntendedSaleEntries(products, lines, receipt, now), productId)
      == StockOf(logs, productId) - (if Tracked(products, productId) then QuantityOf(lines, productId) else 0)
    decreases |lines|
  {
    if lines == [] {
      assert logs + IntendedSaleEntries(products, lines, receipt, now) == logs;
    } else {
      var init, last := lines[..|lines| - 1], lines[|lines| - 1];
      var earlier := IntendedSaleEntries(products, init, receipt, now);
      var step := if Tracked(products, last.productId) then [IntendedSaleEntry(last, receipt, now)] else [];
      assert logs + IntendedSaleEntries(products, lines, receipt, now) == (logs + earlier) + step;
      StockAfterIntendedSale(products, logs, init, receipt, now, productId);
      StockOfConcat(logs + earlier, step, productId);
      if step != [] {
        assert step[..0] == [];
      }
    }
  }

  /** ... and a refund then restores it exactly. */
  lemma IntendedSaleThenRefundNetZero(products: seq<Product>, logs: seq<LogEntry>, lines: seq<SaleLine>, receipt: string, t1: int, t2: int, productId: string)
    ensures StockOf(logs + IntendedSaleEntries(products, lines, receipt, t1) + Postings(products, lines, RefundPosting, receipt, t2), productId)
      == StockOf(logs, productId)
  {
    var sold := logs + IntendedSaleEntries(products, lines, receipt, t1);
    StockAfterIntendedSale(products, logs, lines, receipt, t1, productId);
    StockAfterPostings(products, sold, lines, RefundPosting, receipt, t2, productId);
  }

  /** A concrete case: after STOCK_IN 100 and a sale of 30, the ledger as
      written reports 130 units; the intended entries report 70. */
  lemma SaleOfThirtyFromHundred()
    ensures var p := Product("p1", "4800000000017", "Soap", None, 2500, None, None, None, true, true, None, 0);
      var logs := [LogEntry("p1", 100, StockIn, None, None, 0)];
      var lines := [SaleLine("p1", 30, 2500, 0, 75000)];
      && StockOf(logs + Postings([p], lines, SalePosting, "RCP-20240101-ABC123", 1), "p1") == 130
      && StockOf(logs + IntendedSaleEntries([p], lines, "RCP-20240101-ABC123", 1), "p1") == 70
  {
    var p := Product("p1", "4800000000017", "Soap", None, 2500, None, None, None, true, true, None, 0);
    var logs := [LogEntry("p1", 100, StockIn, None, None, 0)];
    var lines := [SaleLine("p1", 30, 2500, 0, 75000)];
    assert logs[..0] == [] && lines[..0] == [];
    assert Tracked([p], "p1");
    assert StockOf(logs, "p1") == 100;
    assert QuantityOf(lines, "p1") == 30;
    StockAfterPostings([p], logs, lines, SalePosting, "RCP-20240101-ABC123", 1, "p1");
    StockAfterIntendedSale([p], logs, lines, "RCP-20240101-ABC123", 1, "p1");
  }

  // ----------------------------------------------------------------- create

  /** The row `prisma.sale.create` writes: the header and the lines copied
      from the DTO, status COMPLETED. */
  function NewSale(id: string, receipt: string, cashierId: string, dto: CreateSaleDto, now: int): (r: SaleRecords.Sale)
    ensures RequestOf(r) == dto
    ensures r.id == id && r.receiptNumber == receipt && r.cashierId == cashierId
    ensures r.status == Completed && r.createdAt == now
  {
    SaleRecords.Sale(id, receipt, cashierId, dto.items, dto.subtotal, dto.discount, dto.tax, dto.total,
      dto.paymentMethod, dto.amountPaid, dto.change, Completed, dto.notes, now)
  }

  /** The request a stored sale carries: its lines and amounts as sent. */
  function RequestOf(s: SaleRecords.Sale): CreateSaleDto {
    CreateSaleDto(s.items, s.subtotal, s.discount, s.tax, s.total, s.paymentMethod, s.amountPaid, s.change, s.notes)
  }

  predicate ReceiptTaken(sales: seq<SaleRecords.Sale>, receipt: string) {
    exists k :: 0 <= k < |sales| && sales[k].receiptNumber == receipt
  }

  /** The validation loop of `create`: every line is checked, in input
      order, before anything is written; the first failing line's error is
      the outcome. It reads the store and changes nothing. */
  method ValidateLines(db: Database, lines: seq<SaleLine>) returns (failure: Option<Error>)
    ensures failure == match FirstFailing(db.products, db.inventoryLogs, lines)
      case None => None
      case Some(k) => CheckLine(db.products, db.inventoryLogs, lines[k])
  {
    var k := 0;
    while k < |lines|
      invariant 0 <= k <= |lines|
      invariant forall j :: 0 <= j < k ==> CheckLine(db.products, db.inventoryLogs, lines[j]).None?
    {
      failure := ValidateLine(db, lines[k]);
      if failure.Some? {
        FirstFailingIs(db.products, db.inventoryLogs, lines, k);
        return;
      }
      k := k + 1;
    }
    return None;
  }

  /** One turn of the validation loop: the product must exist and be
      active, and a tracked product must have enough stock. */
  method ValidateLine(db: Database, item: SaleLine) returns (failure: Option<Error>)
    ensures failure == CheckLine(db.products, db.inventoryLogs, item)
  {
    var found := FindOne(db.products, item.productId);
    if found.Failure? {
      return Some(found.error);
    }
    var product := found.value;
    assert product == ProductOf(db.products, item.productId);
    if !product.isActive {
      return Some(BadRequest(ProductInactive(product.name)));
    }
    if product.trackInventory {
      var stock := GetCurrentStock(db.inventoryLogs, item.productId);
      if stock < item.quantity {
        return Some(BadRequest(InsufficientStock(product.name, stock, item.quantity)));
      }
    }
    return None;
  }

  /** A failing line with only passing lines before it is the first failing one. */
  lemma FirstFailingIs(products: seq<Product>, logs: seq<LogEntry>, lines: seq<SaleLine>, k: nat)
    requires k < |lines| && CheckLine(products, logs, lines[k]).Some?
    requires forall j :: 0 <= j < k ==> CheckLine(products, logs, lines[j]).None?
    ensures FirstFailing(products, logs, lines) == Some(k)
  {
    assert FirstFailing(products, logs, lines).Some?;
  }

  /** One turn of the post-commit loop: looks the line's product up again
      and, when it is tracked, appends the line's entry with `createLog`. */
  method PostLine(db: Database, line: SaleLine, kind: Posting, receipt: string, now: int)
    requires db.Valid() && IsProduct(db.products, line.productId)
    modifies db
    ensures db.Valid() && db.products == old(db.products) && db.sales == old(db.sales)
    ensures db.inventoryLogs == old(db.inventoryLogs)
      + (if Tracked(db.products, line.productId) then [PostingEntry(line, kind, receipt, now)] else [])
  {
    var product := FindOne(db.products, line.productId).value;
    assert product.trackInventory == Tracked(db.products, line.productId);
    if product.trackInventory {
      var entry := PostingEntry(line, kind, receipt, now);
      var dto := CreateInventoryLogDto(entry.productId, entry.quantity, entry.action, entry.notes, entry.reference);
      assert EntryOf(dto, now) == entry;
      var logged := CreateLog(db, dto, now);
    }
  }

  /** One turn of the post-commit loop, stated against the postings of the
      lines before `k`. */
  method PostNext(db: Database, ghost logs0: seq<LogEntry>, ghost products: seq<Product>, lines: seq<SaleLine>, k: nat, kind: Posting, receipt: string, now: int)
    requires k < |lines| && ItemsReferenceProducts(products, lines)
    requires db.Valid() && db.products == products
    requires db.inventoryLogs == logs0 + Postings(products, lines[..k], kind, receipt, now)
    modifies db
    ensures db.Valid() && db.products == products && db.sales == old(db.sales)
    ensures db.inventoryLogs == logs0 + Postings(products, lines[..k + 1], kind, receipt, now)
  {
    PostingsStepAfter(logs0, products, lines, k, kind, receipt, now);
    PostLine(db, lines[k], kind, receipt, now);
  }

  /** The post-commit loop of `create` and `refund`: one posting per line
      whose product is tracked, in line order. */
  method PostLines(db: Database, lines: seq<SaleLine>, kind: Posting, receipt: string, now: int)
    requires db.Valid() && ItemsReferenceProducts(db.products, lines)
    modifies db
    ensures db.Valid() && db.products == old(db.products) && db.sales == old(db.sales)
    ensures db.inventoryLogs == old(db.inventoryLogs) + Postings(db.products, lines, kind, receipt, now)
  {
    ghost var logs0, products := db.inventoryLogs, db.products;
    var k := 0;
    while k < |lines|
      invariant 0 <= k <= |lines|
      invariant db.Valid() && db.products == products && db.sales == old(db.sales)
      invariant db.inventoryLogs == logs0 + Postings(products, lines[..k], kind, receipt, now)
    {
      PostNext(db, logs0, products, lines, k, kind, receipt, now);
      k := k + 1;
    }
    assert lines[..k] == lines;
  }

  /** `create(dto, cashierId)`. The clock (`now`, and its UTC date `utc`),
      the random base-36 string behind the receipt suffix and the id the
      database assigns are parameters. */
  method Create(db: Database, dto: CreateSaleDto, cashierId: string, saleId: string, now: int, utc: UtcDate, base36: string)
    returns (r: Result<SaleRecords.Sale, Error>)
    requires db.Valid() && ValidDate(utc)
    modifies db
    ensures db.Valid() && db.products == old(db.products)
    ensures var receipt := GenerateReceiptNumber(utc, base36);
      match FirstFailing(old(db.products), old(db.inventoryLogs), dto.items)
      case Some(k) =>
        (&& r == Failure(CheckLine(old(db.products), old(db.inventoryLogs), dto.items[k]).value)
         && db.sales == old(db.sales) && db.inventoryLogs == old(db.inventoryLogs))
      case None =>
        if SaleIndex(old(db.sales), saleId).Some? then
          r == Failure(UniqueViolation("id")) && db.sales == old(db.sales) && db.inventoryLogs == old(db.inventoryLogs)
        else if ReceiptTaken(old(db.sales), receipt) then
          r == Failure(UniqueViolation("receiptNumber")) && db.sales == old(db.sales) && db.inventoryLogs == old(db.inventoryLogs)
        else
          (&& r == Success(NewSale(saleId, receipt, cashierId, dto, now))
           && db.sales == old(db.sales) + [r.value]
           && db.inventoryLogs == old(db.inventoryLogs) + Postings(old(db.products), dto.items, SalePosting, receipt, now))
  {
    var receipt := GenerateReceiptNumber(utc, base36);
    var failure := ValidateLines(db, dto.items);
    if failure.Some? {
      return Failure(failure.value);
    }
    // The insert, refused by the primary key or the unique receipt number.
    if SaleIndex(db.sales, saleId).Some? {
      return Failure(UniqueViolation("id"));
    }
    if exists j :: 0 <= j < |db.sales| && db.sales[j].receiptNumber == receipt {
      return Failure(UniqueViolation("receiptNumber"));
    }
    var sale := NewSale(saleId, receipt, cashierId, dto, now);
    assert ItemsReferenceProducts(db.products, dto.items) by {
      forall j | 0 <= j < |dto.items| ensures IsProduct(db.products, dto.items[j].productId) {
        assert CheckLine(db.products, db.inventoryLogs, dto.items[j]).None?;
      }
    }
    SaleConstraintsAfterAppend(db.products, db.sales, sale);
    db.sales := db.sales + [sale];
    PostLines(db, dto.items, SalePosting, receipt, now);
    r := Success(sale);
  }

  // ----------------------------------------------------------------- refund

  /** `reason || 'Refunded'`: an absent or empty reason gives the default. */
  function RefundNote(reason: Option<string>): (note: string)
    ensures note != ""
    ensures reason.Some? && reason.value != "" ==> note == reason.value
    ensures reason.None? || reason.value == "" ==> note == "Refunded"
  {
    if reason.None? || reason.value == "" then "Refunded" else reason.value
  }

  /** The sale row after the refund update: status REFUNDED and the note,
      every other field kept. */
  function RefundedSale(sale: SaleRecords.Sale, reason: Option<string>): (s: SaleRecords.Sale)
    ensures s.status == Refunded && s.notes == Some(RefundNote(reason))
    ensures s.(status := sale.status, notes := sale.notes) == sale
  {
    sale.(status := Refunded, notes := Some(RefundNote(reason)))
  }

  /** `refund(id, reason)`. */
  method Refund(db: Database, id: string, reason: Option<string>, now: int) returns (r: Result<SaleRecords.Sale, Error>)
    requires db.Valid()
    modifies db
    ensures db.Valid() && db.products == old(db.products)
    ensures match FindSale(old(db.sales), id)
      case None =>
        r == Failure(NullReference) && db.sales == old(db.sales) && db.inventoryLogs == old(db.inventoryLogs)
      case Some(sale) =>
        if sale.status == Refunded then
          r == Failure(BadRequest(AlreadyRefunded)) && db.sales == old(db.sales) && db.inventoryLogs == old(db.inventoryLogs)
        else if sale.status == Cancelled then
          r == Failure(BadRequest(RefundOfCancelled)) && db.sales == old(db.sales) && db.inventoryLogs == old(db.inventoryLogs)
        else
          (&& r == Success(RefundedSale(sale, reason))
           && db.sales == old(db.sales)[SaleIndex(old(db.sales), id).value := r.value]
           && db.inventoryLogs == old(db.inventoryLogs) + Postings(old(db.products), sale.items, RefundPosting, sale.receiptNumber, now))
  {
    var found := FindSale(db.sales, id);
    if found.None? {
      // `sale.status` on the `null` that findOne returned.
      return Failure(NullReference);
    }
    var sale := found.value;
    if sale.status == Refunded {
      return Failure(BadRequest(AlreadyRefunded));
    }
    if sale.status == Cancelled {
      return Failure(BadRequest(RefundOfCancelled));
    }
    var i := SaleIndex(db.sales, id).value;
    assert sale == db.sales[i];
    var refunded := RefundedSale(sale, reason);
    SaleConstraintsAfterRowUpdate(db.products, db.sales, i, refunded);
    db.sales := db.sales[i := refunded];

    PostLines(db, sale.items, RefundPosting, sale.receiptNumber, now);
    r := Success(refunded);
  }

  /** Refunding the same sale twice: the second call is refused with
      "already refunded" and writes nothing, so the returns are posted once. */
  method RefundTwice(db: Database, id: string, reason: Option<string>, t1: int, t2: int) returns (first: Result<SaleRecords.Sale, Error>, second: Result<SaleRecords.Sale, Error>)
    requires db.Valid()
    modifies db
    ensures first.Success? ==> second == Failure(BadRequest(AlreadyRefunded))
    ensures first.Success? ==>
      db.inventoryLogs == old(db.inventoryLogs) + Postings(old(db.products), first.value.items, RefundPosting, first.value.receiptNumber, t1)
  {
    ghost var i := SaleIndex(db.sales, id);
    first := Refund(db, id, reason, t1);
    if first.Success? {
      FindSaleOfUnique(db.sales, i.value);
    }
    second := Refund(db, id, reason, t2);
  }
}
