/** The stock ledger: inventory log entries and the stock derived from them
    (apps/api/src/inventory/inventory.service.ts). Stock is never stored; it
    is a signed fold over the append-only sequence of entries. */
module Ledger {
  import opened Wrappers
  import Sorting

  /** The seven kinds of inventory movement (packages/shared types). */
  datatype InventoryAction =
    StockIn | StockOut | Adjustment | Sale | Return | TransferIn | TransferOut

  /** One row of the inventoryLog table; `createdAt` is a timestamp in ms. */
  datatype LogEntry = LogEntry(
    productId: string,
    quantity: int,
    action: InventoryAction,
    notes: Option<string>,
    reference: Option<string>,
    createdAt: int)

  /** The enum's wire value. */
  function ActionName(a: InventoryAction): string {
    match a
    case StockIn => "STOCK_IN"
    case StockOut => "STOCK_OUT"
    case Adjustment => "ADJUSTMENT"
    case Sale => "SALE"
    case Return => "RETURN"
    case TransferIn => "TRANSFER_IN"
    case TransferOut => "TRANSFER_OUT"
  }

  /** Reads a wire value back; anything else is not an InventoryAction. */
  function ParseAction(s: string): (r: Option<InventoryAction>)
    ensures r.Some? ==> ActionName(r.value) == s
  {
    if s == "STOCK_IN" then Some(StockIn)
    else if s == "STOCK_OUT" then Some(StockOut)
    else if s == "ADJUSTMENT" then Some(Adjustment)
    else if s == "SALE" then Some(Sale)
    else if s == "RETURN" then Some(Return)
    else if s == "TRANSFER_IN" then Some(TransferIn)
    else if s == "TRANSFER_OUT" then Some(TransferOut)
    else None
  }

  lemma ParseActionName(a: InventoryAction)
    ensures ParseAction(ActionName(a)) == Some(a)
  {
    match a
    case StockIn =>
    case StockOut => assert "STOCK_OUT" != "STOCK_IN";
    case Adjustment => assert "ADJUSTMENT" != "STOCK_IN" && "ADJUSTMENT" != "STOCK_OUT";
    case Sale =>
      assert "SALE"[1] != "STOCK_IN"[1] && "SALE"[1] != "ADJUSTMENT"[1];
    case Return =>
      assert "RETURN"[0] != "STOCK_IN"[0] && "RETURN"[0] != "ADJUSTMENT"[0] && "RETURN"[0] != "SALE"[0];
    case TransferIn =>
      assert "TRANSFER_IN"[0] != "STOCK_IN"[0] && "TRANSFER_IN"[0] != "ADJUSTMENT"[0];
      assert "TRANSFER_IN"[0] != "SALE"[0] && "TRANSFER_IN"[0] != "RETURN"[0];
    case TransferOut =>
      assert "TRANSFER_OUT"[0] != "STOCK_IN"[0] && "TRANSFER_OUT"[0] != "ADJUSTMENT"[0];
      assert "TRANSFER_OUT"[0] != "SALE"[0] && "TRANSFER_OUT"[0] != "RETURN"[0];
      assert "TRANSFER_OUT"[9] != "TRANSFER_IN"[9];
  }

  /** The sign rule, one case per action kind: the change an entry makes to
      its product's stock. */
  function SignedDelta(e: LogEntry): (r: int)
    ensures r == e.quantity || r == -e.quantity
  {
    match e.action
    case StockIn | Return | TransferIn => e.quantity
    case StockOut | Sale | TransferOut => -e.quantity
    case Adjustment => e.quantity
  }

  /** The reducer of `getCurrentStock` as written: string comparisons on the
      action name, with a fall-through that leaves the stock alone. For
      every one of the seven kinds one of its branches fires, and it is the
      one the sign rule names. */
  function ReduceStep(stock: int, log: LogEntry): (r: int)
    ensures r == stock + SignedDelta(log)
  {
    ParseActionName(log.action);
    var a := ActionName(log.action);
    if a == "STOCK_IN" || a == "RETURN" || a == "TRANSFER_IN" then stock + log.quantity
    else if a == "STOCK_OUT" || a == "SALE" || a == "TRANSFER_OUT" then stock - log.quantity
    else if a == "ADJUSTMENT" then stock + log.quantity
    else stock
  }

  /** `logs.reduce(step, acc)`: a left fold. */
  function Reduce(logs: seq<LogEntry>, acc: int): int
    decreases |logs|
  {
    if logs == [] then acc else Reduce(logs[1..], ReduceStep(acc, logs[0]))
  }

  /** Sum of the signed deltas of `logs`. */
  function DeltaSum(logs: seq<LogEntry>): int
    decreases |logs|
  {
    if logs == [] then 0 else SignedDelta(logs[0]) + DeltaSum(logs[1..])
  }

  /** The entries of one product, in ledger order (the `where: { productId }`). */
  function ForProduct(logs: seq<LogEntry>, productId: string): (r: seq<LogEntry>)
    ensures forall k :: 0 <= k < |r| ==> r[k].productId == productId
    ensures forall e :: e in r <==> e in logs && e.productId == productId
    decreases |logs|
  {
    if logs == [] then []
    else if logs[|logs| - 1].productId == productId then
      ForProduct(logs[..|logs| - 1], productId) + [logs[|logs| - 1]]
    else ForProduct(logs[..|logs| - 1], productId)
  }

  /** The selection keeps the product's entries in ledger order. */
  lemma {:induction false} ForProductInOrder(logs: seq<LogEntry>, productId: string)
    ensures Sorting.IsSubsequence(ForProduct(logs, productId), logs)
    decreases |logs|
  {
    if logs != [] {
      var init := logs[..|logs| - 1];
      ForProductInOrder(init, productId);
      Sorting.SubsequenceSnoc(ForProduct(init, productId), logs);
    }
  }

  /** The selection keeps every copy of the product's entries and no copy
      of any other: equal entries are not merged. */
  lemma {:induction false} ForProductCounts(logs: seq<LogEntry>, productId: string)
    ensures forall e ::
      multiset(ForProduct(logs, productId))[e] == if e.productId == productId then multiset(logs)[e] else 0
    decreases |logs|
  {
    if logs != [] {
      var init, last := logs[..|logs| - 1], logs[|logs| - 1];
      ForProductCounts(init, productId);
      assert logs == init + [last];
      assert multiset(logs) == multiset(init) + multiset{last};
    }
  }

  function CreatedAt(e: LogEntry): int { e.createdAt }

  function NewestFirst(e: LogEntry): int { -e.createdAt }

  /** `getCurrentStock`: the product's entries ordered by `createdAt`
      ascending, folded from 0 with the reducer. It equals the reference
      sum: sorting by `createdAt` does not change the result. */
  function GetCurrentStock(logs: seq<LogEntry>, productId: string): (r: int)
    ensures r == StockOf(logs, productId)
  {
    var own := ForProduct(logs, productId);
    var sorted := Sorting.SortBy(own, CreatedAt);
    ReduceIsSum(sorted, 0);
    DeltaSumPermutation(sorted, own);
    StockOfIsForProductSum(logs, productId);
    Reduce(sorted, 0)
  }

  /** Reference definition of a product's stock: the sum of the signed deltas
      of its entries, counted from the end of the ledger so that appending is
      one step. */
  function StockOf(logs: seq<LogEntry>, productId: string): (r: int)
    ensures (forall k :: 0 <= k < |logs| ==> logs[k].productId != productId) ==> r == 0
    decreases |logs|
  {
    if logs == [] then 0
    else
      var last := logs[|logs| - 1];
      StockOf(logs[..|logs| - 1], productId) + (if last.productId == productId then SignedDelta(last) else 0)
  }

  // ---------------------------------------------------------------- lemmas

  lemma {:induction false} ReduceIsSum(logs: seq<LogEntry>, acc: int)
    ensures Reduce(logs, acc) == acc + DeltaSum(logs)
    decreases |logs|
  {
    if logs != [] {
      ReduceIsSum(logs[1..], ReduceStep(acc, logs[0]));
    }
  }

  lemma {:induction false} DeltaSumConcat(a: seq<LogEntry>, b: seq<LogEntry>)
    ensures DeltaSum(a + b) == DeltaSum(a) + DeltaSum(b)
    decreases |a|
  {
    if a != [] {
      assert (a + b)[0] == a[0];
      assert (a + b)[1..] == a[1..] + b;
      DeltaSumConcat(a[1..], b);
    } else {
      assert a + b == b;
    }
  }

  /** The fold is a signed sum, so it does not depend on the order of entries. */
  lemma {:induction false} DeltaSumPermutation(a: seq<LogEntry>, b: seq<LogEntry>)
    requires multiset(a) == multiset(b)
    ensures DeltaSum(a) == DeltaSum(b)
    decreases |a|
  {
    if a == [] {
      assert |b| == |multiset(b)| == 0;
    } else {
      assert a[0] in multiset(b);
      var j :| 0 <= j < |b| && b[j] == a[0];
      var rest := b[..j] + b[j + 1..];
      MultisetWithout(b, j);
      assert a == [a[0]] + a[1..];
      assert multiset(a[1..]) == multiset(a) - multiset{a[0]};
      DeltaSumPermutation(a[1..], rest);
      DeltaSumWithout(b, j);
    }
  }

  /** Removing the entry at `j` removes one copy of it from the multiset. */
  lemma MultisetWithout(b: seq<LogEntry>, j: nat)
    requires j < |b|
    ensures multiset(b[..j] + b[j + 1..]) == multiset(b) - multiset{b[j]}
  {
    assert b == b[..j] + ([b[j]] + b[j + 1..]);
    assert multiset(b) == multiset(b[..j]) + multiset{b[j]} + multiset(b[j + 1..]);
  }

  /** Removing the entry at `j` removes its signed delta from the sum. */
  lemma DeltaSumWithout(b: seq<LogEntry>, j: nat)
    requires j < |b|
    ensures DeltaSum(b) == SignedDelta(b[j]) + DeltaSum(b[..j] + b[j + 1..])
  {
    assert b == b[..j] + ([b[j]] + b[j + 1..]);
    DeltaSumConcat(b[..j], [b[j]] + b[j + 1..]);
    DeltaSumConcat(b[..j], b[j + 1..]);
    assert ([b[j]] + b[j + 1..])[1..] == b[j + 1..];
  }

  lemma {:induction false} StockOfIsForProductSum(logs: seq<LogEntry>, productId: string)
    ensures StockOf(logs, productId) == DeltaSum(ForProduct(logs, productId))
    decreases |logs|
  {
    if logs != [] {
      var init, last := logs[..|logs| - 1], logs[|logs| - 1];
      StockOfIsForProductSum(init, productId);
      DeltaSumConcat(ForProduct(init, productId), [last]);
    }
  }

  /** A product with no entries has stock 0; entries of other products never
      affect it. */
  lemma {:induction false} StockIgnoresOtherProducts(logs: seq<LogEntry>, productId: string)
    ensures StockOf(logs, productId) == StockOf(ForProduct(logs, productId), productId)
    ensures ForProduct(logs, productId) == [] ==> StockOf(logs, productId) == 0
    decreases |logs|
  {
    if logs != [] {
      var init, last := logs[..|logs| - 1], logs[|logs| - 1];
      StockIgnoresOtherProducts(init, productId);
      var own := ForProduct(init, productId);
      if last.productId == productId {
        assert (own + [last])[..|own|] == own;
      }
    }
  }

  /** Appending an entry changes the stock of its product by exactly the
      entry's signed delta and leaves every other product's stock alone. */
  lemma StockAfterAppend(logs: seq<LogEntry>, e: LogEntry, productId: string)
    ensures productId == e.productId ==> StockOf(logs + [e], productId) == StockOf(logs, productId) + SignedDelta(e)
    ensures productId != e.productId ==> StockOf(logs + [e], productId) == StockOf(logs, productId)
  {
    assert (logs + [e])[..|logs|] == logs;
  }

  /** Stock after appending a batch is the stock before plus the batch's own
      contribution, independent of how the appends were batched. */
  lemma {:induction false} StockOfConcat(a: seq<LogEntry>, b: seq<LogEntry>, productId: string)
    ensures StockOf(a + b, productId) == StockOf(a, productId) + StockOf(b, productId)
    decreases |b|
  {
    if b == [] {
      assert a + b == a;
    } else {
      var init, last := b[..|b| - 1], b[|b| - 1];
      assert a + b == (a + init) + [last];
      StockAfterAppend(a + init, last, productId);
      StockOfConcat(a, init, productId);
    }
  }
}
