/** The reports service (apps/api/src/reports/reports.service.ts): a sales
    summary, the best-selling products and the sales of one day by hour.
    Every report looks at COMPLETED sales only. Timestamps are instants in
    ms; the parsing of the date query strings and the server's time zone
    are parameters. */
module ReportsService {
  import opened Wrappers
  import opened SaleRecords
  import Sorting

  // ------------------------------------------------------------ filtering

  /** A date query parameter: the string as sent and the instant
      `new Date(text)` denotes. */
  datatype DateArg = DateArg(text: string, instant: int)

  /** `if (dateFrom)`: absent or empty means no bound. */
  predicate Given(d: Option<DateArg>) {
    d.Some? && d.value.text != ""
  }

  /** The `where` shared by the summary and the top products: status
      COMPLETED, and `createdAt` within the given bounds, both inclusive. */
  predicate Selected(s: Sale, dateFrom: Option<DateArg>, dateTo: Option<DateArg>) {
    && s.status == Completed
    && (Given(dateFrom) ==> dateFrom.value.instant <= s.createdAt)
    && (Given(dateTo) ==> s.createdAt <= dateTo.value.instant)
  }

  function Matching(sales: seq<Sale>, dateFrom: Option<DateArg>, dateTo: Option<DateArg>): (r: seq<Sale>)
    ensures |r| <= |sales|
    ensures Sorting.IsSubsequence(r, sales)
    ensures forall s :: s in r <==> s in sales && Selected(s, dateFrom, dateTo)
    decreases |sales|
  {
    if sales == [] then []
    else
      var init, last := sales[..|sales| - 1], sales[|sales| - 1];
      var earlier := Matching(init, dateFrom, dateTo);
      assert sales == init + [last];
      Sorting.SubsequenceSnoc(earlier, sales);
      if Selected(last, dateFrom, dateTo) then earlier + [last] else earlier
  }

  // -------------------------------------------------------------- summary

  function TotalOf(sales: seq<Sale>): int
    decreases |sales|
  {
    if sales == [] then 0 else TotalOf(sales[..|sales| - 1]) + sales[|sales| - 1].total
  }

  datatype DateRange = DateRange(from: string, to: string)

  datatype SalesSummary = SalesSummary(
    totalSales: int,
    totalTransactions: nat,
    averageTransaction: real,
    dateRange: DateRange)

  /** `count > 0 ? total / count : 0`, in exact arithmetic. */
  function Average(total: int, count: nat): (avg: real)
    ensures count == 0 ==> avg == 0.0
    ensures count > 0 ==> avg * count as real == total as real
  {
    if count > 0 then total as real / count as real else 0.0
  }

  /** `getSalesSummary(dateFrom, dateTo)`; `today` is the current UTC date
      as `YYYY-MM-DD`, echoed for a missing bound. */
  function GetSalesSummary(sales: seq<Sale>, dateFrom: Option<DateArg>, dateTo: Option<DateArg>, today: string): (r: SalesSummary)
    ensures r.totalTransactions == |Matching(sales, dateFrom, dateTo)|
    ensures r.totalSales == TotalOf(Matching(sales, dateFrom, dateTo))
    ensures r.totalTransactions == 0 ==> r.totalSales == 0
    ensures r.averageTransaction == Average(r.totalSales, r.totalTransactions)
    ensures r.dateRange.from == (if Given(dateFrom) then dateFrom.value.text else today)
    ensures r.dateRange.to == (if Given(dateTo) then dateTo.value.text else today)
  {
    var matching := Matching(sales, dateFrom, dateTo);
    var total := TotalOf(matching);
    var count := |matching|;
    SalesSummary(
      total, count,
      Average(total, count),
      DateRange(if Given(dateFrom) then dateFrom.value.text else today,
                if Given(dateTo) then dateTo.value.text else today))
  }

  // --------------------------------------------------------- top products

  /** A value of `productMap`: the running totals of one product. */
  datatype ProductTally = ProductTally(productId: string, quantity: int, revenue: int)

  function TallyId(t: ProductTally): string { t.productId }

  /** `productMap.get(productId)`: where the product's tally sits. */
  function TallyIndex(tally: seq<ProductTally>, id: string): (r: Option<nat>)
    ensures r.Some? ==> r.value < |tally| && tally[r.value].productId == id
    ensures r.None? <==> forall k :: 0 <= k < |tally| ==> tally[k].productId != id
    decreases |tally|
  {
    if tally == [] then None
    else if tally[|tally| - 1].productId == id then Some(|tally| - 1)
    else TallyIndex(tally[..|tally| - 1], id)
  }

  /** One turn of the inner `forEach`: the item's quantity and total are
      added to its product's tally, which is created at zero on first sight
      (a JavaScript Map keeps its keys in first-insertion order). */
  function AddLine(tally: seq<ProductTally>, line: SaleLine): (r: seq<ProductTally>)
    ensures |tally| <= |r| <= |tally| + 1
  {
    match TallyIndex(tally, line.productId)
    case None => tally + [ProductTally(line.productId, line.quantity, line.total)]
    case Some(i) => tally[i := tally[i].(quantity := tally[i].quantity + line.quantity, revenue := tally[i].revenue + line.total)]
  }

  predicate HasLine(lines: seq<SaleLine>, id: string) {
    exists k :: 0 <= k < |lines| && lines[k].productId == id
  }

  lemma {:induction false} NoLineNoUnits(lines: seq<SaleLine>, id: string)
    requires !HasLine(lines, id)
    ensures QuantityOf(lines, id) == 0 && RevenueOf(lines, id) == 0
    decreases |lines|
  {
    if lines != [] {
      var init := lines[..|lines| - 1];
      assert !HasLine(init, id) by {
        forall k | 0 <= k < |init| ensures init[k].productId != id {
          assert init[k] == lines[k];
        }
      }
      NoLineNoUnits(init, id);
    }
  }

  /** Adding a line touches only its product's tally, or appends a fresh
      one when the product had none. */
  lemma AddLineEffect(tally: seq<ProductTally>, line: SaleLine)
    requires Sorting.DistinctBy(tally, TallyId)
    ensures var r := AddLine(tally, line);
      && Sorting.DistinctBy(r, TallyId)
      && |tally| <= |r| <= |tally| + 1
      && (forall k :: 0 <= k < |tally| ==>
            r[k] == if tally[k].productId == line.productId
                    then tally[k].(quantity := tally[k].quantity + line.quantity, revenue := tally[k].revenue + line.total)
                    else tally[k])
      && (|r| == |tally| + 1 ==>
            TallyIndex(tally, line.productId).None? && r[|tally|] == ProductTally(line.productId, line.quantity, line.total))
  {
  }

  /** After adding a line, the products with a tally are those that had one
      and the line's product. */
  lemma AddLineKeys(tally: seq<ProductTally>, line: SaleLine)
    requires Sorting.DistinctBy(tally, TallyId)
    ensures var r := AddLine(tally, line);
      forall id :: TallyIndex(r, id).Some? <==> TallyIndex(tally, id).Some? || id == line.productId
  {
    var r := AddLine(tally, line);
    AddLineEffect(tally, line);
    forall id ensures TallyIndex(r, id).Some? <==> TallyIndex(tally, id).Some? || id == line.productId {
      if TallyIndex(tally, id).Some? {
        assert r[TallyIndex(tally, id).value].productId == id;
      }
      if id == line.productId && TallyIndex(tally, id).None? {
        assert r[|tally|].productId == id;
      }
      if TallyIndex(r, id).Some? && id != line.productId {
        assert tally[TallyIndex(r, id).value].productId == id;
      }
    }
  }

  lemma HasLineSnoc(lines: seq<SaleLine>)
    requires lines != []
    ensures forall id :: HasLine(lines, id) <==> HasLine(lines[..|lines| - 1], id) || lines[|lines| - 1].productId == id
  {
    var init := lines[..|lines| - 1];
    forall id | HasLine(lines, id) && lines[|lines| - 1].productId != id ensures HasLine(init, id) {
      var k :| 0 <= k < |lines| && lines[k].productId == id;
      assert init[k] == lines[k];
    }
    forall id | HasLine(init, id) ensures HasLine(lines, id) {
      var k :| 0 <= k < |init| && init[k].productId == id;
      assert lines[k] == init[k];
    }
  }

  /** Folding one more line into a tally of the earlier lines gives the
      tally of all of them. */
  lemma TallyStep(lines: seq<SaleLine>, before: seq<ProductTally>)
    requires lines != []
    requires Sorting.DistinctBy(before, TallyId)
    requires forall k :: 0 <= k < |before| ==>
      before[k].quantity == QuantityOf(lines[..|lines| - 1], before[k].productId)
      && before[k].revenue == RevenueOf(lines[..|lines| - 1], before[k].productId)
    requires forall id :: TallyIndex(before, id).Some? <==> HasLine(lines[..|lines| - 1], id)
    ensures var r := AddLine(before, lines[|lines| - 1]);
      && Sorting.DistinctBy(r, TallyId)
      && (forall k :: 0 <= k < |r| ==>
            r[k].quantity == QuantityOf(lines, r[k].productId) && r[k].revenue == RevenueOf(lines, r[k].productId))
      && (forall id :: TallyIndex(r, id).Some? <==> HasLine(lines, id))
  {
    var init, last := lines[..|lines| - 1], lines[|lines| - 1];
    HasLineSnoc(lines);
    AddLineEffect(before, last);
    AddLineKeys(before, last);
    if TallyIndex(before, last.productId).None? {
      NoLineNoUnits(init, last.productId);
    }
  }

  /** The map after folding every line in: one tally per product sold,
      holding that product's total units and revenue. */
  function TallyOf(lines: seq<SaleLine>): (r: seq<ProductTally>)
    ensures Sorting.DistinctBy(r, TallyId)
    ensures forall k :: 0 <= k < |r| ==>
      r[k].quantity == QuantityOf(lines, r[k].productId) && r[k].revenue == RevenueOf(lines, r[k].productId)
    ensures forall id :: TallyIndex(r, id).Some? <==> HasLine(lines, id)
    decreases |lines|
  {
    if lines == [] then []
    else
      var before := TallyOf(lines[..|lines| - 1]);
      TallyStep(lines, before);
      AddLine(before, lines[|lines| - 1])
  }

  /** Every item of every sale, in order. */
  function Flatten(sales: seq<Sale>): seq<SaleLine>
    decreases |sales|
  {
    if sales == [] then [] else Flatten(sales[..|sales| - 1]) + sales[|sales| - 1].items
  }

  /** `b.quantity - a.quantity` as a comparator: by quantity, largest first. */
  function ByQuantityDesc(t: ProductTally): int { -t.quantity }

  /** `Array.prototype.slice(0, limit)`: a negative limit counts from the end. */
  function SliceTo<T>(s: seq<T>, limit: int): (r: seq<T>)
    ensures |r| <= |s| && r == s[..|r|]
    ensures limit >= 0 ==> |r| == Min(limit, |s|)
    ensures limit < 0 ==> |r| == Max(0, |s| + limit)
  {
    if limit >= 0 then s[..if limit < |s| then limit else |s|]
    else s[..if |s| + limit > 0 then |s| + limit else 0]
  }

  function Min(a: int, b: int): int { if a < b then a else b }

  function Max(a: int, b: int): int { if a < b then b else a }

  /** `getTopProducts(limit, dateFrom, dateTo)` as a value. */
  function TopProducts(sales: seq<Sale>, limit: int, dateFrom: Option<DateArg>, dateTo: Option<DateArg>): (r: seq<ProductTally>)
    ensures limit >= 0 ==> |r| <= limit
    ensures forall t :: t in r ==> t in TallyOf(Flatten(Matching(sales, dateFrom, dateTo)))
  {
    SliceTo(Sorting.SortBy(TallyOf(Flatten(Matching(sales, dateFrom, dateTo))), ByQuantityDesc), limit)
  }

  /** The top-products report has at most one entry per product, each with
      that product's total units and revenue over the matching sales, ordered
      by units sold, largest first, and no more than `limit` entries. */
  lemma TopProductsProperties(sales: seq<Sale>, limit: int, dateFrom: Option<DateArg>, dateTo: Option<DateArg>)
    ensures var lines := Flatten(Matching(sales, dateFrom, dateTo));
      var r := TopProducts(sales, limit, dateFrom, dateTo);
      && Sorting.DistinctBy(r, TallyId)
      && (forall k :: 0 <= k < |r| ==>
            r[k].quantity == QuantityOf(lines, r[k].productId) && r[k].revenue == RevenueOf(lines, r[k].productId)
            && HasLine(lines, r[k].productId))
      && (forall i, j :: 0 <= i < j < |r| ==> r[i].quantity >= r[j].quantity)
      && (limit >= 0 ==> |r| == Min(limit, |TallyOf(lines)|))
      && (forall id :: HasLine(lines, id) && (forall k :: 0 <= k < |r| ==> r[k].productId != id) ==>
            forall k :: 0 <= k < |r| ==> QuantityOf(lines, id) <= r[k].quantity)
  {
    var lines := Flatten(Matching(sales, dateFrom, dateTo));
    var tally := TallyOf(lines);
    SliceOfSorted(tally, limit);
    var r := TopProducts(sales, limit, dateFrom, dateTo);
    TallyEntriesExact(lines, r);
    UnlistedSellNoMore(lines, r);
  }

  /** Every entry taken from the tally of some lines carries that product's
      summed units and revenue, and the product has a line. */
  lemma TallyEntriesExact(lines: seq<SaleLine>, r: seq<ProductTally>)
    requires forall k :: 0 <= k < |r| ==> r[k] in TallyOf(lines)
    ensures forall k :: 0 <= k < |r| ==>
      r[k].quantity == QuantityOf(lines, r[k].productId) && r[k].revenue == RevenueOf(lines, r[k].productId)
      && HasLine(lines, r[k].productId)
  {
    var tally := TallyOf(lines);
    forall k | 0 <= k < |r|
      ensures r[k].quantity == QuantityOf(lines, r[k].productId) && r[k].revenue == RevenueOf(lines, r[k].productId)
      ensures HasLine(lines, r[k].productId)
    {
      var i :| 0 <= i < |tally| && tally[i] == r[k];
      assert TallyIndex(tally, r[k].productId).Some?;
    }
  }

  /** A product left out of a cut of the sorted tally sold no more units
      than any product kept. */
  lemma UnlistedSellNoMore(lines: seq<SaleLine>, r: seq<ProductTally>)
    requires forall t :: t in TallyOf(lines) && (forall k :: 0 <= k < |r| ==> r[k].productId != t.productId) ==>
      forall k :: 0 <= k < |r| ==> t.quantity <= r[k].quantity
    ensures forall id :: HasLine(lines, id) && (forall k :: 0 <= k < |r| ==> r[k].productId != id) ==>
      forall k :: 0 <= k < |r| ==> QuantityOf(lines, id) <= r[k].quantity
  {
    var tally := TallyOf(lines);
    forall id | HasLine(lines, id) && (forall k :: 0 <= k < |r| ==> r[k].productId != id)
      ensures forall k :: 0 <= k < |r| ==> QuantityOf(lines, id) <= r[k].quantity
    {
      var t := tally[TallyIndex(tally, id).value];
      assert t in tally;
    }
  }

  /** Sorting a tally by units and cutting it to `limit` keeps entries of
      the tally only, one per product, largest first. */
  lemma SliceOfSorted(tally: seq<ProductTally>, limit: int)
    requires Sorting.DistinctBy(tally, TallyId)
    ensures var r := SliceTo(Sorting.SortBy(tally, ByQuantityDesc), limit);
      && Sorting.DistinctBy(r, TallyId)
      && (forall k :: 0 <= k < |r| ==> r[k] in tally)
      && (forall i, j :: 0 <= i < j < |r| ==> r[i].quantity >= r[j].quantity)
      && (limit >= 0 ==> |r| == Min(limit, |tally|))
      && (forall t :: t in tally && (forall k :: 0 <= k < |r| ==> r[k].productId != t.productId) ==>
            forall k :: 0 <= k < |r| ==> t.quantity <= r[k].quantity)
  {
    var sorted := Sorting.SortBy(tally, ByQuantityDesc);
    Sorting.SortByKeepsDistinct(tally, ByQuantityDesc, TallyId);
    var r := SliceTo(sorted, limit);
    assert r == sorted[..|r|];
    forall k | 0 <= k < |r| ensures r[k] in tally {
      assert r[k] == sorted[k] && sorted[k] in tally;
    }
    forall i, j | 0 <= i < j < |r| ensures r[i].quantity >= r[j].quantity {
      assert ByQuantityDesc(sorted[i]) <= ByQuantityDesc(sorted[j]);
    }
    CutKeepsLargest(sorted, r);
  }

  /** Every entry behind a prefix of a sequence sorted by units, largest
      first, has at most the units of each entry of the prefix. */
  lemma CutKeepsLargest(sorted: seq<ProductTally>, r: seq<ProductTally>)
    requires Sorting.SortedBy(sorted, ByQuantityDesc) && |r| <= |sorted| && r == sorted[..|r|]
    ensures forall t :: t in sorted && (forall k :: 0 <= k < |r| ==> r[k].productId != t.productId) ==>
      forall k :: 0 <= k < |r| ==> t.quantity <= r[k].quantity
  {
    forall t | t in sorted && (forall k :: 0 <= k < |r| ==> r[k].productId != t.productId)
      ensures forall k :: 0 <= k < |r| ==> t.quantity <= r[k].quantity
    {
      var p :| 0 <= p < |sorted| && sorted[p] == t;
      forall k | 0 <= k < |r| ensures t.quantity <= r[k].quantity {
        assert ByQuantityDesc(sorted[k]) <= ByQuantityDesc(sorted[p]);
      }
    }
  }

  /** Every product sold in the matching sales is reported when the limit
      leaves room for all of them. */
  lemma TopProductsComplete(sales: seq<Sale>, limit: int, dateFrom: Option<DateArg>, dateTo: Option<DateArg>, id: string)
    requires HasLine(Flatten(Matching(sales, dateFrom, dateTo)), id)
    requires limit >= |TallyOf(Flatten(Matching(sales, dateFrom, dateTo)))|
    ensures exists k :: 0 <= k < |TopProducts(sales, limit, dateFrom, dateTo)| && TopProducts(sales, limit, dateFrom, dateTo)[k].productId == id
  {
    var tally := TallyOf(Flatten(Matching(sales, dateFrom, dateTo)));
    var sorted := Sorting.SortBy(tally, ByQuantityDesc);
    var i := TallyIndex(tally, id).value;
    assert tally[i] in sorted;
    var k :| 0 <= k < |sorted| && sorted[k] == tally[i];
    assert TopProducts(sales, limit, dateFrom, dateTo) == sorted;
  }

  lemma TallyOfSnoc(prefix: seq<SaleLine>, items: seq<SaleLine>, j: nat)
    requires j < |items|
    ensures TallyOf(prefix + items[..j + 1]) == AddLine(TallyOf(prefix + items[..j]), items[j])
  {
    var whole := prefix + items[..j + 1];
    assert whole[..|whole| - 1] == prefix + items[..j];
  }

  lemma FlattenSnoc(sales: seq<Sale>, i: nat)
    requires i < |sales|
    ensures Flatten(sales[..i + 1]) == Flatten(sales[..i]) + sales[i].items
  {
    assert sales[..i + 1][..i] == sales[..i];
  }

  /** The body of the inner `forEach`: get-or-default, add, set. */
  method Bump(productMap: seq<ProductTally>, item: SaleLine) returns (updated: seq<ProductTally>)
    ensures updated == AddLine(productMap, item)
  {
    var found := TallyIndex(productMap, item.productId);
    var existing := if found.Some? then productMap[found.value] else ProductTally(item.productId, 0, 0);
    existing := existing.(quantity := existing.quantity + item.quantity, revenue := existing.revenue + item.total);
    if found.Some? {
      updated := productMap[found.value := existing];
    } else {
      updated := productMap + [existing];
    }
  }

  /** The inner `forEach` over one sale's items. */
  method BumpAll(productMap: seq<ProductTally>, ghost prefix: seq<SaleLine>, items: seq<SaleLine>) returns (updated: seq<ProductTally>)
    requires productMap == TallyOf(prefix)
    ensures updated == TallyOf(prefix + items)
  {
    updated := productMap;
    var j := 0;
    assert prefix + items[..j] == prefix;
    while j < |items|
      invariant 0 <= j <= |items|
      invariant updated == TallyOf(prefix + items[..j])
    {
      TallyOfSnoc(prefix, items, j);
      updated := Bump(updated, items[j]);
      j := j + 1;
    }
    assert items[..j] == items;
  }

  /** `getTopProducts`, as written: nested loops over the matching sales
      and their items updating the map, then sort and slice. */
  method GetTopProducts(sales: seq<Sale>, limit: int, dateFrom: Option<DateArg>, dateTo: Option<DateArg>) returns (r: seq<ProductTally>)
    ensures r == TopProducts(sales, limit, dateFrom, dateTo)
  {
    var matching := Matching(sales, dateFrom, dateTo);
    var productMap: seq<ProductTally> := [];
    var i := 0;
    while i < |matching|
      invariant 0 <= i <= |matching|
      invariant productMap == TallyOf(Flatten(matching[..i]))
    {
      productMap := BumpAll(productMap, Flatten(matching[..i]), matching[i].items);
      FlattenSnoc(matching, i);
      i := i + 1;
    }
    assert matching[..i] == matching;
    r := SliceTo(Sorting.SortBy(productMap, ByQuantityDesc), limit);
  }

  // -------------------------------------------------------- sales by hour

  const HourMs := 3600000
  const DayMs := 86400000

  /** `new Date(t).getHours()` in a time zone `offset` ms ahead of UTC. */
  function HourOf(t: int, offset: int): (h: int)
    ensures 0 <= h < 24
  {
    ((t + offset) / HourMs) % 24
  }

  /** `targetDate.setHours(0, 0, 0, 0)`: local midnight of the target's day. */
  function StartOfDay(target: int, offset: int): int {
    var local := target + offset;
    local - local % DayMs - offset
  }

  /** `targetDate.setHours(23, 59, 59, 999)`: the last ms of that day. */
  function EndOfDay(target: int, offset: int): int {
    StartOfDay(target, offset) + DayMs - 1
  }

  /** The target instant lies in the window, which is one day long. */
  lemma TargetInItsDay(target: int, offset: int)
    ensures StartOfDay(target, offset) <= target <= EndOfDay(target, offset)
    ensures EndOfDay(target, offset) - StartOfDay(target, offset) + 1 == DayMs
  {
  }

  /** The `where` of `getSalesByHour`: COMPLETED, within the day inclusive. */
  predicate OnDay(s: Sale, target: int, offset: int) {
    s.status == Completed && StartOfDay(target, offset) <= s.createdAt <= EndOfDay(target, offset)
  }

  function DaySales(sales: seq<Sale>, target: int, offset: int): (r: seq<Sale>)
    ensures Sorting.IsSubsequence(r, sales)
    ensures forall s :: s in r <==> s in sales && OnDay(s, target, offset)
    decreases |sales|
  {
    if sales == [] then []
    else
      var init, last := sales[..|sales| - 1], sales[|sales| - 1];
      var earlier := DaySales(init, target, offset);
      assert sales == init + [last];
      Sorting.SubsequenceSnoc(earlier, sales);
      if OnDay(last, target, offset) then earlier + [last] else earlier
  }

  /** One element of `hourlyData`. */
  datatype HourBucket = HourBucket(hour: int, count: nat, revenue: int)

  /** How many of the sales fall in hour `h`. */
  function CountAt(day: seq<Sale>, h: int, offset: int): nat
    decreases |day|
  {
    if day == [] then 0
    else CountAt(day[..|day| - 1], h, offset) + (if HourOf(day[|day| - 1].createdAt, offset) == h then 1 else 0)
  }

  /** The summed totals of the sales that fall in hour `h`. */
  function RevenueAt(day: seq<Sale>, h: int, offset: int): int
    decreases |day|
  {
    if day == [] then 0
    else RevenueAt(day[..|day| - 1], h, offset) + (if HourOf(day[|day| - 1].createdAt, offset) == h then day[|day| - 1].total else 0)
  }

  /** The report of a day's sales: 24 buckets, hour `h` at index `h`. */
  function HourlyReport(day: seq<Sale>, offset: int): (r: seq<HourBucket>)
    ensures |r| == 24
    ensures forall h :: 0 <= h < 24 ==> r[h].hour == h
  {
    seq(24, h => HourBucket(h, CountAt(day, h, offset), RevenueAt(day, h, offset)))
  }

  /** Before any sale every bucket is at zero. */
  lemma HourlyReportEmpty(offset: int)
    ensures forall h :: 0 <= h < 24 ==> HourlyReport([], offset)[h] == HourBucket(h, 0, 0)
  {
  }

  /** A sale's bucket after it is counted. */
  function Bumped(b: HourBucket, s: Sale): HourBucket {
    b.(count := b.count + 1, revenue := b.revenue + s.total)
  }

  /** Each sale increments the count of exactly its own hour's bucket and
      adds its total to that bucket's revenue; the other 23 are untouched. */
  lemma HourlyAfterSale(day: seq<Sale>, s: Sale, offset: int)
    ensures var h := HourOf(s.createdAt, offset);
      HourlyReport(day + [s], offset) == HourlyReport(day, offset)[h := Bumped(HourlyReport(day, offset)[h], s)]
  {
    assert (day + [s])[..|day|] == day;
  }

  function TotalCount(buckets: seq<HourBucket>): nat
    decreases |buckets|
  {
    if buckets == [] then 0 else TotalCount(buckets[..|buckets| - 1]) + buckets[|buckets| - 1].count
  }

  lemma {:induction false} TotalCountBump(buckets: seq<HourBucket>, h: nat, s: Sale)
    requires h < |buckets|
    ensures TotalCount(buckets[h := Bumped(buckets[h], s)]) == TotalCount(buckets) + 1
    decreases |buckets|
  {
    var n := |buckets| - 1;
    var bumped := buckets[h := Bumped(buckets[h], s)];
    if h < n {
      assert bumped[..n] == buckets[..n][h := Bumped(buckets[h], s)];
      TotalCountBump(buckets[..n], h, s);
    } else {
      assert bumped[..n] == buckets[..n];
    }
  }

  /** The bucket counts add up to the number of the day's sales. */
  lemma {:induction false} CountsSumToSales(day: seq<Sale>, offset: int)
    ensures TotalCount(HourlyReport(day, offset)) == |day|
    decreases |day|
  {
    if day == [] {
      var r := HourlyReport(day, offset);
      ZeroCounts(r);
    } else {
      var init, last := day[..|day| - 1], day[|day| - 1];
      assert day == init + [last];
      CountsSumToSales(init, offset);
      HourlyAfterSale(init, last, offset);
      TotalCountBump(HourlyReport(init, offset), HourOf(last.createdAt, offset), last);
    }
  }

  lemma {:induction false} ZeroCounts(buckets: seq<HourBucket>)
    requires forall h :: 0 <= h < |buckets| ==> buckets[h].count == 0
    ensures TotalCount(buckets) == 0
    decreases |buckets|
  {
    if buckets != [] {
      ZeroCounts(buckets[..|buckets| - 1]);
    }
  }

  /** `getSalesByHour(date)`, as written: 24 zeroed buckets in an array,
      then one increment per sale of the day. `target` is the requested
      date (or the current time) and `offset` the server's time zone. */
  method GetSalesByHour(sales: seq<Sale>, target: int, offset: int) returns (r: seq<HourBucket>)
    ensures r == HourlyReport(DaySales(sales, target, offset), offset)
  {
    var day := DaySales(sales, target, offset);
    var hourlyData := new HourBucket[24](i => HourBucket(i, 0, 0));
    HourlyReportEmpty(offset);
    var k := 0;
    assert day[..k] == [];
    while k < |day|
      invariant 0 <= k <= |day|
      invariant hourlyData[..] == HourlyReport(day[..k], offset)
    {
      var sale := day[k];
      var hour := HourOf(sale.createdAt, offset);
      assert day[..k + 1] == day[..k] + [sale];
      HourlyAfterSale(day[..k], sale, offset);
      hourlyData[hour] := Bumped(hourlyData[hour], sale);
      k := k + 1;
    }
    assert day[..k] == day;
    r := hourlyData[..];
  }

  // ----------------------------------------------------------- all reports

  /** A sale that is not COMPLETED changes none of the three reports. */
  lemma NonCompletedIgnored(sales: seq<Sale>, s: Sale, dateFrom: Option<DateArg>, dateTo: Option<DateArg>, target: int, offset: int)
    requires s.status != Completed
    ensures Matching(sales + [s], dateFrom, dateTo) == Matching(sales, dateFrom, dateTo)
    ensures DaySales(sales + [s], target, offset) == DaySales(sales, target, offset)
  {
    assert (sales + [s])[..|sales|] == sales;
  }
}
