/** Sale and SaleItem rows and their enums (packages/shared types, the
    sale table written by apps/api/src/sales/sales.service.ts). */
module SaleRecords {
  import opened Wrappers

  datatype PaymentMethod = Cash | Card | GCash | PayMaya | Other

  datatype SaleStatus = Completed | Refunded | Cancelled | Pending

  function PaymentMethodName(m: PaymentMethod): string {
    match m
    case Cash => "CASH"
    case Card => "CARD"
    case GCash => "GCASH"
    case PayMaya => "PAYMAYA"
    case Other => "OTHER"
  }

  /** `@IsEnum(PaymentMethod)`: only the five wire values are accepted. */
  function ParsePaymentMethod(s: string): (r: Option<PaymentMethod>)
    ensures r.Some? ==> PaymentMethodName(r.value) == s
  {
    if s == "CASH" then Some(Cash)
    else if s == "CARD" then Some(Card)
    else if s == "GCASH" then Some(GCash)
    else if s == "PAYMAYA" then Some(PayMaya)
    else if s == "OTHER" then Some(Other)
    else None
  }

  lemma ParsePaymentMethodName(m: PaymentMethod)
    ensures ParsePaymentMethod(PaymentMethodName(m)) == Some(m)
  {
    match m
    case Cash =>
    case Card => assert "CARD"[1] != "CASH"[1] || "CARD"[2] != "CASH"[2];
    case GCash => assert "GCASH"[0] != "CASH"[0] && "GCASH"[0] != "CARD"[0];
    case PayMaya => assert "PAYMAYA"[0] != "CASH"[0] && "PAYMAYA"[0] != "CARD"[0] && "PAYMAYA"[0] != "GCASH"[0];
    case Other =>
      assert "OTHER"[0] != "CASH"[0] && "OTHER"[0] != "CARD"[0];
      assert "OTHER"[0] != "GCASH"[0] && "OTHER"[0] != "PAYMAYA"[0];
  }

  /** A cart line, as sent in CreateSaleDto and as stored in SaleItem
      (the sale copies exactly these five fields). Money in cents. */
  datatype SaleLine = SaleLine(productId: string, quantity: int, unitPrice: int, discount: int, total: int)

  /** Units of one product across the lines. */
  function QuantityOf(lines: seq<SaleLine>, productId: string): int
    decreases |lines|
  {
    if lines == [] then 0
    else
      var last := lines[|lines| - 1];
      QuantityOf(lines[..|lines| - 1], productId) + (if last.productId == productId then last.quantity else 0)
  }

  /** Sum of the line totals of one product across the lines. */
  function RevenueOf(lines: seq<SaleLine>, productId: string): int
    decreases |lines|
  {
    if lines == [] then 0
    else
      var last := lines[|lines| - 1];
      RevenueOf(lines[..|lines| - 1], productId) + (if last.productId == productId then last.total else 0)
  }

  /** One row of the sale table with its items. */
  datatype Sale = Sale(
    id: string,
    receiptNumber: string,
    cashierId: string,
    items: seq<SaleLine>,
    subtotal: int,
    discount: int,
    tax: int,
    total: int,
    paymentMethod: PaymentMethod,
    amountPaid: int,
    change: int,
    status: SaleStatus,
    notes: Option<string>,
    createdAt: int)

  /** The position of the sale with primary key `id`. */
  function SaleIndex(sales: seq<Sale>, id: string): (r: Option<nat>)
    ensures r.Some? ==> r.value < |sales| && sales[r.value].id == id
    ensures r.None? <==> forall k :: 0 <= k < |sales| ==> sales[k].id != id
    decreases |sales|
  {
    if sales == [] then None
    else if sales[|sales| - 1].id == id then Some(|sales| - 1)
    else SaleIndex(sales[..|sales| - 1], id)
  }

  /** `SalesService.findOne`: `findUnique`, which yields `null` (here `None`)
      for an unknown id rather than raising NotFound. */
  function FindSale(sales: seq<Sale>, id: string): (r: Option<Sale>)
    ensures r.None? <==> forall k :: 0 <= k < |sales| ==> sales[k].id != id
    ensures r.Some? ==> r.value in sales && r.value.id == id
  {
    match SaleIndex(sales, id)
    case None => None
    case Some(i) => Some(sales[i])
  }
}
