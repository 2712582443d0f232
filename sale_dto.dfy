/** The request validator of POST /sales
    (apps/api/src/sales/dto/create-sale.dto.ts): class-validator decorators
    as a validity predicate over the request body. */
module SaleDto {
  import opened Wrappers
  import opened SaleRecords

  /** One element of `items` as received; `None` is a missing property.
      Numbers are already read as integers (cents). */
  datatype LineRequest = LineRequest(
    productId: Option<string>,
    quantity: Option<int>,
    unitPrice: Option<int>,
    discount: Option<int>,
    total: Option<int>)

  /** The request body as received. */
  datatype SaleRequest = SaleRequest(
    items: Option<seq<LineRequest>>,
    subtotal: Option<int>,
    discount: Option<int>,
    tax: Option<int>,
    total: Option<int>,
    paymentMethod: Option<string>,
    amountPaid: Option<int>,
    change: Option<int>,
    notes: Option<string>)

  /** CreateSaleDto once validated: the input of `SalesService.create`. */
  datatype CreateSaleDto = CreateSaleDto(
    items: seq<SaleLine>,
    subtotal: int,
    discount: int,
    tax: int,
    total: int,
    paymentMethod: PaymentMethod,
    amountPaid: int,
    change: int,
    notes: Option<string>)

  /** `@IsNumber() @Min(m)` on a required property. */
  predicate AtLeast(field: Option<int>, m: int) {
    field.Some? && field.value >= m
  }

  /** SaleItemDto: productId a string, quantity at least 1, unitPrice,
      discount and total not negative. */
  predicate ValidLine(l: LineRequest) {
    && l.productId.Some?
    && AtLeast(l.quantity, 1)
    && AtLeast(l.unitPrice, 0)
    && AtLeast(l.discount, 0)
    && AtLeast(l.total, 0)
  }

  /** CreateSaleDto: `items` an array of valid lines (no minimum length), six
      non-negative header amounts, a PaymentMethod value, `notes` optional.
      Nothing relates `total` to the other amounts. */
  predicate ValidRequest(r: SaleRequest) {
    && r.items.Some?
    && (forall k :: 0 <= k < |r.items.value| ==> ValidLine(r.items.value[k]))
    && AtLeast(r.subtotal, 0)
    && AtLeast(r.discount, 0)
    && AtLeast(r.tax, 0)
    && AtLeast(r.total, 0)
    && r.paymentMethod.Some? && ParsePaymentMethod(r.paymentMethod.value).Some?
    && AtLeast(r.amountPaid, 0)
    && AtLeast(r.change, 0)
  }

  function ToLine(l: LineRequest): SaleLine
    requires ValidLine(l)
  {
    SaleLine(l.productId.value, l.quantity.value, l.unitPrice.value, l.discount.value, l.total.value)
  }

  /** The validation pipe: a CreateSaleDto exactly when the body is valid,
      carrying the body's values. */
  function Validate(r: SaleRequest): (d: Option<CreateSaleDto>)
    ensures d.Some? <==> ValidRequest(r)
    ensures d.Some? ==> (
      && |d.value.items| == |r.items.value|
      && (forall k :: 0 <= k < |d.value.items| ==>
            var l := r.items.value[k];
            d.value.items[k] == SaleLine(l.productId.value, l.quantity.value, l.unitPrice.value, l.discount.value, l.total.value))
      && d.value.subtotal == r.subtotal.value && d.value.discount == r.discount.value
      && d.value.tax == r.tax.value && d.value.total == r.total.value
      && d.value.amountPaid == r.amountPaid.value && d.value.change == r.change.value
      && PaymentMethodName(d.value.paymentMethod) == r.paymentMethod.value
      && d.value.notes == r.notes)
  {
    if ValidRequest(r) then
      var lines := r.items.value;
      Some(CreateSaleDto(
        seq(|lines|, k requires 0 <= k < |lines| => ToLine(lines[k])),
        r.subtotal.value, r.discount.value, r.tax.value, r.total.value,
        ParsePaymentMethod(r.paymentMethod.value).value,
        r.amountPaid.value, r.change.value, r.notes))
    else None
  }

  /** Every line of a valid request satisfies the line bounds. */
  predicate LineBounds(l: SaleLine) {
    l.quantity >= 1 && l.unitPrice >= 0 && l.discount >= 0 && l.total >= 0
  }

  /** The body a client sends for a CreateSaleDto. */
  function ToRequest(d: CreateSaleDto): SaleRequest {
    SaleRequest(
      Some(seq(|d.items|, k requires 0 <= k < |d.items| =>
        var l := d.items[k];
        LineRequest(Some(l.productId), Some(l.quantity), Some(l.unitPrice), Some(l.discount), Some(l.total)))),
      Some(d.subtotal), Some(d.discount), Some(d.tax), Some(d.total),
      Some(PaymentMethodName(d.paymentMethod)),
      Some(d.amountPaid), Some(d.change), d.notes)
  }

  /** Validation accepts exactly the DTOs within the bounds, and gives them
      back unchanged. */
  lemma ValidateToRequest(d: CreateSaleDto)
    ensures Validate(ToRequest(d)).Some? <==>
      (forall k :: 0 <= k < |d.items| ==> LineBounds(d.items[k]))
      && d.subtotal >= 0 && d.discount >= 0 && d.tax >= 0 && d.total >= 0
      && d.amountPaid >= 0 && d.change >= 0
    ensures Validate(ToRequest(d)).Some? ==> Validate(ToRequest(d)) == Some(d)
  {
    ParsePaymentMethodName(d.paymentMethod);
    var r := ToRequest(d);
    if Validate(r).Some? {
      var v := Validate(r).value;
      assert v.items == d.items;
      assert v.paymentMethod == d.paymentMethod;
    } else {
      if forall k :: 0 <= k < |d.items| ==> LineBounds(d.items[k]) {
        assert forall k :: 0 <= k < |r.items.value| ==> ValidLine(r.items.value[k]);
      }
    }
  }

  /** No rule requires a non-empty cart, and no rule ties `total` to
      subtotal - discount + tax: this body passes validation. */
  lemma EmptyCartWithInconsistentTotalsAccepted()
    ensures Validate(SaleRequest(Some([]), Some(0), Some(0), Some(0), Some(500), Some("CASH"), Some(0), Some(0), None)).Some?
  {
  }

  /** A line with quantity 0 is refused, and so is an unknown payment method. */
  lemma ZeroQuantityOrUnknownMethodRefused(r: SaleRequest, k: nat)
    requires r.items.Some? && k < |r.items.value|
    requires r.items.value[k].quantity == Some(0) || r.paymentMethod == Some("BITCOIN")
    ensures Validate(r).None?
  {
  }
}
