/** The request validator of POST /inventory/logs
    (apps/api/src/inventory/dto/create-inventory-log.dto.ts). */
module InventoryLogDto {
  import opened Wrappers
  import opened Ledger

  /** The request body as received; `None` is a missing property. */
  datatype LogRequest = LogRequest(
    productId: Option<string>,
    quantity: Option<int>,
    action: Option<string>,
    notes: Option<string>,
    reference: Option<string>)

  /** CreateInventoryLogDto once validated: the input of `createLog`. */
  datatype CreateInventoryLogDto = CreateInventoryLogDto(
    productId: string,
    quantity: int,
    action: InventoryAction,
    notes: Option<string>,
    reference: Option<string>)

  /** productId a required string, quantity a required number with no sign or
      bound, action one of the seven InventoryAction values, notes and
      reference optional. */
  predicate ValidRequest(r: LogRequest) {
    && r.productId.Some?
    && r.quantity.Some?
    && r.action.Some? && ParseAction(r.action.value).Some?
  }

  function Validate(r: LogRequest): (d: Option<CreateInventoryLogDto>)
    ensures d.Some? <==> ValidRequest(r)
    ensures d.Some? ==> (
      && d.value.productId == r.productId.value && d.value.quantity == r.quantity.value
      && ActionName(d.value.action) == r.action.value
      && d.value.notes == r.notes && d.value.reference == r.reference)
  {
    if ValidRequest(r) then
      Some(CreateInventoryLogDto(r.productId.value, r.quantity.value, ParseAction(r.action.value).value, r.notes, r.reference))
    else None
  }

  /** Any quantity, negative included, reaches the ledger for any action. */
  lemma AnyQuantityAccepted(productId: string, quantity: int, a: InventoryAction, notes: Option<string>, reference: Option<string>)
    ensures Validate(LogRequest(Some(productId), Some(quantity), Some(ActionName(a)), notes, reference))
      == Some(CreateInventoryLogDto(productId, quantity, a, notes, reference))
  {
    ParseActionName(a);
  }

  /** A body without productId, without quantity or with an action outside
      the enum is refused. */
  lemma MissingOrUnknownFieldsRefused(r: LogRequest)
    requires r.productId.None? || r.quantity.None? || r.action == Some("RESTOCK")
    ensures Validate(r).None?
  {
    if r.action == Some("RESTOCK") {
      assert "RESTOCK"[1] != "STOCK_IN"[1];
      assert "RESTOCK"[2] != "RETURN"[2];
    }
  }
}
