/** Option and Result types shared by every module of the model, and the
    error taxonomy the services raise. */
module Wrappers {

  datatype Option<+T> = None | Some(value: T)

  datatype Result<+R, +E> = Success(value: R) | Failure(error: E)

  /** Why a request was refused with HTTP 400 (NestJS BadRequestException). */
  datatype BadRequestReason =
    | ProductInactive(productName: string)
    | InsufficientStock(productName: string, available: int, requested: int)
    | AlreadyRefunded
    | RefundOfCancelled

  /** The failures the modelled services can surface. */
  datatype Error =
      /** NestJS NotFoundException, raised by the products service. */
    | NotFound(id: string)
    | BadRequest(reason: BadRequestReason)
      /** A unique constraint of the database rejected the write (barcode, receipt number). */
    | UniqueViolation(field: string)
      /** A foreign key of the database rejected the write (unknown product id). */
    | ForeignKeyViolation(productId: string)
      /** The database client refused a query argument before running it
          (a negative `skip`). */
    | InvalidQueryArgument(argument: string)
      /** A property read on a `null` lookup result: a JavaScript TypeError (HTTP 500). */
    | NullReference
}
