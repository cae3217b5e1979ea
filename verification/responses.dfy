/** The error outcomes of the handlers and the HTTP status each one is answered with. */
module Responses {

  /** A request field whose validation rule failed. */
  datatype Field =
    | Items
    | ItemProductId(index: nat)
    | ItemQuantity(index: nat)
    | ShippingFirstName
    | ShippingLastName
    | ShippingStreet
    | ShippingCity
    | ShippingState
    | ShippingZipCode
    | PaymentMethodField
    | StatusField
    | TrackingNumberField
    | Email
    | Password
    | FirstName
    | LastName
    | Phone
    | RoleField

  datatype Error =
    | ValidationFailed(fields: seq<Field>)
    | ProductNotFound(productId: string)
    | InsufficientStock(productName: string)
    | OrderNotFound
    | NotPending
    | ImageRequired
    | ImageUploadFailed
    | AdminExists
    /** The document database refused to save (schema validation or a unique-index clash). */
    | SaveRejected

  /** The status code each handler answers a failure with. */
  function HttpStatus(e: Error): (code: int)
    ensures code == 400 || code == 404 || code == 500
    ensures code == 404 <==> e.OrderNotFound?
    ensures code == 500 <==> (e.ImageUploadFailed? || e.SaveRejected?)
  {
    match e
    case OrderNotFound => 404
    case ImageUploadFailed => 500
    case SaveRejected => 500
    case _ => 400
  }
}
