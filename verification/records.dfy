/**
 * The values the checkout handler receives, stores and answers with: the
 * session, the request body, the purchase header and line-item rows, and
 * the HTTP response.
 */
module Records {
  import opened JsValues
  import opened JsStrings

  /** `req.session.user`: absent, or a user carrying its customer id. */
  datatype Session = Anonymous | LoggedIn(customerId: int)

  /** The twelve properties the handler reads from `req.body`; a missing
      property is `Undefined`. */
  datatype Body = Body(
    street: JsValue,
    city: JsValue,
    province: JsValue,
    country: JsValue,
    postalCode: JsValue,
    creditCard: JsValue,
    creditExpire: JsValue,
    creditCvv: JsValue,
    cart: JsValue,
    invoiceAmt: JsValue,
    invoiceTax: JsValue,
    invoiceTotal: JsValue)
  {
    /** The required fields, in the order the validation tests them. */
    function Required(): (fields: seq<JsValue>)
      ensures |fields| == 12
      ensures AllTruthy(fields)
              <==> Truthy(street) && Truthy(city) && Truthy(province) && Truthy(country)
                   && Truthy(postalCode) && Truthy(creditCard) && Truthy(creditExpire)
                   && Truthy(creditCvv) && Truthy(cart) && Truthy(invoiceAmt)
                   && Truthy(invoiceTax) && Truthy(invoiceTotal)
    {
      [street, city, province, country, postalCode, creditCard, creditExpire,
       creditCvv, cart, invoiceAmt, invoiceTax, invoiceTotal]
    }
  }

  /** A row of the purchase table: the order header. The body's values are
      stored as they were received. */
  datatype Purchase = Purchase(
    purchaseId: int,
    customerId: int,
    street: JsValue,
    city: JsValue,
    province: JsValue,
    country: JsValue,
    postalCode: JsValue,
    creditCard: JsValue,
    creditExpire: JsValue,
    creditCvv: JsValue,
    invoiceAmt: JsValue,
    invoiceTax: JsValue,
    invoiceTotal: JsValue,
    orderDate: int)
  {
    /** The `purchase` object of the success response: the header without
        the three card fields. */
    function Summary(): (s: PurchaseSummary)
      ensures s.WithCard(creditCard, creditExpire, creditCvv) == this
    {
      PurchaseSummary(purchaseId, customerId, street, city, province, country,
                      postalCode, invoiceAmt, invoiceTax, invoiceTotal, orderDate)
    }
  }

  datatype PurchaseSummary = PurchaseSummary(
    purchaseId: int,
    customerId: int,
    street: JsValue,
    city: JsValue,
    province: JsValue,
    country: JsValue,
    postalCode: JsValue,
    invoiceAmt: JsValue,
    invoiceTax: JsValue,
    invoiceTotal: JsValue,
    orderDate: int)
  {
    /** The header this summary was taken from, given its card fields. */
    function WithCard(creditCard: JsValue, creditExpire: JsValue, creditCvv: JsValue): Purchase
    {
      Purchase(purchaseId, customerId, street, city, province, country, postalCode,
               creditCard, creditExpire, creditCvv, invoiceAmt, invoiceTax, invoiceTotal, orderDate)
    }
  }

  /** A row of the purchase-item table. The product id is whatever
      `parseInt` produced for the cart token. */
  datatype PurchaseItem = PurchaseItem(purchaseId: int, productId: ParsedInt, quantity: nat)

  /** What the handler answers. NoResponse stands for a TypeError thrown
      outside the try block: nothing catches it and no response is sent. */
  datatype Response =
    | Unauthorized
    | BadRequest
    | NotFound
    | ServerError
    | Created(purchase: PurchaseSummary, items: seq<PurchaseItem>)
    | NoResponse
  {
    /** The HTTP status code: 201 for a success, a 4xx or 5xx code for
        every failure. */
    function Status(): (code: int)
      requires !NoResponse?
      ensures code == 201 <==> Created?
      ensures !Created? ==> 400 <= code < 600
    {
      match this
      case Unauthorized => 401
      case BadRequest => 400
      case NotFound => 404
      case ServerError => 500
      case Created(_, _) => 201
    }

    /** The `error` text of a failure, or the `message` text of a success. */
    function Message(): string
      requires !NoResponse?
    {
      match this
      case Unauthorized => "User not logged in."
      case BadRequest => "All fields are required."
      case NotFound => "Some products not found."
      case ServerError => "Error processing purchase."
      case Created(_, _) => "Purchase completed successfully."
    }
  }
}
