/**
 * The `POST /purchase` handler as written: session gate, required-field
 * check, cart parsing, catalog count check, header insert, line-item
 * construction and batch insert, with every thrown error after the cart is
 * parsed turned into a 500 answer.
 *
 * `Checkout` says what one request answers and which rows it adds;
 * `HandlePurchase` performs the same steps against a `Database` and is
 * proved to do exactly that. The lemmas state what the handler promises.
 */
module Purchases {
  import opened JsValues
  import opened JsStrings
  import opened Records
  import opened Cart
  import opened Store

  /** Which of the three database calls throw: the product lookup, the
      header insert and the item batch insert. */
  datatype Faults = Faults(lookupThrows: bool, createThrows: bool, createManyThrows: bool)

  /** The answer to one request and the rows it appends to each table. */
  datatype Effect = Effect(response: Response, purchases: seq<Purchase>, items: seq<PurchaseItem>)

  /** The header row: the customer from the session, the server's clock,
      and every address, card and invoice field as received. */
  function NewPurchase(purchaseId: int, customerId: int, body: Body, orderDate: int): (p: Purchase)
    ensures p.purchaseId == purchaseId && p.customerId == customerId && p.orderDate == orderDate
    ensures body == Body(p.street, p.city, p.province, p.country, p.postalCode, p.creditCard,
                         p.creditExpire, p.creditCvv, body.cart, p.invoiceAmt, p.invoiceTax,
                         p.invoiceTotal)
  {
    Purchase(purchaseId, customerId, body.street, body.city, body.province, body.country,
             body.postalCode, body.creditCard, body.creditExpire, body.creditCvv,
             body.invoiceAmt, body.invoiceTax, body.invoiceTotal, orderDate)
  }

  /** What the handler does with one request. `purchaseId` is the id the
      database generates for the new header and `orderDate` the time of
      the insert. */
  function Checkout(catalog: set<int>, session: Session, body: Body, purchaseId: int,
                    orderDate: int, faults: Faults): (e: Effect)
    ensures |e.purchases| <= 1
    ensures e.purchases != [] ==> session.LoggedIn? && e.purchases[0].purchaseId == purchaseId
    ensures forall k :: 0 <= k < |e.items| ==> e.items[k].purchaseId == purchaseId
    ensures e.items != [] <==> e.response.Created?
    ensures e.items != [] ==> e.purchases != []
  {
    if session.Anonymous? then Effect(Unauthorized, [], [])
    else if !AllTruthy(body.Required()) then Effect(BadRequest, [], [])
    else if !body.cart.Str? then Effect(NoResponse, [], [])
    else
      var ids := ParseCart(body.cart.s);
      if faults.lookupThrows then Effect(ServerError, [], [])
      else if |Matching(catalog, ids)| != |ids| then Effect(NotFound, [], [])
      else if faults.createThrows then Effect(ServerError, [], [])
      else
        var row := NewPurchase(purchaseId, session.customerId, body, orderDate);
        var items := BuildItems(ids, purchaseId);
        if faults.createManyThrows then Effect(ServerError, [row], [])
        else Effect(Created(row.Summary(), items), [row], items)
  }

  /** The handler, step by step, against the database. */
  method HandlePurchase(db: Database, session: Session, body: Body, purchaseId: int,
                        orderDate: int, faults: Faults) returns (response: Response)
    modifies db
    ensures var e := Checkout(db.products, session, body, purchaseId, orderDate, faults);
            && response == e.response
            && db.purchases == old(db.purchases) + e.purchases
            && db.purchaseItems == old(db.purchaseItems) + e.items
    ensures ItemsHaveParents(old(db.purchases), old(db.purchaseItems))
            ==> ItemsHaveParents(db.purchases, db.purchaseItems)
  {
    ghost var e := Checkout(db.products, session, body, purchaseId, orderDate, faults);
    ItemsKeepTheirParents(db.purchases, db.purchaseItems, e, purchaseId);
    assert db.purchases + [] == db.purchases && db.purchaseItems + [] == db.purchaseItems;
    if session.Anonymous? {
      return Unauthorized;
    }
    if !AllTruthy(body.Required()) {
      return BadRequest;
    }
    if !body.cart.Str? {
      // `cart.split` is not a function: a TypeError before the try block
      return NoResponse;
    }
    var ids := ParseCart(body.cart.s);
    if faults.lookupThrows {
      return ServerError;
    }
    var found := Matching(db.products, ids);
    if |found| != |ids| {
      return NotFound;
    }
    var row := NewPurchase(purchaseId, session.customerId, body, orderDate);
    var ok := db.CreatePurchase(row, faults.createThrows);
    if !ok {
      return ServerError;
    }
    var items := BuildItems(ids, row.purchaseId);
    ok := db.CreateManyItems(items, faults.createManyThrows);
    if !ok {
      return ServerError;
    }
    response := Created(row.Summary(), items);
  }

  /** Helper for HandlePurchase: the rows a request adds never name a
      purchase without a header. */
  lemma ItemsKeepTheirParents(purchases: seq<Purchase>, items: seq<PurchaseItem>, e: Effect, purchaseId: int)
    requires |e.purchases| == 1 ==> e.purchases[0].purchaseId == purchaseId
    requires forall k :: 0 <= k < |e.items| ==> e.items[k].purchaseId == purchaseId
    requires e.items != [] ==> |e.purchases| == 1
    ensures ItemsHaveParents(purchases, items) ==> ItemsHaveParents(purchases + e.purchases, items + e.items)
  {
    var ps, its := purchases + e.purchases, items + e.items;
    if ItemsHaveParents(purchases, items) {
      forall k | 0 <= k < |its| ensures HasPurchase(ps, its[k].purchaseId) {
        if k < |items| {
          assert its[k] == items[k];
          HasPurchaseAppend(purchases, e.purchases, items[k].purchaseId);
        } else {
          assert its[k] == e.items[k - |items|];
          assert e.purchases[0].purchaseId == its[k].purchaseId;
          HasPurchaseAppend(purchases, e.purchases, its[k].purchaseId);
        }
      }
    }
  }

  // ---------------------------------------------------------------------
  // What the handler promises
  // ---------------------------------------------------------------------

  /** The session gate comes first: a request without a session user is
      answered 401, whatever its body, and writes nothing; every other
      request gets past it. */
  lemma NoSessionIsUnauthorized(catalog: set<int>, session: Session, body: Body, purchaseId: int,
                                orderDate: int, faults: Faults)
    ensures var e := Checkout(catalog, session, body, purchaseId, orderDate, faults);
            (e.response.Unauthorized? <==> session.Anonymous?)
            && (session.Anonymous? ==> e.purchases == [] && e.items == [])
  {
  }

  /** A logged-in request is answered 400 exactly when one of the twelve
      required fields is falsy, and then nothing is written. */
  lemma MissingFieldIsBadRequest(catalog: set<int>, customerId: int, body: Body, purchaseId: int,
                                 orderDate: int, faults: Faults)
    ensures var e := Checkout(catalog, LoggedIn(customerId), body, purchaseId, orderDate, faults);
            (e.response.BadRequest? <==> exists i :: 0 <= i < 12 && !Truthy(body.Required()[i]))
            && (e.response.BadRequest? ==> e.purchases == [] && e.items == [])
  {
  }

  /** Falsy includes an empty string and a numeric zero: an invoice amount,
      tax or total of 0 is rejected as a missing field. */
  lemma ZeroInvoiceIsBadRequest(catalog: set<int>, customerId: int, body: Body, purchaseId: int,
                                orderDate: int, faults: Faults)
    requires body.invoiceAmt == Num(0.0) || body.invoiceTax == Num(0.0)
             || body.invoiceTotal == Num(0.0) || body.street == Str("")
    ensures Checkout(catalog, LoggedIn(customerId), body, purchaseId, orderDate, faults)
            == Effect(BadRequest, [], [])
  {
    assert !AllTruthy(body.Required()) by {
      if body.invoiceAmt == Num(0.0) {
        assert !Truthy(body.Required()[9]);
      } else if body.invoiceTax == Num(0.0) {
        assert !Truthy(body.Required()[10]);
      } else if body.invoiceTotal == Num(0.0) {
        assert !Truthy(body.Required()[11]);
      } else {
        assert !Truthy(body.Required()[0]);
      }
    }
  }

  /** A truthy cart that is not a string (a number, `true`, an array)
      makes `cart.split` throw before the try block: no answer is sent
      and nothing is written. */
  lemma NonStringCartGetsNoResponse(catalog: set<int>, session: Session, body: Body, purchaseId: int,
                                    orderDate: int, faults: Faults)
    ensures var e := Checkout(catalog, session, body, purchaseId, orderDate, faults);
            e.response.NoResponse?
            <==> (session.LoggedIn? && AllTruthy(body.Required()) && !body.cart.Str?)
    ensures var e := Checkout(catalog, session, body, purchaseId, orderDate, faults);
            e.response.NoResponse? ==> e.purchases == [] && e.items == []
  {
  }

  /** Past validation, the answer is 404 exactly when the number of catalog
      products matching the ids differs from the number of cart tokens;
      nothing is written then. */
  lemma CountMismatchIsNotFound(catalog: set<int>, customerId: int, body: Body, purchaseId: int,
                                orderDate: int, faults: Faults)
    requires AllTruthy(body.Required()) && body.cart.Str? && !faults.lookupThrows
    ensures var e := Checkout(catalog, LoggedIn(customerId), body, purchaseId, orderDate, faults);
            var ids := ParseCart(body.cart.s);
            (e.response.NotFound? <==> |Matching(catalog, ids)| != |ids|)
            && (e.response.NotFound? ==> e.purchases == [] && e.items == [])
  {
  }

  /** Which answers touch the store: 401, 400, 404 and the missing answer
      never do; a 500 adds at most a header and never an item; a 201 adds
      one header and one item per cart token. */
  lemma OnlyLateOutcomesWrite(catalog: set<int>, session: Session, body: Body, purchaseId: int,
                              orderDate: int, faults: Faults)
    ensures var e := Checkout(catalog, session, body, purchaseId, orderDate, faults);
            (e.response.Unauthorized? || e.response.BadRequest? || e.response.NotFound? || e.response.NoResponse?)
            ==> e.purchases == [] && e.items == []
    ensures var e := Checkout(catalog, session, body, purchaseId, orderDate, faults);
            e.response.ServerError? ==> |e.purchases| <= 1 && e.items == []
    ensures var e := Checkout(catalog, session, body, purchaseId, orderDate, faults);
            e.response.Created? ==>
              (|e.purchases| == 1 && body.cart.Str? && |e.items| == multiset(body.cart.s)[','] + 1)
  {
  }

  /** A header is written only for a cart whose ids are integers, all
      different and all in the catalog. */
  lemma WrittenCartsAreDistinctAndKnown(catalog: set<int>, session: Session, body: Body, purchaseId: int,
                                        orderDate: int, faults: Faults)
    requires Checkout(catalog, session, body, purchaseId, orderDate, faults).purchases != []
    ensures body.cart.Str?
    ensures var ids := ParseCart(body.cart.s);
            AllInts(ids) && Distinct(ids) && forall i :: 0 <= i < |ids| ==> ids[i].value in catalog
  {
    AcceptedIdsAreDistinctAndKnown(catalog, ParseCart(body.cart.s));
  }

  /** Conversely, a logged-in request with every field truthy, a cart
      string whose ids are integers, all different and all in the catalog,
      and no database error is answered 201: one header, and one item per
      token with quantity 1. */
  lemma DistinctKnownCartIsCreated(catalog: set<int>, customerId: int, body: Body, purchaseId: int,
                                   orderDate: int)
    requires AllTruthy(body.Required()) && body.cart.Str?
    requires var ids := ParseCart(body.cart.s);
             AllInts(ids) && Distinct(ids) && forall i :: 0 <= i < |ids| ==> ids[i].value in catalog
    ensures var e := Checkout(catalog, LoggedIn(customerId), body, purchaseId, orderDate, Faults(false, false, false));
            var row := NewPurchase(purchaseId, customerId, body, orderDate);
            && e.response == Created(row.Summary(), e.items)
            && e.purchases == [row]
            && |e.items| == |ParseCart(body.cart.s)|
            && forall k :: 0 <= k < |e.items| ==> e.items[k] == PurchaseItem(purchaseId, ParseCart(body.cart.s)[k], 1)
  {
    var ids := ParseCart(body.cart.s);
    DistinctKnownIdsPass(catalog, ids);
    UnitQuantities(ids, purchaseId);
  }

  /** A cart that names an id twice is never accepted and writes nothing. */
  lemma RepeatedIdIsNeverAccepted(catalog: set<int>, session: Session, body: Body, purchaseId: int,
                                  orderDate: int, faults: Faults, i: nat, j: nat)
    requires body.cart.Str?
    requires i < j < |ParseCart(body.cart.s)|
    requires ParseCart(body.cart.s)[i] == ParseCart(body.cart.s)[j]
    ensures var e := Checkout(catalog, session, body, purchaseId, orderDate, faults);
            !e.response.Created? && e.purchases == [] && e.items == []
  {
    if Checkout(catalog, session, body, purchaseId, orderDate, faults).purchases != [] {
      WrittenCartsAreDistinctAndKnown(catalog, session, body, purchaseId, orderDate, faults);
    }
  }

  /** A cart with a token that is not a number, or names a product outside
      the catalog, is never accepted and writes nothing. */
  lemma UnknownIdIsNeverAccepted(catalog: set<int>, session: Session, body: Body, purchaseId: int,
                                 orderDate: int, faults: Faults, i: nat)
    requires body.cart.Str?
    requires i < |ParseCart(body.cart.s)|
    requires ParseCart(body.cart.s)[i].NaN? || ParseCart(body.cart.s)[i].value !in catalog
    ensures var e := Checkout(catalog, session, body, purchaseId, orderDate, faults);
            !e.response.Created? && e.purchases == [] && e.items == []
  {
    if Checkout(catalog, session, body, purchaseId, orderDate, faults).purchases != [] {
      WrittenCartsAreDistinctAndKnown(catalog, session, body, purchaseId, orderDate, faults);
    }
  }

  /** A successful checkout writes one header carrying the session's
      customer, the generated id, the insert time and the body's fields as
      received; it writes one item per token, in token order, each naming
      the new purchase with quantity 1; the answer echoes the header
      without its card fields, and the items. */
  lemma SuccessfulCheckout(catalog: set<int>, session: Session, body: Body, purchaseId: int,
                           orderDate: int, faults: Faults)
    requires Checkout(catalog, session, body, purchaseId, orderDate, faults).response.Created?
    ensures session.LoggedIn? && body.cart.Str?
    ensures var e := Checkout(catalog, session, body, purchaseId, orderDate, faults);
            var ids := ParseCart(body.cart.s);
            && |e.purchases| == 1
            && e.purchases[0] == Purchase(purchaseId, session.customerId, body.street, body.city,
                                          body.province, body.country, body.postalCode,
                                          body.creditCard, body.creditExpire, body.creditCvv,
                                          body.invoiceAmt, body.invoiceTax, body.invoiceTotal, orderDate)
            && e.response.purchase == e.purchases[0].Summary()
            && e.response.items == e.items
            && |e.items| == |ids|
            && forall k :: 0 <= k < |ids| ==>
                 e.items[k] == PurchaseItem(purchaseId, ids[k], 1)
  {
    var ids := ParseCart(body.cart.s);
    WrittenCartsAreDistinctAndKnown(catalog, session, body, purchaseId, orderDate, faults);
    UnitQuantities(ids, purchaseId);
  }

  /** Without a transaction, an item insert that throws after the header
      insert succeeded leaves the header in place with no items and
      answers 500: the store then holds a purchase with no items. */
  lemma ItemFailureOrphansHeader(catalog: set<int>, customerId: int, body: Body, purchaseId: int,
                                 orderDate: int, faults: Faults,
                                 purchases: seq<Purchase>, items: seq<PurchaseItem>)
    requires AllTruthy(body.Required()) && body.cart.Str?
    requires |Matching(catalog, ParseCart(body.cart.s))| == |ParseCart(body.cart.s)|
    requires faults == Faults(false, false, true)
    requires forall k :: 0 <= k < |items| ==> items[k].purchaseId != purchaseId
    ensures var e := Checkout(catalog, LoggedIn(customerId), body, purchaseId, orderDate, faults);
            && e.response == ServerError
            && e.purchases == [NewPurchase(purchaseId, customerId, body, orderDate)]
            && e.items == []
            && !PurchasesHaveItems(purchases + e.purchases, items + e.items)
  {
    var e := Checkout(catalog, LoggedIn(customerId), body, purchaseId, orderDate, faults);
    var ps, its := purchases + e.purchases, items + e.items;
    assert its == items;
    assert ps[|purchases|].purchaseId == purchaseId;
  }

  /** The answer's `purchase` object leaves out the card number, expiry
      and CVV: headers that differ only there give the same answer. */
  lemma SummaryOmitsCardFields(p: Purchase, card: JsValue, expire: JsValue, cvv: JsValue)
    ensures p.(creditCard := card, creditExpire := expire, creditCvv := cvv).Summary() == p.Summary()
    ensures p.Summary().purchaseId == p.purchaseId && p.Summary().customerId == p.customerId
            && p.Summary().orderDate == p.orderDate && p.Summary().invoiceTotal == p.invoiceTotal
  {
  }

  /** The cart the source's own comment gives as an example, "2,5,5,4",
      is answered 404 even when products 2, 4 and 5 all exist. */
  lemma DocumentedCartIsRejected(customerId: int, body: Body, purchaseId: int, orderDate: int)
    requires AllTruthy(body.Required()) && body.cart == Str("2,5,5,4")
    ensures Checkout({2, 4, 5}, LoggedIn(customerId), body, purchaseId, orderDate, Faults(false, false, false))
            == Effect(NotFound, [], [])
  {
    DocumentedCartFailsCountCheck(body.cart.s);
  }
}
