# Checkout handler model

A Dafny model of the `POST /purchase` route of a small Express and Prisma
order-processing backend (`routes/purchases.js`), together with proofs of
what the route promises and of where its code departs from its own
comments.

The handler:

1. answers 401 when the session has no user;
2. answers 400 when any of twelve body fields is falsy in the JavaScript
   sense;
3. splits the `cart` string on commas and runs `parseInt(token, 10)` on each
   token;
4. looks the ids up in the product table;
5. answers 404 when the number of matching products differs from the number
   of tokens;
6. inserts a purchase header, then one line item per token (quantity = the
   number of parsed ids `===` to its id, so " 5" and "05" count together),
   in a separate batch insert;
7. answers 201 with the header (without the card fields) and the items;
8. turns any error thrown from step 4 onward into a 500.

The files:

- `js_values.dfy` (`JsValues`): the JSON values a body carries, plus
  `undefined`, and JavaScript truthiness.
- `js_strings.dfy` (`JsStrings`): `split` with a one-character separator and
  `parseInt` in radix 10, with their round trips (`Join`/`Split`, decimal
  rendering/`ParseInt`).
- `records.dfy` (`Records`): the session, the request body, the purchase and
  purchase-item rows, and the HTTP responses with their status codes and
  texts.
- `cart.dfy` (`Cart`): the pure steps of the handler. It covers cart
  parsing, the set of products `findMany` returns, the quantity filter and
  the item list.
- `store.dfy` (`Store`): a `Database` class whose purchase and item tables
  are sequence fields that the insert methods append to. Each insert may
  throw, and whether it does is a parameter.
- `purchases.dfy` (`Purchases`): the handler as written.
  - `Checkout` is a function that gives the answer and the rows one request
    adds.
  - `HandlePurchase` is a method that runs the handler's steps against a
    `Database`. It is proved to answer and write exactly what `Checkout`
    says.
  - The lemmas state the route's promises and its defects.
- `deduplicated.dfy` (`Deduplicated`): a corrected checkout. It counts
  distinct ids, builds one item per distinct id with its number of
  occurrences as quantity, and runs both inserts in one transaction.
  `HandlePurchaseAtomic` is proved against `CheckoutAtomic`.

The request's environment appears as parameters:

- the session;
- the product catalog (a set of ids);
- the id the database generates for the new header;
- the clock reading used as order date;
- which of the three database calls throw.

`Purchases` models the code exactly as written. Two of its behaviours look
unintended, and `Deduplicated` corrects them (see "Findings"):

- Repeated ids. The comment at routes/purchases.js:25 gives "2,5,5,4" as
  an example cart. Line 87 counts how often each id occurs and uses that
  as the quantity, which is only useful if repeated ids can reach line 82.
  But the count check at line 58 compares the products found, one per
  distinct id, with the number of tokens. So any repeat answers 404
  (`Purchases.DocumentedCartIsRejected`, `Purchases.RepeatedIdIsNeverAccepted`),
  and every written quantity is 1.
- No transaction. The header insert (line 63) and the item insert
  (line 92) are separate calls. When the second throws, the answer is 500,
  but the header stays in the table with no items, as an order with no
  contents (`Purchases.ItemFailureOrphansHeader`). The corrected checkout
  writes both or neither.

## Model

| member | source | states |
|---|---|---|
| JsStrings.Split | routes/purchases.js:50 | `cart.split(',')` always yields at least one piece, and no piece contains the separator |
| JsStrings.SplitCount | routes/purchases.js:50 | split yields exactly one more piece than there are separators in the string |
| JsStrings.JoinSplit | routes/purchases.js:50 | joining the pieces with the separator gives back the original string |
| JsStrings.SplitJoin | routes/purchases.js:50 | splitting a join of separator-free pieces gives back those pieces |
| JsStrings.SplitWithoutSeparator | routes/purchases.js:50 | a token without commas splits into itself |
| JsStrings.SplitAtSeparator | routes/purchases.js:50 | the first piece ends at the first separator and the rest is split independently |
| JsStrings.TrimStart | routes/purchases.js:50 | the white-space skipping that `parseInt` does first leaves a string that does not start with white space |
| JsStrings.TrimStartDropsOnlyWhitespace | routes/purchases.js:50 | trimming removes a run of white space from the front and nothing else: the result is a suffix of the string, and everything before it is white space |
| JsStrings.DigitPrefix | routes/purchases.js:50 | `parseInt` reads the longest run of decimal digits: all digits, a prefix, stopping at a non-digit |
| JsStrings.ParseIntReadsDecimal | routes/purchases.js:50 | `parseInt(String(n) + tail, 10)` is `n` for every integer `n` and every tail not starting with a digit (round trip) |
| JsStrings.ParseIntReadsNatural | routes/purchases.js:50 | the round trip for a non-negative integer |
| JsStrings.ParseIntReadsNegative | routes/purchases.js:50 | the round trip for a negative integer written with a leading minus |
| JsStrings.DigitsValueOfDigits | routes/purchases.js:50 | reading the decimal digits of a natural number gives the number back |
| JsStrings.ParseIntSkipsWhitespace | routes/purchases.js:50 | leading white space never changes what `parseInt` reads |
| JsStrings.ParseIntNaNWithoutDigits | routes/purchases.js:50 | `parseInt` is NaN exactly when no digit follows the white space and optional sign |
| JsStrings.ParseInt | routes/purchases.js:50 | `parseInt(token, 10)`; no contract of its own: `ParseIntGeneral` gives its value for every token that starts, after white space and an optional sign, with a digit, and `ParseIntNaNWithoutDigits` says every other token is NaN |
| JsStrings.ParseIntGeneral | routes/purchases.js:50 | white space, an optional `+` or `-`, then a maximal digit run reads as the run's value, negated after `-`; covers signed and zero-padded tokens such as "+5", "05", " -007x" |
| JsStrings.ParseIntSigned | routes/purchases.js:50 | the same reading for a token without leading white space |
| JsStrings.ParseIntUnsigned | routes/purchases.js:50 | a maximal digit run at the start reads as its value |
| JsStrings.ParseIntWithSign | routes/purchases.js:50 | `+` or `-` followed by a maximal digit run reads as the run's value, negated after `-` |
| JsValues.Truthy | routes/purchases.js:32-47 | JavaScript truthiness; no contract of its own: `FalsyValues` lists the falsy values |
| JsValues.FalsyValues | routes/purchases.js:32-47 | a value is falsy exactly when it is `undefined`, `null`, `false`, `0` or the empty string |
| JsValues.AllTruthy | routes/purchases.js:32-47 | every listed value is truthy; no contract of its own: `Records.Body.Required` ties it to the handler's test |
| Records.Body.Required | routes/purchases.js:32-47 | the twelve fields; all of them are truthy exactly when none of `!street`, …, `!invoice_total` holds, so the validation passes |
| Records.Purchase.Summary | routes/purchases.js:99-111 | the answered `purchase` object: adding back the header's card number, expiry and CVV gives the header again, so only those three fields are left out |
| Records.Response.Status | routes/purchases.js:11-116 | the status code is 201 exactly for a success, and a 4xx or 5xx code for every failure |
| Cart.ParseCart | routes/purchases.js:50 | one id per comma-separated token, in order: commas + 1 ids, the i-th being `parseInt` of the i-th token |
| Cart.Numbers | routes/purchases.js:54-56 | the integers among the ids, each once: `n` is in it exactly when `Int(n)` is one of the ids |
| Cart.Matching | routes/purchases.js:54-56 | `findMany` with `in: productIds` returns exactly the catalog products whose id is among the ids; a NaN id matches nothing |
| Cart.NumbersBound | routes/purchases.js:54-58 | there are never more distinct matching values than ids, and there are as many only when all ids are integers without repeats |
| Cart.AcceptedIdsAreDistinctAndKnown | routes/purchases.js:58-60 | the count check passes only when all ids are integers, pairwise different and in the catalog |
| Cart.NumbersAreDistinctInts | routes/purchases.js:54-58 | distinct integer ids have as many distinct values as there are ids |
| Cart.DistinctAppend | routes/purchases.js:58 | appending an element not yet present keeps a sequence free of repeats |
| Cart.DistinctKnownIdsPass | routes/purchases.js:54-58 | integer ids that are pairwise different and all in the catalog pass the count check |
| Cart.CountCheckPasses | routes/purchases.js:54-60 | the count check passes exactly when all ids are integers, pairwise different and in the catalog |
| Cart.Quantity | routes/purchases.js:87 | the `filter(===).length` count: never more than the number of ids, and 0 for a NaN id; `QuantityCountsOccurrences` gives its value |
| Cart.QuantityCountsOccurrences | routes/purchases.js:87 | `productIds.filter((id) => id === productId).length` is the number of occurrences of an integer id, and 0 for NaN |
| Cart.DistinctOccursOnce | routes/purchases.js:87 | in an id list without repeats, every id occurs exactly once |
| Cart.BuildItems | routes/purchases.js:82-89 | one item per token, in token order, each naming the new purchase and that token's id |
| Cart.ItemQuantities | routes/purchases.js:82-89 | each item's quantity is the occurrence count of its id: at least 1 for an integer id |
| Cart.UnitQuantities | routes/purchases.js:58-89 | once the count check has passed, every quantity is exactly 1 |
| Cart.ParseOneDigit | routes/purchases.js:50 | a one-digit token parses to that digit |
| Cart.ParseFourDigitCart | routes/purchases.js:50 | a cart of four one-digit tokens parses to those four digits |
| Cart.SplitFourTokens | routes/purchases.js:50 | a cart of four one-character tokens splits into those tokens |
| Cart.ParseDocumentedCart | routes/purchases.js:25-50 | the documented example cart "2,5,5,4" parses to the ids 2, 5, 5, 4, repeat included |
| Cart.DocumentedCartFailsCountCheck | routes/purchases.js:25-60 | the documented cart fails the count check although products 2, 4 and 5 all exist |
| Store.HasPurchaseAppend | routes/purchases.js:63-79 | appending header rows keeps every existing header and adds the new ones |
| Store.HasItemAppend | routes/purchases.js:92-94 | appending item rows keeps every existing item and adds the new ones |
| Store.Database.constructor | routes/purchases.js:4 | the store the client connects to: the catalog and whatever purchase and item rows the tables already hold |
| Store.Database.CreatePurchase | routes/purchases.js:63-79 | `purchase.create` appends the header row unless it throws, and leaves the items alone |
| Store.Database.CreateManyItems | routes/purchases.js:92-94 | `purchaseItem.createMany` appends all rows or none, and leaves the headers alone |
| Store.Database.CreatePurchaseWithItems | routes/purchases.js:63-94 | a transaction around both inserts: both tables grow only when neither insert throws, otherwise both are unchanged |
| Purchases.HandlePurchase | routes/purchases.js:9-117 | the handler's steps answer exactly `Checkout`'s response and append exactly its rows; a store whose items all have a header keeps that property |
| Purchases.NewPurchase | routes/purchases.js:63-79 | the header carries the given id, customer and order date, and every body field except the cart: rebuilding a body from the header and the cart gives the body back |
| Purchases.Checkout | routes/purchases.js:9-117 | one request adds at most one header, with the generated id and only for a logged-in user; every item names that id; there are items exactly when the answer is 201, and then there is a header |
| Purchases.ItemsKeepTheirParents | routes/purchases.js:63-94 | the rows one request adds never create an item without a header |
| Purchases.NoSessionIsUnauthorized | routes/purchases.js:11-13 | 401 exactly when there is no session user, and then nothing is written |
| Purchases.MissingFieldIsBadRequest | routes/purchases.js:32-47 | for a logged-in user, 400 exactly when one of the twelve required fields is falsy, and then nothing is written |
| Purchases.ZeroInvoiceIsBadRequest | routes/purchases.js:32-47 | an invoice amount, tax or total of 0, or an empty street, is rejected as missing |
| Purchases.NonStringCartGetsNoResponse | routes/purchases.js:41-53 | a truthy cart that is not a string makes `split` throw outside the try block: no answer, nothing written, and only then |
| Purchases.CountMismatchIsNotFound | routes/purchases.js:54-60 | past validation, 404 exactly when the matching product count differs from the token count, and nothing is written |
| Purchases.OnlyLateOutcomesWrite | routes/purchases.js:58-117 | 401, 400, 404 and the missing answer write nothing; a 500 writes at most a header and no items; a 201 writes one header and one item per token |
| Purchases.WrittenCartsAreDistinctAndKnown | routes/purchases.js:58-79 | a header is written only for a cart whose ids are integers, all different and all in the catalog |
| Purchases.DistinctKnownCartIsCreated | routes/purchases.js:32-113 | a logged-in request with every field truthy, whose cart ids are different known integers, is answered 201 when no database call throws: one header, and one item per token with quantity 1 |
| Purchases.RepeatedIdIsNeverAccepted | routes/purchases.js:50-60 | a cart naming a product twice never succeeds and writes nothing |
| Purchases.UnknownIdIsNeverAccepted | routes/purchases.js:50-60 | a cart with a non-numeric token or an unknown product never succeeds and writes nothing |
| Purchases.SuccessfulCheckout | routes/purchases.js:63-113 | a 201 writes the header with the session customer, the generated id, the order date and the body's fields; it writes one item per token in order, with quantity 1; the answer echoes the header summary and the items |
| Purchases.ItemFailureOrphansHeader | routes/purchases.js:63-116 | if the item insert throws after the header insert, the answer is 500 and the header stays without items |
| Purchases.SummaryOmitsCardFields | routes/purchases.js:99-111 | the answered `purchase` object does not depend on the card number, expiry or CVV, and carries the header's id, customer, date and total |
| Purchases.DocumentedCartIsRejected | routes/purchases.js:25-60 | the documented cart "2,5,5,4" is answered 404 with products 2, 4 and 5 in the catalog |
| Deduplicated.Dedup | routes/purchases.js:82-89 | the distinct ids: no repeats, the same members as the ids, never longer |
| Deduplicated.ItemsFor | routes/purchases.js:82-89 | one item per distinct id, in order, naming the new purchase |
| Deduplicated.HandlePurchaseAtomic | routes/purchases.js:9-117 | the corrected handler answers and writes exactly `CheckoutAtomic`; it keeps both "every item has a header" and "every header has an item" |
| Deduplicated.CheckoutAtomic | routes/purchases.js:9-117 | the corrected checkout adds at most one header, and does so exactly when it answers 201; every item names the new id and comes with a header |
| Deduplicated.DedupCountCheck | routes/purchases.js:58-60 | the corrected count check passes exactly when every id is an integer in the catalog, repeats allowed |
| Deduplicated.DedupCountCheckPassed | routes/purchases.js:58-60 | a passing corrected count check means every id is a known integer |
| Deduplicated.DedupCountCheckPasses | routes/purchases.js:58-60 | a cart of known integer ids passes the corrected count check |
| Deduplicated.SumQuantitiesAppend | routes/purchases.js:87 | one more token adds one to the summed quantities exactly when its id is listed |
| Deduplicated.QuantitiesAddUp | routes/purchases.js:87 | over the distinct ids, the quantities add up to the number of tokens |
| Deduplicated.TotalOfItems | routes/purchases.js:82-89 | the items' total quantity is the sum of the per-id quantities |
| Deduplicated.AtomicSuccess | routes/purchases.js:63-113 | a corrected 201 writes one header and one item per distinct product: items pairwise different, each product known, quantity = its occurrence count, every token covered, and quantities summing to the token count |
| Deduplicated.DedupItems | routes/purchases.js:82-89 | the same item facts for any cart of known integer ids |
| Deduplicated.SameNumbers | routes/purchases.js:54-56 | id lists with the same members match the same products |
| Deduplicated.AtomicAllOrNothing | routes/purchases.js:63-94 | the corrected checkout writes nothing unless it answers 201, and then a header with a non-empty item list |
| Deduplicated.AtomicKeepsStoreInvariants | routes/purchases.js:63-94 | the corrected checkout keeps "every item has a header" and "every header has an item" |
| Deduplicated.AtomicAgreesOnDistinctCarts | routes/purchases.js:9-117 | on carts without repeats and without an item-insert failure, the corrected checkout answers and writes exactly what the handler as written does |
| Deduplicated.DedupOfDistinct | routes/purchases.js:87 | deduplicating ids that have no repeats changes nothing |
| Deduplicated.AtomicAcceptsDocumentedCart | routes/purchases.js:25 | the corrected checkout accepts "2,5,5,4" and writes items (2, 1), (5, 2), (4, 1) |
| Deduplicated.DocumentedCartItems | routes/purchases.js:25-89 | for "2,5,5,4" the corrected count check passes and the items are (2, 1), (5, 2), (4, 1) |
| Deduplicated.DocumentedIdsAccepted | routes/purchases.js:54-60 | the ids 2, 5, 5, 4 pass the corrected count check against products 2, 4 and 5 |
| Deduplicated.DocumentedIdsItems | routes/purchases.js:82-89 | the ids 2, 5, 5, 4 give the items (2, 1), (5, 2), (4, 1) |
| Deduplicated.DedupOfDocumentedIds | routes/purchases.js:25 | the distinct ids of 2, 5, 5, 4 are 2, 5, 4 |

## Left out

- `app.js` (server bootstrap, session cookie middleware, JSON body parsing,
  route mounting) is plumbing. The session reaches the model as a parameter
  that already holds the user's `customer_id`.
- The Express response object and the asynchronous control flow are not
  modelled. A response is a value. An `await` that rejects is a boolean
  fault parameter.
- The clock (`new Date()`) and the generated `purchase_id` are parameters.
  The model does not claim they are fresh or increasing.
- JSON numbers are modelled as exact reals. Floating-point rounding of
  invoice amounts is not modelled.
- `parseInt` on digit runs too long for a double, where precision is lost,
  is modelled with exact integers.
- Prisma's own validation of the `in` list is not modelled:
  - its rejection of NaN or of values outside the 32-bit integer column
    range, which would be a thrown error and hence a 500;
  - its check of the types of the stored body fields.

  The model instead lets a NaN or out-of-range id match no product, which
  gives 404. Either way nothing is written.
- Line 83 (`products.find(...)`) computes a value that is never used, so it
  has no counterpart.
- `Records.Response.Message` has no contract. It only maps each response to
  the text at lines 12, 46, 59, 98 and 115.
- A TypeError from `cart.split` happens in an async handler outside the try
  block. It becomes a rejected promise that no code in this route answers.
  The model records it as `NoResponse`, and what Express does afterwards is
  not modelled.

## Findings

| source | as written | input that shows it | evidently intended | confidence | as-written member | corrected member |
|---|---|---|---|---|---|---|
| routes/purchases.js:25-60 | the count check compares the matching products, one per distinct id, with the number of tokens, so any repeated id fails with 404; the per-token quantity count at line 87 can then only ever be 1 | cart "2,5,5,4" (the comment's own example) with products 2, 4 and 5 in the catalog answers 404 | compare with the number of distinct ids and write one item per distinct id, with its occurrence count as quantity | not executed | Purchases.DocumentedCartIsRejected | Deduplicated.AtomicAcceptsDocumentedCart |
| routes/purchases.js:63-94 | the header insert and the item insert are separate calls with no transaction | a valid cart whose item insert throws: the answer is 500, but the header row stays, with no items | both inserts commit together or not at all | not executed | Purchases.ItemFailureOrphansHeader | Deduplicated.AtomicKeepsStoreInvariants |
