/**
 * A corrected checkout. The handler's comments expect repeated ids: the
 * example cart "2,5,5,4" and the per-id occurrence count used as quantity.
 * Here the count check compares the matching products with the DISTINCT
 * ids, and one line item is built per distinct id with the number of its
 * occurrences as quantity. Running the header and item inserts in one
 * transaction is this model's own correction: without it a failed item
 * insert leaves a purchase with no items.
 */
module Deduplicated {
  import opened JsValues
  import opened JsStrings
  import opened Records
  import opened Cart
  import opened Store
  import opened Purchases

  /** The distinct ids, as `[...new Set(ids)]` gives them: every id once.
      (A JavaScript Set treats NaN as equal to itself, as `==` does here.) */
  function Dedup(s: seq<ParsedInt>): (d: seq<ParsedInt>)
    ensures Distinct(d)
    ensures forall x :: x in d <==> x in s
    ensures |d| <= |s|
  {
    if s == [] then []
    else
      var prefix, last := s[..|s| - 1], s[|s| - 1];
      assert s == prefix + [last];
      var d := Dedup(prefix);
      if last in d then d else d + [last]
  }

  /** One line item per distinct id, counting its occurrences. */
  function ItemsFor(distinct: seq<ParsedInt>, ids: seq<ParsedInt>, purchaseId: int): (items: seq<PurchaseItem>)
    ensures |items| == |distinct|
    ensures forall i :: 0 <= i < |items| ==>
              items[i].purchaseId == purchaseId && items[i].productId == distinct[i]
  {
    seq(|distinct|, i requires 0 <= i < |distinct| =>
      PurchaseItem(purchaseId, distinct[i], Quantity(ids, distinct[i])))
  }

  function TotalQuantity(items: seq<PurchaseItem>): nat
  {
    if items == [] then 0 else TotalQuantity(items[..|items| - 1]) + items[|items| - 1].quantity
  }

  /** The corrected checkout. It differs from `Checkout` in the count
      check, in the items it builds, and in writing both tables or
      neither. */
  function CheckoutAtomic(catalog: set<int>, session: Session, body: Body, purchaseId: int,
                          orderDate: int, faults: Faults): (e: Effect)
    ensures |e.purchases| <= 1
    ensures e.purchases != [] <==> e.response.Created?
    ensures e.items != [] ==> e.purchases != []
    ensures forall k :: 0 <= k < |e.items| ==> e.items[k].purchaseId == purchaseId
  {
    if session.Anonymous? then Effect(Unauthorized, [], [])
    else if !AllTruthy(body.Required()) then Effect(BadRequest, [], [])
    else if !body.cart.Str? then Effect(NoResponse, [], [])
    else
      var ids := ParseCart(body.cart.s);
      if faults.lookupThrows then Effect(ServerError, [], [])
      else if |Matching(catalog, ids)| != |Dedup(ids)| then Effect(NotFound, [], [])
      else if faults.createThrows || faults.createManyThrows then Effect(ServerError, [], [])
      else
        var row := NewPurchase(purchaseId, session.customerId, body, orderDate);
        var items := ItemsFor(Dedup(ids), ids, purchaseId);
        Effect(Created(row.Summary(), items), [row], items)
  }

  /** The corrected handler: both inserts in one transaction. */
  method HandlePurchaseAtomic(db: Database, session: Session, body: Body, purchaseId: int,
                              orderDate: int, faults: Faults) returns (response: Response)
    modifies db
    ensures var e := CheckoutAtomic(db.products, session, body, purchaseId, orderDate, faults);
            && response == e.response
            && db.purchases == old(db.purchases) + e.purchases
            && db.purchaseItems == old(db.purchaseItems) + e.items
    ensures ItemsHaveParents(old(db.purchases), old(db.purchaseItems))
            && PurchasesHaveItems(old(db.purchases), old(db.purchaseItems))
            ==> ItemsHaveParents(db.purchases, db.purchaseItems)
                && PurchasesHaveItems(db.purchases, db.purchaseItems)
  {
    AtomicKeepsStoreInvariants(db.purchases, db.purchaseItems, db.products, session, body,
                               purchaseId, orderDate, faults);
    assert db.purchases + [] == db.purchases && db.purchaseItems + [] == db.purchaseItems;
    if session.Anonymous? {
      return Unauthorized;
    }
    if !AllTruthy(body.Required()) {
      return BadRequest;
    }
    if !body.cart.Str? {
      return NoResponse;
    }
    var ids := ParseCart(body.cart.s);
    if faults.lookupThrows {
      return ServerError;
    }
    var distinct := Dedup(ids);
    if |Matching(db.products, ids)| != |distinct| {
      return NotFound;
    }
    var row := NewPurchase(purchaseId, session.customerId, body, orderDate);
    var items := ItemsFor(distinct, ids, purchaseId);
    var ok := db.CreatePurchaseWithItems(row, items, faults.createThrows, faults.createManyThrows);
    if !ok {
      return ServerError;
    }
    response := Created(row.Summary(), items);
  }

  // ---------------------------------------------------------------------
  // What the corrected checkout promises
  // ---------------------------------------------------------------------

  /** The corrected count check passes exactly when every id is an
      integer in the catalog, repeats allowed. */
  lemma DedupCountCheck(catalog: set<int>, ids: seq<ParsedInt>)
    ensures |Matching(catalog, ids)| == |Dedup(ids)|
            <==> AllInts(ids) && forall i :: 0 <= i < |ids| ==> ids[i].value in catalog
  {
    if |Matching(catalog, ids)| == |Dedup(ids)| {
      DedupCountCheckPassed(catalog, ids);
    }
    if AllInts(ids) && forall i :: 0 <= i < |ids| ==> ids[i].value in catalog {
      DedupCountCheckPasses(catalog, ids);
    }
  }

  lemma DedupCountCheckPassed(catalog: set<int>, ids: seq<ParsedInt>)
    requires |Matching(catalog, ids)| == |Dedup(ids)|
    ensures AllInts(ids) && forall i :: 0 <= i < |ids| ==> ids[i].value in catalog
  {
    var d := Dedup(ids);
    var found, numbers := Matching(catalog, ids), Numbers(ids);
    SameNumbers(d, ids);
    NumbersBound(d);
    assert found <= numbers;
    assert |numbers - found| == |numbers| - |found|;
    assert numbers - found == {};
    forall i | 0 <= i < |ids| ensures ids[i].Int? && ids[i].value in catalog {
      assert ids[i] in d;
      var k :| 0 <= k < |d| && d[k] == ids[i];
      assert d[k].Int?;
      assert ids[i].value in numbers;
    }
  }

  lemma DedupCountCheckPasses(catalog: set<int>, ids: seq<ParsedInt>)
    requires AllInts(ids) && forall i :: 0 <= i < |ids| ==> ids[i].value in catalog
    ensures |Matching(catalog, ids)| == |Dedup(ids)|
  {
    var d := Dedup(ids);
    var found, numbers := Matching(catalog, ids), Numbers(ids);
    SameNumbers(d, ids);
    forall n | n in numbers ensures n in found {
      var i :| 0 <= i < |ids| && ids[i] == Int(n);
    }
    assert found == numbers;
    forall k | 0 <= k < |d| ensures d[k].Int? {
      assert d[k] in ids;
    }
    NumbersAreDistinctInts(d);
  }

  /** Splitting off the last id adds one to the quantity of a distinct id
      list exactly when that id is in the list. */
  lemma {:induction false} SumQuantitiesAppend(distinct: seq<ParsedInt>, prefix: seq<ParsedInt>, last: ParsedInt)
    requires Distinct(distinct) && last.Int?
    ensures SumQuantities(distinct, prefix + [last])
            == SumQuantities(distinct, prefix) + (if last in distinct then 1 else 0)
  {
    var s := prefix + [last];
    if distinct != [] {
      var init, x := distinct[..|distinct| - 1], distinct[|distinct| - 1];
      assert distinct == init + [x];
      assert Distinct(init);
      SumQuantitiesAppend(init, prefix, last);
      assert s[..|s| - 1] == prefix;
      assert Quantity(s, x) == Quantity(prefix, x) + (if StrictEquals(last, x) then 1 else 0);
      assert x !in init;
      assert StrictEquals(last, x) <==> x == last;
    }
  }

  /** The summed quantities over a list of ids. */
  function SumQuantities(distinct: seq<ParsedInt>, ids: seq<ParsedInt>): nat
  {
    if distinct == [] then 0
    else SumQuantities(distinct[..|distinct| - 1], ids) + Quantity(ids, distinct[|distinct| - 1])
  }

  /** Over the distinct ids, the quantities add up to the number of ids. */
  lemma {:induction false} QuantitiesAddUp(ids: seq<ParsedInt>)
    requires AllInts(ids)
    ensures SumQuantities(Dedup(ids), ids) == |ids|
  {
    if ids != [] {
      var prefix, last := ids[..|ids| - 1], ids[|ids| - 1];
      assert ids == prefix + [last];
      QuantitiesAddUp(prefix);
      var d := Dedup(prefix);
      SumQuantitiesAppend(d, prefix, last);
      if last !in d {
        assert Dedup(ids) == d + [last];
        assert (d + [last])[..|d|] == d;
        QuantityCountsOccurrences(prefix, last);
        assert multiset(prefix)[last] == 0;
      }
    }
  }

  lemma {:induction false} TotalOfItems(distinct: seq<ParsedInt>, ids: seq<ParsedInt>, purchaseId: int)
    ensures TotalQuantity(ItemsFor(distinct, ids, purchaseId)) == SumQuantities(distinct, ids)
  {
    if distinct != [] {
      var init := distinct[..|distinct| - 1];
      TotalOfItems(init, ids, purchaseId);
      var items := ItemsFor(distinct, ids, purchaseId);
      assert items[..|items| - 1] == ItemsFor(init, ids, purchaseId);
    }
  }

  /** A corrected checkout that succeeds writes one header and one item per
      distinct product of the cart: the items name every product of the
      cart exactly once, each with its number of occurrences as quantity,
      and the quantities add up to the number of tokens. */
  lemma AtomicSuccess(catalog: set<int>, session: Session, body: Body, purchaseId: int,
                      orderDate: int, faults: Faults)
    requires CheckoutAtomic(catalog, session, body, purchaseId, orderDate, faults).response.Created?
    ensures session.LoggedIn? && body.cart.Str?
    ensures var e := CheckoutAtomic(catalog, session, body, purchaseId, orderDate, faults);
            var ids := ParseCart(body.cart.s);
            && e.purchases == [NewPurchase(purchaseId, session.customerId, body, orderDate)]
            && e.response.items == e.items
            && e.items == ItemsFor(Dedup(ids), ids, purchaseId)
            && Distinct(e.items)
            && (forall k :: 0 <= k < |e.items| ==>
                  e.items[k].purchaseId == purchaseId
                  && e.items[k].productId in ids
                  && e.items[k].productId.Int?
                  && e.items[k].productId.value in catalog
                  && e.items[k].quantity == multiset(ids)[e.items[k].productId] >= 1)
            && (forall i :: 0 <= i < |ids| ==> exists k :: 0 <= k < |e.items| && e.items[k].productId == ids[i])
            && TotalQuantity(e.items) == |ids|
  {
    var ids := ParseCart(body.cart.s);
    DedupCountCheckPassed(catalog, ids);
    DedupItems(catalog, ids, purchaseId);
  }

  /** The items built from a cart of known integer ids. */
  lemma DedupItems(catalog: set<int>, ids: seq<ParsedInt>, purchaseId: int)
    requires AllInts(ids) && forall i :: 0 <= i < |ids| ==> ids[i].value in catalog
    ensures var items := ItemsFor(Dedup(ids), ids, purchaseId);
            && Distinct(items)
            && (forall k :: 0 <= k < |items| ==>
                  items[k].purchaseId == purchaseId
                  && items[k].productId in ids
                  && items[k].productId.Int?
                  && items[k].productId.value in catalog
                  && items[k].quantity == multiset(ids)[items[k].productId] >= 1)
            && (forall i :: 0 <= i < |ids| ==> exists k :: 0 <= k < |items| && items[k].productId == ids[i])
            && TotalQuantity(items) == |ids|
  {
    var d := Dedup(ids);
    var items := ItemsFor(d, ids, purchaseId);
    QuantitiesAddUp(ids);
    TotalOfItems(d, ids, purchaseId);
    forall k | 0 <= k < |items|
      ensures items[k].productId in ids && items[k].productId.Int? && items[k].productId.value in catalog
      ensures items[k].quantity == multiset(ids)[items[k].productId] >= 1
    {
      QuantityCountsOccurrences(ids, d[k]);
      assert d[k] in d;
      assert d[k] in ids;
      var i :| 0 <= i < |ids| && ids[i] == d[k];
      assert multiset(ids)[d[k]] >= 1;
    }
    forall i | 0 <= i < |ids| ensures exists k :: 0 <= k < |items| && items[k].productId == ids[i] {
      assert ids[i] in d;
      var k :| 0 <= k < |d| && d[k] == ids[i];
      assert items[k].productId == ids[i];
    }
    forall k, l | 0 <= k < l < |items| ensures items[k] != items[l] {
      assert items[k].productId == d[k] && items[l].productId == d[l];
    }
  }

  lemma SameNumbers(a: seq<ParsedInt>, b: seq<ParsedInt>)
    requires forall x :: x in a <==> x in b
    ensures Numbers(a) == Numbers(b)
  {
    forall n ensures n in Numbers(a) <==> n in Numbers(b) {
      assert Int(n) in a <==> Int(n) in b;
    }
  }

  /** The corrected checkout writes both tables or neither: every answer
      but 201 leaves the store as it was. */
  lemma AtomicAllOrNothing(catalog: set<int>, session: Session, body: Body, purchaseId: int,
                           orderDate: int, faults: Faults)
    ensures var e := CheckoutAtomic(catalog, session, body, purchaseId, orderDate, faults);
            (!e.response.Created? ==> e.purchases == [] && e.items == [])
            && (e.response.Created? ==> |e.purchases| == 1 && e.items != [])
  {
    var e := CheckoutAtomic(catalog, session, body, purchaseId, orderDate, faults);
    if e.response.Created? {
      assert ParseCart(body.cart.s)[0] in Dedup(ParseCart(body.cart.s));
    }
  }

  /** A store where every item has its header and every header has an
      item keeps both properties through any corrected checkout. */
  lemma AtomicKeepsStoreInvariants(purchases: seq<Purchase>, items: seq<PurchaseItem>,
                                   catalog: set<int>, session: Session, body: Body, purchaseId: int,
                                   orderDate: int, faults: Faults)
    ensures var e := CheckoutAtomic(catalog, session, body, purchaseId, orderDate, faults);
            ItemsHaveParents(purchases, items) && PurchasesHaveItems(purchases, items)
            ==> ItemsHaveParents(purchases + e.purchases, items + e.items)
                && PurchasesHaveItems(purchases + e.purchases, items + e.items)
  {
    var e := CheckoutAtomic(catalog, session, body, purchaseId, orderDate, faults);
    AtomicAllOrNothing(catalog, session, body, purchaseId, orderDate, faults);
    ItemsKeepTheirParents(purchases, items, e, purchaseId);
    var ps, its := purchases + e.purchases, items + e.items;
    if PurchasesHaveItems(purchases, items) && e.response.Created? {
      forall j | 0 <= j < |ps| ensures HasItem(its, ps[j].purchaseId) {
        if j < |purchases| {
          assert ps[j] == purchases[j];
          HasItemAppend(items, e.items, purchases[j].purchaseId);
        } else {
          assert ps[j] == e.purchases[0];
          assert e.items[0].purchaseId == ps[j].purchaseId;
          HasItemAppend(items, e.items, ps[j].purchaseId);
        }
      }
    }
    if !e.response.Created? {
      assert ps == purchases && its == items;
    }
  }

  /** Whenever the cart's ids are already distinct and the item insert does
      not throw, the corrected checkout answers and writes exactly what the
      handler as written does. */
  lemma AtomicAgreesOnDistinctCarts(catalog: set<int>, session: Session, body: Body, purchaseId: int,
                                    orderDate: int, faults: Faults)
    requires body.cart.Str? && Distinct(ParseCart(body.cart.s))
    requires !faults.createManyThrows
    ensures CheckoutAtomic(catalog, session, body, purchaseId, orderDate, faults)
            == Checkout(catalog, session, body, purchaseId, orderDate, faults)
  {
    var ids := ParseCart(body.cart.s);
    DedupOfDistinct(ids);
    assert ItemsFor(Dedup(ids), ids, purchaseId) == BuildItems(ids, purchaseId);
  }

  lemma {:induction false} DedupOfDistinct(s: seq<ParsedInt>)
    requires Distinct(s)
    ensures Dedup(s) == s
  {
    if s != [] {
      var prefix, last := s[..|s| - 1], s[|s| - 1];
      assert Distinct(prefix);
      DedupOfDistinct(prefix);
      assert last !in prefix by {
        forall k | 0 <= k < |prefix| ensures prefix[k] != last {
          assert prefix[k] == s[k];
        }
      }
      assert s == prefix + [last];
    }
  }

  /** The documented cart "2,5,5,4" over products {2, 4, 5} is accepted
      by the corrected checkout with items for 2, 5 and 4 of quantities 1,
      2 and 1. */
  lemma AtomicAcceptsDocumentedCart(customerId: int, body: Body, purchaseId: int, orderDate: int)
    requires AllTruthy(body.Required()) && body.cart == Str("2,5,5,4")
    ensures CheckoutAtomic({2, 4, 5}, LoggedIn(customerId), body, purchaseId, orderDate, Faults(false, false, false)).response
            == Created(NewPurchase(purchaseId, customerId, body, orderDate).Summary(),
                       [PurchaseItem(purchaseId, Int(2), 1), PurchaseItem(purchaseId, Int(5), 2),
                        PurchaseItem(purchaseId, Int(4), 1)])
  {
    DocumentedCartItems(body.cart.s, purchaseId);
  }

  lemma DocumentedCartItems(cart: string, purchaseId: int)
    requires cart == "2,5,5,4"
    ensures var ids := ParseCart(cart);
            && |Matching({2, 4, 5}, ids)| == |Dedup(ids)|
            && ItemsFor(Dedup(ids), ids, purchaseId)
               == [PurchaseItem(purchaseId, Int(2), 1), PurchaseItem(purchaseId, Int(5), 2),
                   PurchaseItem(purchaseId, Int(4), 1)]
  {
    var ids := ParseCart(cart);
    ParseDocumentedCart(cart);
    DocumentedIdsAccepted(ids);
    DocumentedIdsItems(ids, purchaseId);
  }

  lemma DocumentedIdsAccepted(ids: seq<ParsedInt>)
    requires ids == [Int(2), Int(5), Int(5), Int(4)]
    ensures |Matching({2, 4, 5}, ids)| == |Dedup(ids)|
  {
    assert AllInts(ids) && forall i :: 0 <= i < |ids| ==> ids[i].value in {2, 4, 5};
    DedupCountCheckPasses({2, 4, 5}, ids);
  }

  lemma DocumentedIdsItems(ids: seq<ParsedInt>, purchaseId: int)
    requires ids == [Int(2), Int(5), Int(5), Int(4)]
    ensures ItemsFor(Dedup(ids), ids, purchaseId)
            == [PurchaseItem(purchaseId, Int(2), 1), PurchaseItem(purchaseId, Int(5), 2),
                PurchaseItem(purchaseId, Int(4), 1)]
  {
    DedupOfDocumentedIds(ids);
    var items := ItemsFor(Dedup(ids), ids, purchaseId);
    assert multiset(ids) == multiset{Int(2), Int(5), Int(5), Int(4)};
    assert items[0].quantity == 1 by { QuantityCountsOccurrences(ids, Int(2)); }
    assert items[1].quantity == 2 by { QuantityCountsOccurrences(ids, Int(5)); }
    assert items[2].quantity == 1 by { QuantityCountsOccurrences(ids, Int(4)); }
    assert |items| == 3;
    assert items == [items[0], items[1], items[2]];
  }

  lemma DedupOfDocumentedIds(ids: seq<ParsedInt>)
    requires ids == [Int(2), Int(5), Int(5), Int(4)]
    ensures Dedup(ids) == [Int(2), Int(5), Int(4)]
  {
    assert ids[..3][..2][..1][..0] == [];
    assert Dedup(ids[..3][..2][..1]) == [Int(2)];
    assert Dedup(ids[..3][..2]) == [Int(2), Int(5)];
    assert Dedup(ids[..3]) == [Int(2), Int(5)];
  }
}
