/**
 * The database the handler talks to: a read-only product catalog and the
 * purchase and purchase-item tables, which only ever grow. Each write can
 * throw; whether it does is an input of the write.
 */
module Store {
  import opened Records

  /** Some header row carries the purchase id. */
  ghost predicate HasPurchase(purchases: seq<Purchase>, id: int)
  {
    exists j :: 0 <= j < |purchases| && purchases[j].purchaseId == id
  }

  /** Some item row names the purchase id. */
  ghost predicate HasItem(items: seq<PurchaseItem>, id: int)
  {
    exists k :: 0 <= k < |items| && items[k].purchaseId == id
  }

  /** Every item row names a purchase that has a header row. */
  ghost predicate ItemsHaveParents(purchases: seq<Purchase>, items: seq<PurchaseItem>)
  {
    forall k :: 0 <= k < |items| ==> HasPurchase(purchases, items[k].purchaseId)
  }

  /** Every purchase header has at least one item row. */
  ghost predicate PurchasesHaveItems(purchases: seq<Purchase>, items: seq<PurchaseItem>)
  {
    forall j :: 0 <= j < |purchases| ==> HasItem(items, purchases[j].purchaseId)
  }

  lemma HasPurchaseAppend(purchases: seq<Purchase>, added: seq<Purchase>, id: int)
    requires HasPurchase(purchases, id) || exists i :: 0 <= i < |added| && added[i].purchaseId == id
    ensures HasPurchase(purchases + added, id)
  {
    var all := purchases + added;
    if HasPurchase(purchases, id) {
      var j :| 0 <= j < |purchases| && purchases[j].purchaseId == id;
      assert all[j] == purchases[j];
    } else {
      var i :| 0 <= i < |added| && added[i].purchaseId == id;
      assert all[|purchases| + i] == added[i];
    }
  }

  lemma HasItemAppend(items: seq<PurchaseItem>, added: seq<PurchaseItem>, id: int)
    requires HasItem(items, id) || exists i :: 0 <= i < |added| && added[i].purchaseId == id
    ensures HasItem(items + added, id)
  {
    var all := items + added;
    if HasItem(items, id) {
      var k :| 0 <= k < |items| && items[k].purchaseId == id;
      assert all[k] == items[k];
    } else {
      var i :| 0 <= i < |added| && added[i].purchaseId == id;
      assert all[|items| + i] == added[i];
    }
  }

  class Database {
    /** The ids of the product table. */
    const products: set<int>
    var purchases: seq<Purchase>
    var purchaseItems: seq<PurchaseItem>

    /** A connection to tables that may already hold rows. */
    constructor (catalog: set<int>, existingPurchases: seq<Purchase>, existingItems: seq<PurchaseItem>)
      ensures products == catalog && purchases == existingPurchases && purchaseItems == existingItems
    {
      products := catalog;
      purchases := existingPurchases;
      purchaseItems := existingItems;
    }

    /** `prisma.purchase.create`: appends the header row unless it throws. */
    method CreatePurchase(row: Purchase, throws: bool) returns (ok: bool)
      modifies this
      ensures ok == !throws
      ensures purchases == if ok then old(purchases) + [row] else old(purchases)
      ensures purchaseItems == old(purchaseItems)
    {
      ok := !throws;
      if ok {
        purchases := purchases + [row];
      }
    }

    /** `prisma.purchaseItem.createMany`: appends all the item rows unless
        it throws, in which case it appends none. */
    method CreateManyItems(rows: seq<PurchaseItem>, throws: bool) returns (ok: bool)
      modifies this
      ensures ok == !throws
      ensures purchaseItems == if ok then old(purchaseItems) + rows else old(purchaseItems)
      ensures purchases == old(purchases)
    {
      ok := !throws;
      if ok {
        purchaseItems := purchaseItems + rows;
      }
    }

    /** One transaction holding the header insert and the item insert:
        both rows are kept only when neither write throws. */
    method CreatePurchaseWithItems(row: Purchase, rows: seq<PurchaseItem>, headerThrows: bool, itemsThrow: bool)
      returns (ok: bool)
      modifies this
      ensures ok == (!headerThrows && !itemsThrow)
      ensures purchases == if ok then old(purchases) + [row] else old(purchases)
      ensures purchaseItems == if ok then old(purchaseItems) + rows else old(purchaseItems)
    {
      var savedPurchases, savedItems := purchases, purchaseItems;
      ok := CreatePurchase(row, headerThrows);
      if ok {
        ok := CreateManyItems(rows, itemsThrow);
      }
      if !ok {
        purchases, purchaseItems := savedPurchases, savedItems;
      }
    }
  }
}
