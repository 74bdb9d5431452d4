/**
 * The pure steps of the checkout handler: parsing the cart string into
 * product ids, the set of catalog products a `findMany` over those ids
 * returns, and the line items built from the ids.
 */
module Cart {
  import opened JsStrings
  import opened Records

  /** `cart.split(',').map((id) => parseInt(id, 10))`: one id per
      comma-separated token, in order, so one more id than commas. */
  function ParseCart(cart: string): (ids: seq<ParsedInt>)
    ensures |ids| == multiset(cart)[','] + 1
    ensures |ids| == |Split(cart, ',')|
    ensures forall i :: 0 <= i < |ids| ==> ids[i] == ParseInt(Split(cart, ',')[i])
  {
    SplitCount(cart, ',');
    var tokens := Split(cart, ',');
    seq(|tokens|, i requires 0 <= i < |tokens| => ParseInt(tokens[i]))
  }

  predicate AllInts(ids: seq<ParsedInt>)
  {
    forall i :: 0 <= i < |ids| ==> ids[i].Int?
  }

  predicate Distinct<T(==)>(s: seq<T>)
  {
    forall i, j :: 0 <= i < j < |s| ==> s[i] != s[j]
  }

  /** The integers among the ids, each once. */
  function Numbers(ids: seq<ParsedInt>): (ns: set<int>)
    ensures forall n :: n in ns <==> Int(n) in ids
  {
    if ids == [] then {}
    else
      var last := ids[|ids| - 1];
      assert ids == ids[..|ids| - 1] + [last];
      Numbers(ids[..|ids| - 1]) + (if last.Int? then {last.value} else {})
  }

  /** The products `findMany({ where: { product_id: { in: ids } } })`
      returns: every catalog product whose id is among the ids, once each.
      A NaN id matches no product. */
  function Matching(catalog: set<int>, ids: seq<ParsedInt>): (found: set<int>)
    ensures found <= catalog
    ensures forall n :: n in found <==> n in catalog && Int(n) in ids
  {
    catalog * Numbers(ids)
  }

  /** There are never more distinct integers than ids, and there are as
      many only when every id is an integer and no id repeats. */
  lemma {:induction false} NumbersBound(ids: seq<ParsedInt>)
    ensures |Numbers(ids)| <= |ids|
    ensures |Numbers(ids)| == |ids| ==> AllInts(ids) && Distinct(ids)
  {
    if ids != [] {
      var prefix, last := ids[..|ids| - 1], ids[|ids| - 1];
      NumbersBound(prefix);
      assert ids == prefix + [last];
      var grows := last.Int? && last.value !in Numbers(prefix);
      if grows {
        assert |Numbers(ids)| == |Numbers(prefix)| + 1;
      } else {
        assert Numbers(ids) == Numbers(prefix);
      }
      if |Numbers(ids)| == |ids| {
        assert grows && |Numbers(prefix)| == |prefix|;
        assert last !in prefix;
        DistinctAppend(prefix, last);
      }
    }
  }

  /** Appending a new element keeps a sequence free of repeats. */
  lemma DistinctAppend<T>(prefix: seq<T>, last: T)
    requires Distinct(prefix) && last !in prefix
    ensures Distinct(prefix + [last])
  {
    var s := prefix + [last];
    forall i, j | 0 <= i < j < |s| ensures s[i] != s[j] {
      if j < |prefix| {
        assert s[i] == prefix[i] && s[j] == prefix[j];
      } else {
        assert s[i] == prefix[i];
      }
    }
  }

  /** The count check of the handler passes only for carts whose ids are
      all integers, all different and all in the catalog. */
  lemma AcceptedIdsAreDistinctAndKnown(catalog: set<int>, ids: seq<ParsedInt>)
    requires |Matching(catalog, ids)| == |ids|
    ensures AllInts(ids) && Distinct(ids)
    ensures forall i :: 0 <= i < |ids| ==> ids[i].value in catalog
  {
    var found, numbers := Matching(catalog, ids), Numbers(ids);
    NumbersBound(ids);
    assert found <= numbers;
    assert |numbers - found| == |numbers| - |found|;
    assert numbers - found == {};
    forall i | 0 <= i < |ids| ensures ids[i].value in catalog {
      assert ids[i].value in numbers;
    }
  }

  /** Distinct integer ids have as many distinct values as ids. */
  lemma {:induction false} NumbersAreDistinctInts(ids: seq<ParsedInt>)
    requires AllInts(ids) && Distinct(ids)
    ensures |Numbers(ids)| == |ids|
  {
    if ids != [] {
      var prefix, last := ids[..|ids| - 1], ids[|ids| - 1];
      assert ids == prefix + [last];
      NumbersAreDistinctInts(prefix);
      assert last !in prefix;
    }
  }

  /** Integer ids without repeats, all in the catalog, pass the count
      check. */
  lemma DistinctKnownIdsPass(catalog: set<int>, ids: seq<ParsedInt>)
    requires AllInts(ids) && Distinct(ids)
    requires forall i :: 0 <= i < |ids| ==> ids[i].value in catalog
    ensures |Matching(catalog, ids)| == |ids|
  {
    NumbersAreDistinctInts(ids);
    forall n | n in Numbers(ids) ensures n in catalog {
      var i :| 0 <= i < |ids| && ids[i] == Int(n);
    }
    assert Matching(catalog, ids) == Numbers(ids);
  }

  /** The count check of line 58 passes exactly for carts whose ids are
      all integers, all different and all in the catalog. */
  lemma CountCheckPasses(catalog: set<int>, ids: seq<ParsedInt>)
    ensures |Matching(catalog, ids)| == |ids|
            <==> AllInts(ids) && Distinct(ids) && forall i :: 0 <= i < |ids| ==> ids[i].value in catalog
  {
    if |Matching(catalog, ids)| == |ids| {
      AcceptedIdsAreDistinctAndKnown(catalog, ids);
    }
    if AllInts(ids) && Distinct(ids) && forall i :: 0 <= i < |ids| ==> ids[i].value in catalog {
      DistinctKnownIdsPass(catalog, ids);
    }
  }

  /** `ids.filter((id) => id === productId).length`: how many ids are
      strictly equal to the given one. */
  function Quantity(ids: seq<ParsedInt>, id: ParsedInt): (q: nat)
    ensures q <= |ids|
    ensures id.NaN? ==> q == 0
  {
    if ids == [] then 0
    else Quantity(ids[..|ids| - 1], id) + (if StrictEquals(ids[|ids| - 1], id) then 1 else 0)
  }

  /** The quantity of an integer id is its number of occurrences; a NaN id
      equals nothing, so its quantity is 0. */
  lemma {:induction false} QuantityCountsOccurrences(ids: seq<ParsedInt>, id: ParsedInt)
    ensures Quantity(ids, id) == if id.Int? then multiset(ids)[id] else 0
  {
    if ids != [] {
      var prefix, last := ids[..|ids| - 1], ids[|ids| - 1];
      QuantityCountsOccurrences(prefix, id);
      assert ids == prefix + [last];
      assert multiset(ids) == multiset(prefix) + multiset{last};
    }
  }

  /** In a sequence without repeats every element occurs once. */
  lemma {:induction false} DistinctOccursOnce<T>(s: seq<T>, i: nat)
    requires Distinct(s) && i < |s|
    ensures multiset(s)[s[i]] == 1
  {
    var prefix, last := s[..|s| - 1], s[|s| - 1];
    assert s == prefix + [last];
    assert multiset(s) == multiset(prefix) + multiset{last};
    if i < |s| - 1 {
      DistinctOccursOnce(prefix, i);
      assert s[i] == prefix[i] != last;
    } else {
      assert last !in prefix by {
        forall k | 0 <= k < |prefix| ensures prefix[k] != last {
          assert prefix[k] == s[k];
        }
      }
    }
  }

  /** `ids.map((productId) => ({ purchase_id, product_id: productId,
      quantity }))`: one line item per id, in order, all naming the new
      purchase. */
  function BuildItems(ids: seq<ParsedInt>, purchaseId: int): (items: seq<PurchaseItem>)
    ensures |items| == |ids|
    ensures forall i :: 0 <= i < |items| ==>
              items[i].purchaseId == purchaseId && items[i].productId == ids[i]
  {
    seq(|ids|, i requires 0 <= i < |ids| => PurchaseItem(purchaseId, ids[i], Quantity(ids, ids[i])))
  }

  /** Every item's quantity is the number of times its id occurs among the
      ids: at least 1 for an integer id, 0 for a NaN id. */
  lemma ItemQuantities(ids: seq<ParsedInt>, purchaseId: int)
    ensures forall i :: 0 <= i < |ids| ==>
              BuildItems(ids, purchaseId)[i].quantity
                == (if ids[i].Int? then multiset(ids)[ids[i]] else 0)
    ensures forall i :: 0 <= i < |ids| && ids[i].Int? ==> BuildItems(ids, purchaseId)[i].quantity >= 1
  {
    forall i | 0 <= i < |ids|
      ensures BuildItems(ids, purchaseId)[i].quantity
                == (if ids[i].Int? then multiset(ids)[ids[i]] else 0)
    {
      QuantityCountsOccurrences(ids, ids[i]);
    }
  }

  /** For integer ids without repeats, as the count check guarantees,
      every quantity is exactly 1. */
  lemma UnitQuantities(ids: seq<ParsedInt>, purchaseId: int)
    requires AllInts(ids) && Distinct(ids)
    ensures forall i :: 0 <= i < |ids| ==> BuildItems(ids, purchaseId)[i].quantity == 1
  {
    ItemQuantities(ids, purchaseId);
    forall i | 0 <= i < |ids| ensures multiset(ids)[ids[i]] == 1 {
      DistinctOccursOnce(ids, i);
    }
  }

  // The lemmas from here on support the example cart "2,5,5,4" of the
  // handler's comment; they state nothing about other carts.

  /** A one-digit token reads as that digit. */
  lemma ParseOneDigit(c: char)
    requires IsDigit(c)
    ensures ParseInt([c]) == Int(c as int - '0' as int)
  {
    var t := TrimStart([c]);
    assert t == [c];
    assert !(t[0] == '-' || t[0] == '+');
    assert [c][1..] == [];
    assert DigitPrefix([c]) == [c];
    assert [c][..0] == [];
    assert DigitsValue([c]) == c as int - '0' as int;
  }

  /** A cart of four one-digit tokens reads as those four digits. */
  lemma ParseFourDigitCart(cart: string, a: char, b: char, c: char, d: char)
    requires IsDigit(a) && IsDigit(b) && IsDigit(c) && IsDigit(d)
    requires Split(cart, ',') == [[a], [b], [c], [d]]
    ensures ParseCart(cart)
            == [Int(a as int - '0' as int), Int(b as int - '0' as int),
                Int(c as int - '0' as int), Int(d as int - '0' as int)]
  {
    var ids := ParseCart(cart);
    assert ids[0] == Int(a as int - '0' as int) by { ParseOneDigit(a); }
    assert ids[1] == Int(b as int - '0' as int) by { ParseOneDigit(b); }
    assert ids[2] == Int(c as int - '0' as int) by { ParseOneDigit(c); }
    assert ids[3] == Int(d as int - '0' as int) by { ParseOneDigit(d); }
    FourElements(ids);
  }

  /** The cart of the example in the handler's comment, "2,5,5,4": four
      ids, one per token, the repeated 5 included. */
  lemma ParseDocumentedCart(cart: string)
    requires cart == "2,5,5,4"
    ensures ParseCart(cart) == [Int(2), Int(5), Int(5), Int(4)]
  {
    SplitFourTokens(cart, '2', '5', '5', '4');
    ParseFourDigitCart(cart, '2', '5', '5', '4');
  }

  /** Although products 2, 4 and 5 all exist, the documented cart fails
      the count check: three products match four tokens. */
  lemma DocumentedCartFailsCountCheck(cart: string)
    requires cart == "2,5,5,4"
    ensures |Matching({2, 4, 5}, ParseCart(cart))| != |ParseCart(cart)|
  {
    var ids := ParseCart(cart);
    ParseDocumentedCart(cart);
    assert !Distinct(ids) by {
      assert ids[1] == ids[2];
    }
    if |Matching({2, 4, 5}, ids)| == |ids| {
      AcceptedIdsAreDistinctAndKnown({2, 4, 5}, ids);
    }
  }

  /** A cart of four one-character tokens splits into those tokens. */
  lemma SplitFourTokens(cart: string, a: char, b: char, c: char, d: char)
    requires a != ',' && b != ',' && c != ',' && d != ','
    requires cart == [a, ',', b, ',', c, ',', d]
    ensures Split(cart, ',') == [[a], [b], [c], [d]]
  {
    var two := [c] + [','] + [d];
    var three := [b] + [','] + two;
    assert cart == [a] + [','] + three;
    SplitWithoutSeparator([d], ',');
    SplitAtSeparator([c], ',', [d]);
    SplitAtSeparator([b], ',', two);
    SplitAtSeparator([a], ',', three);
  }

  /** A four-element sequence is the display of its elements. */
  lemma FourElements<T>(s: seq<T>)
    requires |s| == 4
    ensures s == [s[0], s[1], s[2], s[3]]
  {
  }
}
