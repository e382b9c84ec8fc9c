/** The comparison view of `src/components/ProductComparison.js`: the lowest
    price badge, and the unit and bulk lines its two add buttons build for an
    offer. */
module ProductComparison {
  import opened Options
  import opened Numbers
  import opened Catalog
  import opened CartLines
  import opened Validation
  import opened ProductCard

  /** `Math.min(...stores.map(s => s.price))` over a non-empty offer list. */
  function MinPrice(os: seq<Offer>): (m: int)
    requires |os| > 0
    ensures forall j :: 0 <= j < |os| ==> m <= os[j].price
    ensures exists j :: 0 <= j < |os| && m == os[j].price
  {
    if |os| == 1 then os[0].price
    else
      var rest := MinPrice(os[1..]);
      assert forall j :: 1 <= j < |os| ==> os[j] == os[1..][j - 1];
      if os[0].price <= rest then os[0].price else rest
  }

  /** `isLowest` for the offer at `k`. */
  predicate IsLowest(p: Product, k: int)
    requires 0 <= k < |p.stores|
  {
    p.stores[k].price == MinPrice(p.stores)
  }

  /** An offer is badged exactly when no offer of the product is cheaper, and
      every product with offers has a badged one. */
  lemma LowestIsCheapest(p: Product, k: int)
    requires 0 <= k < |p.stores|
    ensures IsLowest(p, k) <==> forall j :: 0 <= j < |p.stores| ==> p.stores[k].price <= p.stores[j].price
    ensures exists j :: 0 <= j < |p.stores| && IsLowest(p, j)
  {
    var j :| 0 <= j < |p.stores| && MinPrice(p.stores) == p.stores[j].price;
    assert IsLowest(p, j);
  }

  /** The unit button's line: one unit at the unit price. */
  function UnitButton(p: Product, o: Offer): CartLine {
    CartLine(p.id, o.storeId, p.name, p.brand, p.image, Some(o.price), Some(1), false, Some(p.deliveryType))
  }

  /** The bulk button's line, shown only when the offer has a bulk option: one
      pack at the pack price. */
  function BulkButton(p: Product, o: Offer): (r: Option<CartLine>)
    ensures r.None? <==> !o.HasBulkOption()
  {
    if !o.HasBulkOption() then None
    else
      Some(CartLine(p.id, o.storeId, p.name, p.brand, p.image, Some(o.bulk.value.price),
                    Some(o.bulk.value.quantity), true, Some(p.deliveryType)))
  }

  /** The two buttons build the lines the product card builds after selecting
      that store, and after also ticking the bulk box. */
  lemma ButtonsMatchCard(p: Product, k: nat, s: CardState)
    requires k < |p.stores|
    ensures UnitButton(p, p.stores[k]) == CardItem(p, SelectStore(p, s, k))
    ensures p.stores[k].HasBulkOption() ==>
      BulkButton(p, p.stores[k]) == Some(CardItem(p, ToggleBulk(p, SelectStore(p, s, k), true)))
  {
  }

  /** In a well-formed catalog, both lines built for any offer pass
      validation. */
  lemma ButtonLinesValid(ps: seq<Product>, i: int, k: int)
    requires CatalogWellFormed(ps) && 0 <= i < |ps| && 0 <= k < |ps[i].stores|
    ensures LineValid(ps, UnitButton(ps[i], ps[i].stores[k]))
    ensures BulkButton(ps[i], ps[i].stores[k]).Some? ==> LineValid(ps, BulkButton(ps[i], ps[i].stores[k]).value)
  {
    var s := CardState(k, 1, false);
    ButtonsMatchCard(ps[i], k, s);
    assert OfferWellFormed(ps[i].stores[k]) by {
      assert ProductWellFormed(ps[i]);
    }
    CardItemValid(ps, i, SelectStore(ps[i], s, k));
    if ps[i].stores[k].HasBulkOption() {
      CardItemValid(ps, i, ToggleBulk(ps[i], SelectStore(ps[i], s, k), true));
    }
  }

  /** Against the shipped catalog, every line the comparison buttons build
      passes `validateCartItem`. */
  lemma ShippedButtonLinesValid(i: int, k: int)
    requires 0 <= i < |Products| && 0 <= k < |Products[i].stores|
    ensures LineValid(Products, UnitButton(Products[i], Products[i].stores[k]))
    ensures BulkButton(Products[i], Products[i].stores[k]).Some? ==>
      LineValid(Products, BulkButton(Products[i], Products[i].stores[k]).value)
  {
    ShippedCatalogWellFormed();
    ButtonLinesValid(Products, i, k);
  }
}
