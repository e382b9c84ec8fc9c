/** What a line is worth. A bulk line carries the price of one pack
    (`bulkPrice`, e.g. S/ 15.00 for 100 screws) together with the number of
    units (`bulkQuantity`, e.g. 100), yet `cartTotal` in `src/App.js`, `total`
    in `src/components/Cart.js` and `totalValue` in `validateCart` all charge
    `price * quantity`, i.e. the pack price once per unit. This module states
    that discrepancy and the amount the product card shows for the same line:
    the pack price once per pack. */
module BulkAmounts {
  import opened Options
  import opened Numbers
  import opened Catalog
  import opened CartLines
  import opened AppCart
  import opened ProductCard
  import opened CartView

  /** As written: a bulk line added from the product card is charged its pack
      price once per unit, `bulkQuantity` times what the card displayed. */
  lemma BulkLineChargedPerUnit(p: Product, s: CardState)
    requires CardInvariant(p, s) && s.isBulk && OfferWellFormed(Current(p, s))
    ensures CartTotal([CardItem(p, s)]) == Some(CalculatePrice(p, s) * Current(p, s).bulk.value.quantity)
    ensures CartTotal([CardItem(p, s)]).value > CalculatePrice(p, s)
  {
    var l := CardItem(p, s);
    assert [l][..0] == [];
    var o := Current(p, s);
    assert o.bulk.value.price * o.bulk.value.quantity > o.bulk.value.price * 1;
  }

  /** The shipped example: one pack of 100 screws from store `"1"` is shown as
      S/ 15.00 and totalled as S/ 1500.00. */
  lemma ShippedScrewPackOvercharged()
    ensures var s := CardState(0, 1, true);
      && CardInvariant(Products[0], s)
      && CalculatePrice(Products[0], s) == 1500
      && CartTotal([CardItem(Products[0], s)]) == Some(150000)
  {
    var p := Products[0];
    var s := CardState(0, 1, true);
    assert p.stores[0] == Offer("1", 23, Some(BulkTier(1500, 100, 800)), 5000);
    assert [CardItem(p, s)][..0] == [];
  }

  /** The pack size of the line's tier: the offer's `bulkQuantity` for a bulk
      line on an offer with a positive one, otherwise one unit. */
  function PackSize(ps: seq<Product>, l: CartLine): (n: int)
    ensures n >= 1
    ensures !l.isBulk ==> n == 1
  {
    var o := OfferFor(ps, l.id, l.storeId);
    if l.isBulk && o.Some? && o.value.HasBulkOption() && o.value.bulk.value.quantity > 0
    then o.value.bulk.value.quantity else 1
  }

  /** The line holds a whole number of packs. Every line the product card or
      the comparison view adds does; only the cart panel's +/- buttons can
      leave a bulk line between two pack sizes. */
  predicate WholePacks(ps: seq<Product>, l: CartLine) {
    l.quantity.Some? ==> l.quantity.value % PackSize(ps, l) == 0
  }

  /** Every line of the cart holds whole packs. */
  predicate AllWholePacks(ps: seq<Product>, cart: seq<CartLine>) {
    forall i :: 0 <= i < |cart| ==> WholePacks(ps, cart[i])
  }

  /** Corrected: the line's price once per pack, `NaN` when either amount is
      missing. Times the pack size it is what the source charges, so on whole
      packs it charges each unit its share of the pack price. */
  function LineAmount(ps: seq<Product>, l: CartLine): (r: Option<int>)
    requires WholePacks(ps, l)
    ensures r.Some? <==> l.price.Some? && l.quantity.Some?
    ensures r.Some? ==> r.value * PackSize(ps, l) == l.price.value * l.quantity.value
  {
    if l.quantity.Some? then
      var n := PackSize(ps, l);
      var k := l.quantity.value / n;
      assert l.quantity.value == k * n;
      assert l.price.Some? ==> l.price.value * k * n == l.price.value * l.quantity.value;
      Times(l.price, Some(k))
    else None
  }

  /** The limit of the corrected reading: the panel's minus button takes a
      bulk line of one pack to one unit short of a pack. */
  lemma DecrementLeavesPartialPack(ps: seq<Product>, l: CartLine)
    requires l.isBulk && PackSize(ps, l) > 1 && l.quantity == Some(PackSize(ps, l))
    ensures var r := DecrementLine(true, [l], l);
      |r| == 1 && r[0].quantity == Some(PackSize(ps, l) - 1) && !WholePacks(ps, r[0])
  {
    var r := DecrementLine(true, [l], l);
    assert Key([l][0]) == Key(l);
    assert r[0] == l.(quantity := Some(PackSize(ps, l) - 1));
  }

  /** Corrected `cartTotal`: the sum of the line amounts. */
  function CorrectedCartTotal(ps: seq<Product>, cart: seq<CartLine>): (r: Option<int>)
    requires AllWholePacks(ps, cart)
    ensures r.Some? <==> forall i :: 0 <= i < |cart| ==> cart[i].price.Some? && cart[i].quantity.Some?
  {
    if |cart| == 0 then Some(0)
    else Plus(CorrectedCartTotal(ps, cart[..|cart| - 1]), LineAmount(ps, cart[|cart| - 1]))
  }

  /** At least one pack of `q` units is at least `q` units. */
  lemma {:induction false} AtLeastOnePack(a: int, q: int)
    requires a >= 1 && q > 0
    ensures a * q >= q
  {
    if a > 1 {
      AtLeastOnePack(a - 1, q);
      assert a * q == (a - 1) * q + q;
    }
  }

  /** `k` whole packs of `q` units are `k` packs, with no units left over. */
  lemma PacksCancel(k: int, q: int)
    requires q > 0
    ensures (k * q) / q == k && (k * q) % q == 0
  {
    var d := (k * q) / q;
    var m := (k * q) % q;
    assert k * q == d * q + m;
    assert (k - d) * q == k * q - d * q;
    if k > d {
      AtLeastOnePack(k - d, q);
    } else if k < d {
      AtLeastOnePack(d - k, q);
    }
  }

  /** Unit lines are worth what the source charges, so on a cart without bulk
      lines the corrected total is `cartTotal`. */
  lemma {:induction false} CorrectedAgreesOnUnitCarts(ps: seq<Product>, cart: seq<CartLine>)
    requires forall i :: 0 <= i < |cart| ==> !cart[i].isBulk
    ensures AllWholePacks(ps, cart) && CorrectedCartTotal(ps, cart) == CartTotal(cart)
    decreases |cart|
  {
    if |cart| > 0 {
      var n := |cart| - 1;
      assert forall i :: 0 <= i < n ==> cart[..n][i] == cart[i];
      CorrectedAgreesOnUnitCarts(ps, cart[..n]);
    }
  }

  /** In a well-formed catalog, a line the card adds in any reachable state
      holds whole packs and is worth exactly the price the card displayed. */
  lemma CorrectedCardLineAmount(ps: seq<Product>, i: int, s: CardState)
    requires CatalogWellFormed(ps) && 0 <= i < |ps| && CardInvariant(ps[i], s)
    ensures AllWholePacks(ps, [CardItem(ps[i], s)]) && CorrectedCartTotal(ps, [CardItem(ps[i], s)]) == Some(CalculatePrice(ps[i], s))
  {
    var l := CardItem(ps[i], s);
    var o := Current(ps[i], s);
    LookupsFindCatalogEntries(ps, i, s.storeIndex);
    assert OfferWellFormed(o) by {
      assert ProductWellFormed(ps[i]);
    }
    assert OfferFor(ps, l.id, l.storeId) == Some(o);
    if s.isBulk {
      assert PackSize(ps, l) == o.bulk.value.quantity;
      PacksCancel(1, o.bulk.value.quantity);
      assert LineAmount(ps, l) == Some(o.bulk.value.price);
    } else {
      assert LineAmount(ps, l) == Some(o.price * s.quantity);
    }
    assert [l][..0] == [];
  }

  /** Adding the same pack again, which merges into the line, raises the
      line's amount by one pack price. */
  lemma MergedPackAddsPackPrice(ps: seq<Product>, l: CartLine, k: nat)
    requires l.isBulk && l.price.Some?
    requires OfferFor(ps, l.id, l.storeId).Some? && OfferFor(ps, l.id, l.storeId).value.HasBulkOption()
    requires OfferFor(ps, l.id, l.storeId).value.bulk.value.quantity > 0
    requires l.quantity == Some(k * OfferFor(ps, l.id, l.storeId).value.bulk.value.quantity)
    ensures var q := OfferFor(ps, l.id, l.storeId).value.bulk.value.quantity;
      var merged := l.(quantity := Plus(l.quantity, Some(q)));
      WholePacks(ps, merged) && LineAmount(ps, merged) == Some(l.price.value * (k + 1))
    ensures WholePacks(ps, l) && LineAmount(ps, l) == Some(l.price.value * k)
  {
    var q := OfferFor(ps, l.id, l.storeId).value.bulk.value.quantity;
    var merged := l.(quantity := Plus(l.quantity, Some(q)));
    assert PackSize(ps, l) == q && PackSize(ps, merged) == q;
    assert k * q + q == (k + 1) * q;
    PacksCancel(k, q);
    PacksCancel(k + 1, q);
  }
}
