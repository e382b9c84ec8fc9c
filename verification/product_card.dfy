/** The product card of `src/components/ProductCard.js`: its selection state
    (store, quantity, bulk tier), the price, savings and delivery it shows, and
    the cart line its add button builds. */
module ProductCard {
  import opened Options
  import opened Numbers
  import opened Tariff
  import opened Catalog
  import opened CartLines
  import opened PriceHelpers
  import opened Validation

  /** `selectedStoreIndex`, `quantity` and `isBulk`. */
  datatype CardState = CardState(storeIndex: nat, quantity: int, isBulk: bool)

  /** What every reachable state satisfies: the selected store exists, the
      quantity is at least one, and bulk is only selected on an offer with a
      bulk option. */
  predicate CardInvariant(p: Product, s: CardState) {
    && s.storeIndex < |p.stores|
    && s.quantity >= 1
    && (s.isBulk ==> p.stores[s.storeIndex].HasBulkOption())
  }

  /** The first render: nothing for a product without offers, otherwise the
      first store, one unit, no bulk. */
  function InitialCard(p: Product): (r: Option<CardState>)
    ensures r.None? <==> |p.stores| == 0
    ensures r.Some? ==> CardInvariant(p, r.value)
  {
    if |p.stores| == 0 then None else Some(CardState(0, 1, false))
  }

  /** A store button: selects it and resets the tier and the quantity. The
      buttons exist only for the product's offers. */
  function SelectStore(p: Product, s: CardState, index: nat): (r: CardState)
    requires index < |p.stores|
    ensures CardInvariant(p, r)
  {
    CardState(index, 1, false)
  }

  /** The bulk checkbox: sets the tier and resets the quantity. It is shown
      only when the selected offer has a bulk option. */
  function ToggleBulk(p: Product, s: CardState, checked: bool): (r: CardState)
    requires s.storeIndex < |p.stores| && p.stores[s.storeIndex].HasBulkOption()
    ensures CardInvariant(p, r)
  {
    s.(isBulk := checked, quantity := 1)
  }

  /** The quantity input, `Math.max(1, parseInt(value) || 1)`: `parsed` is
      `None` when the text does not parse. It is shown only while bulk is off. */
  function QuantityInput(s: CardState, parsed: Option<int>): (r: CardState)
    requires !s.isBulk
    ensures r.quantity >= 1 && r.storeIndex == s.storeIndex && r.isBulk == s.isBulk
    ensures parsed.Some? && parsed.value >= 1 ==> r.quantity == parsed.value
    ensures !(parsed.Some? && parsed.value >= 1) ==> r.quantity == 1
  {
    var typed := if parsed.None? || parsed.value == 0 then 1 else parsed.value;
    s.(quantity := if typed < 1 then 1 else typed)
  }

  /** Every event keeps the invariant, so every reachable state has it. */
  lemma EventsKeepInvariant(p: Product, s: CardState, parsed: Option<int>)
    requires CardInvariant(p, s)
    ensures !s.isBulk ==> CardInvariant(p, QuantityInput(s, parsed))
    ensures p.stores[s.storeIndex].HasBulkOption() ==>
      CardInvariant(p, ToggleBulk(p, s, true)) && CardInvariant(p, ToggleBulk(p, s, false))
  {
  }

  /** `currentStore`. */
  function Current(p: Product, s: CardState): Offer
    requires s.storeIndex < |p.stores|
  {
    p.stores[s.storeIndex]
  }

  /** `hasBulkOption && isBulk`. */
  predicate BuysBulk(p: Product, s: CardState)
    requires s.storeIndex < |p.stores|
  {
    Current(p, s).HasBulkOption() && s.isBulk
  }

  /** `calculatePrice()`: the pack price for bulk, otherwise the unit price
      times the quantity. */
  function CalculatePrice(p: Product, s: CardState): int
    requires s.storeIndex < |p.stores|
  {
    if BuysBulk(p, s) then Current(p, s).bulk.value.price else Current(p, s).price * s.quantity
  }

  /** `calculateSavings()`: the offer's `savings` for bulk when it is non-zero,
      otherwise zero. */
  function CalculateSavings(p: Product, s: CardState): int
    requires s.storeIndex < |p.stores|
  {
    if BuysBulk(p, s) && Current(p, s).bulk.value.savings != 0 then Current(p, s).bulk.value.savings else 0
  }

  /** `getEffectiveQuantity()`: the pack size for bulk, otherwise the quantity. */
  function EffectiveQuantity(p: Product, s: CardState): int
    requires s.storeIndex < |p.stores|
  {
    if BuysBulk(p, s) then Current(p, s).bulk.value.quantity else s.quantity
  }

  /** On a well-formed offer, the price shown plus the savings shown is what
      the effective quantity costs at the unit price, and the savings are what
      `calculateBulkDiscount` derives; without bulk there are no savings. */
  lemma PriceAndSavingsAddUp(p: Product, s: CardState)
    requires CardInvariant(p, s) && OfferWellFormed(Current(p, s))
    ensures CalculatePrice(p, s) + CalculateSavings(p, s) == Current(p, s).price * EffectiveQuantity(p, s)
    ensures !s.isBulk ==> CalculateSavings(p, s) == 0 && CalculatePrice(p, s) == Current(p, s).price * s.quantity
    ensures s.isBulk ==>
      var o := Current(p, s);
      CalculateSavings(p, s) == CalculateBulkDiscount(o.price, o.bulk.value.price, o.bulk.value.quantity).savings
  {
  }

  /** After a store is selected, the card prices one unit of that store. */
  lemma SelectStoreResets(p: Product, s: CardState, index: nat)
    requires index < |p.stores|
    ensures var r := SelectStore(p, s, index);
      && Current(p, r) == p.stores[index]
      && EffectiveQuantity(p, r) == 1
      && CalculatePrice(p, r) == p.stores[index].price
      && CalculateSavings(p, r) == 0
  {
  }

  /** After bulk is switched on, the card prices one pack; switched off, one
      unit. */
  lemma ToggleBulkResets(p: Product, s: CardState)
    requires s.storeIndex < |p.stores| && p.stores[s.storeIndex].HasBulkOption()
    ensures var r := ToggleBulk(p, s, true);
      EffectiveQuantity(p, r) == Current(p, s).bulk.value.quantity && CalculatePrice(p, r) == Current(p, s).bulk.value.price
    ensures var r := ToggleBulk(p, s, false);
      EffectiveQuantity(p, r) == 1 && CalculatePrice(p, r) == Current(p, s).price
  {
  }

  /** The line `handleAddToCart` passes on: the product's display fields, the
      selected store, `isBulk ? bulkPrice : price` (absent when there is no
      bulk price), the effective quantity, and the product's weight class. */
  function CardItem(p: Product, s: CardState): CartLine
    requires s.storeIndex < |p.stores|
  {
    var o := Current(p, s);
    var price := if !s.isBulk then Some(o.price) else if o.bulk.Some? then Some(o.bulk.value.price) else None;
    CartLine(p.id, o.storeId, p.name, p.brand, p.image, price, Some(EffectiveQuantity(p, s)), s.isBulk, Some(p.deliveryType))
  }

  /** In a reachable state the line is keyed by the selected store and tier,
      charges the tier's catalog price and carries the quantity the card
      shows; for bulk that is one pack at the pack price. */
  lemma CardItemShape(p: Product, s: CardState)
    requires CardInvariant(p, s)
    ensures var l := CardItem(p, s); var o := Current(p, s);
      && Key(l) == LineKey(p.id, o.storeId, s.isBulk)
      && l.price.Some? && l.quantity == Some(EffectiveQuantity(p, s))
      && l.price == ExpectedPrice(o, s.isBulk)
      && (s.isBulk ==> l.price.value == CalculatePrice(p, s) && l.quantity.value == o.bulk.value.quantity)
      && (!s.isBulk ==> l.price.value * l.quantity.value == CalculatePrice(p, s))
  {
  }

  /** In a well-formed catalog, the line a reachable card adds passes
      validation exactly when its effective quantity is within the offer's
      stock; a bulk line always does. */
  lemma CardItemValid(ps: seq<Product>, i: int, s: CardState)
    requires CatalogWellFormed(ps) && 0 <= i < |ps| && CardInvariant(ps[i], s)
    ensures LineValid(ps, CardItem(ps[i], s)) <==> EffectiveQuantity(ps[i], s) <= Current(ps[i], s).stock
    ensures s.isBulk ==> LineValid(ps, CardItem(ps[i], s))
  {
    var p := ps[i];
    var l := CardItem(p, s);
    var o := Current(p, s);
    LookupsFindCatalogEntries(ps, i, s.storeIndex);
    assert ProductWellFormed(p);
    assert OfferWellFormed(o);
    assert l.storeId != "" by {
      var j :| 0 <= j < |StoreIds| && StoreIds[j] == o.storeId;
    }
    ValidIffAcceptable(ps, l);
  }

  /** The card's `deliveryCost`: the small fee for small products, otherwise
      by the effective quantity. */
  function CardDelivery(p: Product, s: CardState): int
    requires s.storeIndex < |p.stores|
  {
    if p.deliveryType == Small then 1000 else if EffectiveQuantity(p, s) >= 10 then 4000 else 1000
  }

  /** The card's fee is `calculateDeliveryByProduct` of its product type and
      effective quantity, and so the catalog tariff of a cart holding just that
      quantity of the product. */
  lemma CardDeliveryAgrees(ps: seq<Product>, p: Product, s: CardState)
    requires s.storeIndex < |p.stores|
    requires FindProduct(ps, p.id) == Some(p)
    ensures CardDelivery(p, s) == DeliveryByProduct(TypeName(p.deliveryType), EffectiveQuantity(p, s))
    ensures CardDelivery(p, s) == CalculateDelivery(ps, [DeliveryItem(p.id, Some(EffectiveQuantity(p, s)))])
  {
    DeliveryByProductAgrees(ps, p, EffectiveQuantity(p, s));
  }
}
