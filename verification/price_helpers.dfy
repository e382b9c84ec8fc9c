/** `src/utils/priceHelpers.js`: the bulk discount, the per-product delivery fee
    shown on a product card, and its description. Amounts are in cents. */
module PriceHelpers {
  import opened Options
  import opened Tariff
  import opened Catalog

  /** The `discount` and `savings` fields of `calculateBulkDiscount`. */
  datatype BulkDiscount = BulkDiscount(discount: int, savings: int)

  /** `calculateBulkDiscount(unitPrice, bulkPrice, bulkQuantity)`: what buying the
      bulk pack saves against buying as many units at the unit price. */
  function CalculateBulkDiscount(unitPrice: int, bulkPrice: int, bulkQuantity: int): (r: BulkDiscount)
    ensures r.savings == r.discount
    ensures r.discount + bulkPrice == unitPrice * bulkQuantity
  {
    var normalTotal := unitPrice * bulkQuantity;
    var discount := normalTotal - bulkPrice;
    BulkDiscount(discount, discount)
  }

  /** The pack saves money exactly when its price is below that of as many units. */
  lemma BulkDiscountPositive(unitPrice: int, bulkPrice: int, bulkQuantity: int)
    ensures CalculateBulkDiscount(unitPrice, bulkPrice, bulkQuantity).savings > 0 <==> bulkPrice < unitPrice * bulkQuantity
  {
  }

  /** In a well-formed catalog, every bulk tier's stored `savings` is what
      `calculateBulkDiscount` computes from the offer, and is positive. */
  lemma CatalogSavingsAgree(ps: seq<Product>, i: int, k: int)
    requires CatalogWellFormed(ps)
    requires 0 <= i < |ps| && 0 <= k < |ps[i].stores| && ps[i].stores[k].bulk.Some?
    ensures var o := ps[i].stores[k];
      && CalculateBulkDiscount(o.price, o.bulk.value.price, o.bulk.value.quantity).savings == o.bulk.value.savings
      && o.bulk.value.savings > 0
  {
    assert ProductWellFormed(ps[i]);
    assert OfferWellFormed(ps[i].stores[k]);
  }

  /** `calculateDeliveryByProduct(productType, quantity)`: the fee a product card
      shows for one product type and quantity. */
  function DeliveryByProduct(productType: string, quantity: int): (fee: int)
    ensures fee == SmallFee || fee == HeavyFee
    ensures fee == HeavyFee <==> productType == "heavy" && quantity >= HeavyThreshold
  {
    if productType == "heavy" then (if quantity >= 10 then 4000 else 1000)
    else 1000
  }

  /** The card's fee for a catalog product is the catalog tariff of a cart
      holding only that product in that quantity. */
  lemma DeliveryByProductAgrees(ps: seq<Product>, p: Product, q: int)
    requires FindProduct(ps, p.id) == Some(p)
    ensures DeliveryByProduct(TypeName(p.deliveryType), q) == CalculateDelivery(ps, [DeliveryItem(p.id, Some(q))])
  {
    var items := [DeliveryItem(p.id, Some(q))];
    assert items[..0] == [];
    assert HeavyQuantities(ps, items) == if IsHeavyProduct(ps, p.id) then [Some(q)] else [];
    assert Total([Some(q)]) == Some(q) by {
      assert [Some(q)][..0] == [];
    }
  }

  const HeavyTierText: string := "S/ 40.00 (10+ bolsas de cemento)"
  const FewBagsText: string := "S/ 10.00 (1-9 bolsas de cemento)"
  const SmallTierText: string := "S/ 10.00 (productos pequeños)"

  /** `getDeliveryDescription(productType, quantity)`. */
  function DeliveryDescription(productType: string, quantity: int): string {
    if productType == "heavy" then
      if quantity >= 10 then HeavyTierText else FewBagsText
    else SmallTierText
  }

  /** The fee as the descriptions write it. */
  function FeeLabel(fee: int): string {
    if fee == HeavyFee then "S/ 40.00" else "S/ 10.00"
  }

  /** The description names the heavy tier exactly when the card charges the
      heavy fee, and always opens with the fee the card charges. */
  lemma DescriptionMatchesFee(productType: string, quantity: int)
    ensures DeliveryDescription(productType, quantity) == HeavyTierText
            <==> DeliveryByProduct(productType, quantity) == HeavyFee
    ensures DeliveryDescription(productType, quantity)[..8] == FeeLabel(DeliveryByProduct(productType, quantity))
  {
    assert HeavyTierText != FewBagsText && HeavyTierText != SmallTierText by {
      assert HeavyTierText[3] != FewBagsText[3];
      assert HeavyTierText[3] != SmallTierText[3];
    }
  }
}
