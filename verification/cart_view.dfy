/** The cart panel of `src/components/Cart.js`: its own totals (which read a
    missing amount as zero), its copy of the delivery tariff (which reads the
    weight class copied onto each line instead of the catalog), the issue flags
    that block checkout, and the quantity buttons. */
module CartView {
  import opened Options
  import opened Numbers
  import opened Tariff
  import opened Catalog
  import opened CartLines
  import opened Validation
  import opened AppCart

  /** `total`: `Σ (price || 0) * (quantity || 0)`. */
  function ViewTotal(cart: seq<CartLine>): int {
    if |cart| == 0 then 0
    else
      var last := cart[|cart| - 1];
      ViewTotal(cart[..|cart| - 1]) + OrZero(last.price) * OrZero(last.quantity)
  }

  /** `totalItems`: `Σ (quantity || 0)`. */
  function TotalItems(cart: seq<CartLine>): int {
    if |cart| == 0 then 0
    else TotalItems(cart[..|cart| - 1]) + OrZero(cart[|cart| - 1].quantity)
  }

  /** A line with a missing price or quantity replaced by zero. */
  function Filled(l: CartLine): CartLine {
    l.(price := Some(OrZero(l.price)), quantity := Some(OrZero(l.quantity)))
  }

  function FillCart(cart: seq<CartLine>): (r: seq<CartLine>)
    ensures |r| == |cart|
    ensures forall i :: 0 <= i < |cart| ==> r[i] == Filled(cart[i])
  {
    seq(|cart|, i requires 0 <= i < |cart| => Filled(cart[i]))
  }

  /** The panel's sums are the application's sums over the cart with every
      missing amount read as zero, which are never `NaN`. */
  lemma {:induction false} ViewSumsAreFilledSums(cart: seq<CartLine>)
    ensures CartTotal(FillCart(cart)) == Some(ViewTotal(cart))
    ensures CartItemsCount(FillCart(cart)) == Some(TotalItems(cart))
    decreases |cart|
  {
    if |cart| > 0 {
      var n := |cart| - 1;
      assert FillCart(cart)[..n] == FillCart(cart[..n]);
      ViewSumsAreFilledSums(cart[..n]);
    }
  }

  /** Where every line carries its price and quantity, the panel shows the
      application's `cartTotal` and `cartItemsCount`. */
  lemma ViewSumsAgreeWhenPresent(cart: seq<CartLine>)
    requires forall i :: 0 <= i < |cart| ==> cart[i].price.Some? && cart[i].quantity.Some?
    ensures CartTotal(cart) == Some(ViewTotal(cart))
    ensures CartItemsCount(cart) == Some(TotalItems(cart))
  {
    assert FillCart(cart) == cart;
    ViewSumsAreFilledSums(cart);
  }

  // ---- The panel's `calculateDelivery` ----

  /** The line carries the copied weight class `'heavy'`. */
  predicate MarkedHeavy(l: CartLine) {
    l.deliveryType == Some(Heavy)
  }

  /** `quantity || 0` of every line marked heavy, in order. */
  function MarkedHeavyQuantities(cart: seq<CartLine>): (qs: seq<Option<int>>)
    ensures |qs| <= |cart|
  {
    if |cart| == 0 then []
    else
      var last := cart[|cart| - 1];
      MarkedHeavyQuantities(cart[..|cart| - 1]) + (if MarkedHeavy(last) then [Some(OrZero(last.quantity))] else [])
  }

  /** The panel's loop over the lines. */
  function ViewTally(cart: seq<CartLine>): Tally {
    if |cart| == 0 then Start
    else
      var t := ViewTally(cart[..|cart| - 1]);
      var last := cart[|cart| - 1];
      if MarkedHeavy(last) then CountHeavy(t, Some(OrZero(last.quantity))) else t
  }

  lemma {:induction false} ViewTallySummarizes(cart: seq<CartLine>)
    ensures ViewTally(cart) == TallyOf(MarkedHeavyQuantities(cart))
    decreases |cart|
  {
    if |cart| == 0 {
      StartIsEmptyTally();
    } else {
      var init := cart[..|cart| - 1];
      var last := cart[|cart| - 1];
      ViewTallySummarizes(init);
      if MarkedHeavy(last) {
        CountHeavyExtends(MarkedHeavyQuantities(init), Some(OrZero(last.quantity)));
      } else {
        assert MarkedHeavyQuantities(cart) == MarkedHeavyQuantities(init) + [];
        assert MarkedHeavyQuantities(init) + [] == MarkedHeavyQuantities(init);
      }
    }
  }

  /** The panel's `calculateDelivery()`: the reference tariff over the lines
      marked heavy, a missing quantity counting as zero. */
  function LocalDelivery(cart: seq<CartLine>): (fee: int)
    ensures fee == Fee(MarkedHeavyQuantities(cart))
    ensures fee == SmallFee || fee == HeavyFee
  {
    ViewTallySummarizes(cart);
    SettleTally(MarkedHeavyQuantities(cart));
    Settle(ViewTally(cart))
  }

  /** Each line is marked heavy exactly when its catalog product is heavy. */
  predicate MarksMatchCatalog(ps: seq<Product>, cart: seq<CartLine>) {
    forall i :: 0 <= i < |cart| ==> (MarkedHeavy(cart[i]) <==> IsHeavyProduct(ps, cart[i].id))
  }

  /** When the copied weight classes agree with the catalog and every heavy line
      has a quantity, the panel's fee is the validator's estimate. */
  lemma {:induction false} LocalDeliveryAgrees(ps: seq<Product>, cart: seq<CartLine>)
    requires MarksMatchCatalog(ps, cart)
    requires forall i :: 0 <= i < |cart| && MarkedHeavy(cart[i]) ==> cart[i].quantity.Some?
    ensures MarkedHeavyQuantities(cart) == HeavyLineQuantities(ps, cart)
    ensures LocalDelivery(cart) == CalculateDeliveryValidation(ps, cart)
    decreases |cart|
  {
    if |cart| > 0 {
      var n := |cart| - 1;
      assert forall i :: 0 <= i < n ==> cart[..n][i] == cart[i];
      LocalDeliveryAgrees(ps, cart[..n]);
    }
  }

  /** Two lines marked heavy, of heavy products: both copies of the tariff see
      both quantities, the panel with `|| 0` and the validator as they are. */
  lemma HeavyPairQuantities(ps: seq<Product>, a: CartLine, b: CartLine)
    requires MarkedHeavy(a) && MarkedHeavy(b)
    requires IsHeavyProduct(ps, a.id) && IsHeavyProduct(ps, b.id)
    ensures MarksMatchCatalog(ps, [a, b])
    ensures MarkedHeavyQuantities([a, b]) == [Some(OrZero(a.quantity)), Some(OrZero(b.quantity))]
    ensures HeavyLineQuantities(ps, [a, b]) == [a.quantity, b.quantity]
  {
    assert [a, b][..1] == [a] && [a][..0] == [];
  }

  /** Without the second condition the two fees part: for any heavy product, a
      line of ten bags next to a line whose quantity is `undefined` pays the
      heavy fee here, while the validator's sum is `NaN` and it charges the
      small fee. */
  lemma LocalDeliveryDivergesOnMissingQuantity(ps: seq<Product>, id: string)
    requires IsHeavyProduct(ps, id)
    ensures var bags := CartLine(id, "1", "Cemento", "", "", Some(3000), Some(10), false, Some(Heavy));
      var blank := bags.(storeId := "2", quantity := None);
      && MarksMatchCatalog(ps, [bags, blank])
      && LocalDelivery([bags, blank]) == HeavyFee
      && CalculateDeliveryValidation(ps, [bags, blank]) == SmallFee
  {
    var bags := CartLine(id, "1", "Cemento", "", "", Some(3000), Some(10), false, Some(Heavy));
    var blank := bags.(storeId := "2", quantity := None);
    HeavyPairQuantities(ps, bags, blank);
    FeeOfPair(Some(10), Some(0));
    FeeOfPair(Some(10), None);
  }

  /** The shipped cement (product `"6"`) is heavy. */
  lemma ShippedCementIsHeavy()
    ensures IsHeavyProduct(Products, "6")
  {
    ShippedCatalogWellFormed();
    LookupsFindCatalogEntries(Products, 5, 0);
  }

  // ---- Issue flags ----

  /** `!item.price || !item.quantity || !item.name`: a missing or zero amount,
      or no name. The per-line badge uses this. */
  predicate LineHasIssues(l: CartLine) {
    l.price.None? || l.price == Some(0) || l.quantity.None? || l.quantity == Some(0) || l.name == ""
  }

  /** `hasIssues`: some line has a line issue or no `storeId`. */
  predicate HasIssues(cart: seq<CartLine>) {
    exists i :: 0 <= i < |cart| && (LineHasIssues(cart[i]) || cart[i].storeId == "")
  }

  /** Both checkout buttons are `disabled={hasIssues}`. */
  predicate CheckoutEnabled(cart: seq<CartLine>) {
    !HasIssues(cart)
  }

  /** Checkout is offered exactly when every line has a non-zero price and
      quantity, a name and a store. */
  lemma CheckoutEnabledIff(cart: seq<CartLine>)
    ensures CheckoutEnabled(cart) <==>
      forall i :: 0 <= i < |cart| ==>
        && cart[i].price.Some? && cart[i].price.value != 0
        && cart[i].quantity.Some? && cart[i].quantity.value != 0
        && cart[i].name != "" && cart[i].storeId != ""
  {
  }

  /** The panel's flag is coarser than validation: a flagged cart never
      validates. */
  lemma IssuesBlockValidity(ps: seq<Product>, cart: seq<CartLine>)
    requires HasIssues(cart)
    ensures !CartValid(ps, cart)
  {
    var i :| 0 <= i < |cart| && (LineHasIssues(cart[i]) || cart[i].storeId == "");
    FieldChecksIndependent(ps, cart[i]);
  }

  /** The converse fails: a line with a negative price but a non-zero
      quantity, a name and a store raises no issue, yet it is invalid. */
  lemma NegativePriceRaisesNoIssue(ps: seq<Product>, l: CartLine)
    requires l.price.Some? && l.price.value < 0
    requires l.quantity.Some? && l.quantity.value != 0 && l.name != "" && l.storeId != ""
    ensures CheckoutEnabled([l]) && !CartValid(ps, [l])
  {
    FieldChecksIndependent(ps, l);
    assert InvalidPrice(l.price) in LineErrors(ps, l);
    assert [l][0] == l;
  }

  /** The per-line badge does not look at `storeId`, so a line without a store
      blocks checkout while showing no badge. */
  lemma BadgeOmitsStore()
    ensures var l := CartLine("1", "", "Tornillos", "", "", Some(50), Some(1), false, Some(Small));
      !LineHasIssues(l) && HasIssues([l])
  {
    var l := CartLine("1", "", "Tornillos", "", "", Some(50), Some(1), false, Some(Small));
    assert [l][0] == l;
  }

  /** `total + deliveryCost`, the amount shown as the order total. */
  function GrandTotal(cart: seq<CartLine>): (r: int)
    ensures r - ViewTotal(cart) == SmallFee || r - ViewTotal(cart) == HeavyFee
    ensures r - ViewTotal(cart) == Fee(MarkedHeavyQuantities(cart))
  {
    ViewTotal(cart) + LocalDelivery(cart)
  }

  // ---- Quantity buttons ----

  /** The minus button: `onUpdateQuantity(..., (quantity || 0) - 1, ...)`,
      disabled while `(quantity || 0) <= 1`. */
  function DecrementLine(signedIn: bool, cart: seq<CartLine>, l: CartLine): (r: seq<CartLine>)
    ensures |r| == |cart|
    ensures OrZero(l.quantity) <= 1 || !signedIn ==> r == cart
    ensures forall i :: 0 <= i < |cart| && Key(cart[i]) != Key(l) ==> r[i] == cart[i]
    ensures signedIn && OrZero(l.quantity) > 1 ==>
      forall i :: 0 <= i < |cart| && Key(cart[i]) == Key(l) ==> r[i].quantity == Some(l.quantity.value - 1)
  {
    var q := OrZero(l.quantity);
    if q <= 1 then cart else UpdateQuantity(signedIn, cart, l.id, l.storeId, q - 1, l.isBulk)
  }

  /** The plus button: `onUpdateQuantity(..., (quantity || 0) + 1, ...)`; a
      line without a quantity gets one, and a line whose quantity is below zero
      still lands at zero or less and is removed. */
  function IncrementLine(signedIn: bool, cart: seq<CartLine>, l: CartLine): (r: seq<CartLine>)
    ensures !signedIn ==> r == cart
    ensures signedIn && OrZero(l.quantity) < 0 ==>
      forall m :: m in r <==> m in cart && Key(m) != Key(l)
    ensures OrZero(l.quantity) >= 0 ==>
      && |r| == |cart|
      && forall i :: 0 <= i < |cart| && Key(cart[i]) != Key(l) ==> r[i] == cart[i]
    ensures signedIn && OrZero(l.quantity) >= 0 ==>
      forall i :: 0 <= i < |cart| && Key(cart[i]) == Key(l) ==> r[i].quantity == Some(OrZero(l.quantity) + 1)
  {
    UpdateQuantity(signedIn, cart, l.id, l.storeId, OrZero(l.quantity) + 1, l.isBulk)
  }
}
