/** `src/utils/cartValidation.js`: per-line validation against the catalog, the
    cart summary, the validator's copy of the delivery tariff, and the per-line
    repair. */
module Validation {
  import opened Options
  import opened Numbers
  import opened Tariff
  import opened Catalog
  import opened CartLines

  /** The source's error messages, one variant per message. */
  datatype Defect =
    | ItemMissing
    | ProductIdRequired
    | StoreIdRequired
    | NameRequired
    | InvalidPrice(price: Option<int>)
    | InvalidQuantity(quantity: Option<int>)
    | ProductNotFound(id: string)
    | StoreDoesNotSell(storeId: string)
    | PriceMismatch(expected: int, received: int)
    | InsufficientStock(available: int, requested: int)
    | BulkUnavailable
    | StoreNotFound(storeId: string)

  /** The echoed line with its flags (`productExists`, `storeExists`, and
      `validPrice`, which holds the resolved offer). */
  datatype CheckedLine = CheckedLine(line: CartLine, productExists: bool, storeExists: bool, validPrice: Option<Offer>)

  /** The result of `validateCartItem`; a null item gets no echo. */
  datatype ItemResult = ItemResult(isValid: bool, errors: seq<Defect>, item: Option<CheckedLine>)

  /** The checks `validateCartItem` runs on a present line, in the order it
      runs them. */
  datatype Check =
    | IdPresent
    | StoreIdPresent
    | NamePresent
    | PricePositive
    | QuantityPositive
    | ProductKnown
    | StoreSellsProduct
    | PriceMatches
    | StockCovers
    | BulkOffered
    | StoreKnown

  const Checks: seq<Check> := [
    IdPresent, StoreIdPresent, NamePresent, PricePositive, QuantityPositive,
    ProductKnown, StoreSellsProduct, PriceMatches, StockCovers, BulkOffered,
    StoreKnown
  ]

  /** What the three catalog lookups of `validateCartItem` found: the product
      by id, that product's offer for the line's store, and whether the store
      id names a vendor. */
  datatype Lookup = Lookup(product: Option<Product>, offer: Option<Offer>, storeKnown: bool)

  function LookUp(ps: seq<Product>, l: CartLine): Lookup {
    Lookup(FindProduct(ps, l.id), OfferFor(ps, l.id, l.storeId), StoreExists(l.storeId))
  }

  /** `Math.abs(price - expected) > 0.01`: one cent of tolerance. */
  const PriceTolerance: int := 1

  /** The price the catalog expects for a tier: `isBulk ? bulkPrice : price`,
      absent when a bulk line's offer has no bulk price. */
  function ExpectedPrice(o: Offer, isBulk: bool): (r: Option<int>)
    ensures !isBulk ==> r == Some(o.price)
    ensures isBulk ==> (r.Some? <==> o.bulk.Some?)
    ensures isBulk && o.bulk.Some? ==> r == Some(o.bulk.value.price)
  {
    if !isBulk then Some(o.price)
    else if o.bulk.Some? then Some(o.bulk.value.price)
    else None
  }

  /** The charged price is more than a cent away from the tier's price. A
      missing price or expected price makes the difference `NaN`, and `NaN`
      exceeds nothing. */
  predicate PriceOff(l: CartLine, o: Offer) {
    var expected := ExpectedPrice(o, l.isBulk);
    expected.Some? && l.price.Some? && Abs(l.price.value - expected.value) > PriceTolerance
  }

  /** Whether check `c` fails. The product check guards the offer check, and
      both guard the price, stock and bulk checks; a missing quantity never
      exceeds the stock. */
  predicate Fails(l: CartLine, lk: Lookup, c: Check) {
    match c
    case IdPresent => l.id == ""
    case StoreIdPresent => l.storeId == ""
    case NamePresent => l.name == ""
    case PricePositive => !(l.price.Some? && l.price.value > 0)
    case QuantityPositive => !(l.quantity.Some? && l.quantity.value > 0)
    case ProductKnown => lk.product.None?
    case StoreSellsProduct => lk.product.Some? && lk.offer.None?
    case PriceMatches => lk.product.Some? && lk.offer.Some? && PriceOff(l, lk.offer.value)
    case StockCovers =>
      lk.product.Some? && lk.offer.Some? && l.quantity.Some? && l.quantity.value > lk.offer.value.stock
    case BulkOffered => lk.product.Some? && lk.offer.Some? && l.isBulk && !lk.offer.value.HasBulkPrice()
    case StoreKnown => !lk.storeKnown
  }

  /** The check a defect comes from; `ItemMissing` comes from none. */
  function Origin(e: Defect): Option<Check> {
    match e
    case ItemMissing => None
    case ProductIdRequired => Some(IdPresent)
    case StoreIdRequired => Some(StoreIdPresent)
    case NameRequired => Some(NamePresent)
    case InvalidPrice(_) => Some(PricePositive)
    case InvalidQuantity(_) => Some(QuantityPositive)
    case ProductNotFound(_) => Some(ProductKnown)
    case StoreDoesNotSell(_) => Some(StoreSellsProduct)
    case PriceMismatch(_, _) => Some(PriceMatches)
    case InsufficientStock(_, _) => Some(StockCovers)
    case BulkUnavailable => Some(BulkOffered)
    case StoreNotFound(_) => Some(StoreKnown)
  }

  /** The message a failing check adds. */
  function Report(l: CartLine, lk: Lookup, c: Check): (e: Defect)
    ensures Origin(e) == Some(c)
  {
    match c
    case IdPresent => ProductIdRequired
    case StoreIdPresent => StoreIdRequired
    case NamePresent => NameRequired
    case PricePositive => InvalidPrice(l.price)
    case QuantityPositive => InvalidQuantity(l.quantity)
    case ProductKnown => ProductNotFound(l.id)
    case StoreSellsProduct => StoreDoesNotSell(l.storeId)
    case PriceMatches =>
      var expected := if lk.offer.Some? then ExpectedPrice(lk.offer.value, l.isBulk).GetOr(0) else 0;
      PriceMismatch(expected, l.price.GetOr(0))
    case StockCovers =>
      InsufficientStock(if lk.offer.Some? then lk.offer.value.stock else 0, l.quantity.GetOr(0))
    case BulkOffered => BulkUnavailable
    case StoreKnown => StoreNotFound(l.storeId)
  }

  /** Runs the checks `cs` in order; each failing check adds its message and
      none stops the others. */
  function Run(l: CartLine, lk: Lookup, cs: seq<Check>): seq<Defect> {
    if |cs| == 0 then []
    else (if Fails(l, lk, cs[0]) then [Report(l, lk, cs[0])] else []) + Run(l, lk, cs[1..])
  }

  /** A check's message is reported exactly when the check is run and fails. */
  lemma {:induction false} RunReports(l: CartLine, lk: Lookup, cs: seq<Check>, c: Check)
    ensures Report(l, lk, c) in Run(l, lk, cs) <==> c in cs && Fails(l, lk, c)
  {
    if |cs| > 0 {
      RunReports(l, lk, cs[1..], c);
      assert Report(l, lk, cs[0]) == Report(l, lk, c) ==> cs[0] == c by {
        assert Origin(Report(l, lk, cs[0])) == Some(cs[0]);
      }
      assert c in cs <==> c == cs[0] || c in cs[1..];
    }
  }

  /** Every reported message is the message of a check that was run and failed. */
  lemma {:induction false} RunMembers(l: CartLine, lk: Lookup, cs: seq<Check>, e: Defect)
    requires e in Run(l, lk, cs)
    ensures Origin(e).Some? && Origin(e).value in cs && Fails(l, lk, Origin(e).value)
    ensures e == Report(l, lk, Origin(e).value)
  {
    var head := if Fails(l, lk, cs[0]) then [Report(l, lk, cs[0])] else [];
    assert Run(l, lk, cs) == head + Run(l, lk, cs[1..]);
    if e !in head {
      RunMembers(l, lk, cs[1..], e);
    }
  }

  /** No message at all exactly when no check fails. */
  lemma {:induction false} RunEmpty(l: CartLine, lk: Lookup, cs: seq<Check>)
    ensures Run(l, lk, cs) == [] <==> forall c :: c in cs ==> !Fails(l, lk, c)
  {
    if |cs| > 0 {
      RunEmpty(l, lk, cs[1..]);
      assert forall c :: c in cs <==> c == cs[0] || c in cs[1..];
    }
  }

  /** `validateCartItem(item)`: a null item fails with a single error and no
      other check; a present line runs every check. */
  function ValidateCartItem(ps: seq<Product>, item: Option<CartLine>): (r: ItemResult)
    ensures r.isValid <==> |r.errors| == 0
    ensures item.None? ==> r.errors == [ItemMissing] && r.item.None?
  {
    match item
    case None => ItemResult(false, [ItemMissing], None)
    case Some(l) =>
      var lk := LookUp(ps, l);
      var errors := Run(l, lk, Checks);
      ItemResult(|errors| == 0, errors, Some(CheckedLine(l, lk.product.Some?, lk.storeKnown, lk.offer)))
  }

  /** A present line is valid exactly when none of its checks fails, and it is
      echoed with what the lookups found. */
  lemma ValidateLine(ps: seq<Product>, l: CartLine)
    ensures ValidateCartItem(ps, Some(l)).isValid <==> forall c :: c in Checks ==> !Fails(l, LookUp(ps, l), c)
    ensures var r := ValidateCartItem(ps, Some(l));
      && r.item.Some? && r.item.value.line == l
      && (r.item.value.productExists <==> FindProduct(ps, l.id).Some?)
      && (r.item.value.storeExists <==> StoreExists(l.storeId))
      && r.item.value.validPrice == OfferFor(ps, l.id, l.storeId)
  {
    RunEmpty(l, LookUp(ps, l), Checks);
  }

  /** The errors reported for a present line. */
  function LineErrors(ps: seq<Product>, l: CartLine): seq<Defect> {
    ValidateCartItem(ps, Some(l)).errors
  }

  predicate HasPriceMismatch(errors: seq<Defect>) {
    exists e :: e in errors && e.PriceMismatch?
  }

  predicate HasInsufficientStock(errors: seq<Defect>) {
    exists e :: e in errors && e.InsufficientStock?
  }

  /** Each field check adds its own error, whatever the other checks report. */
  lemma FieldChecksIndependent(ps: seq<Product>, l: CartLine)
    ensures ItemMissing !in LineErrors(ps, l)
    ensures ProductIdRequired in LineErrors(ps, l) <==> l.id == ""
    ensures StoreIdRequired in LineErrors(ps, l) <==> l.storeId == ""
    ensures NameRequired in LineErrors(ps, l) <==> l.name == ""
    ensures InvalidPrice(l.price) in LineErrors(ps, l) <==> !(l.price.Some? && l.price.value > 0)
    ensures InvalidQuantity(l.quantity) in LineErrors(ps, l) <==> !(l.quantity.Some? && l.quantity.value > 0)
  {
    var lk := LookUp(ps, l);
    assert LineErrors(ps, l) == Run(l, lk, Checks);
    if ItemMissing in LineErrors(ps, l) {
      RunMembers(l, lk, Checks, ItemMissing);
    }
    RunReports(l, lk, Checks, IdPresent);
    RunReports(l, lk, Checks, StoreIdPresent);
    RunReports(l, lk, Checks, NamePresent);
    RunReports(l, lk, Checks, PricePositive);
    RunReports(l, lk, Checks, QuantityPositive);
  }

  /** Over any lookup outcome: the catalog and store checks' messages. */
  lemma RunCatalogChecks(l: CartLine, lk: Lookup)
    ensures ProductNotFound(l.id) in Run(l, lk, Checks) <==> lk.product.None?
    ensures StoreDoesNotSell(l.storeId) in Run(l, lk, Checks) <==> lk.product.Some? && lk.offer.None?
    ensures StoreNotFound(l.storeId) in Run(l, lk, Checks) <==> !lk.storeKnown
  {
    RunReports(l, lk, Checks, ProductKnown);
    RunReports(l, lk, Checks, StoreSellsProduct);
    RunReports(l, lk, Checks, StoreKnown);
  }

  /** Over any lookup outcome: the offer checks' messages, which need both the
      product and its offer. */
  lemma RunOfferChecks(l: CartLine, lk: Lookup)
    ensures HasPriceMismatch(Run(l, lk, Checks)) <==> lk.product.Some? && lk.offer.Some? && PriceOff(l, lk.offer.value)
    ensures HasInsufficientStock(Run(l, lk, Checks)) <==>
      lk.product.Some? && lk.offer.Some? && l.quantity.Some? && l.quantity.value > lk.offer.value.stock
    ensures BulkUnavailable in Run(l, lk, Checks) <==>
      lk.product.Some? && lk.offer.Some? && l.isBulk && !lk.offer.value.HasBulkPrice()
  {
    var errors := Run(l, lk, Checks);
    RunReports(l, lk, Checks, PriceMatches);
    RunReports(l, lk, Checks, StockCovers);
    RunReports(l, lk, Checks, BulkOffered);
    if HasPriceMismatch(errors) {
      var e :| e in errors && e.PriceMismatch?;
      RunMembers(l, lk, Checks, e);
    }
    if HasInsufficientStock(errors) {
      var e :| e in errors && e.InsufficientStock?;
      RunMembers(l, lk, Checks, e);
    }
  }

  /** The catalog checks: an unknown product is reported and stops the price,
      stock and bulk checks; a known product its store does not sell is
      reported; the store-existence check runs in every case. */
  lemma CatalogChecks(ps: seq<Product>, l: CartLine)
    ensures ProductNotFound(l.id) in LineErrors(ps, l) <==> FindProduct(ps, l.id).None?
    ensures StoreDoesNotSell(l.storeId) in LineErrors(ps, l) <==>
      FindProduct(ps, l.id).Some? && OfferFor(ps, l.id, l.storeId).None?
    ensures StoreNotFound(l.storeId) in LineErrors(ps, l) <==> !StoreExists(l.storeId)
    ensures FindProduct(ps, l.id).None? ==>
      !HasPriceMismatch(LineErrors(ps, l)) && !HasInsufficientStock(LineErrors(ps, l)) && BulkUnavailable !in LineErrors(ps, l)
  {
    var lk := LookUp(ps, l);
    assert LineErrors(ps, l) == Run(l, lk, Checks);
    RunCatalogChecks(l, lk);
    RunOfferChecks(l, lk);
  }

  /** The offer checks: a price error exactly when the line's offer resolves
      and the charged price is more than a cent away from the tier's expected
      price; a stock error exactly when the quantity exceeds the offer's stock;
      a bulk error exactly for a bulk line on an offer without a bulk price. */
  lemma OfferChecks(ps: seq<Product>, l: CartLine)
    ensures HasPriceMismatch(LineErrors(ps, l)) <==>
      && OfferFor(ps, l.id, l.storeId).Some?
      && ExpectedPrice(OfferFor(ps, l.id, l.storeId).value, l.isBulk).Some?
      && l.price.Some?
      && Abs(l.price.value - ExpectedPrice(OfferFor(ps, l.id, l.storeId).value, l.isBulk).value) > PriceTolerance
    ensures HasInsufficientStock(LineErrors(ps, l)) <==>
      OfferFor(ps, l.id, l.storeId).Some? && l.quantity.Some? && l.quantity.value > OfferFor(ps, l.id, l.storeId).value.stock
    ensures BulkUnavailable in LineErrors(ps, l) <==>
      OfferFor(ps, l.id, l.storeId).Some? && l.isBulk && !OfferFor(ps, l.id, l.storeId).value.HasBulkPrice()
  {
    var lk := LookUp(ps, l);
    assert LineErrors(ps, l) == Run(l, lk, Checks);
    RunOfferChecks(l, lk);
  }

  predicate LineValid(ps: seq<Product>, l: CartLine) {
    ValidateCartItem(ps, Some(l)).isValid
  }

  /** Independent statement of what a valid line is: every field present and
      positive, the product and its store's offer in the catalog, a bulk line
      only where the offer has a bulk price, the charged price within a cent of
      the tier's catalog price, the quantity within stock, and a known store. */
  predicate Acceptable(ps: seq<Product>, l: CartLine) {
    && l.id != "" && l.storeId != "" && l.name != ""
    && l.price.Some? && l.price.value > 0
    && l.quantity.Some? && l.quantity.value > 0
    && OfferFor(ps, l.id, l.storeId).Some?
    && (l.isBulk ==> OfferFor(ps, l.id, l.storeId).value.HasBulkPrice())
    && Abs(l.price.value - (if l.isBulk then OfferFor(ps, l.id, l.storeId).value.bulk.value.price
                            else OfferFor(ps, l.id, l.storeId).value.price)) <= PriceTolerance
    && l.quantity.value <= OfferFor(ps, l.id, l.storeId).value.stock
    && StoreExists(l.storeId)
  }

  /** Passing the whole check list is passing each check. */
  lemma AllChecksPass(l: CartLine, lk: Lookup)
    ensures (forall c :: c in Checks ==> !Fails(l, lk, c)) <==>
      && !Fails(l, lk, IdPresent) && !Fails(l, lk, StoreIdPresent) && !Fails(l, lk, NamePresent)
      && !Fails(l, lk, PricePositive) && !Fails(l, lk, QuantityPositive) && !Fails(l, lk, ProductKnown)
      && !Fails(l, lk, StoreSellsProduct) && !Fails(l, lk, PriceMatches) && !Fails(l, lk, StockCovers)
      && !Fails(l, lk, BulkOffered) && !Fails(l, lk, StoreKnown)
  {
  }

  /** Over any lookup outcome: every check passes exactly when the fields are
      present and positive, both lookups succeed, and the offer covers the
      line's tier, price and quantity. */
  lemma AllChecksPassFor(l: CartLine, lk: Lookup)
    ensures (forall c :: c in Checks ==> !Fails(l, lk, c)) <==>
      && l.id != "" && l.storeId != "" && l.name != ""
      && l.price.Some? && l.price.value > 0
      && l.quantity.Some? && l.quantity.value > 0
      && lk.product.Some? && lk.offer.Some?
      && (l.isBulk ==> lk.offer.value.HasBulkPrice())
      && Abs(l.price.value - (if l.isBulk then lk.offer.value.bulk.value.price else lk.offer.value.price)) <= PriceTolerance
      && l.quantity.value <= lk.offer.value.stock
      && lk.storeKnown
  {
    AllChecksPass(l, lk);
  }

  /** A line is valid exactly when it is acceptable. */
  lemma ValidIffAcceptable(ps: seq<Product>, l: CartLine)
    ensures LineValid(ps, l) <==> Acceptable(ps, l)
  {
    ValidateLine(ps, l);
    AllChecksPassFor(l, LookUp(ps, l));
  }

  /** A bulk line on an offer without a bulk price is told so, and is not also
      reported as a price mismatch: the expected price is absent. */
  lemma BulkWithoutBulkPrice(ps: seq<Product>, l: CartLine)
    requires l.isBulk && OfferFor(ps, l.id, l.storeId).Some? && OfferFor(ps, l.id, l.storeId).value.bulk.None?
    ensures BulkUnavailable in LineErrors(ps, l)
    ensures !HasPriceMismatch(LineErrors(ps, l))
    ensures !LineValid(ps, l)
  {
    OfferChecks(ps, l);
  }

  // ---- validateCart ----

  datatype LineReport = LineReport(index: nat, result: ItemResult)

  datatype Summary = Summary(validItems: nat, invalidItems: nat, totalItems: nat, totalValue: int, estimatedDelivery: int)

  datatype CartReport = CartReport(isValid: bool, totalErrors: nat, items: seq<LineReport>, summary: Summary)

  predicate CartValid(ps: seq<Product>, cart: seq<CartLine>) {
    forall i :: 0 <= i < |cart| ==> LineValid(ps, cart[i])
  }

  /** The number of errors over all lines. */
  function ErrorCount(ps: seq<Product>, cart: seq<CartLine>): nat {
    if |cart| == 0 then 0
    else ErrorCount(ps, cart[..|cart| - 1]) + |ValidateCartItem(ps, Some(cart[|cart| - 1])).errors|
  }

  function ValidCount(ps: seq<Product>, cart: seq<CartLine>): (n: nat)
    ensures n <= |cart|
  {
    if |cart| == 0 then 0
    else ValidCount(ps, cart[..|cart| - 1]) + (if LineValid(ps, cart[|cart| - 1]) then 1 else 0)
  }

  /** A valid line carries a price and a quantity. */
  lemma ValidLineHasAmounts(ps: seq<Product>, l: CartLine)
    requires LineValid(ps, l)
    ensures l.price.Some? && l.quantity.Some?
  {
    FieldChecksIndependent(ps, l);
  }

  /** Price times quantity summed over the valid lines only. */
  function ValidValue(ps: seq<Product>, cart: seq<CartLine>): int {
    if |cart| == 0 then 0
    else
      var l := cart[|cart| - 1];
      ValidValue(ps, cart[..|cart| - 1])
      + (if LineValid(ps, l) && l.price.Some? && l.quantity.Some? then l.price.value * l.quantity.value else 0)
  }

  /** A cart is valid exactly when no line reports an error. */
  lemma {:induction false} CartValidIffNoErrors(ps: seq<Product>, cart: seq<CartLine>)
    ensures CartValid(ps, cart) <==> ErrorCount(ps, cart) == 0
    decreases |cart|
  {
    if |cart| > 0 {
      var init := cart[..|cart| - 1];
      CartValidIffNoErrors(ps, init);
      assert CartValid(ps, cart) <==> CartValid(ps, init) && LineValid(ps, cart[|cart| - 1]) by {
        assert forall i :: 0 <= i < |init| ==> init[i] == cart[i];
      }
    }
  }

  /** The per-line reports of `validateCart`, in cart order. */
  function Reports(ps: seq<Product>, cart: seq<CartLine>): (rs: seq<LineReport>)
    ensures |rs| == |cart|
  {
    if |cart| == 0 then []
    else Reports(ps, cart[..|cart| - 1]) + [LineReport(|cart| - 1, ValidateCartItem(ps, Some(cart[|cart| - 1])))]
  }

  /** Report `k` carries index `k` and the validation of line `k`. */
  lemma {:induction false} ReportsIndexed(ps: seq<Product>, cart: seq<CartLine>)
    ensures forall k :: 0 <= k < |cart| ==> Reports(ps, cart)[k] == LineReport(k, ValidateCartItem(ps, Some(cart[k])))
    decreases |cart|
  {
    if |cart| > 0 {
      var init := cart[..|cart| - 1];
      ReportsIndexed(ps, init);
      assert forall k :: 0 <= k < |init| ==> init[k] == cart[k];
    }
  }

  /** How the running totals of `validateCart` move from one line to the next. */
  lemma CountsStep(ps: seq<Product>, cart: seq<CartLine>, i: int)
    requires 0 <= i < |cart|
    ensures CartValid(ps, cart[..i + 1]) <==> CartValid(ps, cart[..i]) && LineValid(ps, cart[i])
    ensures ErrorCount(ps, cart[..i + 1]) == ErrorCount(ps, cart[..i]) + |ValidateCartItem(ps, Some(cart[i])).errors|
    ensures ValidCount(ps, cart[..i + 1]) == ValidCount(ps, cart[..i]) + (if LineValid(ps, cart[i]) then 1 else 0)
    ensures Reports(ps, cart[..i + 1]) == Reports(ps, cart[..i]) + [LineReport(i, ValidateCartItem(ps, Some(cart[i])))]
    ensures ValidValue(ps, cart[..i + 1]) == ValidValue(ps, cart[..i])
      + (if LineValid(ps, cart[i]) && cart[i].price.Some? && cart[i].quantity.Some?
         then cart[i].price.value * cart[i].quantity.value else 0)
  {
    assert cart[..i + 1][..i] == cart[..i];
    assert cart[..i + 1][i] == cart[i];
  }

  /** `validateCart(cartItems)`: one report per line, the AND of their validity,
      the sum of their error counts, the valid and invalid counts, the value of
      the valid lines, and the validator's delivery estimate over all lines. */
  method ValidateCart(ps: seq<Product>, cart: seq<CartLine>) returns (r: CartReport)
    ensures r.isValid <==> CartValid(ps, cart)
    ensures r.isValid <==> r.totalErrors == 0
    ensures r.totalErrors == ErrorCount(ps, cart)
    ensures r.summary.totalItems == |cart|
    ensures r.summary.validItems + r.summary.invalidItems == r.summary.totalItems
    ensures r.summary.validItems == ValidCount(ps, cart)
    ensures r.summary.totalValue == ValidValue(ps, cart)
    ensures r.summary.estimatedDelivery == CalculateDeliveryValidation(ps, cart)
    ensures |r.items| == |cart|
    ensures forall k :: 0 <= k < |cart| ==> r.items[k] == LineReport(k, ValidateCartItem(ps, Some(cart[k])))
  {
    var isValid := true;
    var totalErrors: nat := 0;
    var items: seq<LineReport> := [];
    var validItems: nat := 0;
    var invalidItems: nat := 0;
    var totalValue := 0;
    var i := 0;
    while i < |cart|
      invariant 0 <= i <= |cart|
      invariant isValid <==> CartValid(ps, cart[..i])
      invariant totalErrors == ErrorCount(ps, cart[..i])
      invariant validItems == ValidCount(ps, cart[..i])
      invariant validItems + invalidItems == i
      invariant totalValue == ValidValue(ps, cart[..i])
      invariant items == Reports(ps, cart[..i])
    {
      var validation := ValidateCartItem(ps, Some(cart[i]));
      items := items + [LineReport(i, validation)];
      CountsStep(ps, cart, i);
      if !validation.isValid {
        isValid := false;
        totalErrors := totalErrors + |validation.errors|;
        invalidItems := invalidItems + 1;
      } else {
        ValidLineHasAmounts(ps, cart[i]);
        validItems := validItems + 1;
        totalValue := totalValue + cart[i].price.value * cart[i].quantity.value;
      }
      i := i + 1;
    }
    assert cart[..i] == cart;
    CartValidIffNoErrors(ps, cart);
    ReportsIndexed(ps, cart);
    r := CartReport(isValid, totalErrors, items,
                    Summary(validItems, invalidItems, |cart|, totalValue, CalculateDeliveryValidation(ps, cart)));
  }

  // ---- calculateDeliveryValidation ----

  /** The quantities of the lines whose catalog product is heavy, in order. */
  function HeavyLineQuantities(ps: seq<Product>, cart: seq<CartLine>): (qs: seq<Option<int>>)
    ensures |qs| <= |cart|
  {
    if |cart| == 0 then []
    else
      var last := cart[|cart| - 1];
      HeavyLineQuantities(ps, cart[..|cart| - 1]) + (if IsHeavyProduct(ps, last.id) then [last.quantity] else [])
  }

  /** The source's loop over the lines, looking each `id` up in the catalog. */
  function ValidationTally(ps: seq<Product>, cart: seq<CartLine>): Tally {
    if |cart| == 0 then Start
    else
      var t := ValidationTally(ps, cart[..|cart| - 1]);
      var last := cart[|cart| - 1];
      if IsHeavyProduct(ps, last.id) then CountHeavy(t, last.quantity) else t
  }

  lemma {:induction false} ValidationTallySummarizes(ps: seq<Product>, cart: seq<CartLine>)
    ensures ValidationTally(ps, cart) == TallyOf(HeavyLineQuantities(ps, cart))
    decreases |cart|
  {
    if |cart| == 0 {
      StartIsEmptyTally();
    } else {
      var init := cart[..|cart| - 1];
      var last := cart[|cart| - 1];
      ValidationTallySummarizes(ps, init);
      if IsHeavyProduct(ps, last.id) {
        CountHeavyExtends(HeavyLineQuantities(ps, init), last.quantity);
      } else {
        assert HeavyLineQuantities(ps, cart) == HeavyLineQuantities(ps, init) + [];
        assert HeavyLineQuantities(ps, init) + [] == HeavyLineQuantities(ps, init);
      }
    }
  }

  /** `calculateDeliveryValidation(cartItems)`: the reference tariff over the
      quantities of every line, valid or not, whose catalog product is heavy. */
  function CalculateDeliveryValidation(ps: seq<Product>, cart: seq<CartLine>): (fee: int)
    ensures fee == Fee(HeavyLineQuantities(ps, cart))
    ensures fee == SmallFee || fee == HeavyFee
  {
    ValidationTallySummarizes(ps, cart);
    SettleTally(HeavyLineQuantities(ps, cart));
    Settle(ValidationTally(ps, cart))
  }

  // ---- fixCartItem ----

  /** `isBulk ? (bulkPrice || price) : price`. */
  function RepairPrice(o: Offer, isBulk: bool): (r: int)
    ensures isBulk && o.HasBulkPrice() ==> r == o.bulk.value.price
    ensures !(isBulk && o.HasBulkPrice()) ==> r == o.price
  {
    if isBulk && o.HasBulkPrice() then o.bulk.value.price else o.price
  }

  /** `fixCartItem(item)`: `null` (here `None`) when the product is unknown or
      the store does not sell it; otherwise the line re-derived from the
      catalog, keeping its key and clamping its quantity to the stock. */
  function FixCartItem(ps: seq<Product>, l: CartLine): Option<CartLine> {
    match FindProduct(ps, l.id)
    case None => None
    case Some(p) =>
      match FindOffer(p.stores, l.storeId)
      case None => None
      case Some(o) =>
        Some(l.(name := p.name, brand := p.brand, image := p.image,
                price := Some(RepairPrice(o, l.isBulk)),
                deliveryType := Some(p.deliveryType),
                quantity := MinWith(l.quantity, o.stock)))
  }

  /** Repair drops the line exactly when its product or its store's offer is
      missing; a kept line keeps its key, takes its display fields and weight
      class from the catalog product, the tier price from the offer (the unit
      price for a bulk line on an offer without a bulk price), and the smaller
      of its quantity and the stock. */
  lemma FixCartItemFields(ps: seq<Product>, l: CartLine)
    ensures FixCartItem(ps, l).None? <==> FindProduct(ps, l.id).None? || OfferFor(ps, l.id, l.storeId).None?
    ensures FixCartItem(ps, l).Some? ==> Key(FixCartItem(ps, l).value) == Key(l)
    ensures FixCartItem(ps, l).Some? ==>
      var f := FixCartItem(ps, l).value;
      var p := FindProduct(ps, l.id).value;
      && f.name == p.name && f.brand == p.brand && f.image == p.image
      && f.deliveryType == Some(p.deliveryType)
    ensures FixCartItem(ps, l).Some? ==>
      var f := FixCartItem(ps, l).value;
      var o := OfferFor(ps, l.id, l.storeId).value;
      && f.price == Some(if l.isBulk && o.HasBulkPrice() then o.bulk.value.price else o.price)
      && f.quantity == MinWith(l.quantity, o.stock)
  {
  }

  /** A repaired line never asks for more than the stock, keeps a quantity
      exactly when it had one, and repairing it again changes nothing. */
  lemma FixCartItemBounds(ps: seq<Product>, l: CartLine)
    requires OfferFor(ps, l.id, l.storeId).Some?
    ensures FixCartItem(ps, l).Some?
    ensures var f := FixCartItem(ps, l).value; var o := OfferFor(ps, l.id, l.storeId).value;
      && (f.quantity.Some? ==> f.quantity.value <= o.stock)
      && (f.quantity.Some? <==> l.quantity.Some?)
      && FixCartItem(ps, f) == Some(f)
  {
    FixCartItemFields(ps, l);
    FixCartItemFields(ps, FixCartItem(ps, l).value);
  }

  /** In a well-formed catalog every stock is at least one, so clamping to the
      stock never turns a positive quantity into zero: a repaired quantity is
      positive iff the line's quantity already was. */
  lemma RepairedQuantityPositive(ps: seq<Product>, l: CartLine)
    requires CatalogWellFormed(ps)
    requires FixCartItem(ps, l).Some?
    ensures var f := FixCartItem(ps, l).value;
      (f.quantity.Some? && f.quantity.value > 0) <==> (l.quantity.Some? && l.quantity.value > 0)
  {
    FixCartItemFields(ps, l);
    ResolvedOfferWellFormed(ps, l.id, l.storeId);
  }

  /** In a well-formed catalog, the only defects a repaired line can still have
      are a non-positive or missing quantity and a bulk line on an offer without
      a bulk price; a repaired line with a positive quantity on a tier the offer
      has is valid. */
  lemma FixedLineDefects(ps: seq<Product>, l: CartLine)
    requires CatalogWellFormed(ps)
    requires FixCartItem(ps, l).Some?
    ensures FixCartItem(ps, l).value.price.Some? && FixCartItem(ps, l).value.price.value > 0
    ensures forall e :: e in LineErrors(ps, FixCartItem(ps, l).value) ==> e.InvalidQuantity? || e == BulkUnavailable
    ensures var f := FixCartItem(ps, l).value;
      f.quantity.Some? && f.quantity.value > 0 && (f.isBulk ==> OfferFor(ps, f.id, f.storeId).value.HasBulkPrice())
      ==> LineValid(ps, f)
  {
    var f := FixCartItem(ps, l).value;
    FixCartItemFields(ps, l);
    ResolvedOfferWellFormed(ps, l.id, l.storeId);
    var o := OfferFor(ps, l.id, l.storeId).value;
    var lk := LookUp(ps, f);
    assert lk == LookUp(ps, l);
    assert f.storeId != "" by {
      var i :| 0 <= i < |StoreIds| && StoreIds[i] == o.storeId;
    }
    RepairedRunDefects(f, lk, o);
    ValidateLine(ps, f);
  }

  /** The messages left for a line carrying what repair guarantees of it. */
  lemma RepairedRunDefects(f: CartLine, lk: Lookup, o: Offer)
    requires lk.product.Some? && lk.offer == Some(o) && lk.storeKnown && OfferWellFormed(o)
    requires f.id != "" && f.storeId != "" && f.name != ""
    requires f.price == Some(RepairPrice(o, f.isBulk))
    requires f.quantity.Some? ==> f.quantity.value <= o.stock
    ensures f.price.value > 0
    ensures forall e :: e in Run(f, lk, Checks) ==> e.InvalidQuantity? || e == BulkUnavailable
    ensures f.quantity.Some? && f.quantity.value > 0 && (f.isBulk ==> o.HasBulkPrice()) ==>
      forall c :: c in Checks ==> !Fails(f, lk, c)
  {
    forall e | e in Run(f, lk, Checks) ensures e.InvalidQuantity? || e == BulkUnavailable {
      RunMembers(f, lk, Checks, e);
    }
  }
}
