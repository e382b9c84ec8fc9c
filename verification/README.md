# ROFINET cart pricing and validation, in Dafny

This project models the cart engine of the ROFINET hardware storefront. The storefront is a React application that compares two hardware stores' offers for the same products and lets a shopper build a cart. The model covers:

- **The mock catalog** (`src/mock/products.js`): products, each with per-store offers (unit price, optional bulk tier, stock) and a weight class (`small` or `heavy`), plus the two vendor ids of `src/mock/stores.js`.
- **The delivery tariff, in all four copies.** The fee is S/ 10.00, or S/ 40.00 once the heavy lines add up to ten or more. The copies are:
  - `calculateDelivery` over the catalog;
  - `calculateDeliveryValidation` in the validator;
  - the cart panel's local copy, which reads the weight class copied onto each line;
  - `calculateDeliveryByProduct` on a product card.
- **Cart line construction**: the product card and the comparison view, with unit versus bulk tier.
- **The cart operations of `src/App.js`**: add (merging on the `id`/`storeId`/`isBulk` key), update, remove, the two sums, and the delivery input built at checkout.
- **The cart panel's derived values**: totals, issue flags, the grand total, and the quantity buttons.
- **The validator and the repair** (`src/utils/cartValidation.js`), and the validation panel that offers the repair and applies it to the whole cart.

Every operation is a pure function over immutable data, except two methods: `validateCart` (`Validation.ValidateCart`, a loop over the cart) and the validation panel's review-and-fix step (`CartRepair.ReviewCart`). Representation choices:

- Money is in integer cents. The price tolerance of 0.01 becomes 1 cent.
- A JavaScript number that is `undefined` or `NaN` is `None` in `Option<int>`. `+` and `*` propagate it (`Numbers.Plus`, `Numbers.Times`), and `x || 0` reads it as zero (`Numbers.OrZero`). A `null` is not `None`, since JavaScript reads it as 0 in arithmetic. It is left out (see below).
- The catalog is a parameter `ps` of every lookup. The storefront's own catalog is `Catalog.Products`, and `Catalog.ShippedCatalogWellFormed` proves the data invariants of that constant. General results assume only `Catalog.CatalogWellFormed(ps)`.
- The tariff is defined once, as `Tariff.Fee` over the sequence of heavy quantities. Each copy is proved equal to it through the loop's two variables (`Tariff.TallyOf`), so the copies agree with each other wherever their inputs agree.

The program's parts do not always agree with each other. The model follows the code that runs in each place:

- **Subtotal of a bulk line.** The product card shows a bulk selection at the pack price: the shipped screws read "S/ 15.00, por 100 unidades" (`src/components/ProductCard.js:17-22`, `src/components/ProductCard.js:144-150`). The line it adds carries that pack price with a quantity equal to the pack size (`src/components/ProductCard.js:44-46`). `cartTotal` (`src/App.js:306`) multiplies the two, so the same line totals S/ 1500.00. See Findings.
- **Bulk quantity in the cart.** The product card hides its quantity input while bulk is selected (`src/components/ProductCard.js:186-187`), so a bulk line arrives holding exactly one pack. The cart panel's +/- buttons (`src/components/Cart.js:207-221`) have no bulk guard. They change a bulk line's quantity one unit at a time, like any other line's (`CartView.IncrementLine`, `CartView.DecrementLine`, `BulkAmounts.DecrementLeavesPartialPack`).
- **Merging.** Adding a line whose key is already present adds its quantity to the existing line (`src/App.js:180`). The existing line keeps its own price, and the price of the line being added is dropped.
- **Repair and quantities.** Repair clamps the quantity to the stock with `Math.min` (`src/utils/cartValidation.js:144`). In a well-formed catalog every stock is at least 1, and the shipped catalog's smallest is 15. So a repaired quantity is 0 or less only when it already was (`Validation.RepairedQuantityPositive`). Such a line stays in the repaired cart and is still invalid. Clamping can also leave a bulk line whose quantity is no longer the pack size. `Validation.FixedLineDefects` shows that these, together with a bulk tier the offer lacks, are the only defects repair can leave.

## Model

| member | source | states |
|---|---|---|
| Tariff.Fee | src/mock/products.js:189-197 | the delivery fee is always the small fee or the heavy fee |
| Tariff.SettleTally | src/mock/products.js:189-197 | the three returns after the loop compute the reference fee from what the loop accumulated; this step holds by definition, and each loop's own `TallySummarizes` lemma proves what the loop accumulates |
| Tariff.CountHeavyExtends | src/mock/products.js:183-186 | one more heavy line extends the accumulated summary by exactly that quantity |
| Tariff.ThresholdIsInclusive | src/mock/products.js:193-197 | a heavy sum of exactly 10 pays 40, a sum of 9 pays 10 |
| Tariff.FeeMonotonic | src/mock/products.js:183-197 | adding a non-negative heavy quantity never lowers the fee |
| Catalog.FindProduct | src/utils/cartValidation.js:25 | the result is absent iff no product has the id, otherwise it is the first product with that id |
| Catalog.FindOffer | src/utils/cartValidation.js:30 | the result is absent iff no offer has the store id, otherwise it is the first such offer |
| Catalog.OfferFor | src/utils/cartValidation.js:25-33 | a resolved offer belongs to the product found by id and carries the requested store id; if the product exists but the offer is absent, the product has no offer from that store |
| Catalog.ShippedCatalogWellFormed | src/mock/products.js:1-164 | the shipped catalog has unique ids; every product has a name and at least one offer, with distinct store ids from the vendor set; prices and stock are positive; every bulk tier has a positive price, a pack size above one within stock, and savings equal to unit price times pack size minus pack price, which is positive (the comments at lines 17, 26, 47, 56) |
| Catalog.LookupsFindCatalogEntries | src/utils/cartValidation.js:25-30 | in a well-formed catalog, every product is found by its own id and every offer by its own store id |
| Catalog.ResolvedOfferWellFormed | src/utils/cartValidation.js:25-35 | in a well-formed catalog, any offer a line resolves to is well formed, and so is its product |
| Catalog.DeliveryTallySummarizes | src/mock/products.js:178-187 | after the loop, `hasHeavyItems` says whether a heavy item was seen and `heavyItemCount` is the sum of the heavy quantities |
| Catalog.CalculateDelivery | src/mock/products.js:177-198 | the fee is the reference tariff over the quantities of the items whose catalog product is heavy, and is always 10 or 40 |
| Catalog.CalculateDeliveryWithoutHeavy | src/mock/products.js:189-191 | with no heavy item, including an empty list, the fee is 10 |
| Catalog.HeavyQuantitiesAppend | src/mock/products.js:182-186 | the heavy quantities of two item lists joined together are those of each list, in order |
| Catalog.UnknownProductIgnored | src/mock/products.js:182-186 | an item whose product id is not in the catalog leaves the fee unchanged, wherever it sits in the list |
| Catalog.CalculateDeliveryMonotonic | src/mock/products.js:183-197 | appending an item with a non-negative quantity never lowers the fee |
| Catalog.CalculateDeliveryThreshold | src/mock/products.js:193-197 | for the shipped cement, 9 bags cost 10 and 10 bags cost 40 |
| PriceHelpers.CalculateBulkDiscount | src/utils/priceHelpers.js:5-15 | savings equal the discount, and the discount plus the pack price is what as many units cost at the unit price |
| PriceHelpers.BulkDiscountPositive | src/utils/priceHelpers.js:6-13 | the pack saves money iff its price is below that of as many units |
| PriceHelpers.CatalogSavingsAgree | src/mock/products.js:12-17 | in a well-formed catalog, each stored `savings` is what `calculateBulkDiscount` derives from the offer, and it is positive |
| PriceHelpers.DeliveryByProduct | src/utils/priceHelpers.js:17-22 | the fee is 10 or 40, and it is 40 iff the type is `heavy` and the quantity is at least 10 |
| PriceHelpers.DeliveryByProductAgrees | src/utils/priceHelpers.js:17-22 | for a catalog product, the per-product fee equals `calculateDelivery` of a one-item list holding that product and quantity |
| PriceHelpers.DescriptionMatchesFee | src/utils/priceHelpers.js:24-31 | the description names the 40 tier iff the per-product fee is 40, and it always opens with the fee that is charged |
| Validation.ExpectedPrice | src/utils/cartValidation.js:35 | a unit line expects the unit price; a bulk line expects the offer's bulk price, and has no expected price when the offer has no bulk tier |
| Validation.Report | src/utils/cartValidation.js:14-56 | each message identifies the check that produced it |
| Validation.RunReports | src/utils/cartValidation.js:14-56 | a check's message is in the list iff that check is run and fails, whatever the other checks do |
| Validation.RunMembers | src/utils/cartValidation.js:14-56 | every message in the list comes from a check that was run and failed |
| Validation.RunEmpty | src/utils/cartValidation.js:59 | the list is empty iff no check fails |
| Validation.ValidateCartItem | src/utils/cartValidation.js:4-11 | a null item gets exactly one error and no echoed line; the result is valid iff its error list is empty |
| Validation.ValidateLine | src/utils/cartValidation.js:58-66 | a present line is valid iff no check fails, and it is echoed with the product flag, the store flag and the offer the lookups found |
| Validation.FieldChecksIndependent | src/utils/cartValidation.js:14-22 | a missing id, store id or name, a missing or non-positive price, and a missing or non-positive quantity each add their own error, iff the field is bad |
| Validation.RunCatalogChecks | src/utils/cartValidation.js:25-56 | for any lookup outcome, the not-found, not-sold and unknown-store messages are reported iff the corresponding lookup failed |
| Validation.RunOfferChecks | src/utils/cartValidation.js:30-49 | for any lookup outcome, the price, stock and bulk messages are reported iff the product and offer resolve and the condition holds |
| Validation.CatalogChecks | src/utils/cartValidation.js:25-56 | an unknown product is reported and then no price, stock or bulk error appears; the store-existence check runs in every case |
| Validation.OfferChecks | src/utils/cartValidation.js:34-48 | a price error iff the offer resolves and the price is more than 1 cent from the tier price; a stock error iff the quantity exceeds the stock; a bulk error iff a bulk line's offer has no bulk price |
| Validation.AllChecksPassFor | src/utils/cartValidation.js:14-59 | for any lookup outcome, all checks pass iff every field is present and positive, both lookups succeed, the tier exists, the price is within 1 cent, the quantity is within stock and the store is known |
| Validation.ValidIffAcceptable | src/utils/cartValidation.js:4-67 | a line is valid iff it meets the independent description of an acceptable line |
| Validation.BulkWithoutBulkPrice | src/utils/cartValidation.js:35-48 | a bulk line on an offer without a bulk tier gets the bulk error but no price-mismatch error, and is invalid |
| Validation.ValidLineHasAmounts | src/utils/cartValidation.js:17-22 | a valid line has a price and a quantity |
| Validation.CartValidIffNoErrors | src/utils/cartValidation.js:91-93 | a cart is valid iff no line reports an error |
| Validation.ReportsIndexed | src/utils/cartValidation.js:84-89 | report k carries index k and the validation of line k |
| Validation.ValidateCart | src/utils/cartValidation.js:70-105 | `isValid` is the AND of the line results and holds iff `totalErrors` is 0; `totalErrors` is the sum of the error counts; valid plus invalid counts equal the cart length; `totalValue` sums price times quantity over valid lines only; the delivery estimate covers every line; one report per line |
| Validation.ValidationTallySummarizes | src/utils/cartValidation.js:108-117 | after the loop, the two variables summarize the quantities of the lines whose catalog product is heavy |
| Validation.CalculateDeliveryValidation | src/utils/cartValidation.js:107-128 | the estimate is the reference tariff over the heavy lines' quantities, valid or not, and is always 10 or 40 |
| Validation.RepairPrice | src/utils/cartValidation.js:142 | a bulk line gets the bulk price when its offer has one and the unit price otherwise; a unit line gets the unit price |
| Validation.FixCartItemFields | src/utils/cartValidation.js:130-145 | repair returns null iff the product or its store's offer is missing; otherwise it keeps the key, copies the display fields and weight class from the catalog, takes the tier price and takes the minimum of the quantity and the stock |
| Validation.FixCartItemBounds | src/utils/cartValidation.js:144 | a repaired quantity never exceeds the stock, is present iff it was before, and repairing again changes nothing |
| Validation.RepairedQuantityPositive | src/utils/cartValidation.js:144 | in a well-formed catalog, a repaired quantity is positive iff the line's quantity was |
| Validation.FixedLineDefects | src/utils/cartValidation.js:130-145 | in a well-formed catalog, a repaired line has a positive price; its only possible errors are a bad quantity or a missing bulk tier; without those it is valid |
| AppCart.FindKey | src/App.js:174-176 | the result is absent iff no line has the key, otherwise it is the index of the first line with it |
| AppCart.AddToCart | src/App.js:167-186 | without a user the cart is unchanged; a new key is appended; an existing key adds the quantity to the first such line and leaves every other line and the length as they were |
| AppCart.AddKeepsKeysUnique | src/App.js:173-184 | adding keeps the keys distinct |
| AppCart.CartItemsCount | src/App.js:307 | the count is a number iff every line has a quantity |
| AppCart.AddRaisesCount | src/App.js:173-184 | adding a line, merged or appended, raises the item count by its quantity |
| AppCart.RemoveItem | src/App.js:208-216 | without a user the cart is unchanged; otherwise the result holds exactly the lines without the key and is no longer than the cart |
| AppCart.WithoutKeyMembers | src/App.js:213-215 | the filter keeps exactly the lines without the key |
| AppCart.WithoutAbsentKey | src/App.js:213-215 | removing an absent key changes nothing |
| AppCart.WithoutUniqueKey | src/App.js:213-215 | with distinct keys, removal deletes exactly the one line with the key and keeps the rest in order |
| AppCart.RemoveExact | src/App.js:213-215 | with distinct keys, remove deletes the line that `findIndex` finds, or nothing when the key is absent |
| AppCart.WithoutKeyKeepsKeysUnique | src/App.js:213-215 | removing keeps the keys distinct |
| AppCart.UpdateQuantity | src/App.js:188-206 | without a user nothing changes; a quantity of 0 or less is exactly a removal; otherwise only the quantity of the lines with the key changes, and nothing else does |
| AppCart.UpdateKeepsKeysUnique | src/App.js:199-205 | updating keeps the keys distinct, and a positive update leaves the keyed line with exactly the new quantity |
| AppCart.CartTotal | src/App.js:306 | the total is a number iff every line has a price and a quantity |
| AppCart.ValidCartTotal | src/App.js:306 | on a valid cart, `cartTotal` equals the validator's `totalValue` |
| AppCart.Checkout | src/App.js:222-239 | without a user there is no checkout; otherwise the stored items are the cart, the mode is kept, and the fee is the reference tariff over the heavy lines |
| AppCart.ProjectionKeepsHeavyQuantities | src/App.js:228-231 | renaming `id` to `productId` keeps the heavy quantities |
| AppCart.CheckoutAgreesWithValidation | src/App.js:228-231 | the checkout fee equals the validator's delivery estimate |
| CartView.ViewSumsAreFilledSums | src/components/Cart.js:21-27 | the panel's total and item count are the application's sums over the cart with missing amounts read as 0, and are never `NaN` |
| CartView.ViewSumsAgreeWhenPresent | src/components/Cart.js:21-27 | when every line has a price and a quantity, the panel's sums equal `cartTotal` and `cartItemsCount` |
| CartView.ViewTallySummarizes | src/components/Cart.js:31-39 | after the loop, the two variables summarize the quantities (missing read as 0) of the lines marked heavy |
| CartView.LocalDelivery | src/components/Cart.js:30-50 | the panel's fee is the reference tariff over the lines marked heavy on the line itself, and is always 10 or 40 |
| CartView.LocalDeliveryAgrees | src/components/Cart.js:30-50 | when every line's copied weight class matches the catalog and every heavy line has a quantity, the panel's fee equals the validator's estimate |
| CartView.HeavyPairQuantities | src/components/Cart.js:34-39 | for two heavy lines, the panel sees both quantities read with `|| 0` and the validator sees them as they are |
| CartView.LocalDeliveryDivergesOnMissingQuantity | src/components/Cart.js:37 | with the weight classes matching, ten bags plus a heavy line without a quantity cost 40 in the panel and 10 in the validator |
| CartView.ShippedCementIsHeavy | src/mock/products.js:139-144 | the shipped cement is heavy |
| CartView.CheckoutEnabledIff | src/components/Cart.js:55-60 | checkout is enabled iff every line has a non-zero price and quantity, a name and a store |
| CartView.IssuesBlockValidity | src/components/Cart.js:55-60 | a cart flagged with issues never validates |
| CartView.NegativePriceRaisesNoIssue | src/components/Cart.js:55-60 | the converse fails: a negative price raises no issue, yet the cart is invalid |
| CartView.BadgeOmitsStore | src/components/Cart.js:145 | the per-line badge ignores `storeId`, so a line without a store blocks checkout while showing no badge |
| CartView.GrandTotal | src/components/Cart.js:279 | the grand total exceeds the panel total by exactly the panel's delivery fee, which is 10 or 40 |
| CartView.DecrementLine | src/components/Cart.js:207-211 | the button does nothing at a quantity of 1 or less; otherwise it lowers only the keyed line's quantity by one |
| CartView.IncrementLine | src/components/Cart.js:221 | the keyed line's quantity (missing read as 0) goes up by one and no other line changes; a negative quantity still ends at 0 or less, and the line is removed |
| ProductCard.InitialCard | src/components/ProductCard.js:6-12 | no card for a product without offers; otherwise the first state satisfies the card invariant |
| ProductCard.SelectStore | src/components/ProductCard.js:114-118 | selecting a store keeps the card invariant |
| ProductCard.ToggleBulk | src/components/ProductCard.js:161-164 | toggling bulk, shown only when a bulk option exists (line 154), keeps the card invariant |
| ProductCard.QuantityInput | src/components/ProductCard.js:197 | the quantity is the typed value when that parses to at least 1, and 1 otherwise |
| ProductCard.EventsKeepInvariant | src/components/ProductCard.js:114-197 | every event available in a state keeps the card invariant |
| ProductCard.PriceAndSavingsAddUp | src/components/ProductCard.js:17-36 | the price shown plus the savings shown is what the effective quantity costs at the unit price; the savings are zero without bulk and equal `calculateBulkDiscount` with it |
| ProductCard.SelectStoreResets | src/components/ProductCard.js:114-118 | after selecting a store the card prices one unit of that store with no savings |
| ProductCard.ToggleBulkResets | src/components/ProductCard.js:161-164 | bulk on prices one pack at the pack price; bulk off prices one unit |
| ProductCard.CardItemShape | src/components/ProductCard.js:38-50 | the added line has the selected store and tier as its key, the catalog price for its tier and the effective quantity; its amount is what the card displays |
| ProductCard.CardItemValid | src/components/ProductCard.js:38-50 | in a well-formed catalog, the added line is valid iff its effective quantity is within stock, and a bulk line always is |
| ProductCard.CardDeliveryAgrees | src/components/ProductCard.js:54-55 | the card's fee is `calculateDeliveryByProduct` of its type and effective quantity, and so `calculateDelivery` of that one item |
| ProductComparison.MinPrice | src/components/ProductComparison.js:79 | the minimum is at most every offer's price and is some offer's price |
| ProductComparison.LowestIsCheapest | src/components/ProductComparison.js:79 | an offer is badged lowest iff no offer is cheaper, and every product with offers has one |
| ProductComparison.BulkButton | src/components/ProductComparison.js:183-195 | the bulk button exists iff the offer has a non-zero bulk price and pack size |
| ProductComparison.ButtonsMatchCard | src/components/ProductComparison.js:160-195 | the unit and bulk buttons build the lines the product card builds for that store without and with bulk |
| ProductComparison.ButtonLinesValid | src/components/ProductComparison.js:160-195 | in a well-formed catalog, both lines built for any offer pass validation |
| ProductComparison.ShippedButtonLinesValid | src/components/ProductComparison.js:160-195 | against the shipped catalog, every line the buttons build passes `validateCartItem` |
| CartRepair.KeptAppend | src/components/CartValidation.js:33-35 | the kept lines of a concatenation are the kept lines of each part, in order |
| CartRepair.KeptMembers | src/components/CartValidation.js:33-35 | exactly the lines the repair does not drop are kept, and there are no more of them than lines |
| CartRepair.KeptAllOrNone | src/components/CartValidation.js:33-35 | when no line is dropped everything is kept; when every line is dropped nothing is |
| CartRepair.FixedIsMapOverKept | src/components/CartValidation.js:33-35 | output k is the repair of kept line k, and the output is no longer than the input |
| CartRepair.FixedFromCart | src/components/CartValidation.js:33-35 | every output line is the repair of some input line |
| CartRepair.FixedKeepsKeysUnique | src/components/CartValidation.js:33-35 | a key-preserving repair keeps the keys distinct |
| CartRepair.FixedIdempotent | src/components/CartValidation.js:33-35 | a repair that leaves its own output alone can be applied to a whole cart twice with no further change |
| CartRepair.RepairableIffFixed | src/utils/cartValidation.js:131-135 | `fixCartItem` keeps a line iff its product and store offer exist |
| CartRepair.RepairShape | src/components/CartValidation.js:32-39 | the repaired cart holds, in order, the repair of exactly the lines whose product and offer exist, and is no longer than the cart |
| CartRepair.RepairAllOrNone | src/components/CartValidation.js:33-35 | a cart whose lines all resolve keeps its length; one where none resolves is emptied |
| CartRepair.RepairedLinesFromCatalog | src/utils/cartValidation.js:137-145 | every repaired line comes from an input line with the same key, has quantity within its offer's stock, the tier price and the catalog weight class |
| CartRepair.RepairKeepsKeysUnique | src/components/CartValidation.js:33-35 | repair keeps the keys distinct |
| CartRepair.RepairIdempotent | src/components/CartValidation.js:33-35 | repairing a repaired cart changes nothing |
| CartRepair.RepairedCartDefects | src/components/CartValidation.js:33-35 | in a well-formed catalog, a repaired line can only fail on its quantity or on a missing bulk tier |
| CartRepair.RepairedDeliveryAgrees | src/utils/cartValidation.js:143 | after repair the copied weight classes match the catalog, so with all quantities present the panel's fee equals the validator's estimate |
| CartRepair.ReviewCart | src/components/CartValidation.js:18-39 | the fix is offered (line 238) iff the cart is invalid, iff errors were counted; without the offer or the press the cart is unchanged; a pressed fix yields a cart that is no longer, keeps distinct keys distinct and is a fixed point of repair |
| BulkAmounts.BulkLineChargedPerUnit | src/App.js:306 | a bulk line from the product card totals the pack price times the pack size, more than the price the card showed |
| BulkAmounts.ShippedScrewPackOvercharged | src/App.js:306 | the shipped screw pack is shown at S/ 15.00 and totalled at S/ 1500.00 |
| BulkAmounts.LineAmount | src/App.js:306 | for a line of whole packs, the corrected amount is present iff its price and quantity are, and times the pack size it equals price times quantity, so each pack is charged its price once |
| BulkAmounts.CorrectedCartTotal | src/App.js:306 | on a cart of whole packs, the corrected total is a number iff every line has a price and a quantity |
| BulkAmounts.CorrectedAgreesOnUnitCarts | src/App.js:306 | a cart without bulk lines holds whole packs, and its corrected total is `cartTotal` |
| BulkAmounts.CorrectedCardLineAmount | src/components/ProductCard.js:17-22 | in a well-formed catalog, any line a card adds holds whole packs, and its corrected amount is the price the card displayed |
| BulkAmounts.DecrementLeavesPartialPack | src/components/Cart.js:207-211 | the minus button takes a one-pack bulk line to one unit short of a pack, which the whole-pack reading does not cover |
| BulkAmounts.MergedPackAddsPackPrice | src/App.js:180 | merging one more pack into a bulk line of k packs keeps whole packs and raises its corrected amount from k to k+1 pack prices |

## Left out

- Rendering, animation, styling, the sign-in prompt and view routing are not modelled. A missing user is the flag `signedIn`.
- Browser storage, the `setTimeout` delays of the validation panel, order records, authentication and the admin and profile screens are not modelled. They are I/O, timing or outside the engine.
- JavaScript doubles are modelled as integer cents. `formatPrice`/`toFixed` formatting is not modelled.
- The `percentage` division in `calculateBulkDiscount` is not modelled. It is floating point and can divide by zero.
- A `null` price or quantity is left out. JavaScript reads `null` as 0 in arithmetic, in comparisons and in `Math.min`, so it behaves unlike `None` in five places:
  - `Math.abs(null - expected)` is the expected price, so a `null` price on a known offer also gets the price-mismatch error (`src/utils/cartValidation.js:36`);
  - `heavyItemCount += null` leaves the count as it was (`src/mock/products.js:185`, `src/utils/cartValidation.js:115`);
  - `cartTotal` and `cartItemsCount` count the line as 0 (`src/App.js:306-307`);
  - a merge gives `null + q`, which is q (`src/App.js:180`);
  - repair gives `Math.min(null, stock)`, which is 0 (`src/utils/cartValidation.js:144`).
- Default parameters are required parameters in the model: `quantity = 1` of `calculateDeliveryByProduct` and `getDeliveryDescription` (`src/utils/priceHelpers.js:17`, `src/utils/priceHelpers.js:24`), and `isBulk = false` of `handleUpdateQuantity` and `handleRemoveItem` (`src/App.js:188`, `src/App.js:208`). The cart panel always passes `isBulk`, and the two price helpers have no caller in the files modelled.
- BulkAmounts.LineAmount: the corrected amount is defined only for a line of whole packs. Nothing in the program says how a bulk line the +/- buttons left between two pack sizes should be priced, so the model does not price it.
- A price that is a number but `NaN` is left out. The model's `None` price fails the price check, while a `NaN` price passes it in the source.
- Fractional quantities and non-numeric strings in numeric fields are left out. A quantity is a whole number or `None`.
- `validateCart` on a list holding `null` entries is left out. Carts are sequences of lines, and the single-item `null` case is modelled in `Validation.ValidateCartItem`. In the source such a list would throw in `calculateDeliveryValidation`.
- The in-place `+=` on a line shared between the old and new arrays (`src/App.js:180`) is modelled as replacing that line.
- The `(10+ bolsas)` text of the descriptions is modelled as three constant strings, with no formatting.
- `parseInt` is modelled as its result: `ProductCard.QuantityInput` takes the parsed value, `None` when the text does not parse.
- The input's `max="100"` attribute is left out. The handler does not enforce it.
- The display-only data of stores, ratings, specifications and descriptions are left out.
- `stores.find` in the validator is modelled on the two vendor ids only.
- `CartRepair.ReviewCart` models the result of pressing the fix button, not the panel's open and closed state.

## Findings

| source | as written | input that shows it | evidently intended | confidence | as-written member | corrected member |
|---|---|---|---|---|---|---|
| src/App.js:306 | `cartTotal` (and the panel's `total`, `src/components/Cart.js:21-25`, and `totalValue`, `src/utils/cartValidation.js:97`) adds `price * quantity` for every line. A bulk line carries the pack price together with the number of units in the pack, so the pack price is charged once per unit | the product card's bulk pack of 100 screws from store `"1"`: shown as S/ 15.00, totalled as S/ 1500.00 | the pack price once per pack, i.e. S/ 15.00 for that line, as the product card shows it. The corrected reading covers lines of whole packs, which includes every line the card and the comparison view add. It does not cover a bulk line the cart's +/- buttons left between pack sizes (`BulkAmounts.DecrementLeavesPartialPack`) | not executed | BulkAmounts.ShippedScrewPackOvercharged | BulkAmounts.CorrectedCardLineAmount |
