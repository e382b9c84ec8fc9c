/** The mock catalog of `src/mock/products.js`, the two vendor ids of
    `src/mock/stores.js`, the lookups the engine performs on them, and the
    catalog's own delivery tariff `calculateDelivery`. Prices are in cents. */
module Catalog {
  import opened Options
  import opened Tariff

  datatype WeightClass = Small | Heavy

  /** The optional bulk fields of an offer (`bulkPrice`, `bulkQuantity`,
      `savings`), which the catalog always carries together. */
  datatype BulkTier = BulkTier(price: int, quantity: int, savings: int)

  /** One store's terms for a product. */
  datatype Offer = Offer(storeId: string, price: int, bulk: Option<BulkTier>, stock: int) {

    /** `bulkPrice && bulkQuantity`: both present and non-zero. */
    predicate HasBulkOption() {
      bulk.Some? && bulk.value.price != 0 && bulk.value.quantity != 0
    }

    /** `!!bulkPrice`. */
    predicate HasBulkPrice() {
      bulk.Some? && bulk.value.price != 0
    }
  }

  datatype Product = Product(
    id: string,
    name: string,
    brand: string,
    category: string,
    image: string,
    deliveryType: WeightClass,
    stores: seq<Offer>)

  /** The `deliveryType` strings of the source. */
  function TypeName(w: WeightClass): string {
    match w
    case Small => "small"
    case Heavy => "heavy"
  }

  /** The ids of `stores`. */
  const StoreIds: seq<string> := ["1", "2"]

  /** Product image URLs (display data copied onto cart lines). */
  const ScrewsImage: string := "https://media.istockphoto.com/id/1153417566/es/foto/tornillo-de-acero-sobre-fondo-blanco.jpg?s=612x612&w=0&k=20&c=mBoe0l6tmRzstRfQiEDbR0qaAD5QNyC2kw8LiHq1Y40="
  const NailsImage: string := "https://img.freepik.com/fotos-premium/dos-clavos-hormigon-plateados-sobre-fondo-blanco_483511-75.jpg"
  const HammerImage: string := "https://dojiw2m9tvv09.cloudfront.net/43701/product/70408-ph4470.jpg"
  const ScrewdriverImage: string := "https://oechsle.vteximg.com.br/arquivos/ids/13585294-1000-1000/11348.jpg?v=638101859565470000"
  const PliersImage: string := "https://dojiw2m9tvv09.cloudfront.net/53969/product/84-055-j5336.jpg"
  const CementImage: string := "https://promart.vteximg.com.br/arquivos/ids/8246749-700-700/33477.jpg?v=638648076559730000"

  const Products: seq<Product> := [
    Product("1", "Tornillos 6.0 x 50", "Industrial", "Tornillería",
      ScrewsImage,
      Small,
      [ Offer("1", 23, Some(BulkTier(1500, 100, 800)), 5000),
        Offer("2", 80, Some(BulkTier(5217, 100, 2783)), 3200) ]),
    Product("2", "Clavo 2 pulgadas", "Industrial", "Tornillería",
      NailsImage,
      Small,
      [ Offer("1", 75, Some(BulkTier(3000, 100, 4500)), 8000),
        Offer("2", 30, Some(BulkTier(1200, 100, 1800)), 6500) ]),
    Product("3", "Martillo", "Stanley", "Herramientas Manuales",
      HammerImage,
      Small,
      [ Offer("1", 1200, None, 25),
        Offer("2", 2500, None, 18) ]),
    Product("4", "Destornillador", "Stanley", "Herramientas Manuales",
      ScrewdriverImage,
      Small,
      [ Offer("1", 550, None, 45),
        Offer("2", 500, None, 38) ]),
    Product("5", "Alicate Stanley 7 pulgadas", "Stanley", "Herramientas Manuales",
      PliersImage,
      Small,
      [ Offer("1", 3500, None, 20),
        Offer("2", 3000, None, 15) ]),
    Product("6", "Bolsa de Cemento PACASMAYO", "Pacasmayo", "Construcción",
      CementImage,
      Heavy,
      [ Offer("1", 3000, None, 100),
        Offer("2", 3450, None, 85) ])
  ]

  /** `products.find(p => p.id === id)`: the first product with that id. The
      lookups take the catalog as a parameter; the storefront's is `Products`. */
  function FindProduct(ps: seq<Product>, id: string): (r: Option<Product>)
    ensures r.None? <==> forall i :: 0 <= i < |ps| ==> ps[i].id != id
    ensures r.Some? ==> exists i :: 0 <= i < |ps| && ps[i] == r.value && r.value.id == id
                          && forall j :: 0 <= j < i ==> ps[j].id != id
  {
    if |ps| == 0 then None
    else if ps[0].id == id then Some(ps[0])
    else
      var r := FindProduct(ps[1..], id);
      assert r.Some? ==> exists i :: 1 <= i < |ps| && ps[i] == r.value && r.value.id == id
                            && forall j :: 1 <= j < i ==> ps[j].id != id by {
        if r.Some? {
          var k :| 0 <= k < |ps[1..]| && ps[1..][k] == r.value && r.value.id == id
                   && forall j :: 0 <= j < k ==> ps[1..][j].id != id;
          assert ps[k + 1] == r.value;
          assert forall j :: 1 <= j < k + 1 ==> ps[j].id != id by {
            forall j | 1 <= j < k + 1 ensures ps[j].id != id {
              assert ps[j] == ps[1..][j - 1];
            }
          }
        }
      }
      r
  }

  /** `product.stores.find(s => s.storeId === storeId)`: the first offer of
      that store. */
  function FindOffer(os: seq<Offer>, storeId: string): (r: Option<Offer>)
    ensures r.None? <==> forall i :: 0 <= i < |os| ==> os[i].storeId != storeId
    ensures r.Some? ==> exists i :: 0 <= i < |os| && os[i] == r.value && r.value.storeId == storeId
                          && forall j :: 0 <= j < i ==> os[j].storeId != storeId
  {
    if |os| == 0 then None
    else if os[0].storeId == storeId then Some(os[0])
    else
      var r := FindOffer(os[1..], storeId);
      assert r.Some? ==> exists i :: 1 <= i < |os| && os[i] == r.value && r.value.storeId == storeId
                            && forall j :: 1 <= j < i ==> os[j].storeId != storeId by {
        if r.Some? {
          var k :| 0 <= k < |os[1..]| && os[1..][k] == r.value && r.value.storeId == storeId
                   && forall j :: 0 <= j < k ==> os[1..][j].storeId != storeId;
          assert os[k + 1] == r.value;
          assert forall j :: 1 <= j < k + 1 ==> os[j].storeId != storeId by {
            forall j | 1 <= j < k + 1 ensures os[j].storeId != storeId {
              assert os[j] == os[1..][j - 1];
            }
          }
        }
      }
      r
  }

  /** The offer a line's product and store resolve to, if both exist. */
  function OfferFor(ps: seq<Product>, id: string, storeId: string): (r: Option<Offer>)
    ensures r.Some? ==> FindProduct(ps, id).Some? && r.value in FindProduct(ps, id).value.stores
                        && r.value.storeId == storeId
    ensures FindProduct(ps, id).Some? && r.None? ==>
      forall i :: 0 <= i < |FindProduct(ps, id).value.stores| ==> FindProduct(ps, id).value.stores[i].storeId != storeId
  {
    match FindProduct(ps, id)
    case None => None
    case Some(p) => FindOffer(p.stores, storeId)
  }

  /** `stores.find(s => s.id === storeId)` found something. */
  predicate StoreExists(storeId: string) {
    exists i :: 0 <= i < |StoreIds| && StoreIds[i] == storeId
  }

  // ---- Invariants of the shipped catalog ----

  predicate UniqueProductIds(ps: seq<Product>) {
    forall i, j :: 0 <= i < j < |ps| ==> ps[i].id != ps[j].id
  }

  predicate OfferWellFormed(o: Offer) {
    && StoreExists(o.storeId)
    && o.price > 0
    && o.stock >= 1
    && (o.bulk.Some? ==>
          && o.bulk.value.price > 0
          && o.bulk.value.quantity > 1
          && o.bulk.value.quantity <= o.stock
          && o.bulk.value.savings == o.price * o.bulk.value.quantity - o.bulk.value.price
          && o.bulk.value.savings > 0)
  }

  predicate ProductWellFormed(p: Product) {
    && p.id != ""
    && p.name != ""
    && |p.stores| >= 1
    && (forall i, j :: 0 <= i < j < |p.stores| ==> p.stores[i].storeId != p.stores[j].storeId)
    && (forall i :: 0 <= i < |p.stores| ==> OfferWellFormed(p.stores[i]))
  }

  predicate CatalogWellFormed(ps: seq<Product>) {
    && UniqueProductIds(ps)
    && forall i :: 0 <= i < |ps| ==> ProductWellFormed(ps[i])
  }

  /** The shipped catalog has unique product ids; every product has a non-empty
      id and name and at least one offer, with distinct store ids from the vendor
      set; every offer has a positive price and some stock; and every bulk tier
      has a positive price, a quantity above one that the stock covers, and a
      positive `savings` equal to `price * bulkQuantity - bulkPrice`. */
  lemma ShippedCatalogWellFormed()
    ensures CatalogWellFormed(Products)
  {
    assert StoreExists("1") by { assert StoreIds[0] == "1"; }
    assert StoreExists("2") by { assert StoreIds[1] == "2"; }
    forall i | 0 <= i < |Products| ensures ProductWellFormed(Products[i]) {
      ShippedProductWellFormed(i);
    }
  }

  lemma ShippedProductWellFormed(i: int)
    requires 0 <= i < |Products|
    requires StoreExists("1") && StoreExists("2")
    ensures ProductWellFormed(Products[i])
  {
    var p := Products[i];
    assert |p.stores| == 2 && p.stores[0].storeId == "1" && p.stores[1].storeId == "2";
    assert OfferWellFormed(p.stores[0]);
    assert OfferWellFormed(p.stores[1]);
  }

  /** With unique ids, looking a product up by its own id finds it. */
  lemma FindProductFinds(ps: seq<Product>, i: int)
    requires UniqueProductIds(ps) && 0 <= i < |ps|
    ensures FindProduct(ps, ps[i].id) == Some(ps[i])
  {
    var r := FindProduct(ps, ps[i].id);
    var m :| 0 <= m < |ps| && ps[m] == r.value && r.value.id == ps[i].id
             && forall j :: 0 <= j < m ==> ps[j].id != ps[i].id;
    assert !(m > i);  // the first match comes no later than i
    assert !(m < i);  // no earlier product shares the id
  }

  /** With distinct store ids, looking an offer up by its store id finds it. */
  lemma FindOfferFinds(os: seq<Offer>, k: int)
    requires forall i, j :: 0 <= i < j < |os| ==> os[i].storeId != os[j].storeId
    requires 0 <= k < |os|
    ensures FindOffer(os, os[k].storeId) == Some(os[k])
  {
    var r := FindOffer(os, os[k].storeId);
    var n :| 0 <= n < |os| && os[n] == r.value && r.value.storeId == os[k].storeId
             && forall j :: 0 <= j < n ==> os[j].storeId != os[k].storeId;
    assert !(n > k);
    assert !(n < k);
  }

  /** In a well-formed catalog, each product is found by its id and each of its
      offers by its store id. */
  lemma LookupsFindCatalogEntries(ps: seq<Product>, i: int, k: int)
    requires CatalogWellFormed(ps)
    requires 0 <= i < |ps| && 0 <= k < |ps[i].stores|
    ensures FindProduct(ps, ps[i].id) == Some(ps[i])
    ensures OfferFor(ps, ps[i].id, ps[i].stores[k].storeId) == Some(ps[i].stores[k])
  {
    FindProductFinds(ps, i);
    assert ProductWellFormed(ps[i]);
    FindOfferFinds(ps[i].stores, k);
  }

  /** In a well-formed catalog, every offer a line can resolve to is well
      formed, and so is the product it belongs to. */
  lemma ResolvedOfferWellFormed(ps: seq<Product>, id: string, storeId: string)
    requires CatalogWellFormed(ps)
    requires OfferFor(ps, id, storeId).Some?
    ensures ProductWellFormed(FindProduct(ps, id).value)
    ensures OfferWellFormed(OfferFor(ps, id, storeId).value)
  {
    var p := FindProduct(ps, id).value;
    var i :| 0 <= i < |ps| && ps[i] == p;
    assert ProductWellFormed(ps[i]);
    var o := OfferFor(ps, id, storeId).value;
    var k :| 0 <= k < |p.stores| && p.stores[k] == o;
    assert OfferWellFormed(p.stores[k]);
  }

  // ---- `calculateDelivery` of products.js ----

  /** The `{ productId, quantity }` records `calculateDelivery` is given. */
  datatype DeliveryItem = DeliveryItem(productId: string, quantity: Option<int>)

  /** `products.find(p => p.id === productId)?.deliveryType === 'heavy'`. */
  predicate IsHeavyProduct(ps: seq<Product>, productId: string) {
    FindProduct(ps, productId).Some? && FindProduct(ps, productId).value.deliveryType == Heavy
  }

  /** The quantities of the items whose catalog product is heavy, in order. */
  function HeavyQuantities(ps: seq<Product>, items: seq<DeliveryItem>): (qs: seq<Option<int>>)
    ensures |qs| <= |items|
  {
    if |items| == 0 then []
    else
      var last := items[|items| - 1];
      HeavyQuantities(ps, items[..|items| - 1]) + (if IsHeavyProduct(ps, last.productId) then [last.quantity] else [])
  }

  /** The source's loop over `items`. */
  function DeliveryTally(ps: seq<Product>, items: seq<DeliveryItem>): Tally {
    if |items| == 0 then Start
    else
      var t := DeliveryTally(ps, items[..|items| - 1]);
      var last := items[|items| - 1];
      if IsHeavyProduct(ps, last.productId) then CountHeavy(t, last.quantity) else t
  }

  lemma {:induction false} DeliveryTallySummarizes(ps: seq<Product>, items: seq<DeliveryItem>)
    ensures DeliveryTally(ps, items) == TallyOf(HeavyQuantities(ps, items))
    decreases |items|
  {
    if |items| == 0 {
      StartIsEmptyTally();
    } else {
      var init := items[..|items| - 1];
      var last := items[|items| - 1];
      DeliveryTallySummarizes(ps, init);
      if IsHeavyProduct(ps, last.productId) {
        CountHeavyExtends(HeavyQuantities(ps, init), last.quantity);
      } else {
        assert HeavyQuantities(ps, items) == HeavyQuantities(ps, init) + [];
        assert HeavyQuantities(ps, init) + [] == HeavyQuantities(ps, init);
      }
    }
  }

  /** `calculateDelivery(items)`: the reference tariff over the quantities of the
      items whose catalog product is heavy; unknown product ids count as light. */
  function CalculateDelivery(ps: seq<Product>, items: seq<DeliveryItem>): (fee: int)
    ensures fee == Fee(HeavyQuantities(ps, items))
    ensures fee == SmallFee || fee == HeavyFee
  {
    DeliveryTallySummarizes(ps, items);
    SettleTally(HeavyQuantities(ps, items));
    Settle(DeliveryTally(ps, items))
  }

  /** No heavy line, including no line at all, costs the small fee. */
  lemma CalculateDeliveryWithoutHeavy(ps: seq<Product>, items: seq<DeliveryItem>)
    requires forall i :: 0 <= i < |items| ==> !IsHeavyProduct(ps, items[i].productId)
    ensures CalculateDelivery(ps, items) == SmallFee
  {
    NoHeavyNoQuantities(ps, items);
  }

  lemma {:induction false} NoHeavyNoQuantities(ps: seq<Product>, items: seq<DeliveryItem>)
    requires forall i :: 0 <= i < |items| ==> !IsHeavyProduct(ps, items[i].productId)
    ensures HeavyQuantities(ps, items) == []
    decreases |items|
  {
    if |items| > 0 {
      NoHeavyNoQuantities(ps, items[..|items| - 1]);
    }
  }

  /** The heavy quantities of two lists of items, one after the other, are
      those of each list in order. */
  lemma {:induction false} HeavyQuantitiesAppend(ps: seq<Product>, a: seq<DeliveryItem>, b: seq<DeliveryItem>)
    ensures HeavyQuantities(ps, a + b) == HeavyQuantities(ps, a) + HeavyQuantities(ps, b)
    decreases |b|
  {
    if |b| == 0 {
      assert a + b == a;
    } else {
      var init := b[..|b| - 1];
      assert (a + b)[..|a + b| - 1] == a + init;
      assert (a + b)[|a + b| - 1] == b[|b| - 1];
      HeavyQuantitiesAppend(ps, a, init);
    }
  }

  /** An item whose product is not in the catalog changes nothing, wherever it
      sits in the list. */
  lemma UnknownProductIgnored(ps: seq<Product>, a: seq<DeliveryItem>, extra: DeliveryItem, b: seq<DeliveryItem>)
    requires FindProduct(ps, extra.productId).None?
    ensures CalculateDelivery(ps, a + [extra] + b) == CalculateDelivery(ps, a + b)
  {
    HeavyQuantitiesAppend(ps, a + [extra], b);
    HeavyQuantitiesAppend(ps, a, [extra]);
    HeavyQuantitiesAppend(ps, a, b);
    assert [extra][..0] == [];
    assert HeavyQuantities(ps, [extra]) == [];
    assert HeavyQuantities(ps, a + [extra]) == HeavyQuantities(ps, a) + [] == HeavyQuantities(ps, a);
    assert HeavyQuantities(ps, a + [extra] + b) == HeavyQuantities(ps, a + b);
  }

  /** Appending a line of any product with a non-negative quantity never lowers
      the fee. */
  lemma CalculateDeliveryMonotonic(ps: seq<Product>, items: seq<DeliveryItem>, productId: string, q: int)
    requires q >= 0
    ensures CalculateDelivery(ps, items + [DeliveryItem(productId, Some(q))]) >= CalculateDelivery(ps, items)
  {
    var extra := DeliveryItem(productId, Some(q));
    assert (items + [extra])[..|items|] == items;
    if IsHeavyProduct(ps, productId) {
      FeeMonotonic(HeavyQuantities(ps, items), q);
    } else {
      assert HeavyQuantities(ps, items + [extra]) == HeavyQuantities(ps, items) + [];
    }
  }

  /** The inclusive threshold on the shipped catalog's cement bags (product
      "6", heavy): nine bags cost the small fee, ten the heavy fee. */
  lemma CalculateDeliveryThreshold()
    ensures CalculateDelivery(Products, [DeliveryItem("6", Some(9))]) == SmallFee
    ensures CalculateDelivery(Products, [DeliveryItem("6", Some(10))]) == HeavyFee
  {
    ShippedCatalogWellFormed();
    LookupsFindCatalogEntries(Products, 5, 0);
    assert [DeliveryItem("6", Some(9))][..0] == [];
    assert [DeliveryItem("6", Some(10))][..0] == [];
    assert HeavyQuantities(Products, [DeliveryItem("6", Some(9))]) == [Some(9)];
    assert HeavyQuantities(Products, [DeliveryItem("6", Some(10))]) == [Some(10)];
    ThresholdIsInclusive();
  }
}
