/** The cart line record the storefront passes around (built by the product
    card and the comparison view, held in the application's state, checked and
    repaired by the validator), and its identity key. */
module CartLines {
  import opened Options
  import opened Catalog

  /** A cart line. The text fields read as missing when empty; `price` and
      `quantity` are `None` when `undefined` or `NaN`; `deliveryType` is the
      weight class copied from the product when the line was built. */
  datatype CartLine = CartLine(
    id: string,
    storeId: string,
    name: string,
    brand: string,
    image: string,
    price: Option<int>,
    quantity: Option<int>,
    isBulk: bool,
    deliveryType: Option<WeightClass>)

  /** Lines are identified by product, store and tier. */
  datatype LineKey = LineKey(id: string, storeId: string, isBulk: bool)

  function Key(l: CartLine): LineKey {
    LineKey(l.id, l.storeId, l.isBulk)
  }

  /** No two lines of the cart share a key. */
  predicate UniqueKeys(cart: seq<CartLine>) {
    forall i, j :: 0 <= i < j < |cart| ==> Key(cart[i]) != Key(cart[j])
  }

  /** Some line of the cart has key `k`. */
  predicate HasKey(cart: seq<CartLine>, k: LineKey) {
    exists i :: 0 <= i < |cart| && Key(cart[i]) == k
  }
}
