/** The cart operations of `src/App.js`: adding, updating and removing lines by
    their (`id`, `storeId`, `isBulk`) key, the two cart sums, and the delivery
    input built at checkout. `signedIn` stands for `currentUser` being set; the
    sign-in prompt shown otherwise is not modelled. */
module AppCart {
  import opened Options
  import opened Numbers
  import opened Tariff
  import opened Catalog
  import opened CartLines
  import opened Validation

  /** `findIndex` on the key: the first line with key `k`. */
  function FindKey(cart: seq<CartLine>, k: LineKey): (r: Option<nat>)
    ensures r.None? <==> !HasKey(cart, k)
    ensures r.Some? ==> r.value < |cart| && Key(cart[r.value]) == k
    ensures r.Some? ==> forall j :: 0 <= j < r.value ==> Key(cart[j]) != k
  {
    if |cart| == 0 then None
    else if Key(cart[0]) == k then Some(0)
    else
      var rest := FindKey(cart[1..], k);
      assert HasKey(cart, k) <==> HasKey(cart[1..], k) by {
        if HasKey(cart, k) {
          var i :| 0 <= i < |cart| && Key(cart[i]) == k;
          assert cart[1..][i - 1] == cart[i];
        }
        if HasKey(cart[1..], k) {
          var i :| 0 <= i < |cart[1..]| && Key(cart[1..][i]) == k;
          assert cart[i + 1] == cart[1..][i];
        }
      }
      match rest
      case None => None
      case Some(i) =>
        assert forall j :: 1 <= j < i + 1 ==> cart[j] == cart[1..][j - 1];
        Some(i + 1)
  }

  /** `handleAddToCart`: a line whose key is already present adds its quantity
      to the first such line (`+=`, so a missing quantity on either side makes
      it `NaN`); any other line is appended. */
  function AddToCart(signedIn: bool, cart: seq<CartLine>, item: CartLine): (r: seq<CartLine>)
    ensures !signedIn ==> r == cart
    ensures signedIn && !HasKey(cart, Key(item)) ==> r == cart + [item]
    ensures signedIn && HasKey(cart, Key(item)) ==>
      var i := FindKey(cart, Key(item)).value;
      && |r| == |cart|
      && r[i] == cart[i].(quantity := Plus(cart[i].quantity, item.quantity))
      && forall j :: 0 <= j < |cart| && j != i ==> r[j] == cart[j]
  {
    if !signedIn then cart
    else
      match FindKey(cart, Key(item))
      case Some(i) => cart[i := cart[i].(quantity := Plus(cart[i].quantity, item.quantity))]
      case None => cart + [item]
  }

  /** Adding keeps the keys of a cart distinct. */
  lemma AddKeepsKeysUnique(signedIn: bool, cart: seq<CartLine>, item: CartLine)
    requires UniqueKeys(cart)
    ensures UniqueKeys(AddToCart(signedIn, cart, item))
  {
    var r := AddToCart(signedIn, cart, item);
    if signedIn && HasKey(cart, Key(item)) {
      assert forall j :: 0 <= j < |cart| ==> Key(r[j]) == Key(cart[j]);
    }
  }

  /** The quantities of the lines, summed from 0 in cart order. */
  function QuantitySum(cart: seq<CartLine>): (r: Option<int>)
    ensures r.Some? <==> forall i :: 0 <= i < |cart| ==> cart[i].quantity.Some?
  {
    if |cart| == 0 then Some(0) else Plus(QuantitySum(cart[..|cart| - 1]), cart[|cart| - 1].quantity)
  }

  /** `cartItemsCount = Σ quantity`, a missing quantity making it `NaN`. */
  function CartItemsCount(cart: seq<CartLine>): (r: Option<int>)
    ensures r.Some? <==> forall i :: 0 <= i < |cart| ==> cart[i].quantity.Some?
  {
    QuantitySum(cart)
  }

  /** Raising one line's quantity by `q` raises the sum by `q`. */
  lemma {:induction false} QuantitySumRaise(cart: seq<CartLine>, i: int, q: Option<int>)
    requires 0 <= i < |cart|
    ensures QuantitySum(cart[i := cart[i].(quantity := Plus(cart[i].quantity, q))]) == Plus(QuantitySum(cart), q)
    decreases |cart|
  {
    var r := cart[i := cart[i].(quantity := Plus(cart[i].quantity, q))];
    var n := |cart| - 1;
    assert r[..n] == if i < n then cart[..n][i := cart[i].(quantity := Plus(cart[i].quantity, q))] else cart[..n];
    if i < n {
      QuantitySumRaise(cart[..n], i, q);
    }
  }

  /** Adding a line, whether merged or appended, adds its quantity to the item
      count. */
  lemma AddRaisesCount(cart: seq<CartLine>, item: CartLine)
    ensures CartItemsCount(AddToCart(true, cart, item)) == Plus(CartItemsCount(cart), item.quantity)
  {
    if HasKey(cart, Key(item)) {
      QuantitySumRaise(cart, FindKey(cart, Key(item)).value, item.quantity);
    } else {
      assert (cart + [item])[..|cart|] == cart;
    }
  }

  /** `handleRemoveItem`: the lines without the key, in their order. */
  function RemoveItem(signedIn: bool, cart: seq<CartLine>, productId: string, storeId: string, isBulk: bool): (r: seq<CartLine>)
    ensures !signedIn ==> r == cart
    ensures signedIn ==> |r| <= |cart|
    ensures signedIn ==> forall l :: l in r <==> l in cart && Key(l) != LineKey(productId, storeId, isBulk)
  {
    if !signedIn then cart
    else
      WithoutKeyMembers(cart, LineKey(productId, storeId, isBulk));
      WithoutKey(cart, LineKey(productId, storeId, isBulk))
  }

  /** `cart.filter(item => key(item) !== k)`. */
  function WithoutKey(cart: seq<CartLine>, k: LineKey): seq<CartLine> {
    if |cart| == 0 then []
    else
      var last := cart[|cart| - 1];
      WithoutKey(cart[..|cart| - 1], k) + (if Key(last) == k then [] else [last])
  }

  /** The filter keeps exactly the lines without the key. */
  lemma {:induction false} WithoutKeyMembers(cart: seq<CartLine>, k: LineKey)
    ensures |WithoutKey(cart, k)| <= |cart|
    ensures forall l :: l in WithoutKey(cart, k) <==> l in cart && Key(l) != k
    decreases |cart|
  {
    if |cart| > 0 {
      var n := |cart| - 1;
      WithoutKeyMembers(cart[..n], k);
      assert cart == cart[..n] + [cart[n]];
    }
  }

  /** Without the key, removal changes nothing. */
  lemma {:induction false} WithoutAbsentKey(cart: seq<CartLine>, k: LineKey)
    requires !HasKey(cart, k)
    ensures WithoutKey(cart, k) == cart
    decreases |cart|
  {
    if |cart| > 0 {
      var n := |cart| - 1;
      assert !HasKey(cart[..n], k) by {
        assert forall j :: 0 <= j < n ==> cart[..n][j] == cart[j];
      }
      WithoutAbsentKey(cart[..n], k);
      assert Key(cart[n]) != k;
      assert cart[..n] + [cart[n]] == cart;
    }
  }

  /** With distinct keys, removal deletes exactly the one line that has the
      key and keeps the rest in order. */
  lemma {:induction false} WithoutUniqueKey(cart: seq<CartLine>, k: LineKey, i: int)
    requires UniqueKeys(cart) && 0 <= i < |cart| && Key(cart[i]) == k
    ensures WithoutKey(cart, k) == cart[..i] + cart[i + 1..]
    decreases |cart|
  {
    var n := |cart| - 1;
    var init := cart[..n];
    if i == n {
      assert !HasKey(init, k) by {
        assert forall j :: 0 <= j < n ==> init[j] == cart[j];
      }
      WithoutAbsentKey(init, k);
      assert cart[..i] + cart[i + 1..] == init;
    } else {
      assert UniqueKeys(init) by {
        assert forall j :: 0 <= j < n ==> init[j] == cart[j];
      }
      WithoutUniqueKey(init, k, i);
      assert Key(cart[n]) != k;
      assert cart[..i] + cart[i + 1..] == init[..i] + init[i + 1..] + [cart[n]];
    }
  }

  /** `handleRemoveItem` on a cart with distinct keys: the line found by the
      key is the one deleted, and a cart without the key is left as it was. */
  lemma RemoveExact(cart: seq<CartLine>, productId: string, storeId: string, isBulk: bool)
    requires UniqueKeys(cart)
    ensures var k := LineKey(productId, storeId, isBulk);
      && (!HasKey(cart, k) ==> RemoveItem(true, cart, productId, storeId, isBulk) == cart)
      && (HasKey(cart, k) ==>
            var i := FindKey(cart, k).value;
            RemoveItem(true, cart, productId, storeId, isBulk) == cart[..i] + cart[i + 1..])
  {
    var k := LineKey(productId, storeId, isBulk);
    if HasKey(cart, k) {
      WithoutUniqueKey(cart, k, FindKey(cart, k).value);
    } else {
      WithoutAbsentKey(cart, k);
    }
  }

  /** Removing keeps the keys of a cart distinct. */
  lemma {:induction false} WithoutKeyKeepsKeysUnique(cart: seq<CartLine>, k: LineKey)
    requires UniqueKeys(cart)
    ensures UniqueKeys(WithoutKey(cart, k))
    decreases |cart|
  {
    if |cart| > 0 {
      var n := |cart| - 1;
      var init := cart[..n];
      WithoutKeyKeepsKeysUnique(init, k);
      WithoutKeyMembers(init, k);
      var rest := WithoutKey(init, k);
      forall j | 0 <= j < |rest| ensures Key(rest[j]) != Key(cart[n]) {
        assert rest[j] in init;
        var m :| 0 <= m < n && init[m] == rest[j];
      }
    }
  }

  /** `handleUpdateQuantity`: a quantity of zero or less removes the line; any
      other sets the quantity of every line with the key, leaving the other
      lines and fields as they were. */
  function UpdateQuantity(signedIn: bool, cart: seq<CartLine>, productId: string, storeId: string, newQuantity: int, isBulk: bool): (r: seq<CartLine>)
    ensures !signedIn ==> r == cart
    ensures signedIn && newQuantity <= 0 ==> r == RemoveItem(signedIn, cart, productId, storeId, isBulk)
    ensures signedIn && newQuantity > 0 ==>
      && |r| == |cart|
      && forall i :: 0 <= i < |cart| ==>
           r[i] == if Key(cart[i]) == LineKey(productId, storeId, isBulk)
                   then cart[i].(quantity := Some(newQuantity)) else cart[i]
  {
    if !signedIn then cart
    else if newQuantity <= 0 then RemoveItem(signedIn, cart, productId, storeId, isBulk)
    else SetQuantity(cart, LineKey(productId, storeId, isBulk), newQuantity)
  }

  /** The `map` of `handleUpdateQuantity`. */
  function SetQuantity(cart: seq<CartLine>, k: LineKey, q: int): (r: seq<CartLine>)
    ensures |r| == |cart|
    ensures forall i :: 0 <= i < |cart| ==> r[i] == if Key(cart[i]) == k then cart[i].(quantity := Some(q)) else cart[i]
  {
    seq(|cart|, i requires 0 <= i < |cart| => if Key(cart[i]) == k then cart[i].(quantity := Some(q)) else cart[i])
  }

  /** Updating keeps the keys of a cart distinct, and a positive update leaves
      the line with the key holding exactly the new quantity. */
  lemma UpdateKeepsKeysUnique(cart: seq<CartLine>, productId: string, storeId: string, newQuantity: int, isBulk: bool)
    requires UniqueKeys(cart)
    ensures UniqueKeys(UpdateQuantity(true, cart, productId, storeId, newQuantity, isBulk))
    ensures newQuantity > 0 && HasKey(cart, LineKey(productId, storeId, isBulk)) ==>
      var r := UpdateQuantity(true, cart, productId, storeId, newQuantity, isBulk);
      r[FindKey(cart, LineKey(productId, storeId, isBulk)).value].quantity == Some(newQuantity)
  {
    if newQuantity <= 0 {
      WithoutKeyKeepsKeysUnique(cart, LineKey(productId, storeId, isBulk));
    } else {
      var r := UpdateQuantity(true, cart, productId, storeId, newQuantity, isBulk);
      assert forall j :: 0 <= j < |cart| ==> Key(r[j]) == Key(cart[j]);
    }
  }

  /** `Σ price * quantity`, a missing price or quantity making it `NaN`. */
  function CartTotal(cart: seq<CartLine>): (r: Option<int>)
    ensures r.Some? <==> forall i :: 0 <= i < |cart| ==> cart[i].price.Some? && cart[i].quantity.Some?
  {
    if |cart| == 0 then Some(0)
    else
      var last := cart[|cart| - 1];
      Plus(CartTotal(cart[..|cart| - 1]), Times(last.price, last.quantity))
  }

  /** On a cart that passes validation, `cartTotal` is the `totalValue` the
      validator reports. */
  lemma {:induction false} ValidCartTotal(ps: seq<Product>, cart: seq<CartLine>)
    requires CartValid(ps, cart)
    ensures CartTotal(cart) == Some(ValidValue(ps, cart))
    decreases |cart|
  {
    if |cart| > 0 {
      var n := |cart| - 1;
      assert CartValid(ps, cart[..n]) by {
        assert forall i :: 0 <= i < n ==> cart[..n][i] == cart[i];
      }
      ValidCartTotal(ps, cart[..n]);
      assert LineValid(ps, cart[n]);
      ValidLineHasAmounts(ps, cart[n]);
    }
  }

  /** The `{ productId, quantity }` projection `handleCheckout` hands to
      `calculateDelivery`. */
  function DeliveryItems(cart: seq<CartLine>): (items: seq<DeliveryItem>)
    ensures |items| == |cart|
    ensures forall i :: 0 <= i < |cart| ==> items[i] == DeliveryItem(cart[i].id, cart[i].quantity)
  {
    seq(|cart|, i requires 0 <= i < |cart| => DeliveryItem(cart[i].id, cart[i].quantity))
  }

  /** What `handleCheckout` stores: the chosen mode, the lines, and the fee. */
  datatype CheckoutData = CheckoutData(deliveryType: string, items: seq<CartLine>, deliveryCost: int)

  /** `handleCheckout(deliveryType)`: nothing without a user; otherwise the
      cart with the catalog tariff over its projection. */
  function Checkout(ps: seq<Product>, signedIn: bool, cart: seq<CartLine>, mode: string): (r: Option<CheckoutData>)
    ensures r.Some? <==> signedIn
    ensures r.Some? ==> r.value.items == cart && r.value.deliveryType == mode
    ensures r.Some? ==> r.value.deliveryCost == Fee(HeavyLineQuantities(ps, cart))
  {
    if !signedIn then None
    else
      ProjectionKeepsHeavyQuantities(ps, cart);
      Some(CheckoutData(mode, cart, CalculateDelivery(ps, DeliveryItems(cart))))
  }

  /** Renaming `id` to `productId` keeps the heavy quantities. */
  lemma {:induction false} ProjectionKeepsHeavyQuantities(ps: seq<Product>, cart: seq<CartLine>)
    ensures HeavyQuantities(ps, DeliveryItems(cart)) == HeavyLineQuantities(ps, cart)
    decreases |cart|
  {
    if |cart| > 0 {
      var n := |cart| - 1;
      assert DeliveryItems(cart)[..n] == DeliveryItems(cart[..n]);
      ProjectionKeepsHeavyQuantities(ps, cart[..n]);
    }
  }

  /** The fee stored at checkout is the validator's delivery estimate. */
  lemma CheckoutAgreesWithValidation(ps: seq<Product>, cart: seq<CartLine>, mode: string)
    ensures Checkout(ps, true, cart, mode).value.deliveryCost == CalculateDeliveryValidation(ps, cart)
  {
  }
}
