/** The validation panel of `src/components/CartValidation.js`: it validates the
    cart, offers the automatic repair only when the cart is invalid, and the
    repair maps `fixCartItem` over the cart, dropping the lines it returns
    `null` for; the application then replaces its cart with the result. The
    shape of that composition is proved once for any per-line repair `fix`, and
    then for `fixCartItem`. */
module CartRepair {
  import opened Options
  import opened Numbers
  import opened Catalog
  import opened CartLines
  import opened Validation
  import opened CartView

  // ---- `cart.map(fix).filter(x => x !== null)` for any `fix` ----

  /** The lines `fix` keeps, in their order. */
  function Kept(fix: CartLine -> Option<CartLine>, cart: seq<CartLine>): seq<CartLine> {
    if |cart| == 0 then []
    else
      var last := cart[|cart| - 1];
      Kept(fix, cart[..|cart| - 1]) + (if fix(last).Some? then [last] else [])
  }

  /** `cart.map(fix).filter(x => x !== null)`. */
  function Fixed(fix: CartLine -> Option<CartLine>, cart: seq<CartLine>): seq<CartLine> {
    if |cart| == 0 then []
    else
      var init := Fixed(fix, cart[..|cart| - 1]);
      match fix(cart[|cart| - 1])
      case Some(f) => init + [f]
      case None => init
  }

  /** Keeping splits over concatenation, so the kept lines stay in their
      relative order. */
  lemma {:induction false} KeptAppend(fix: CartLine -> Option<CartLine>, a: seq<CartLine>, b: seq<CartLine>)
    ensures Kept(fix, a + b) == Kept(fix, a) + Kept(fix, b)
    decreases |b|
  {
    if |b| == 0 {
      assert a + b == a;
    } else {
      var n := |b| - 1;
      var ab := a + b;
      assert ab[..|ab| - 1] == a + b[..n];
      assert ab[|ab| - 1] == b[n];
      KeptAppend(fix, a, b[..n]);
    }
  }

  /** Exactly the lines `fix` does not drop are kept. */
  lemma {:induction false} KeptMembers(fix: CartLine -> Option<CartLine>, cart: seq<CartLine>)
    ensures |Kept(fix, cart)| <= |cart|
    ensures forall l :: l in Kept(fix, cart) <==> l in cart && fix(l).Some?
    decreases |cart|
  {
    if |cart| > 0 {
      var n := |cart| - 1;
      KeptMembers(fix, cart[..n]);
      assert cart == cart[..n] + [cart[n]];
    }
  }

  /** A cart whose lines are all kept is kept whole; one whose lines are all
      dropped keeps nothing. */
  lemma {:induction false} KeptAllOrNone(fix: CartLine -> Option<CartLine>, cart: seq<CartLine>)
    ensures (forall i :: 0 <= i < |cart| ==> fix(cart[i]).Some?) ==> Kept(fix, cart) == cart
    ensures (forall i :: 0 <= i < |cart| ==> fix(cart[i]).None?) ==> Kept(fix, cart) == []
    decreases |cart|
  {
    if |cart| > 0 {
      var n := |cart| - 1;
      assert forall i :: 0 <= i < n ==> cart[..n][i] == cart[i];
      KeptAllOrNone(fix, cart[..n]);
      assert cart[..n] + [cart[n]] == cart;
    }
  }

  /** The result is `fix` applied to each kept line, in order. */
  lemma {:induction false} FixedIsMapOverKept(fix: CartLine -> Option<CartLine>, cart: seq<CartLine>)
    ensures |Fixed(fix, cart)| == |Kept(fix, cart)| <= |cart|
    ensures forall k :: 0 <= k < |Fixed(fix, cart)| ==> fix(Kept(fix, cart)[k]) == Some(Fixed(fix, cart)[k])
    decreases |cart|
  {
    if |cart| > 0 {
      var n := |cart| - 1;
      FixedIsMapOverKept(fix, cart[..n]);
      var r0 := Fixed(fix, cart[..n]);
      var k0 := Kept(fix, cart[..n]);
      if fix(cart[n]).Some? {
        assert Fixed(fix, cart) == r0 + [fix(cart[n]).value];
        assert Kept(fix, cart) == k0 + [cart[n]];
      } else {
        assert Fixed(fix, cart) == r0;
        assert Kept(fix, cart) == k0 + [];
      }
    }
  }

  /** Every output line is the repair of some input line. */
  lemma {:induction false} FixedFromCart(fix: CartLine -> Option<CartLine>, cart: seq<CartLine>)
    ensures forall f :: f in Fixed(fix, cart) ==> exists m :: 0 <= m < |cart| && fix(cart[m]) == Some(f)
    decreases |cart|
  {
    if |cart| > 0 {
      var n := |cart| - 1;
      FixedFromCart(fix, cart[..n]);
      forall f | f in Fixed(fix, cart) ensures exists m :: 0 <= m < |cart| && fix(cart[m]) == Some(f) {
        if f in Fixed(fix, cart[..n]) {
          var m :| 0 <= m < n && fix(cart[..n][m]) == Some(f);
          assert cart[m] == cart[..n][m];
        } else {
          assert fix(cart[n]) == Some(f);
        }
      }
    }
  }

  /** A repair that keeps each line's key keeps the keys of a cart distinct. */
  lemma {:induction false} FixedKeepsKeysUnique(fix: CartLine -> Option<CartLine>, cart: seq<CartLine>)
    requires UniqueKeys(cart)
    requires forall i :: 0 <= i < |cart| && fix(cart[i]).Some? ==> Key(fix(cart[i]).value) == Key(cart[i])
    ensures UniqueKeys(Fixed(fix, cart))
    decreases |cart|
  {
    if |cart| > 0 {
      var n := |cart| - 1;
      var init := cart[..n];
      assert forall i :: 0 <= i < n ==> init[i] == cart[i];
      FixedKeepsKeysUnique(fix, init);
      FixedFromCart(fix, init);
      var r0 := Fixed(fix, init);
      forall j | 0 <= j < |r0| ensures Key(r0[j]) != Key(cart[n]) {
        assert r0[j] in r0;
        var m :| 0 <= m < n && fix(init[m]) == Some(r0[j]);
        assert Key(r0[j]) == Key(cart[m]);
      }
    }
  }

  /** A repair that leaves its own output alone can be applied twice to a
      cart with no further change. */
  lemma {:induction false} FixedIdempotent(fix: CartLine -> Option<CartLine>, cart: seq<CartLine>)
    requires forall i :: 0 <= i < |cart| && fix(cart[i]).Some? ==> fix(fix(cart[i]).value) == fix(cart[i])
    ensures Fixed(fix, Fixed(fix, cart)) == Fixed(fix, cart)
    decreases |cart|
  {
    if |cart| > 0 {
      var n := |cart| - 1;
      var init := Fixed(fix, cart[..n]);
      assert forall i :: 0 <= i < n ==> cart[..n][i] == cart[i];
      FixedIdempotent(fix, cart[..n]);
      match fix(cart[n])
      case None =>
      case Some(f) =>
        assert (init + [f])[..|init|] == init;
    }
  }

  // ---- `handleFixCart` ----

  /** `fixCartItem` against the catalog `ps`. */
  function Fix(ps: seq<Product>): CartLine -> Option<CartLine> {
    l => FixCartItem(ps, l)
  }

  /** `handleFixCart`: `cartItems.map(fixCartItem).filter(item => item !== null)`. */
  function HandleFixCart(ps: seq<Product>, cart: seq<CartLine>): seq<CartLine> {
    Fixed(Fix(ps), cart)
  }

  /** `fixCartItem` does not drop the line: its product and offer exist. */
  predicate Repairable(ps: seq<Product>, l: CartLine) {
    OfferFor(ps, l.id, l.storeId).Some?
  }

  lemma RepairableIffFixed(ps: seq<Product>, l: CartLine)
    ensures Fix(ps)(l).Some? <==> Repairable(ps, l)
  {
    FixCartItemFields(ps, l);
  }

  /** `Fix(ps)` drops exactly the lines whose product or offer is missing. */
  lemma FixDropsUnresolved(ps: seq<Product>)
    ensures forall l :: Fix(ps)(l).Some? <==> Repairable(ps, l)
  {
    forall l ensures Fix(ps)(l).Some? <==> Repairable(ps, l) {
      RepairableIffFixed(ps, l);
    }
  }

  /** The repaired cart holds, in order, the repair of each line whose product
      and offer exist, and nothing for the others, so it is no longer than the
      cart. */
  lemma RepairShape(ps: seq<Product>, cart: seq<CartLine>)
    ensures |HandleFixCart(ps, cart)| == |Kept(Fix(ps), cart)| <= |cart|
    ensures forall l :: l in Kept(Fix(ps), cart) <==> l in cart && Repairable(ps, l)
    ensures forall k :: 0 <= k < |HandleFixCart(ps, cart)| ==>
      FixCartItem(ps, Kept(Fix(ps), cart)[k]) == Some(HandleFixCart(ps, cart)[k])
  {
    FixedIsMapOverKept(Fix(ps), cart);
    KeptMembers(Fix(ps), cart);
    FixDropsUnresolved(ps);
  }

  /** A cart whose lines all resolve keeps every line; one where none does is
      emptied. */
  lemma RepairAllOrNone(ps: seq<Product>, cart: seq<CartLine>)
    ensures (forall i :: 0 <= i < |cart| ==> Repairable(ps, cart[i])) ==> |HandleFixCart(ps, cart)| == |cart|
    ensures (forall i :: 0 <= i < |cart| ==> !Repairable(ps, cart[i])) ==> HandleFixCart(ps, cart) == []
  {
    FixedIsMapOverKept(Fix(ps), cart);
    KeptAllOrNone(Fix(ps), cart);
    FixDropsUnresolved(ps);
  }

  /** Every repaired line is the repair of a line of the cart: it has that
      line's key, asks for no more than its offer's stock, charges the tier
      price repair assigns, and carries its product's weight class. */
  lemma RepairedLinesFromCatalog(ps: seq<Product>, cart: seq<CartLine>)
    ensures forall f :: f in HandleFixCart(ps, cart) ==>
      && (exists m :: 0 <= m < |cart| && FixCartItem(ps, cart[m]) == Some(f) && Key(f) == Key(cart[m]))
      && OfferFor(ps, f.id, f.storeId).Some?
      && (f.quantity.Some? ==> f.quantity.value <= OfferFor(ps, f.id, f.storeId).value.stock)
      && f.price == Some(RepairPrice(OfferFor(ps, f.id, f.storeId).value, f.isBulk))
      && f.deliveryType == Some(FindProduct(ps, f.id).value.deliveryType)
  {
    FixedFromCart(Fix(ps), cart);
    forall f | f in HandleFixCart(ps, cart)
      ensures exists m :: 0 <= m < |cart| && FixCartItem(ps, cart[m]) == Some(f) && Key(f) == Key(cart[m])
      ensures OfferFor(ps, f.id, f.storeId).Some?
      ensures f.quantity.Some? ==> f.quantity.value <= OfferFor(ps, f.id, f.storeId).value.stock
      ensures f.price == Some(RepairPrice(OfferFor(ps, f.id, f.storeId).value, f.isBulk))
      ensures f.deliveryType == Some(FindProduct(ps, f.id).value.deliveryType)
    {
      var m :| 0 <= m < |cart| && Fix(ps)(cart[m]) == Some(f);
      FixCartItemFields(ps, cart[m]);
      FixCartItemBounds(ps, cart[m]);
    }
  }

  /** Repair keeps the keys of a cart distinct. */
  lemma RepairKeepsKeysUnique(ps: seq<Product>, cart: seq<CartLine>)
    requires UniqueKeys(cart)
    ensures UniqueKeys(HandleFixCart(ps, cart))
  {
    var fix := Fix(ps);
    forall i | 0 <= i < |cart| && fix(cart[i]).Some? ensures Key(fix(cart[i]).value) == Key(cart[i]) {
      FixCartItemFields(ps, cart[i]);
    }
    FixedKeepsKeysUnique(fix, cart);
  }

  /** Repairing a repaired cart changes nothing. */
  lemma RepairIdempotent(ps: seq<Product>, cart: seq<CartLine>)
    ensures HandleFixCart(ps, HandleFixCart(ps, cart)) == HandleFixCart(ps, cart)
  {
    var fix := Fix(ps);
    forall i | 0 <= i < |cart| && fix(cart[i]).Some? ensures fix(fix(cart[i]).value) == fix(cart[i]) {
      RepairableIffFixed(ps, cart[i]);
      FixCartItemBounds(ps, cart[i]);
    }
    FixedIdempotent(fix, cart);
  }

  /** In a well-formed catalog, a repaired line can only be left invalid by a
      missing or non-positive quantity, or by a bulk tier its offer lacks. */
  lemma RepairedCartDefects(ps: seq<Product>, cart: seq<CartLine>)
    requires CatalogWellFormed(ps)
    ensures forall f :: f in HandleFixCart(ps, cart) ==>
      forall e :: e in LineErrors(ps, f) ==> e.InvalidQuantity? || e == BulkUnavailable
  {
    FixedFromCart(Fix(ps), cart);
    forall f | f in HandleFixCart(ps, cart)
      ensures forall e :: e in LineErrors(ps, f) ==> e.InvalidQuantity? || e == BulkUnavailable
    {
      var m :| 0 <= m < |cart| && Fix(ps)(cart[m]) == Some(f);
      FixedLineDefects(ps, cart[m]);
    }
  }

  /** After repair the panel's copy of the weight classes agrees with the
      catalog, so where every line had a quantity the panel's fee is the
      validator's estimate. */
  lemma RepairedDeliveryAgrees(ps: seq<Product>, cart: seq<CartLine>)
    requires forall i :: 0 <= i < |cart| ==> cart[i].quantity.Some?
    ensures MarksMatchCatalog(ps, HandleFixCart(ps, cart))
    ensures LocalDelivery(HandleFixCart(ps, cart)) == CalculateDeliveryValidation(ps, HandleFixCart(ps, cart))
  {
    var r := HandleFixCart(ps, cart);
    FixedFromCart(Fix(ps), cart);
    forall i | 0 <= i < |r| ensures r[i].quantity.Some? && (MarkedHeavy(r[i]) <==> IsHeavyProduct(ps, r[i].id)) {
      assert r[i] in r;
      var m :| 0 <= m < |cart| && Fix(ps)(cart[m]) == Some(r[i]);
      FixCartItemFields(ps, cart[m]);
    }
    LocalDeliveryAgrees(ps, r);
  }

  /** The panel: validate the cart; the repair button is shown only when the
      result is invalid, and pressing it hands back the repaired cart, which
      the application adopts as its cart (`handleUpdateCart`). */
  method ReviewCart(ps: seq<Product>, cart: seq<CartLine>, pressFix: bool) returns (report: CartReport, fixOffered: bool, newCart: seq<CartLine>)
    ensures fixOffered <==> !CartValid(ps, cart)
    ensures fixOffered <==> report.totalErrors > 0
    ensures !(fixOffered && pressFix) ==> newCart == cart
    ensures fixOffered && pressFix ==> |newCart| <= |cart|
    ensures fixOffered && pressFix && UniqueKeys(cart) ==> UniqueKeys(newCart)
    ensures fixOffered && pressFix ==> HandleFixCart(ps, newCart) == newCart
  {
    report := ValidateCart(ps, cart);
    fixOffered := !report.isValid;
    newCart := cart;
    if fixOffered && pressFix {
      newCart := HandleFixCart(ps, cart);
      FixedIsMapOverKept(Fix(ps), cart);
      RepairIdempotent(ps, cart);
      if UniqueKeys(cart) {
        RepairKeepsKeysUnique(ps, cart);
      }
    }
  }
}
