/**
 * The cart controller: one cart per user, holding (product, quantity) entries.
 *
 * The cart store is a sequence in the store's natural order; a lookup by user
 * finds the first cart of that user. A user with no stored cart is shown an
 * empty one, and the cart is created the first time an item is added.
 */
module Carts {
  import opened Common

  datatype CartItem = CartItem(product: string, quantity: int)

  datatype Cart = Cart(user: string, items: seq<CartItem>)

  /** The upsert validators: a non-empty product id and an integer quantity of at least 1. */
  predicate UpsertValid(productId: string, quantity: int)
  {
    productId != "" && quantity >= 1
  }

  function Owner(c: Cart): string
  {
    c.user
  }

  /** The first cart of `user`, as `findOne({ user })` finds it. */
  function FindCart(carts: seq<Cart>, user: string): (r: Option<nat>)
    ensures r.Some? ==> r.value < |carts| && carts[r.value].user == user
    ensures r.Some? ==> forall j :: 0 <= j < r.value ==> carts[j].user != user
    ensures r.None? ==> forall j :: 0 <= j < |carts| ==> carts[j].user != user
  {
    FirstIndex(carts, Owner, user)
  }

  /** The caller's cart, or an empty cart of the caller when none is stored. */
  function MyCart(carts: seq<Cart>, user: string): (r: Cart)
    ensures r.user == user
    ensures FindCart(carts, user).None? ==> r.items == []
    ensures FindCart(carts, user).Some? ==> r == carts[FindCart(carts, user).value]
  {
    match FindCart(carts, user)
    case None => Cart(user, [])
    case Some(i) => carts[i]
  }

  predicate HasProduct(items: seq<CartItem>, productId: string)
  {
    exists i :: 0 <= i < |items| && items[i].product == productId
  }

  /** No product appears in two entries. */
  predicate NoDuplicates(items: seq<CartItem>)
  {
    forall i, j :: 0 <= i < j < |items| ==> items[i].product != items[j].product
  }

  function ItemProduct(it: CartItem): string
  {
    it.product
  }

  /** `findIndex` over the entries: the first entry for `productId`. */
  function FindItem(items: seq<CartItem>, productId: string): (r: Option<nat>)
    ensures r.None? <==> !HasProduct(items, productId)
    ensures r.Some? ==> r.value < |items| && items[r.value].product == productId
    ensures r.Some? ==> forall j :: 0 <= j < r.value ==> items[j].product != productId
  {
    FirstIndex(items, ItemProduct, productId)
  }

  /** The quantity of the first entry for `productId`, if any. */
  function QuantityOf(items: seq<CartItem>, productId: string): Option<int>
  {
    match FindItem(items, productId)
    case None => None
    case Some(i) => Some(items[i].quantity)
  }

  /**
   * Add-or-update: replace the quantity of the first entry for the product,
   * or append a new entry when there is none.
   */
  function Upsert(items: seq<CartItem>, productId: string, quantity: int): (r: seq<CartItem>)
    ensures HasProduct(items, productId) ==> |r| == |items|
    ensures !HasProduct(items, productId) ==> r == items + [CartItem(productId, quantity)]
    ensures QuantityOf(r, productId) == Some(quantity)
    ensures forall i :: 0 <= i < |items| ==> r[i].product == items[i].product
    ensures forall i :: 0 <= i < |items| && FindItem(items, productId) != Some(i) ==> r[i] == items[i]
    ensures NoDuplicates(items) ==> NoDuplicates(r)
  {
    match FindItem(items, productId)
    case Some(i) =>
      var r := items[i := items[i].(quantity := quantity)];
      assert FindItem(r, productId) == Some(i) by {
        assert r[i].product == productId;
        assert forall j :: 0 <= j < i ==> r[j] == items[j];
      }
      r
    case None =>
      var r := items + [CartItem(productId, quantity)];
      assert r[|items|].product == productId;
      assert FindItem(r, productId) == Some(|items|) by {
        assert forall j :: 0 <= j < |items| ==> r[j] == items[j];
      }
      r
  }

  /** The entries not for `productId`, in their original order (the `filter` of removeItem). */
  function Without(items: seq<CartItem>, productId: string): (r: seq<CartItem>)
    ensures |r| <= |items|
    ensures !HasProduct(r, productId)
    ensures forall x :: x in r <==> x in items && x.product != productId
    ensures !HasProduct(items, productId) ==> r == items
  {
    if |items| == 0 then []
    else
      var rest := Without(items[1..], productId);
      assert items == [items[0]] + items[1..];
      TailHasProduct(items, productId);
      if items[0].product == productId then rest else [items[0]] + rest
  }

  /** A product found after the first entry is found in the whole cart. */
  lemma TailHasProduct(items: seq<CartItem>, productId: string)
    requires |items| > 0
    ensures HasProduct(items[1..], productId) ==> HasProduct(items, productId)
  {
    if HasProduct(items[1..], productId) {
      var j :| 0 <= j < |items[1..]| && items[1..][j].product == productId;
      assert items[j + 1].product == productId;
    }
  }

  /** Removal preserves relative order: it distributes over concatenation. */
  lemma {:induction false} WithoutAppend(a: seq<CartItem>, b: seq<CartItem>, productId: string)
    ensures Without(a + b, productId) == Without(a, productId) + Without(b, productId)
  {
    if |a| == 0 {
      assert a + b == b;
    } else {
      assert (a + b)[1..] == a[1..] + b;
      assert (a + b)[0] == a[0];
      WithoutAppend(a[1..], b, productId);
    }
  }

  /** Removing a product undoes any upsert of that product. */
  lemma {:induction false} RemoveAfterUpsert(items: seq<CartItem>, productId: string, quantity: int)
    ensures Without(Upsert(items, productId, quantity), productId) == Without(items, productId)
  {
    match FindItem(items, productId)
    case Some(i) =>
      WithoutReplaced(items, i, items[i].(quantity := quantity), productId);
    case None =>
      WithoutAppend(items, [CartItem(productId, quantity)], productId);
      assert [CartItem(productId, quantity)][1..] == [];
  }

  /** Replacing one entry for `productId` by another is invisible after removing the product. */
  lemma WithoutReplaced(items: seq<CartItem>, i: nat, x: CartItem, productId: string)
    requires i < |items| && items[i].product == productId && x.product == productId
    ensures Without(items[i := x], productId) == Without(items, productId)
  {
    var a, b := items[..i], items[i + 1..];
    assert items == a + [items[i]] + b;
    assert items[i := x] == a + [x] + b;
    WithoutAppend(a + [items[i]], b, productId);
    WithoutAppend(a, [items[i]], productId);
    WithoutAppend(a + [x], b, productId);
    WithoutAppend(a, [x], productId);
    assert Without([x], productId) == [] == Without([items[i]], productId) by {
      assert [x][1..] == [] && [items[i]][1..] == [];
    }
  }

  /** Removing a product twice is removing it once. */
  lemma RemoveIdempotent(items: seq<CartItem>, productId: string)
    ensures Without(Without(items, productId), productId) == Without(items, productId)
  {
  }

  /** Repeating an upsert changes nothing. */
  lemma UpsertIdempotent(items: seq<CartItem>, productId: string, quantity: int)
    ensures Upsert(Upsert(items, productId, quantity), productId, quantity) == Upsert(items, productId, quantity)
  {
    var r := Upsert(items, productId, quantity);
    var i := FindItem(r, productId).value;
    assert r[i].quantity == quantity;
    assert HasProduct(r, productId);
    assert r[i := r[i].(quantity := quantity)] == r;
  }

  /** Two stores whose carts belong to the same users, position by position. */
  predicate SameOwners(a: seq<Cart>, b: seq<Cart>)
  {
    |a| == |b| && forall i :: 0 <= i < |a| ==> a[i].user == b[i].user
  }

  lemma {:induction false} FindCartSameOwners(a: seq<Cart>, b: seq<Cart>, user: string)
    requires SameOwners(a, b)
    ensures FindCart(a, user) == FindCart(b, user)
  {
    if |a| > 0 {
      assert SameOwners(a[1..], b[1..]);
      FindCartSameOwners(a[1..], b[1..], user);
    }
  }

  /** Replacing one user's cart leaves every other user's cart as it was. */
  lemma OthersUnchangedByReplace(carts: seq<Cart>, i: nat, c: Cart)
    requires i < |carts| && carts[i].user == c.user
    requires FindCart(carts, c.user) == Some(i)
    ensures MyCart(carts[i := c], c.user) == c
    ensures forall u :: MyCart(carts[i := c], u) == if u == c.user then c else MyCart(carts, u)
  {
    FindCartSameOwners(carts[i := c], carts, c.user);
    forall u
      ensures MyCart(carts[i := c], u) == if u == c.user then c else MyCart(carts, u)
    {
      FindCartSameOwners(carts[i := c], carts, u);
    }
  }

  /** Appending a cart for a user who had none leaves every other user's cart as it was. */
  lemma OthersUnchangedByAppend(carts: seq<Cart>, c: Cart)
    requires FindCart(carts, c.user).None?
    ensures forall u :: MyCart(carts + [c], u) == if u == c.user then c else MyCart(carts, u)
  {
    forall u
      ensures MyCart(carts + [c], u) == if u == c.user then c else MyCart(carts, u)
    {
      FindCartAppend(carts, c, u);
    }
  }

  lemma {:induction false} FindCartAppend(carts: seq<Cart>, c: Cart, u: string)
    ensures FindCart(carts + [c], u) ==
              if FindCart(carts, u).Some? then FindCart(carts, u)
              else if c.user == u then Some(|carts|) else None
  {
    if |carts| > 0 {
      assert (carts + [c])[1..] == carts[1..] + [c];
      FindCartAppend(carts[1..], c, u);
    }
  }

  datatype CartUpdate = CartUpdate(carts: seq<Cart>, cart: Cart)

  /**
   * The add-or-update handler: validate, create the caller's cart empty when
   * there is none, upsert the entry, and answer with the caller's cart.
   */
  function AddOrUpdateItem(carts: seq<Cart>, user: string, productId: string, quantity: int): (r: Result<CartUpdate>)
    ensures r.Err? <==> !UpsertValid(productId, quantity)
    ensures r.Err? ==> r.error == ValidationFailed
    ensures r.Ok? ==> r.value.cart == MyCart(r.value.carts, user)
    ensures r.Ok? ==> r.value.cart.items == Upsert(MyCart(carts, user).items, productId, quantity)
    ensures r.Ok? ==> forall u :: u != user ==> MyCart(r.value.carts, u) == MyCart(carts, u)
    ensures r.Ok? && FindCart(carts, user).None? ==>
              r.value.carts == carts + [Cart(user, [CartItem(productId, quantity)])]
  {
    if !UpsertValid(productId, quantity) then Err(ValidationFailed)
    else match FindCart(carts, user)
      case None =>
        assert !HasProduct([], productId);
        var c := Cart(user, Upsert([], productId, quantity));
        assert c.items == [CartItem(productId, quantity)];
        OthersUnchangedByAppend(carts, c);
        assert MyCart(carts + [c], user) == c;
        Ok(CartUpdate(carts + [c], c))
      case Some(i) =>
        var c := carts[i].(items := Upsert(carts[i].items, productId, quantity));
        OthersUnchangedByReplace(carts, i, c);
        assert MyCart(carts[i := c], user) == c;
        Ok(CartUpdate(carts[i := c], c))
  }

  /**
   * The remove handler: with no stored cart, answer an empty cart and store
   * nothing; otherwise drop every entry for the product.
   */
  function RemoveItem(carts: seq<Cart>, user: string, productId: string): (r: CartUpdate)
    ensures FindCart(carts, user).None? ==> r.carts == carts && r.cart == Cart(user, [])
    ensures r.cart == MyCart(r.carts, user)
    ensures r.cart.items == Without(MyCart(carts, user).items, productId)
    ensures forall u :: u != user ==> MyCart(r.carts, u) == MyCart(carts, u)
    ensures !HasProduct(MyCart(carts, user).items, productId) ==> r.carts == carts
  {
    match FindCart(carts, user)
    case None => CartUpdate(carts, Cart(user, []))
    case Some(i) =>
      var c := carts[i].(items := Without(carts[i].items, productId));
      OthersUnchangedByReplace(carts, i, c);
      assert !HasProduct(carts[i].items, productId) ==> carts[i := c] == carts;
      CartUpdate(carts[i := c], c)
  }

  /** Emptying the caller's cart after an order, leaving every other cart alone. */
  function ClearCartOf(carts: seq<Cart>, user: string): (r: seq<Cart>)
    ensures MyCart(r, user).items == []
    ensures forall u :: u != user ==> MyCart(r, u) == MyCart(carts, u)
  {
    match FindCart(carts, user)
    case None => carts
    case Some(i) =>
      var c := carts[i].(items := []);
      OthersUnchangedByReplace(carts, i, c);
      assert MyCart(carts[i := c], user) == c;
      carts[i := c]
  }

  /**
   * The cart update the order handler issues as written: its filter names a
   * field carts do not have, the store drops that condition, and the first
   * cart in the store is emptied, whoever owns it.
   */
  function ClearFirstCart(carts: seq<Cart>): (r: seq<Cart>)
    ensures |r| == |carts|
    ensures |carts| > 0 ==> r[0] == carts[0].(items := []) && r[1..] == carts[1..]
    ensures |carts| == 0 ==> r == carts
  {
    if |carts| == 0 then carts else carts[0 := carts[0].(items := [])]
  }
}
