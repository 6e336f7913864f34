/**
 * The cart reducer of the sell pages: a client-side list of products with
 * the quantity the customer wants, changed by `addToCart`,
 * `updateQuantity` and `removeFromCart` and summed by `total`. The same
 * reducer is written out three times in the source (the sell page, the
 * account-payment page and the older sell page kept in Pagination.tsx);
 * it is modelled once here.
 */
module Cart {
  import opened Wrappers
  import opened Db
  import Sales
  import Text

  /** A product as the pages fetch it; price in öre, quantity = stock when fetched. */
  datatype Product = Product(id: ProductId, name: string, price: int, quantity: int, sku: Option<string>)

  /** `{ ...product, cartQuantity }`: the product as it was when first added, and the wanted quantity. */
  datatype CartItem = CartItem(product: Product, cartQuantity: int)

  function Ids(cart: seq<CartItem>): set<ProductId> {
    set i | 0 <= i < |cart| :: cart[i].product.id
  }

  predicate DistinctIds(cart: seq<CartItem>) {
    forall i, j :: 0 <= i < j < |cart| ==> cart[i].product.id != cart[j].product.id
  }

  predicate AllPositive(cart: seq<CartItem>) {
    forall i :: 0 <= i < |cart| ==> cart[i].cartQuantity > 0
  }

  /** What every reducer step keeps: one entry per product, each wanting at least one unit. */
  predicate Valid(cart: seq<CartItem>) {
    DistinctIds(cart) && AllPositive(cart)
  }

  /** No entry wants more than the stock its product had. */
  predicate WithinStock(cart: seq<CartItem>) {
    forall i :: 0 <= i < |cart| ==> cart[i].cartQuantity <= cart[i].product.quantity
  }

  lemma {:induction false} IdsCons(x: CartItem, c: seq<CartItem>)
    ensures Ids([x] + c) == {x.product.id} + Ids(c)
  {
    var l := [x] + c;
    assert l[0] == x;
    forall id | id in Ids(l) ensures id in {x.product.id} + Ids(c) {
      var i :| 0 <= i < |l| && l[i].product.id == id;
      if i > 0 { assert c[i - 1] == l[i]; }
    }
    forall id | id in Ids(c) ensures id in Ids(l) {
      var i :| 0 <= i < |c| && c[i].product.id == id;
      assert l[i + 1] == c[i];
    }
  }

  lemma {:induction false} DistinctCons(x: CartItem, c: seq<CartItem>)
    ensures DistinctIds([x] + c) <==> x.product.id !in Ids(c) && DistinctIds(c)
  {
    var l := [x] + c;
    assert l[0] == x;
    if DistinctIds(l) {
      forall i, j | 0 <= i < j < |c| ensures c[i].product.id != c[j].product.id {
        assert l[i + 1] == c[i] && l[j + 1] == c[j];
      }
      forall i | 0 <= i < |c| ensures c[i].product.id != x.product.id {
        assert l[i + 1] == c[i];
      }
    }
    if x.product.id !in Ids(c) && DistinctIds(c) {
      forall i, j | 0 <= i < j < |l| ensures l[i].product.id != l[j].product.id {
        assert l[j] == c[j - 1];
        assert c[j - 1].product.id in Ids(c);
        if i > 0 { assert l[i] == c[i - 1]; }
      }
    }
  }

  /** `cart.find(item => item.id === id)`: the first entry with that id. */
  function Find(cart: seq<CartItem>, id: ProductId): (r: Option<CartItem>)
    ensures r.None? <==> id !in Ids(cart)
    ensures r.Some? ==> r.value.product.id == id && r.value in cart
    ensures forall k :: 0 <= k < |cart| && cart[k].product.id == id && (forall j :: 0 <= j < k ==> cart[j].product.id != id) ==> r == Some(cart[k])
  {
    if cart == [] then None
    else
      IdsCons(cart[0], cart[1..]);
      assert cart == [cart[0]] + cart[1..];
      if cart[0].product.id == id then Some(cart[0])
      else
        var r := Find(cart[1..], id);
        assert forall k :: 1 <= k < |cart| ==> cart[k] == cart[1..][k - 1];
        r
  }

  /** The `map` of `addToCart`: one more unit on every entry for that id. */
  function Increment(cart: seq<CartItem>, id: ProductId): (r: seq<CartItem>)
    ensures |r| == |cart| && Ids(r) == Ids(cart)
    ensures forall i :: 0 <= i < |r| ==> r[i].product == cart[i].product && r[i].cartQuantity >= cart[i].cartQuantity
  {
    if cart == [] then []
    else
      var x := cart[0];
      var y := if x.product.id == id then x.(cartQuantity := x.cartQuantity + 1) else x;
      var r := [y] + Increment(cart[1..], id);
      IdsCons(x, cart[1..]);
      IdsCons(y, Increment(cart[1..], id));
      assert cart == [x] + cart[1..];
      r
  }

  /** `removeFromCart`: the entries with that id are dropped, the others kept in order. */
  function RemoveFromCart(cart: seq<CartItem>, id: ProductId): (r: seq<CartItem>)
    ensures Ids(r) == Ids(cart) - {id}
    ensures |r| <= |cart|
    ensures DistinctIds(cart) ==> DistinctIds(r)
    ensures AllPositive(cart) ==> AllPositive(r)
    ensures WithinStock(cart) ==> WithinStock(r)
    ensures id !in Ids(cart) ==> r == cart
  {
    if cart == [] then []
    else
      var rest := RemoveFromCart(cart[1..], id);
      RemoveStep(cart, rest, id);
      if cart[0].product.id == id then rest else [cart[0]] + rest
  }

  /** One step of `RemoveFromCart`: what holds of the removal from the tail carries over to the whole cart. */
  lemma {:induction false} RemoveStep(cart: seq<CartItem>, rest: seq<CartItem>, id: ProductId)
    requires cart != []
    requires Ids(rest) == Ids(cart[1..]) - {id} && |rest| <= |cart[1..]|
    requires DistinctIds(cart[1..]) ==> DistinctIds(rest)
    requires AllPositive(cart[1..]) ==> AllPositive(rest)
    requires WithinStock(cart[1..]) ==> WithinStock(rest)
    requires id !in Ids(cart[1..]) ==> rest == cart[1..]
    ensures var r := if cart[0].product.id == id then rest else [cart[0]] + rest;
      && Ids(r) == Ids(cart) - {id} && |r| <= |cart|
      && (DistinctIds(cart) ==> DistinctIds(r))
      && (AllPositive(cart) ==> AllPositive(r))
      && (WithinStock(cart) ==> WithinStock(r))
      && (id !in Ids(cart) ==> r == cart)
  {
    var x := cart[0];
    var c := cart[1..];
    assert cart == [x] + c;
    IdsCons(x, c);
    DistinctCons(x, c);
    PerEntryCons(x, c);
    if x.product.id != id {
      IdsCons(x, rest);
      DistinctCons(x, rest);
      PerEntryCons(x, rest);
    }
  }

  /** The per-entry predicates of a cart split at its head. */
  lemma {:induction false} PerEntryCons(x: CartItem, c: seq<CartItem>)
    ensures AllPositive([x] + c) <==> x.cartQuantity > 0 && AllPositive(c)
    ensures WithinStock([x] + c) <==> x.cartQuantity <= x.product.quantity && WithinStock(c)
  {
    var l := [x] + c;
    assert l[0] == x;
    assert forall i :: 0 <= i < |c| ==> l[i + 1] == c[i];
    assert forall i :: 0 < i < |l| ==> l[i] == c[i - 1];
  }


  lemma {:induction false} RemoveAppend(a: seq<CartItem>, b: seq<CartItem>, id: ProductId)
    ensures RemoveFromCart(a + b, id) == RemoveFromCart(a, id) + RemoveFromCart(b, id)
  {
    if a == [] {
      assert a + b == b;
    } else {
      assert (a + b)[0] == a[0];
      assert (a + b)[1..] == a[1..] + b;
      RemoveAppend(a[1..], b, id);
    }
  }

  /** Removing the one entry of a product cuts exactly that entry out. */
  lemma {:induction false} RemoveSplit(a: seq<CartItem>, x: CartItem, b: seq<CartItem>)
    requires x.product.id !in Ids(a) && x.product.id !in Ids(b)
    ensures RemoveFromCart(a + [x] + b, x.product.id) == a + b
  {
    var id := x.product.id;
    var xb := [x] + b;
    calc {
      RemoveFromCart(a + [x] + b, id);
    == { assert a + [x] + b == a + xb; }
      RemoveFromCart(a + xb, id);
    == { RemoveAppend(a, xb, id); }
      RemoveFromCart(a, id) + RemoveFromCart(xb, id);
    == { RemoveHead(x, b); }
      a + b;
    }
  }

  lemma RemoveHead(x: CartItem, b: seq<CartItem>)
    requires x.product.id !in Ids(b)
    ensures RemoveFromCart([x] + b, x.product.id) == b
  {
    assert ([x] + b)[0] == x && ([x] + b)[1..] == b;
  }

  lemma {:induction false} RemoveIncrement(cart: seq<CartItem>, id: ProductId)
    ensures RemoveFromCart(Increment(cart, id), id) == RemoveFromCart(cart, id)
  {
    if cart != [] {
      RemoveIncrement(cart[1..], id);
    }
  }

  /**
   * `addToCart`: a product not yet in the cart is appended with quantity 1;
   * one already there gets one more unit only while its quantity is below the
   * product's stock. No other entry changes, nor does the order.
   */
  function AddToCart(cart: seq<CartItem>, p: Product): (r: seq<CartItem>)
    ensures Ids(r) == Ids(cart) + {p.id}
    ensures RemoveFromCart(r, p.id) == RemoveFromCart(cart, p.id)
    ensures DistinctIds(cart) ==> DistinctIds(r)
    ensures AllPositive(cart) ==> AllPositive(r)
  {
    match Find(cart, p.id)
    case None =>
      AppendEntry(cart, CartItem(p, 1));
      cart + [CartItem(p, 1)]
    case Some(item) =>
      if item.cartQuantity < p.quantity then
        RemoveIncrement(cart, p.id);
        var r := Increment(cart, p.id);
        assert DistinctIds(cart) ==> DistinctIds(r) by {
          forall i, j | 0 <= i < j < |r| ensures DistinctIds(cart) ==> r[i].product.id != r[j].product.id {
            assert r[i].product == cart[i].product && r[j].product == cart[j].product;
          }
        }
        r
      else cart
  }

  /** The `map` of `updateQuantity`: the entry's quantity moved by delta, capped at its product's stock. */
  function Adjust(cart: seq<CartItem>, id: ProductId, delta: int): (r: seq<CartItem>)
    ensures |r| == |cart| && Ids(r) == Ids(cart)
    ensures forall i :: 0 <= i < |r| ==> r[i].product == cart[i].product
  {
    if cart == [] then []
    else
      var x := cart[0];
      var y := if x.product.id == id then x.(cartQuantity := Min(x.cartQuantity + delta, x.product.quantity)) else x;
      IdsCons(x, cart[1..]);
      IdsCons(y, Adjust(cart[1..], id, delta));
      assert cart == [x] + cart[1..];
      [y] + Adjust(cart[1..], id, delta)
  }

  function Min(a: int, b: int): int {
    if a < b then a else b
  }

  /** The `filter` of `updateQuantity`: entries whose quantity is not positive are dropped. */
  function KeepPositive(cart: seq<CartItem>): (r: seq<CartItem>)
    ensures AllPositive(r)
    ensures Ids(r) <= Ids(cart)
    ensures DistinctIds(cart) ==> DistinctIds(r)
    ensures WithinStock(cart) ==> WithinStock(r)
    ensures AllPositive(cart) ==> r == cart
  {
    if cart == [] then []
    else
      var x := cart[0];
      var rest := KeepPositive(cart[1..]);
      assert cart == [x] + cart[1..];
      IdsCons(x, cart[1..]);
      DistinctCons(x, cart[1..]);
      if x.cartQuantity > 0 then
        IdsCons(x, rest);
        DistinctCons(x, rest);
        [x] + rest
      else rest
  }

  /**
   * `updateQuantity(id, delta)`: that entry's quantity becomes
   * min(quantity + delta, stock) and every entry whose quantity is not
   * positive is dropped.
   */
  function UpdateQuantity(cart: seq<CartItem>, id: ProductId, delta: int): (r: seq<CartItem>)
    ensures AllPositive(r)
    ensures Ids(r) <= Ids(cart)
    ensures DistinctIds(cart) ==> DistinctIds(r)
    ensures WithinStock(cart) ==> WithinStock(r)
    ensures forall i :: 0 <= i < |r| && r[i].product.id == id ==> r[i].cartQuantity <= r[i].product.quantity
    ensures AllPositive(cart) && id !in Ids(cart) ==> r == cart
  {
    var a := Adjust(cart, id, delta);
    AdjustCaps(cart, id, delta);
    assert WithinStock(cart) ==> WithinStock(a) by {
      if WithinStock(cart) {
        forall i | 0 <= i < |a| ensures a[i].cartQuantity <= a[i].product.quantity {
          AdjustAt(cart, id, delta, i);
        }
      }
    }
    assert AllPositive(cart) && id !in Ids(cart) ==> a == cart by {
      if id !in Ids(cart) { AdjustAbsent(cart, id, delta); }
    }
    KeepPositiveCaps(a, id);
    KeepPositive(a)
  }

  lemma {:induction false} AdjustAt(cart: seq<CartItem>, id: ProductId, delta: int, i: nat)
    requires i < |cart|
    ensures Adjust(cart, id, delta)[i] ==
      if cart[i].product.id == id
      then cart[i].(cartQuantity := Min(cart[i].cartQuantity + delta, cart[i].product.quantity))
      else cart[i]
  {
    if i > 0 { AdjustAt(cart[1..], id, delta, i - 1); }
  }

  lemma {:induction false} AdjustCaps(cart: seq<CartItem>, id: ProductId, delta: int)
    ensures forall i :: 0 <= i < |cart| && cart[i].product.id == id ==>
      Adjust(cart, id, delta)[i].cartQuantity <= cart[i].product.quantity
  {
    forall i | 0 <= i < |cart| && cart[i].product.id == id
      ensures Adjust(cart, id, delta)[i].cartQuantity <= cart[i].product.quantity
    {
      AdjustAt(cart, id, delta, i);
    }
  }

  lemma {:induction false} AdjustAbsent(cart: seq<CartItem>, id: ProductId, delta: int)
    requires id !in Ids(cart)
    ensures Adjust(cart, id, delta) == cart
  {
    if cart != [] {
      IdsCons(cart[0], cart[1..]);
      assert cart == [cart[0]] + cart[1..];
      AdjustAbsent(cart[1..], id, delta);
    }
  }

  lemma {:induction false} KeepPositiveCaps(cart: seq<CartItem>, id: ProductId)
    requires forall i :: 0 <= i < |cart| && cart[i].product.id == id ==> cart[i].cartQuantity <= cart[i].product.quantity
    ensures forall i :: 0 <= i < |KeepPositive(cart)| && KeepPositive(cart)[i].product.id == id ==>
      KeepPositive(cart)[i].cartQuantity <= KeepPositive(cart)[i].product.quantity
  {
    if cart != [] {
      KeepPositiveCaps(cart[1..], id);
      var rest := KeepPositive(cart[1..]);
      if cart[0].cartQuantity > 0 {
        assert KeepPositive(cart) == [cart[0]] + rest;
      }
    }
  }

  /** `total`: the sum of price × wanted quantity over the cart. */
  function Total(cart: seq<CartItem>): int {
    if cart == [] then 0 else cart[0].product.price * cart[0].cartQuantity + Total(cart[1..])
  }

  function LineTotal(x: CartItem): int {
    x.product.price * x.cartQuantity
  }

  lemma {:induction false} TotalAppend(a: seq<CartItem>, b: seq<CartItem>)
    ensures Total(a + b) == Total(a) + Total(b)
  {
    if a == [] {
      assert a + b == b;
    } else {
      assert (a + b)[0] == a[0];
      assert (a + b)[1..] == a[1..] + b;
      TotalAppend(a[1..], b);
    }
  }

  /** With non-negative prices every cart total is non-negative, and the empty cart's total is 0. */
  lemma {:induction false} TotalNonNegative(cart: seq<CartItem>)
    requires forall i :: 0 <= i < |cart| ==> cart[i].product.price >= 0
    requires AllPositive(cart)
    ensures Total(cart) >= 0
    ensures cart == [] ==> Total(cart) == 0
  {
    if cart != [] {
      TotalNonNegative(cart[1..]);
    }
  }

  /** Appending an entry for a new product: its id joins the ids, and the removal of that id undoes it. */
  lemma {:induction false} AppendEntry(cart: seq<CartItem>, x: CartItem)
    requires x.product.id !in Ids(cart)
    ensures Ids(cart + [x]) == Ids(cart) + {x.product.id}
    ensures RemoveFromCart(cart + [x], x.product.id) == RemoveFromCart(cart, x.product.id)
    ensures DistinctIds(cart) ==> DistinctIds(cart + [x])
    ensures AllPositive(cart) && x.cartQuantity > 0 ==> AllPositive(cart + [x])
  {
    IdsAppend(cart, [x]);
    IdsCons(x, []);
    assert [x] + [] == [x];
    RemoveAppend(cart, [x], x.product.id);
    assert RemoveFromCart([x], x.product.id) == [] by {
      assert [x][1..] == [];
    }
    assert cart + [] == cart;
    var r := cart + [x];
    forall i, j | 0 <= i < j < |r| && DistinctIds(cart) ensures r[i].product.id != r[j].product.id {
      assert r[i] == cart[i];
      if j < |cart| { assert r[j] == cart[j]; } else { assert cart[i].product.id in Ids(cart); }
    }
  }

  lemma {:induction false} IdsAppend(a: seq<CartItem>, b: seq<CartItem>)
    ensures Ids(a + b) == Ids(a) + Ids(b)
  {
    var l := a + b;
    forall id | id in Ids(l) ensures id in Ids(a) + Ids(b) {
      var i :| 0 <= i < |l| && l[i].product.id == id;
      if i < |a| { assert l[i] == a[i]; } else { assert l[i] == b[i - |a|]; }
    }
    forall id | id in Ids(a) ensures id in Ids(l) {
      var i :| 0 <= i < |a| && a[i].product.id == id;
      assert l[i] == a[i];
    }
    forall id | id in Ids(b) ensures id in Ids(l) {
      var i :| 0 <= i < |b| && b[i].product.id == id;
      assert l[i + |a|] == b[i];
    }
  }

  /** In a cart with distinct ids the entry at position i is the only one for its product. */
  lemma {:induction false} SplitAt(cart: seq<CartItem>, i: nat)
    requires DistinctIds(cart) && i < |cart|
    ensures cart == cart[..i] + [cart[i]] + cart[i + 1..]
    ensures cart[i].product.id !in Ids(cart[..i]) && cart[i].product.id !in Ids(cart[i + 1..])
  {
    assert cart == cart[..i] + [cart[i]] + cart[i + 1..];
  }

  lemma {:induction false} FindSkips(a: seq<CartItem>, c: seq<CartItem>, id: ProductId)
    requires id !in Ids(a)
    ensures Find(a + c, id) == Find(c, id)
  {
    if a != [] {
      IdsCons(a[0], a[1..]);
      assert a == [a[0]] + a[1..];
      assert (a + c)[0] == a[0] && (a + c)[1..] == a[1..] + c;
      assert Find(a + c, id) == Find((a + c)[1..], id);
      FindSkips(a[1..], c, id);
    } else {
      assert a + c == c;
    }
  }

  lemma {:induction false} IncrementAppend(a: seq<CartItem>, b: seq<CartItem>, id: ProductId)
    ensures Increment(a + b, id) == Increment(a, id) + Increment(b, id)
  {
    if a == [] {
      assert a + b == b;
    } else {
      assert (a + b)[0] == a[0] && (a + b)[1..] == a[1..] + b;
      IncrementAppend(a[1..], b, id);
    }
  }

  lemma {:induction false} IncrementAbsent(cart: seq<CartItem>, id: ProductId)
    requires id !in Ids(cart)
    ensures Increment(cart, id) == cart
  {
    if cart != [] {
      IdsCons(cart[0], cart[1..]);
      assert cart == [cart[0]] + cart[1..];
      IncrementAbsent(cart[1..], id);
    }
  }

  /** `addToCart` of a product not in the cart appends it with quantity 1, whatever its stock. */
  lemma {:induction false} AddToCartAppends(cart: seq<CartItem>, p: Product)
    requires p.id !in Ids(cart)
    ensures AddToCart(cart, p) == cart + [CartItem(p, 1)]
    ensures Total(AddToCart(cart, p)) == Total(cart) + p.price
  {
    TotalAppend(cart, [CartItem(p, 1)]);
  }

  lemma {:induction false} IncrementOne(a: seq<CartItem>, x: CartItem, b: seq<CartItem>)
    requires x.product.id !in Ids(a) && x.product.id !in Ids(b)
    ensures Increment(a + [x] + b, x.product.id) == a + [x.(cartQuantity := x.cartQuantity + 1)] + b
  {
    var id := x.product.id;
    IncrementAppend(a + [x], b, id);
    IncrementAppend(a, [x], id);
    IncrementAbsent(a, id);
    IncrementAbsent(b, id);
    assert Increment([x], id) == [x.(cartQuantity := x.cartQuantity + 1)] by {
      assert [x][1..] == [];
    }
  }

  /**
   * `addToCart` of a product already in the cart: its entry gains one unit,
   * in place, exactly when the entry's quantity is below the product's
   * stock; the entries before and after are untouched.
   */
  lemma {:induction false} AddToCartIncrements(a: seq<CartItem>, x: CartItem, b: seq<CartItem>, p: Product)
    requires x.product.id == p.id && p.id !in Ids(a) && p.id !in Ids(b)
    ensures AddToCart(a + [x] + b, p) ==
      a + [if x.cartQuantity < p.quantity then x.(cartQuantity := x.cartQuantity + 1) else x] + b
  {
    var xb := [x] + b;
    assert a + [x] + b == a + xb;
    FindSkips(a, xb, p.id);
    assert Find(xb, p.id) == Some(x);
    if x.cartQuantity < p.quantity {
      IncrementOne(a, x, b);
    }
  }

  /** Replacing one entry changes the total by the difference of the two line totals. */
  lemma {:induction false} TotalReplace(a: seq<CartItem>, x: CartItem, y: CartItem, b: seq<CartItem>)
    ensures Total(a + [y] + b) == Total(a + [x] + b) - LineTotal(x) + LineTotal(y)
  {
    TotalAppend(a + [y], b);
    TotalAppend(a, [y]);
    TotalAppend(a + [x], b);
    TotalAppend(a, [x]);
    assert [x][1..] == [] && [y][1..] == [];
  }

  /** The total grows by the entry's unit price when `addToCart` adds a unit, and not at all otherwise. */
  lemma {:induction false} AddToCartTotal(a: seq<CartItem>, x: CartItem, b: seq<CartItem>, p: Product)
    requires x.product.id == p.id && p.id !in Ids(a) && p.id !in Ids(b)
    ensures Total(AddToCart(a + [x] + b, p)) ==
      Total(a + [x] + b) + (if x.cartQuantity < p.quantity then x.product.price else 0)
  {
    var y := if x.cartQuantity < p.quantity then x.(cartQuantity := x.cartQuantity + 1) else x;
    AddToCartIncrements(a, x, b, p);
    TotalReplace(a, x, y, b);
    LineTotalNext(x, x.cartQuantity < p.quantity);
  }

  /** One more unit of a line adds its price to the line total. */
  lemma LineTotalNext(x: CartItem, more: bool)
    ensures LineTotal(if more then x.(cartQuantity := x.cartQuantity + 1) else x)
      == LineTotal(x) + (if more then x.product.price else 0)
  {
    assert x.product.price * (x.cartQuantity + 1) == x.product.price * x.cartQuantity + x.product.price;
  }


  lemma {:induction false} AdjustAppend(a: seq<CartItem>, b: seq<CartItem>, id: ProductId, delta: int)
    ensures Adjust(a + b, id, delta) == Adjust(a, id, delta) + Adjust(b, id, delta)
  {
    if a == [] {
      assert a + b == b;
    } else {
      assert (a + b)[0] == a[0] && (a + b)[1..] == a[1..] + b;
      AdjustAppend(a[1..], b, id, delta);
    }
  }

  lemma {:induction false} KeepPositiveAppend(a: seq<CartItem>, b: seq<CartItem>)
    ensures KeepPositive(a + b) == KeepPositive(a) + KeepPositive(b)
  {
    if a == [] {
      assert a + b == b;
    } else {
      assert (a + b)[0] == a[0] && (a + b)[1..] == a[1..] + b;
      KeepPositiveAppend(a[1..], b);
    }
  }

  lemma {:induction false} AdjustOne(a: seq<CartItem>, x: CartItem, b: seq<CartItem>, delta: int)
    requires x.product.id !in Ids(a) && x.product.id !in Ids(b)
    ensures Adjust(a + [x] + b, x.product.id, delta) ==
      a + [x.(cartQuantity := Min(x.cartQuantity + delta, x.product.quantity))] + b
  {
    var id := x.product.id;
    var y := x.(cartQuantity := Min(x.cartQuantity + delta, x.product.quantity));
    calc {
      Adjust(a + [x] + b, id, delta);
    == { AdjustAppend(a + [x], b, id, delta); }
      Adjust(a + [x], id, delta) + Adjust(b, id, delta);
    == { AdjustAppend(a, [x], id, delta); }
      Adjust(a, id, delta) + Adjust([x], id, delta) + Adjust(b, id, delta);
    == { AdjustAbsent(a, id, delta); AdjustAbsent(b, id, delta); AdjustSingle(x, delta); }
      a + [y] + b;
    }
  }

  lemma AdjustSingle(x: CartItem, delta: int)
    ensures Adjust([x], x.product.id, delta) == [x.(cartQuantity := Min(x.cartQuantity + delta, x.product.quantity))]
  {
    assert [x][1..] == [];
  }

  lemma {:induction false} KeepPositiveOne(a: seq<CartItem>, y: CartItem, b: seq<CartItem>)
    requires AllPositive(a) && AllPositive(b)
    ensures KeepPositive(a + [y] + b) == a + (if y.cartQuantity > 0 then [y] else []) + b
  {
    KeepPositiveAppend(a + [y], b);
    KeepPositiveAppend(a, [y]);
    assert KeepPositive(a) == a && KeepPositive(b) == b;
    assert KeepPositive([y]) == if y.cartQuantity > 0 then [y] else [] by {
      assert [y] == [y] + [];
      assert [y][1..] == [];
      assert KeepPositive([y][1..]) == [];
    }
    assert a + [] == a;
  }

  /**
   * `updateQuantity(id, delta)` on a cart whose entries are all positive:
   * the entry for id becomes min(quantity + delta, stock) in place, or is
   * removed when that is not positive; the other entries are untouched.
   */
  lemma {:induction false} UpdateQuantityEntry(a: seq<CartItem>, x: CartItem, b: seq<CartItem>, delta: int)
    requires AllPositive(a) && AllPositive(b)
    requires x.product.id !in Ids(a) && x.product.id !in Ids(b)
    ensures var q := Min(x.cartQuantity + delta, x.product.quantity);
      UpdateQuantity(a + [x] + b, x.product.id, delta) ==
        a + (if q > 0 then [x.(cartQuantity := q)] else []) + b
  {
    AdjustOne(a, x, b, delta);
    KeepPositiveOne(a, x.(cartQuantity := Min(x.cartQuantity + delta, x.product.quantity)), b);
  }

  /** `removeFromCart` takes the entry's line total off the total. */
  lemma {:induction false} RemoveFromCartTotal(a: seq<CartItem>, x: CartItem, b: seq<CartItem>)
    requires x.product.id !in Ids(a) && x.product.id !in Ids(b)
    ensures Total(RemoveFromCart(a + [x] + b, x.product.id)) == Total(a + [x] + b) - LineTotal(x)
  {
    RemoveSplit(a, x, b);
    TotalAppend(a, b);
    TotalAppend(a + [x], b);
    TotalAppend(a, [x]);
  }

  /** One user action on the cart. */
  datatype Event = Add(p: Product) | Update(id: ProductId, delta: int) | Remove(id: ProductId)

  function Apply(cart: seq<CartItem>, e: Event): seq<CartItem> {
    match e
    case Add(p) => AddToCart(cart, p)
    case Update(id, delta) => UpdateQuantity(cart, id, delta)
    case Remove(id) => RemoveFromCart(cart, id)
  }

  function Run(cart: seq<CartItem>, events: seq<Event>): seq<CartItem>
    decreases |events|
  {
    if events == [] then cart else Run(Apply(cart, events[0]), events[1..])
  }

  /** Every sequence of reducer steps keeps one positive entry per product. */
  lemma {:induction false} RunKeepsValid(cart: seq<CartItem>, events: seq<Event>)
    requires Valid(cart)
    ensures Valid(Run(cart, events))
    decreases |events|
  {
    if events != [] {
      RunKeepsValid(Apply(cart, events[0]), events[1..]);
    }
  }

  /** How many units of the product the cart already holds (`inCart?.cartQuantity || 0`). */
  function InCart(cart: seq<CartItem>, id: ProductId): int {
    match Find(cart, id)
    case Some(x) => x.cartQuantity
    case None => 0
  }

  /**
   * The conditions under which the sell page lets `addToCart` run: the
   * product's stock is not negative, the cart's entry for it (if any) holds
   * the same product record (the product list is only re-fetched once the
   * cart has been emptied), and the "Add to Cart" button is enabled, i.e. the
   * available quantity (stock minus units in the cart) is not 0.
   */
  predicate AddAllowed(cart: seq<CartItem>, p: Product) {
    && p.quantity >= 0
    && (forall i :: 0 <= i < |cart| && cart[i].product.id == p.id ==> cart[i].product == p)
    && p.quantity - InCart(cart, p.id) != 0
  }

  predicate AllowedRun(cart: seq<CartItem>, events: seq<Event>)
    decreases |events|
  {
    events == [] ||
    ((events[0].Add? ==> AddAllowed(cart, events[0].p)) && AllowedRun(Apply(cart, events[0]), events[1..]))
  }

  /** Replacing one entry by one within its stock keeps the whole cart within stock. */
  lemma WithinStockReplace(a: seq<CartItem>, x: CartItem, y: CartItem, b: seq<CartItem>)
    requires WithinStock(a + [x] + b) && y.cartQuantity <= y.product.quantity
    ensures WithinStock(a + [y] + b)
  {
    var c, d := a + [x] + b, a + [y] + b;
    forall k | 0 <= k < |d| ensures d[k].cartQuantity <= d[k].product.quantity {
      if k != |a| { assert d[k] == c[k]; }
    }
  }

  lemma {:induction false} AddKeepsWithinStock(cart: seq<CartItem>, p: Product)
    requires Valid(cart) && WithinStock(cart) && AddAllowed(cart, p)
    ensures WithinStock(AddToCart(cart, p))
  {
    if p.id in Ids(cart) {
      var x := Find(cart, p.id).value;
      var i :| 0 <= i < |cart| && cart[i] == x;
      var a, b := cart[..i], cart[i + 1..];
      SplitAt(cart, i);
      AddToCartIncrements(a, x, b, p);
      var y := if x.cartQuantity < p.quantity then x.(cartQuantity := x.cartQuantity + 1) else x;
      assert x.product == p;
      WithinStockReplace(a, x, y, b);
    } else {
      AddToCartAppends(cart, p);
    }
  }

  /**
   * Whatever the customer clicks, as long as the page's guards hold, no
   * entry wants more than its product's stock and none wants fewer than one.
   */
  lemma {:induction false} RunKeepsWithinStock(cart: seq<CartItem>, events: seq<Event>)
    requires Valid(cart) && WithinStock(cart) && AllowedRun(cart, events)
    ensures Valid(Run(cart, events)) && WithinStock(Run(cart, events))
    decreases |events|
  {
    if events != [] {
      var next := Apply(cart, events[0]);
      if events[0].Add? {
        AddKeepsWithinStock(cart, events[0].p);
      }
      RunKeepsWithinStock(next, events[1..]);
    }
  }

  /** `cart.map(item => ({ id: item.id, quantity: item.cartQuantity }))`, what checkout sends. */
  function Lines(cart: seq<CartItem>): (r: seq<Line>)
    ensures |r| == |cart|
    ensures forall i :: 0 <= i < |r| ==> r[i] == Line(cart[i].product.id, cart[i].cartQuantity)
  {
    seq(|cart|, i requires 0 <= i < |cart| => Line(cart[i].product.id, cart[i].cartQuantity))
  }

  /** A cart the reducer produced sends lines with distinct ids and positive quantities. */
  lemma {:induction false} LinesWellFormed(cart: seq<CartItem>)
    requires Valid(cart)
    ensures DistinctLineIds(Lines(cart)) && PositiveLines(Lines(cart))
  {
  }

  /**
   * Checkout from a cart the reducer produced: the corrected `confirmSale`
   * and the one as written give the same result, an empty cart included.
   */
  lemma CheckoutAgrees(db: State, user: UserId, cart: seq<CartItem>, pm: Sales.PaymentMethod)
    requires Valid(cart)
    ensures Sales.ConfirmChecked(db, user, Some(Lines(cart)), pm) == Sales.Confirm(db, user, Some(Lines(cart)), pm)
  {
    LinesWellFormed(cart);
    if cart != [] {
      Sales.CheckedAgreesOnCartLines(db, user, Lines(cart), pm);
    }
  }

  /** `name.toLowerCase().includes(query.toLowerCase())`: the product-list search of the sell pages. */
  predicate Matches(p: Product, query: string) {
    Text.Contains(Text.Lower(p.name), Text.Lower(query))
  }

  /** `products.filter(...)` with `Matches`: the matching products, in their order. */
  function Search(products: seq<Product>, query: string): (r: seq<Product>)
    ensures |r| <= |products|
    ensures forall i :: 0 <= i < |r| ==> Matches(r[i], query) && r[i] in products
    ensures forall i :: 0 <= i < |products| && Matches(products[i], query) ==> products[i] in r
  {
    if products == [] then []
    else
      var rest := Search(products[1..], query);
      assert forall i :: 1 <= i < |products| ==> products[i] == products[1..][i - 1];
      if Matches(products[0], query) then [products[0]] + rest else rest
  }

  /** An empty search box lists every product. */
  lemma {:induction false} SearchEmpty(products: seq<Product>)
    ensures Search(products, "") == products
  {
    if products != [] {
      assert Text.OccursAt(Text.Lower(products[0].name), Text.Lower(""), 0);
      SearchEmpty(products[1..]);
    }
  }

  lemma LowerIdempotent(s: string)
    ensures Text.Lower(Text.Lower(s)) == Text.Lower(s)
  {
  }

  /** The search ignores the case of the query: an upper-case and a lower-case query list the same products. */
  lemma {:induction false} SearchIgnoresQueryCase(products: seq<Product>, query: string)
    ensures Search(products, query) == Search(products, Text.Lower(query))
  {
    if products != [] {
      LowerIdempotent(query);
      SearchIgnoresQueryCase(products[1..], query);
    }
  }
}
