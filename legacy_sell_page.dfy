/**
 * The older copy of the sell page kept in components/Pagination.tsx: the
 * same cart, a Swish QR dialog, and a checkout that calls `confirmSale`
 * without a payment method, so every sale it records is a Swish sale.
 */
module LegacySellPage {
  import opened Wrappers
  import opened Db
  import Text
  import Cart
  import Sales
  import Swish
  import Store
  import SellPage

  /** The component state, all of it. */
  datatype Screen = Screen(
    cart: seq<Cart.CartItem>,
    qrCodeUrl: Option<string>,
    showQrModal: bool,
    swishNumber: string,
    confirming: bool,
    showSuccessMessage: bool)

  /** The method `confirmSale` falls back to when the caller names none. */
  const DefaultMethod: Sales.PaymentMethod := Sales.Swish

  class LegacySellPage {
    var cart: seq<Cart.CartItem>
    var qrCodeUrl: Option<string>
    var showQrModal: bool
    var swishNumber: string
    var confirming: bool
    var showSuccessMessage: bool

    function Current(): Screen
      reads this
    {
      Screen(cart, qrCodeUrl, showQrModal, swishNumber, confirming, showSuccessMessage)
    }

    ghost predicate Valid()
      reads this
    {
      Cart.Valid(cart)
    }

    /** The initial `useState` values. */
    constructor ()
      ensures Current() == Screen([], None, false, SellPage.DefaultSwishNumber, false, false)
      ensures Valid()
    {
      cart := [];
      qrCodeUrl := None;
      showQrModal := false;
      swishNumber := SellPage.DefaultSwishNumber;
      confirming := false;
      showSuccessMessage := false;
    }

    /** `addToCart`: the cart becomes `Cart.AddToCart` of the old one; nothing else changes. */
    method AddToCart(p: Cart.Product)
      requires Valid()
      modifies this
      ensures Valid()
      ensures Current() == old(Current()).(cart := Cart.AddToCart(old(cart), p))
    {
      cart := Cart.AddToCart(cart, p);
    }

    /** `updateQuantity`: the cart becomes `Cart.UpdateQuantity` of the old one; nothing else changes. */
    method UpdateQuantity(id: ProductId, delta: int)
      requires Valid()
      modifies this
      ensures Valid()
      ensures Current() == old(Current()).(cart := Cart.UpdateQuantity(old(cart), id, delta))
    {
      cart := Cart.UpdateQuantity(cart, id, delta);
    }

    /** `removeFromCart`: the cart becomes `Cart.RemoveFromCart` of the old one; nothing else changes. */
    method RemoveFromCart(id: ProductId)
      requires Valid()
      modifies this
      ensures Valid()
      ensures Current() == old(Current()).(cart := Cart.RemoveFromCart(old(cart), id))
    {
      cart := Cart.RemoveFromCart(cart, id);
    }

    /**
     * `generateSwishQR`: a blank number or an empty cart changes nothing;
     * otherwise the payload for the cart total is encoded (`encode`, None
     * when the encoder throws) and, on success, the URL is kept and the
     * dialog opens.
     */
    method GenerateSwishQR(encode: string -> Option<string>)
      modifies this
      ensures Text.IsBlank(old(swishNumber)) || old(cart) == [] ==> Current() == old(Current())
      ensures !Text.IsBlank(old(swishNumber)) && old(cart) != [] ==>
        var url := encode(Swish.Payload(old(swishNumber), Cart.Total(old(cart))));
        Current() == if url.None? then old(Current()) else old(Current()).(qrCodeUrl := url, showQrModal := true)
    {
      if Text.IsBlank(swishNumber) {
        return;
      }
      if |cart| == 0 {
        return;
      }
      var payload := Swish.Payload(swishNumber, Cart.Total(cart));
      var qr := encode(payload);
      if qr.None? {
        return;
      }
      qrCodeUrl := qr;
      showQrModal := true;
    }

    /**
     * `confirmPayment`: the cart goes to `confirmSale` with the default
     * method. On success the cart is emptied, the dialog closed and the
     * success message shown; on failure the page stays as it was.
     * `confirming` is false again either way.
     */
    method ConfirmPayment(store: Store.Store, user: UserId) returns (outcome: Outcome)
      requires store.Valid() && Valid()
      modifies this, store
      ensures store.Valid() && Valid()
      ensures var r := Sales.Confirm(old(store.Snapshot()), user, Some(Cart.Lines(old(cart))), DefaultMethod);
        && outcome == (if r.Ok? then Success else Failure(r.error))
        && store.Snapshot() == (if r.Ok? then r.value else old(store.Snapshot()))
      ensures outcome.Success? ==>
        Current() == old(Current()).(cart := [], showQrModal := false, showSuccessMessage := true, confirming := false)
      ensures outcome.Failure? ==> Current() == old(Current()).(confirming := false)
    {
      confirming := true;
      outcome := SellPage.Checkout(store, user, cart, DefaultMethod);
      Settle(outcome);
    }

    /** The state updates after the `confirmSale` call; `confirming` is set back to false either way. */
    method Settle(outcome: Outcome)
      modifies this
      ensures outcome.Success? ==>
        Current() == old(Current()).(cart := [], showQrModal := false, showSuccessMessage := true, confirming := false)
      ensures outcome.Failure? ==> Current() == old(Current()).(confirming := false)
    {
      if outcome.Success? {
        cart := [];
        showQrModal := false;
        showSuccessMessage := true;
      }
      confirming := false;
    }
  }
}
