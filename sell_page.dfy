/**
 * The handlers of the sell page: Swish QR generation, the account-payment
 * guard, the add-funds dialog and the checkout that empties the cart only
 * when the sale went through. The cart operations themselves are `Cart`'s.
 */
module SellPage {
  import opened Wrappers
  import opened Db
  import Text
  import Cart
  import Sales
  import Ledger
  import Swish
  import Store

  /** The number the page starts with in its Swish field. */
  const DefaultSwishNumber: string := "0730874001"

  lemma DefaultNumberNotBlank()
    ensures !Text.IsBlank(DefaultSwishNumber)
  {
    assert !Text.IsSpace(DefaultSwishNumber[0]);
  }

  /** The component state, all of it. */
  datatype Screen = Screen(
    cart: seq<Cart.CartItem>,
    accountBalance: int,
    paymentMethod: Sales.PaymentMethod,
    qrCodeUrl: Option<string>,
    showQrModal: bool,
    showAddFundsModal: bool,
    swishNumber: string,
    fundsAmount: Option<int>,
    confirming: bool,
    showSuccessMessage: bool)

  class SellPage {
    var cart: seq<Cart.CartItem>
    var accountBalance: int
    var paymentMethod: Sales.PaymentMethod
    var qrCodeUrl: Option<string>
    var showQrModal: bool
    var showAddFundsModal: bool
    var swishNumber: string
    /** The add-funds field after `parseFloat`, in öre; None when it is not a number. */
    var fundsAmount: Option<int>
    var confirming: bool
    var showSuccessMessage: bool

    function Current(): Screen
      reads this
    {
      Screen(cart, accountBalance, paymentMethod, qrCodeUrl, showQrModal, showAddFundsModal,
        swishNumber, fundsAmount, confirming, showSuccessMessage)
    }

    ghost predicate Valid()
      reads this
    {
      Cart.Valid(cart)
    }

    /** The initial `useState` values. */
    constructor ()
      ensures Current() == Screen([], 0, Sales.Swish, None, false, false, DefaultSwishNumber, None, false, false)
      ensures Valid()
    {
      cart := [];
      accountBalance := 0;
      paymentMethod := Sales.Swish;
      qrCodeUrl := None;
      showQrModal := false;
      showAddFundsModal := false;
      swishNumber := DefaultSwishNumber;
      fundsAmount := None;
      confirming := false;
      showSuccessMessage := false;
    }

    /** `addToCart`: the cart becomes `Cart.AddToCart` of the old one; nothing else changes. */
    method AddToCart(p: Cart.Product)
      requires Valid()
      modifies this
      ensures Valid()
      ensures Current() == old(Current()).(cart := Cart.AddToCart(old(cart), p))
    {
      cart := Cart.AddToCart(cart, p);
    }

    /** `updateQuantity`: the cart becomes `Cart.UpdateQuantity` of the old one; nothing else changes. */
    method UpdateQuantity(id: ProductId, delta: int)
      requires Valid()
      modifies this
      ensures Valid()
      ensures Current() == old(Current()).(cart := Cart.UpdateQuantity(old(cart), id, delta))
    {
      cart := Cart.UpdateQuantity(cart, id, delta);
    }

    /** `removeFromCart`: the cart becomes `Cart.RemoveFromCart` of the old one; nothing else changes. */
    method RemoveFromCart(id: ProductId)
      requires Valid()
      modifies this
      ensures Valid()
      ensures Current() == old(Current()).(cart := Cart.RemoveFromCart(old(cart), id))
    {
      cart := Cart.RemoveFromCart(cart, id);
    }

    /**
     * `generateSwishQR`: a blank number or an empty cart changes nothing;
     * otherwise the payload for the cart total is encoded (`encode`, None
     * when the encoder throws) and, on success, the URL is kept, the method
     * becomes Swish and the payment dialog opens.
     */
    method GenerateSwishQR(encode: string -> Option<string>)
      modifies this
      ensures Text.IsBlank(old(swishNumber)) || old(cart) == [] ==> Current() == old(Current())
      ensures !Text.IsBlank(old(swishNumber)) && old(cart) != [] ==>
        var url := encode(Swish.Payload(old(swishNumber), Cart.Total(old(cart))));
        Current() == if url.None? then old(Current())
          else old(Current()).(qrCodeUrl := url, paymentMethod := Sales.Swish, showQrModal := true)
    {
      if Text.IsBlank(swishNumber) {
        return;
      }
      if |cart| == 0 {
        return;
      }
      var payload := Swish.Payload(swishNumber, Cart.Total(cart));
      var qr := encode(payload);
      if qr.None? {
        return;
      }
      qrCodeUrl := qr;
      paymentMethod := Sales.Swish;
      showQrModal := true;
    }

    /** `payWithAccount`: refuses an empty cart or a balance below the total; otherwise opens the dialog for the account. */
    method PayWithAccount()
      modifies this
      ensures if old(cart) == [] || old(accountBalance) < Cart.Total(old(cart)) then Current() == old(Current())
        else Current() == old(Current()).(paymentMethod := Sales.Account, showQrModal := true)
    {
      if |cart| == 0 {
        return;
      }
      if accountBalance < Cart.Total(cart) {
        return;
      }
      paymentMethod := Sales.Account;
      showQrModal := true;
    }

    /**
     * `handleAddFunds`: an amount that is not a positive number changes
     * nothing; otherwise `addFunds` runs and, when it succeeds, the balance
     * is re-read, the dialog closes and the field is emptied.
     */
    method HandleAddFunds(store: Store.Store, user: UserId)
      requires store.Valid()
      modifies this, store
      ensures store.Valid()
      ensures store.products == old(store.products) && store.sales == old(store.sales)
      ensures old(fundsAmount).None? || old(fundsAmount).value <= 0 ==>
        store.balances == old(store.balances) && Current() == old(Current())
      ensures old(fundsAmount).Some? && old(fundsAmount).value > 0 ==>
        var r := Ledger.AddFunds(old(store.balances), user, old(fundsAmount).value);
        if r.Ok? then
          && store.balances == r.value
          && Current() == old(Current()).(accountBalance := Ledger.BalanceOf(r.value, user), showAddFundsModal := false, fundsAmount := None)
        else store.balances == old(store.balances) && Current() == old(Current())
    {
      if fundsAmount.None? || fundsAmount.value <= 0 {
        return;
      }
      var outcome := store.AddFunds(user, fundsAmount.value);
      if outcome.Success? {
        accountBalance := store.GetAccountBalance(user);
        showAddFundsModal := false;
        fundsAmount := None;
      }
    }

    /**
     * `confirmPayment`: the cart goes to `confirmSale` with the chosen
     * method. On success the cart is emptied, the dialog closed, the success
     * message shown and the balance re-read; on failure the cart and the
     * dialog stay. `confirming` is false again either way. The store
     * changes exactly as `confirmSale` as written says.
     */
    method ConfirmPayment(store: Store.Store, user: UserId) returns (outcome: Outcome)
      requires store.Valid() && Valid()
      modifies this, store
      ensures store.Valid() && Valid()
      ensures var r := Sales.Confirm(old(store.Snapshot()), user, Some(Cart.Lines(old(cart))), old(paymentMethod));
        && outcome == (if r.Ok? then Success else Failure(r.error))
        && store.Snapshot() == (if r.Ok? then r.value else old(store.Snapshot()))
      ensures outcome.Success? ==>
        Current() == old(Current()).(cart := [], showQrModal := false, showSuccessMessage := true,
          accountBalance := Ledger.BalanceOf(store.balances, user), confirming := false)
      ensures outcome.Failure? ==> Current() == old(Current()).(confirming := false)
    {
      confirming := true;
      outcome := Checkout(store, user, cart, paymentMethod);
      Settle(store, user, outcome);
    }

    /** The state updates after the `confirmSale` call; `confirming` is set back to false either way. */
    method Settle(store: Store.Store, user: UserId, outcome: Outcome)
      requires store.Valid()
      modifies this
      ensures outcome.Success? ==>
        Current() == old(Current()).(cart := [], showQrModal := false, showSuccessMessage := true,
          accountBalance := Ledger.BalanceOf(store.balances, user), confirming := false)
      ensures outcome.Failure? ==> Current() == old(Current()).(confirming := false)
    {
      if outcome.Success? {
        cart := [];
        showQrModal := false;
        showSuccessMessage := true;
        accountBalance := store.GetAccountBalance(user);
      }
      confirming := false;
    }
  }

  /**
   * The server side of a checkout: the cart's lines go to `confirmSale`.
   * On lines that come from a cart the store's corrected action agrees
   * with `confirmSale` as written, so the outcome is stated by the latter.
   */
  method Checkout(store: Store.Store, user: UserId, cart: seq<Cart.CartItem>, pm: Sales.PaymentMethod) returns (outcome: Outcome)
    requires store.Valid() && Cart.Valid(cart)
    modifies store
    ensures store.Valid()
    ensures var r := Sales.Confirm(old(store.Snapshot()), user, Some(Cart.Lines(cart)), pm);
      && outcome == (if r.Ok? then Success else Failure(r.error))
      && store.Snapshot() == (if r.Ok? then r.value else old(store.Snapshot()))
  {
    Cart.CheckoutAgrees(store.Snapshot(), user, cart, pm);
    outcome := store.ConfirmSale(user, Some(Cart.Lines(cart)), pm);
  }
}
