/**
 * The handlers of the account-payment page: the balance guard in front of
 * the payment dialog, the Swish top-up dialog (its QR image comes from the
 * `useSwishQR` hook), and the confirm button that either tops the account
 * up or pays the cart from it. The cart operations are `Cart`'s.
 */
module AccountPaymentPage {
  import opened Wrappers
  import opened Db
  import Text
  import Cart
  import Sales
  import Ledger
  import Swish
  import Store
  import SellPage

  /** What the dialog is open for. */
  datatype ModalMode = Payment | AddFunds

  /** The component state, the hook's image URL included. */
  datatype Screen = Screen(
    cart: seq<Cart.CartItem>,
    showModal: bool,
    modalMode: ModalMode,
    confirming: bool,
    showSuccess: bool,
    accountBalance: int,
    addFundsAmount: Option<int>,
    qrCodeUrl: Option<string>)

  /**
   * The server call of the top-up: the amount field after `parseFloat`, in
   * öre. A field that is not a number is refused without a write.
   */
  function TopUp(balances: map<UserId, int>, user: UserId, amount: Option<int>): (r: Result<map<UserId, int>, Error>)
    ensures amount.None? ==> r == Err(ValidationFailed)
    ensures r.Ok? <==> amount.Some? && amount.value > 0 && user in balances
    ensures r.Ok? ==> Ledger.BalanceOf(r.value, user) == Ledger.BalanceOf(balances, user) + amount.value
  {
    match amount
    case None => Err(ValidationFailed)
    case Some(a) => Ledger.AddFunds(balances, user, a)
  }

  class AccountPaymentPage {
    var cart: seq<Cart.CartItem>
    var showModal: bool
    var modalMode: ModalMode
    var confirming: bool
    var showSuccess: bool
    var accountBalance: int
    /** The add-funds field after `parseFloat`, in öre; None when it is not a number. */
    var addFundsAmount: Option<int>
    const swishQR: Swish.SwishQr

    function Current(): Screen
      reads this, swishQR
    {
      Screen(cart, showModal, modalMode, confirming, showSuccess, accountBalance, addFundsAmount, swishQR.qrCodeUrl)
    }

    ghost predicate Valid()
      reads this
    {
      Cart.Valid(cart)
    }

    /** The initial `useState` values and a fresh hook. */
    constructor ()
      ensures Current() == Screen([], false, Payment, false, false, 0, None, None)
      ensures Valid() && fresh(swishQR)
    {
      cart := [];
      showModal := false;
      modalMode := Payment;
      confirming := false;
      showSuccess := false;
      accountBalance := 0;
      addFundsAmount := None;
      swishQR := new Swish.SwishQr();
    }

    /** `addToCart`: the cart becomes `Cart.AddToCart` of the old one; nothing else changes. */
    method AddToCart(p: Cart.Product)
      requires Valid()
      modifies this
      ensures Valid()
      ensures Current() == old(Current()).(cart := Cart.AddToCart(old(cart), p))
    {
      cart := Cart.AddToCart(cart, p);
    }

    /** `updateQuantity`: the cart becomes `Cart.UpdateQuantity` of the old one; nothing else changes. */
    method UpdateQuantity(id: ProductId, delta: int)
      requires Valid()
      modifies this
      ensures Valid()
      ensures Current() == old(Current()).(cart := Cart.UpdateQuantity(old(cart), id, delta))
    {
      cart := Cart.UpdateQuantity(cart, id, delta);
    }

    /** `removeFromCart`: the cart becomes `Cart.RemoveFromCart` of the old one; nothing else changes. */
    method RemoveFromCart(id: ProductId)
      requires Valid()
      modifies this
      ensures Valid()
      ensures Current() == old(Current()).(cart := Cart.RemoveFromCart(old(cart), id))
    {
      cart := Cart.RemoveFromCart(cart, id);
    }

    /** `initiatePayment`: an empty cart or a balance below the total changes nothing; otherwise the payment dialog opens. */
    method InitiatePayment()
      modifies this
      ensures if old(cart) == [] || old(accountBalance) < Cart.Total(old(cart)) then Current() == old(Current())
        else Current() == old(Current()).(modalMode := Payment, showModal := true)
    {
      if |cart| == 0 {
        return;
      }
      if accountBalance < Cart.Total(cart) {
        return;
      }
      modalMode := Payment;
      showModal := true;
    }

    /**
     * `initiateAddFunds`: an amount that is not a positive number changes
     * nothing; otherwise a QR image for the shop's own number and the amount
     * is generated, and only when that succeeds does the top-up dialog open.
     */
    method InitiateAddFunds(encode: string -> Option<string>)
      modifies this, swishQR
      ensures old(addFundsAmount).None? || old(addFundsAmount).value <= 0 ==> Current() == old(Current())
      ensures old(addFundsAmount).Some? && old(addFundsAmount).value > 0 ==>
        var url := encode(Swish.Payload(SellPage.DefaultSwishNumber, old(addFundsAmount).value));
        Current() == if url.None? then old(Current())
          else old(Current()).(qrCodeUrl := url, modalMode := AddFunds, showModal := true)
    {
      if addFundsAmount.None? || addFundsAmount.value <= 0 {
        return;
      }
      SellPage.DefaultNumberNotBlank();
      var success := swishQR.GenerateQR(SellPage.DefaultSwishNumber, addFundsAmount.value, encode);
      if success {
        modalMode := AddFunds;
        showModal := true;
      }
    }

    /**
     * `handleConfirm`. For a top-up the balance is incremented by the amount
     * and, on success, re-read, the dialog closed, the image dropped and the
     * field emptied; the cart is not touched. For a payment the cart goes to
     * `confirmSale` on the account and, on success, the cart is emptied, the
     * dialog closed, the success message shown and the balance re-read.
     * A failure changes no table and leaves the page as it was; `confirming`
     * is false again either way.
     */
    method HandleConfirm(store: Store.Store, user: UserId) returns (outcome: Outcome)
      requires store.Valid() && Valid()
      modifies this, swishQR, store
      ensures store.Valid() && Valid()
      ensures old(modalMode) == AddFunds ==>
        var r := TopUp(old(store.balances), user, old(addFundsAmount));
        && outcome == (if r.Ok? then Success else Failure(r.error))
        && store.Snapshot() == (if r.Ok? then old(store.Snapshot()).(balances := r.value) else old(store.Snapshot()))
      ensures old(modalMode) == Payment ==>
        var r := Sales.Confirm(old(store.Snapshot()), user, Some(Cart.Lines(old(cart))), Sales.Account);
        && outcome == (if r.Ok? then Success else Failure(r.error))
        && store.Snapshot() == (if r.Ok? then r.value else old(store.Snapshot()))
      ensures outcome.Success? && old(modalMode) == AddFunds ==>
        Current() == old(Current()).(accountBalance := Ledger.BalanceOf(store.balances, user), showModal := false,
          qrCodeUrl := None, addFundsAmount := None, confirming := false)
      ensures outcome.Success? && old(modalMode) == Payment ==>
        Current() == old(Current()).(cart := [], showModal := false, showSuccess := true,
          accountBalance := Ledger.BalanceOf(store.balances, user), confirming := false)
      ensures outcome.Failure? ==> Current() == old(Current()).(confirming := false)
    {
      confirming := true;
      if modalMode == AddFunds {
        outcome := ConfirmTopUp(store, user);
      } else {
        outcome := ConfirmPurchase(store, user);
      }
      confirming := false;
    }

    /** The top-up branch of `handleConfirm`, `confirming` aside. */
    method ConfirmTopUp(store: Store.Store, user: UserId) returns (outcome: Outcome)
      requires store.Valid()
      modifies this, swishQR, store
      ensures store.Valid()
      ensures var r := TopUp(old(store.balances), user, old(addFundsAmount));
        && outcome == (if r.Ok? then Success else Failure(r.error))
        && store.Snapshot() == (if r.Ok? then old(store.Snapshot()).(balances := r.value) else old(store.Snapshot()))
      ensures outcome.Success? ==>
        Current() == old(Current()).(accountBalance := Ledger.BalanceOf(store.balances, user), showModal := false,
          qrCodeUrl := None, addFundsAmount := None)
      ensures outcome.Failure? ==> Current() == old(Current())
    {
      outcome := TopUpStore(store, user, addFundsAmount);
      SettleTopUp(store, user, outcome);
    }

    /** The payment branch of `handleConfirm`, `confirming` aside. */
    method ConfirmPurchase(store: Store.Store, user: UserId) returns (outcome: Outcome)
      requires store.Valid() && Valid()
      modifies this, store
      ensures store.Valid() && Valid()
      ensures var r := Sales.Confirm(old(store.Snapshot()), user, Some(Cart.Lines(old(cart))), Sales.Account);
        && outcome == (if r.Ok? then Success else Failure(r.error))
        && store.Snapshot() == (if r.Ok? then r.value else old(store.Snapshot()))
      ensures outcome.Success? ==>
        Current() == old(Current()).(cart := [], showModal := false, showSuccess := true,
          accountBalance := Ledger.BalanceOf(store.balances, user))
      ensures outcome.Failure? ==> Current() == old(Current())
    {
      outcome := SellPage.Checkout(store, user, cart, Sales.Account);
      SettlePayment(store, user, outcome);
    }

    /** The state updates after a top-up; `confirming` is left to the caller. */
    method SettleTopUp(store: Store.Store, user: UserId, outcome: Outcome)
      requires store.Valid()
      modifies this, swishQR
      ensures outcome.Success? ==>
        Current() == old(Current()).(accountBalance := Ledger.BalanceOf(store.balances, user), showModal := false,
          qrCodeUrl := None, addFundsAmount := None)
      ensures outcome.Failure? ==> Current() == old(Current())
    {
      if outcome.Success? {
        accountBalance := store.GetAccountBalance(user);
        showModal := false;
        swishQR.ClearQR();
        addFundsAmount := None;
      }
    }

    /** The state updates after a payment; `confirming` is left to the caller. */
    method SettlePayment(store: Store.Store, user: UserId, outcome: Outcome)
      requires store.Valid()
      modifies this
      ensures outcome.Success? ==>
        Current() == old(Current()).(cart := [], showModal := false, showSuccess := true,
          accountBalance := Ledger.BalanceOf(store.balances, user))
      ensures outcome.Failure? ==> Current() == old(Current())
    {
      if outcome.Success? {
        cart := [];
        showModal := false;
        showSuccess := true;
        accountBalance := store.GetAccountBalance(user);
      }
    }

    /** `closeModal`: the dialog closes and the image is dropped; nothing else changes. */
    method CloseModal()
      modifies this, swishQR
      ensures Current() == old(Current()).(showModal := false, qrCodeUrl := None)
    {
      showModal := false;
      swishQR.ClearQR();
    }
  }

  /** `addFunds` with the parsed field; a field that is not a number is refused before the server writes. */
  method TopUpStore(store: Store.Store, user: UserId, amount: Option<int>) returns (outcome: Outcome)
    requires store.Valid()
    modifies store
    ensures store.Valid()
    ensures var r := TopUp(old(store.balances), user, amount);
      && outcome == (if r.Ok? then Success else Failure(r.error))
      && store.Snapshot() == (if r.Ok? then old(store.Snapshot()).(balances := r.value) else old(store.Snapshot()))
  {
    if amount.None? {
      return Failure(ValidationFailed);
    }
    outcome := store.AddFunds(user, amount.value);
  }
}
