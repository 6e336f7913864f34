/**
 * The account ledger: `getAccountBalance` reads the current user's
 * balance, `addFunds` tops it up. A balance lives on the User row; a user
 * the identity provider knows but who has no row yet reads as 0 and cannot
 * be topped up, because the update of a missing row fails.
 */
module Ledger {
  import opened Wrappers
  import opened Db

  /** `getAccountBalance`: the stored balance, 0 when the user has no row. */
  function BalanceOf(balances: map<UserId, int>, user: UserId): (r: int)
    ensures user in balances ==> r == balances[user]
    ensures user !in balances ==> r == 0
  {
    if user in balances then balances[user] else 0
  }

  /**
   * `addFunds(amount)` for the current user: a non-positive amount is
   * refused before anything is written; otherwise the user's row is
   * incremented by the amount, and a missing row makes the update fail.
   */
  function AddFunds(balances: map<UserId, int>, user: UserId, amount: int): (r: Result<map<UserId, int>, Error>)
    ensures amount <= 0 ==> r == Err(AmountNotPositive)
    ensures amount > 0 && user !in balances ==> r == Err(RecordNotFound)
    ensures r.Ok? <==> amount > 0 && user in balances
    ensures r.Ok? ==> r.value.Keys == balances.Keys
    ensures r.Ok? ==> BalanceOf(r.value, user) == BalanceOf(balances, user) + amount
    ensures r.Ok? ==> forall u :: u in balances && u != user ==> r.value[u] == balances[u]
  {
    if amount <= 0 then Err(AmountNotPositive)
    else if user !in balances then Err(RecordNotFound)
    else Ok(balances[user := balances[user] + amount])
  }

  /** Two successful top-ups of a and then b leave the same balances as one top-up of a + b. */
  lemma AddFundsTwice(balances: map<UserId, int>, user: UserId, a: int, b: int)
    requires AddFunds(balances, user, a).Ok?
    requires AddFunds(AddFunds(balances, user, a).value, user, b).Ok?
    ensures AddFunds(balances, user, a + b).Ok?
    ensures AddFunds(AddFunds(balances, user, a).value, user, b).value == AddFunds(balances, user, a + b).value
  {
    var once := AddFunds(balances, user, a).value;
    var twice := AddFunds(once, user, b).value;
    var both := AddFunds(balances, user, a + b).value;
    assert twice.Keys == both.Keys;
    forall u | u in twice ensures twice[u] == both[u] {
      if u == user {
        assert BalanceOf(twice, user) == BalanceOf(balances, user) + a + b;
      }
    }
  }
}
