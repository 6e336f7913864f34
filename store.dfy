/**
 * The database behind the server actions: the Product table, the
 * `accountBalance` column of the User table and the Sale table, updated in
 * place by `confirmSale`, `addFunds`, `createProduct` and `deleteProduct`.
 * Each method is proved against the function that specifies its action and
 * keeps the tables consistent.
 */
module Store {
  import opened Wrappers
  import opened Db
  import Ledger
  import Catalog
  import Sales

  class Store {
    var products: map<ProductId, ProductRow>
    var balances: map<UserId, int>
    var sales: seq<Sale>

    /** The tables as a value. */
    function Snapshot(): State
      reads this
    {
      State(products, balances, sales)
    }

    ghost predicate Valid()
      reads this
    {
      Consistent(Snapshot())
    }

    constructor (initial: State)
      requires Consistent(initial)
      ensures Snapshot() == initial && Valid()
    {
      products := initial.products;
      balances := initial.balances;
      sales := initial.sales;
    }

    /** `getAccountBalance`: reads the balance, 0 without a row, and changes nothing. */
    method GetAccountBalance(user: UserId) returns (balance: int)
      requires Valid()
      ensures balance == Ledger.BalanceOf(balances, user) && balance >= 0
    {
      balance := 0;
      if user in balances {
        balance := balances[user];
      }
    }

    /** `addFunds`: the amount check, then the increment of the current user's row. */
    method AddFunds(user: UserId, amount: int) returns (outcome: Outcome)
      requires Valid()
      modifies this
      ensures Valid()
      ensures var r := Ledger.AddFunds(old(balances), user, amount);
        && outcome == (if r.Ok? then Success else Failure(r.error))
        && balances == (if r.Ok? then r.value else old(balances))
      ensures products == old(products) && sales == old(sales)
    {
      if amount <= 0 {
        return Failure(AmountNotPositive);
      }
      if user !in balances {
        return Failure(RecordNotFound);
      }
      balances := balances[user := balances[user] + amount];
      return Success;
    }

    /**
     * `confirmSale`, with the corrections of `Sales.ConfirmChecked`: the
     * shape check, the validation loop over the lines against the stock read
     * before the sale, the total, the balance check, and then the
     * transaction: the debit, the Sale insert and the stock update loop.
     * A failure leaves every table as it was.
     */
    method ConfirmSale(user: UserId, items: Option<seq<Line>>, pm: Sales.PaymentMethod) returns (outcome: Outcome)
      requires Valid()
      modifies this
      ensures Valid()
      ensures var r := Sales.ConfirmChecked(old(Snapshot()), user, items, pm);
        && outcome == (if r.Ok? then Success else Failure(r.error))
        && Snapshot() == (if r.Ok? then r.value else old(Snapshot()))
    {
      if items.None? || |items.value| == 0 {
        return Failure(InvalidItems);
      }
      var lines := items.value;
      var invalid := CheckQuantities(lines);
      if invalid {
        return Failure(InvalidItems);
      }
      var read := products;
      var err := ValidateLines(read, lines);
      if err.Some? {
        return Failure(err.value);
      }
      assert Sales.Known(read, lines) by {
        assert forall k :: 0 <= k < |lines| ==> Sales.LineOk(read, lines[k], Sales.RunningDemand(lines)[k]);
      }
      var total := Sales.Total(read, lines);
      if pm == Sales.Account {
        var balance := GetAccountBalance(user);
        if balance < total {
          return Failure(InsufficientBalance);
        }
        if user !in balances {
          return Failure(RecordNotFound);
        }
      }
      Commit(user, lines, pm, total);
      Sales.CheckedSuccess(old(Snapshot()), user, lines, pm);
      Sales.CheckedKeepsConsistent(old(Snapshot()), user, lines, pm);
      return Success;
    }

    /** The transaction of `confirmSale`: the debit of an account payment, the Sale insert and the stock updates. */
    method Commit(user: UserId, lines: seq<Line>, pm: Sales.PaymentMethod, total: int)
      requires Sales.Known(products, lines) && (pm == Sales.Account ==> user in balances)
      modifies this
      ensures Snapshot() == State(
        Sales.Deduct(old(products), lines),
        Sales.Debit(old(balances), user, pm, total),
        old(sales) + [Sale(total, Sales.SnapshotItems(old(products), lines))])
    {
      if pm == Sales.Account {
        balances := balances[user := balances[user] - total];
      }
      sales := sales + [Sale(total, Sales.SnapshotItems(products, lines))];
      WriteStocks(products, lines);
    }

    /** The `product.update` loop of the transaction, each line decrementing the current stock. */
    method WriteStocks(ghost read: map<ProductId, ProductRow>, lines: seq<Line>)
      requires products == read && Sales.Known(read, lines)
      modifies this
      ensures products == Sales.Deduct(read, lines)
      ensures balances == old(balances) && sales == old(sales)
    {
      for j := 0 to |lines|
        invariant products == Sales.Deduct(read, lines[..j])
        invariant balances == old(balances) && sales == old(sales)
      {
        var l := lines[j];
        assert lines[..j + 1][..j] == lines[..j];
        products := Sales.Take(products, l);
      }
      assert lines[..|lines|] == lines;
    }

    /**
     * `createProduct`: validation, then the merge into the product whose
     * name matches ignoring case, or the insert under the fresh id.
     */
    method CreateProduct(user: UserId, form: Catalog.ProductForm, newId: ProductId) returns (outcome: Outcome)
      requires Valid() && newId !in products
      modifies this
      ensures Valid()
      ensures var p := Catalog.ParseProduct(form);
        && outcome == (if p.Ok? then Success else Failure(p.error))
        && products == (if p.Ok? then Catalog.CreateProduct(old(products), user, p.value, newId) else old(products))
      ensures balances == old(balances) && sales == old(sales)
    {
      var parsed := Catalog.ParseProduct(form);
      if parsed.Err? {
        return Failure(parsed.error);
      }
      var data := parsed.value;
      Catalog.CreateProductKeepsCatalog(products, user, data, newId);
      Upsert(user, data, newId);
      return Success;
    }

    /** The `findFirst` by name ignoring case, then the `update` of the match or the `create`. */
    method Upsert(user: UserId, data: Catalog.ProductData, newId: ProductId)
      requires NamesUnique(products) && newId !in products
      modifies this
      ensures products == Catalog.CreateProduct(old(products), user, data, newId)
      ensures balances == old(balances) && sales == old(sales)
    {
      if id :| id in products && Catalog.NameMatches(products[id], data.name) {
        Catalog.ExistingUnique(products, data.name, id);
        products := products[id := Catalog.Merge(products[id], data)];
      } else {
        products := products[newId := Catalog.NewRow(user, data)];
      }
    }

    /** `deleteProduct`: the row goes only when both its id and its owner match. */
    method DeleteProduct(user: UserId, id: ProductId)
      requires Valid()
      modifies this
      ensures Valid()
      ensures products == Catalog.DeleteProduct(old(products), user, id)
      ensures balances == old(balances) && sales == old(sales)
    {
      if id in products && products[id].userId == user {
        products := products - {id};
      }
      Catalog.DeleteProductKeepsCatalog(old(products), user, id);
    }
  }

  /** The corrected shape check: true when some line's quantity is not positive. */
  method CheckQuantities(lines: seq<Line>) returns (invalid: bool)
    ensures invalid <==> !PositiveLines(lines)
  {
    for k := 0 to |lines|
      invariant forall j :: 0 <= j < k ==> lines[j].quantity > 0
    {
      if lines[k].quantity <= 0 {
        return true;
      }
    }
    return false;
  }

  /**
   * The validation loop against the stock read before the sale, corrected
   * to check each line against all the units asked for its product so far;
   * the running demand is kept as the projected stock `left`.
   */
  method ValidateLines(read: map<ProductId, ProductRow>, lines: seq<Line>) returns (err: Option<Error>)
    ensures err == Sales.ValidateFrom(read, lines, Sales.RunningDemand(lines), 0)
  {
    ghost var needs := Sales.RunningDemand(lines);
    var left := read;
    for i := 0 to |lines|
      invariant Sales.Known(read, lines[..i])
      invariant left == Sales.Deduct(read, lines[..i])
      invariant Sales.ValidateFrom(read, lines, needs, 0) == Sales.ValidateFrom(read, lines, needs, i)
    {
      var l := lines[i];
      if l.id !in read {
        return Some(ProductNotFound(l.id));
      }
      Sales.ValidateStep(read, lines, i, left);
      if left[l.id].quantity - l.quantity < 0 {
        return Some(InsufficientStock(read[l.id].name));
      }
      left := Sales.Take(left, l);
    }
    return None;
  }

}
