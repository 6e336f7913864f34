/**
 * `confirmSale`: validate the request lines against the stored products,
 * price them from the store, check and debit the buyer's balance when the
 * account pays, then, in one transaction, append the Sale with its
 * price-snapshot items and write each product's new stock.
 *
 * `Confirm` is the action as written. `ConfirmChecked` is the same action
 * with the two defects it has on requests the pages never send corrected
 * (a line quantity that is not positive, two lines for the same product);
 * `CheckedAgreesOnCartLines` shows the two coincide on every request a
 * cart produces.
 */
module Sales {
  import opened Wrappers
  import opened Db
  import Ledger
  import Text

  /** `paymentMethod: "swish" | "account"`, "swish" by default. */
  datatype PaymentMethod = Swish | Account

  /** Every line names a stored product. */
  predicate Known(products: map<ProductId, ProductRow>, lines: seq<Line>) {
    forall k :: 0 <= k < |lines| ==> lines[k].id in products
  }

  /** A line passes the check when its product exists and its stock minus `need` is not negative. */
  predicate LineOk(products: map<ProductId, ProductRow>, l: Line, need: int) {
    l.id in products && products[l.id].quantity - need >= 0
  }

  /** The error a failing line raises: "Product <id> not found", else "Insufficient stock for <name>". */
  function LineError(products: map<ProductId, ProductRow>, l: Line): Error {
    if l.id !in products then ProductNotFound(l.id) else InsufficientStock(products[l.id].name)
  }

  /**
   * The validation loop from line i on, where line k must leave
   * `needs[k]` units coverable: the error of the first line that fails,
   * or None when every line passes.
   */
  function ValidateFrom(products: map<ProductId, ProductRow>, lines: seq<Line>, needs: seq<int>, i: nat): (r: Option<Error>)
    requires |needs| == |lines| && i <= |lines|
    ensures r.None? <==> forall k :: i <= k < |lines| ==> LineOk(products, lines[k], needs[k])
    decreases |lines| - i
  {
    if i == |lines| then None
    else if !LineOk(products, lines[i], needs[i]) then Some(LineError(products, lines[i]))
    else ValidateFrom(products, lines, needs, i + 1)
  }

  /** The validation reports exactly the first failing line. */
  lemma {:induction false} ValidateFindsFirst(products: map<ProductId, ProductRow>, lines: seq<Line>, needs: seq<int>, i: nat, bad: nat)
    requires |needs| == |lines| && i <= bad < |lines|
    requires forall k :: i <= k < bad ==> LineOk(products, lines[k], needs[k])
    requires !LineOk(products, lines[bad], needs[bad])
    ensures ValidateFrom(products, lines, needs, i) == Some(LineError(products, lines[bad]))
    decreases bad - i
  {
    if i < bad {
      ValidateFindsFirst(products, lines, needs, i + 1, bad);
    }
  }

  /** The quantities of the lines, what the source checks each line against. */
  function Quantities(lines: seq<Line>): (r: seq<int>)
    ensures |r| == |lines| && forall k :: 0 <= k < |r| ==> r[k] == lines[k].quantity
  {
    seq(|lines|, k requires 0 <= k < |lines| => lines[k].quantity)
  }

  /** Every line's stock covers that line's own quantity. */
  predicate StockCovers(products: map<ProductId, ProductRow>, lines: seq<Line>) {
    forall k :: 0 <= k < |lines| ==> LineOk(products, lines[k], lines[k].quantity)
  }

  /** Every line's stock covers all the units asked for its product by that line and the ones before it. */
  predicate DemandCovered(products: map<ProductId, ProductRow>, lines: seq<Line>) {
    forall k :: 0 <= k < |lines| ==> LineOk(products, lines[k], Demand(lines[..k + 1], lines[k].id))
  }

  /** The `reduce`: Σ stored price × line quantity, summed from the first line. */
  function Total(products: map<ProductId, ProductRow>, lines: seq<Line>): int
    requires Known(products, lines)
    decreases |lines|
  {
    if lines == [] then 0
    else
      var n := |lines| - 1;
      Total(products, lines[..n]) + products[lines[n].id].price * lines[n].quantity
  }

  /** The SaleItems the sale is created with: product, line quantity and the price read before the sale. */
  function SnapshotItems(products: map<ProductId, ProductRow>, lines: seq<Line>): (r: seq<SaleItem>)
    requires Known(products, lines)
    ensures |r| == |lines|
    ensures forall k :: 0 <= k < |r| ==> r[k].productId == lines[k].id && r[k].quantity == lines[k].quantity
    ensures forall k :: 0 <= k < |r| ==> r[k].price == products[lines[k].id].price
    decreases |lines|
  {
    if lines == [] then []
    else
      var n := |lines| - 1;
      SnapshotItems(products, lines[..n]) + [SaleItem(lines[n].id, lines[n].quantity, products[lines[n].id].price)]
  }

  /** Σ price × quantity over the items of a sale. */
  function ItemsTotal(items: seq<SaleItem>): int
    decreases |items|
  {
    if items == [] then 0
    else
      var n := |items| - 1;
      ItemsTotal(items[..n]) + items[n].price * items[n].quantity
  }

  /** A sale's `totalAmount` is the sum over its own items of price × quantity. */
  lemma {:induction false} TotalMatchesItems(products: map<ProductId, ProductRow>, lines: seq<Line>)
    requires Known(products, lines)
    ensures Total(products, lines) == ItemsTotal(SnapshotItems(products, lines))
    decreases |lines|
  {
    if lines != [] {
      var n := |lines| - 1;
      var items := SnapshotItems(products, lines);
      assert items[..n] == SnapshotItems(products, lines[..n]);
      TotalMatchesItems(products, lines[..n]);
    }
  }

  /** Units of a product over the items of a sale. */
  function Units(items: seq<SaleItem>, id: ProductId): int
    decreases |items|
  {
    if items == [] then 0
    else
      var n := |items| - 1;
      Units(items[..n], id) + (if items[n].productId == id then items[n].quantity else 0)
  }

  /** Units of a product the lines ask for, all lines for it counted. */
  function Demand(lines: seq<Line>, id: ProductId): int
    decreases |lines|
  {
    if lines == [] then 0
    else
      var n := |lines| - 1;
      Demand(lines[..n], id) + (if lines[n].id == id then lines[n].quantity else 0)
  }

  /** The items of a sale record exactly the units the lines ask for. */
  lemma {:induction false} SnapshotUnits(products: map<ProductId, ProductRow>, lines: seq<Line>, id: ProductId)
    requires Known(products, lines)
    ensures Units(SnapshotItems(products, lines), id) == Demand(lines, id)
    decreases |lines|
  {
    if lines != [] {
      var n := |lines| - 1;
      var items := SnapshotItems(products, lines);
      assert items[..n] == SnapshotItems(products, lines[..n]);
      SnapshotUnits(products, lines[..n], id);
    }
  }

  lemma {:induction false} DemandAbsent(lines: seq<Line>, id: ProductId)
    requires forall k :: 0 <= k < |lines| ==> lines[k].id != id
    ensures Demand(lines, id) == 0
    decreases |lines|
  {
    if lines != [] {
      DemandAbsent(lines[..|lines| - 1], id);
    }
  }

  /**
   * The stock loop as written: each line's product is set to the stock
   * read before the sale minus that line's quantity, in line order.
   */
  function SetStocks(read: map<ProductId, ProductRow>, lines: seq<Line>): (r: map<ProductId, ProductRow>)
    requires Known(read, lines)
    ensures r.Keys == read.Keys
    decreases |lines|
  {
    if lines == [] then read
    else
      var n := |lines| - 1;
      var l := lines[n];
      SetStocks(read, lines[..n])[l.id := read[l.id].(quantity := read[l.id].quantity - l.quantity)]
  }

  /** The quantity of the last line for a product, None when no line names it. */
  function LastQuantity(lines: seq<Line>, id: ProductId): Option<int>
    decreases |lines|
  {
    if lines == [] then None
    else if lines[|lines| - 1].id == id then Some(lines[|lines| - 1].quantity)
    else LastQuantity(lines[..|lines| - 1], id)
  }

  /**
   * What the stock loop leaves: a product no line names keeps its row; a
   * named one has its stock read minus the quantity of the LAST line for
   * it, whatever the earlier lines for it asked.
   */
  lemma {:induction false} SetStocksEffect(read: map<ProductId, ProductRow>, lines: seq<Line>, id: ProductId)
    requires Known(read, lines) && id in read
    ensures SetStocks(read, lines)[id] ==
      match LastQuantity(lines, id)
      case None => read[id]
      case Some(q) => read[id].(quantity := read[id].quantity - q)
    decreases |lines|
  {
    if lines != [] {
      SetStocksEffect(read, lines[..|lines| - 1], id);
    }
  }

  lemma {:induction false} LastQuantityAbsent(lines: seq<Line>, id: ProductId)
    requires forall k :: 0 <= k < |lines| ==> lines[k].id != id
    ensures LastQuantity(lines, id) == None
    decreases |lines|
  {
    if lines != [] {
      LastQuantityAbsent(lines[..|lines| - 1], id);
    }
  }

  lemma {:induction false} LastQuantityDistinct(lines: seq<Line>, k: nat)
    requires DistinctLineIds(lines) && k < |lines|
    ensures LastQuantity(lines, lines[k].id) == Some(lines[k].quantity)
    decreases |lines|
  {
    var n := |lines| - 1;
    if k < n {
      LastQuantityDistinct(lines[..n], k);
    }
  }

  /** `{ quantity: { decrement: l.quantity } }` on the line's product. */
  function Take(stock: map<ProductId, ProductRow>, l: Line): (r: map<ProductId, ProductRow>)
    requires l.id in stock
    ensures r.Keys == stock.Keys
  {
    stock[l.id := stock[l.id].(quantity := stock[l.id].quantity - l.quantity)]
  }

  /** The `product.update` loop corrected: each line decrements the current stock. */
  function Deduct(read: map<ProductId, ProductRow>, lines: seq<Line>): (r: map<ProductId, ProductRow>)
    requires Known(read, lines)
    ensures r.Keys == read.Keys
    decreases |lines|
  {
    if lines == [] then read
    else
      var n := |lines| - 1;
      var l := lines[n];
      Take(Deduct(read, lines[..n]), l)
  }

  /** Decrementing line by line takes every line for a product off its stock. */
  lemma {:induction false} DeductEffect(read: map<ProductId, ProductRow>, lines: seq<Line>, id: ProductId)
    requires Known(read, lines) && id in read
    ensures Deduct(read, lines)[id] == read[id].(quantity := read[id].quantity - Demand(lines, id))
    decreases |lines|
  {
    if lines != [] {
      DeductEffect(read, lines[..|lines| - 1], id);
    }
  }

  /** With one line per product, decrementing and setting from the read stock write the same rows. */
  lemma {:induction false} DeductIsSetStocks(read: map<ProductId, ProductRow>, lines: seq<Line>)
    requires Known(read, lines) && DistinctLineIds(lines)
    ensures Deduct(read, lines) == SetStocks(read, lines)
    decreases |lines|
  {
    if lines != [] {
      var n := |lines| - 1;
      var l := lines[n];
      DeductIsSetStocks(read, lines[..n]);
      DemandAbsent(lines[..n], l.id);
      DeductEffect(read, lines[..n], l.id);
    }
  }

  /**
   * The units line k must leave coverable in the corrected check: all the
   * units asked for its product by lines 0..k.
   */
  function RunningDemand(lines: seq<Line>): (r: seq<int>)
    ensures |r| == |lines| && forall k :: 0 <= k < |r| ==> r[k] == Demand(lines[..k + 1], lines[k].id)
  {
    seq(|lines|, k requires 0 <= k < |lines| => Demand(lines[..k + 1], lines[k].id))
  }

  lemma {:induction false} RunningDemandDistinct(lines: seq<Line>)
    requires DistinctLineIds(lines)
    ensures RunningDemand(lines) == Quantities(lines)
  {
    var r, q := RunningDemand(lines), Quantities(lines);
    forall k | 0 <= k < |lines| ensures r[k] == q[k] {
      DemandFirst(lines, k);
    }
  }

  /** With distinct ids the demand up to a line is that line's own quantity. */
  lemma DemandFirst(lines: seq<Line>, k: nat)
    requires DistinctLineIds(lines) && k < |lines|
    ensures Demand(lines[..k + 1], lines[k].id) == lines[k].quantity
  {
    var p, before := lines[..k + 1], lines[..k];
    assert p[..k] == before && p[k] == lines[k];
    assert forall j :: 0 <= j < |before| ==> before[j].id != lines[k].id by {
      assert forall j :: 0 <= j < |before| ==> before[j] == lines[j];
    }
    DemandAbsent(before, lines[k].id);
  }

  /** The new `accountBalance` column: decremented by the total when the account pays. */
  function Debit(balances: map<UserId, int>, user: UserId, pm: PaymentMethod, total: int): map<UserId, int>
    requires pm == Account ==> user in balances
  {
    if pm == Account then balances[user := balances[user] - total] else balances
  }

  /**
   * `confirmSale` as written. A missing or empty list is "Invalid items";
   * then the first line whose product is missing or whose stock is below
   * that line's quantity fails; then, for the account, a balance below the
   * total fails, and a buyer without a User row makes the debit fail.
   * Otherwise the sale is appended, the balance debited (account only) and
   * each named product's stock set from the value read before the sale.
   */
  function Confirm(db: State, user: UserId, items: Option<seq<Line>>, pm: PaymentMethod): (r: Result<State, Error>)
    ensures items.None? || items.value == [] ==> r == Err(InvalidItems)
    ensures r.Ok? <==>
      && items.Some? && items.value != []
      && StockCovers(db.products, items.value)
      && (pm == Account ==> user in db.balances && db.balances[user] >= Total(db.products, items.value))
    ensures r.Ok? ==>
      var lines := items.value;
      var total := Total(db.products, lines);
      && r.value.sales == db.sales + [Sale(total, SnapshotItems(db.products, lines))]
      && r.value.products == SetStocks(db.products, lines)
      && r.value.balances == Debit(db.balances, user, pm, total)
  {
    if items.None? || items.value == [] then Err(InvalidItems)
    else
      var lines := items.value;
      match ValidateFrom(db.products, lines, Quantities(lines), 0)
      case Some(e) => Err(e)
      case None =>
        var total := Total(db.products, lines);
        if pm == Account && Ledger.BalanceOf(db.balances, user) < total then Err(InsufficientBalance)
        else if pm == Account && user !in db.balances then Err(RecordNotFound)
        else
          Ok(State(
            SetStocks(db.products, lines),
            Debit(db.balances, user, pm, total),
            db.sales + [Sale(total, SnapshotItems(db.products, lines))]))
  }

  /** A non-empty request fails with the error of its first line that is missing or out of stock. */
  lemma ConfirmRejectsFirstBadLine(db: State, user: UserId, lines: seq<Line>, pm: PaymentMethod, bad: nat)
    requires bad < |lines|
    requires forall k :: 0 <= k < bad ==> LineOk(db.products, lines[k], lines[k].quantity)
    requires !LineOk(db.products, lines[bad], lines[bad].quantity)
    ensures Confirm(db, user, Some(lines), pm) == Err(LineError(db.products, lines[bad]))
  {
    ValidateFindsFirst(db.products, lines, Quantities(lines), 0, bad);
  }

  /**
   * Paying from the account with a balance below the total fails with
   * "Insufficient account balance"; a buyer with no User row reads as
   * balance 0.
   */
  lemma ConfirmRejectsLowBalance(db: State, user: UserId, lines: seq<Line>)
    requires lines != [] && StockCovers(db.products, lines)
    requires Ledger.BalanceOf(db.balances, user) < Total(db.products, lines)
    ensures Confirm(db, user, Some(lines), Account) == Err(InsufficientBalance)
  {
  }

  /**
   * A successful sale: with the account, the buyer's balance drops by
   * exactly the total; with Swish no balance changes; nobody else's
   * balance ever changes.
   */
  lemma ConfirmBalanceEffect(db: State, user: UserId, lines: seq<Line>, pm: PaymentMethod)
    requires Confirm(db, user, Some(lines), pm).Ok?
    ensures var after := Confirm(db, user, Some(lines), pm).value.balances;
      && after.Keys == db.balances.Keys
      && Ledger.BalanceOf(after, user) ==
           Ledger.BalanceOf(db.balances, user) - (if pm == Account then Total(db.products, lines) else 0)
      && forall u :: u != user ==> Ledger.BalanceOf(after, u) == Ledger.BalanceOf(db.balances, u)
  {
  }

  /**
   * A successful sale with one line per product: each named product loses
   * its line's quantity, and every other product is untouched.
   */
  lemma ConfirmStockDistinct(db: State, user: UserId, lines: seq<Line>, pm: PaymentMethod)
    requires Confirm(db, user, Some(lines), pm).Ok? && DistinctLineIds(lines)
    ensures var after := Confirm(db, user, Some(lines), pm).value.products;
      && after.Keys == db.products.Keys
      && (forall k :: 0 <= k < |lines| ==>
            after[lines[k].id] == db.products[lines[k].id].(quantity := db.products[lines[k].id].quantity - lines[k].quantity))
      && (forall id :: id in db.products && (forall k :: 0 <= k < |lines| ==> lines[k].id != id) ==> after[id] == db.products[id])
  {
    var after := Confirm(db, user, Some(lines), pm).value.products;
    forall k | 0 <= k < |lines|
      ensures after[lines[k].id] == db.products[lines[k].id].(quantity := db.products[lines[k].id].quantity - lines[k].quantity)
    {
      LastQuantityDistinct(lines, k);
      SetStocksEffect(db.products, lines, lines[k].id);
    }
    forall id | id in db.products && (forall k :: 0 <= k < |lines| ==> lines[k].id != id)
      ensures after[id] == db.products[id]
    {
      LastQuantityAbsent(lines, id);
      SetStocksEffect(db.products, lines, id);
    }
  }

  /**
   * A successful sale keeps the tables consistent: each written stock is a
   * validated "read minus that line's quantity", and an account debit never
   * exceeds the balance.
   */
  lemma ConfirmKeepsConsistent(db: State, user: UserId, lines: seq<Line>, pm: PaymentMethod)
    requires Consistent(db) && Confirm(db, user, Some(lines), pm).Ok?
    ensures Consistent(Confirm(db, user, Some(lines), pm).value)
  {
    var after := Confirm(db, user, Some(lines), pm).value;
    forall id | id in after.products ensures after.products[id].price >= 0 && after.products[id].quantity >= 0 {
      SetStocksEffect(db.products, lines, id);
      LastQuantityFrom(lines, id);
    }
    forall a, b | a in after.products && b in after.products && a != b
      ensures Text.Lower(after.products[a].name) != Text.Lower(after.products[b].name)
    {
      SetStocksEffect(db.products, lines, a);
      SetStocksEffect(db.products, lines, b);
    }
  }

  /** The quantity LastQuantity reports is that of some line naming the product. */
  lemma {:induction false} LastQuantityFrom(lines: seq<Line>, id: ProductId)
    ensures LastQuantity(lines, id).Some? ==>
      exists k :: 0 <= k < |lines| && lines[k].id == id && lines[k].quantity == LastQuantity(lines, id).value
    decreases |lines|
  {
    if lines != [] && lines[|lines| - 1].id != id {
      var n := |lines| - 1;
      LastQuantityFrom(lines[..n], id);
      if LastQuantity(lines, id).Some? {
        var k :| 0 <= k < n && lines[..n][k].id == id && lines[..n][k].quantity == LastQuantity(lines, id).value;
        assert lines[k] == lines[..n][k];
      }
    }
  }

  /**
   * `confirmSale` corrected: a line whose quantity is not positive makes
   * the request invalid, each line is checked against all the units asked
   * for its product up to it, and each line decrements the current stock.
   */
  function ConfirmChecked(db: State, user: UserId, items: Option<seq<Line>>, pm: PaymentMethod): (r: Result<State, Error>)
    ensures items.None? || items.value == [] || !PositiveLines(items.value) ==> r == Err(InvalidItems)
    ensures r.Ok? <==>
      && items.Some? && items.value != [] && PositiveLines(items.value)
      && DemandCovered(db.products, items.value)
      && (pm == Account ==> user in db.balances && db.balances[user] >= Total(db.products, items.value))
    ensures r.Ok? ==>
      var lines := items.value;
      var total := Total(db.products, lines);
      && r.value.sales == db.sales + [Sale(total, SnapshotItems(db.products, lines))]
      && r.value.products == Deduct(db.products, lines)
      && r.value.balances == Debit(db.balances, user, pm, total)
  {
    if items.None? || items.value == [] || !PositiveLines(items.value) then Err(InvalidItems)
    else
      var lines := items.value;
      match ValidateFrom(db.products, lines, RunningDemand(lines), 0)
      case Some(e) => Err(e)
      case None =>
        assert Known(db.products, lines);
        var total := Total(db.products, lines);
        if pm == Account && Ledger.BalanceOf(db.balances, user) < total then Err(InsufficientBalance)
        else if pm == Account && user !in db.balances then Err(RecordNotFound)
        else
          Ok(State(
            Deduct(db.products, lines),
            Debit(db.balances, user, pm, total),
            db.sales + [Sale(total, SnapshotItems(db.products, lines))]))
  }

  /**
   * On every request a cart produces (one line per product, positive
   * quantities) the corrected action and the action as written agree.
   */
  lemma CheckedAgreesOnCartLines(db: State, user: UserId, lines: seq<Line>, pm: PaymentMethod)
    requires lines != [] && DistinctLineIds(lines) && PositiveLines(lines)
    ensures ConfirmChecked(db, user, Some(lines), pm) == Confirm(db, user, Some(lines), pm)
  {
    RunningDemandDistinct(lines);
    if ValidateFrom(db.products, lines, Quantities(lines), 0).None? {
      DeductIsSetStocks(db.products, lines);
    }
  }

  /**
   * The corrected action conserves units: for every product, the stock it
   * loses is exactly the units the new sale's items record for it, and no
   * stock goes negative.
   */
  lemma CheckedConservesUnits(db: State, user: UserId, lines: seq<Line>, pm: PaymentMethod, id: ProductId)
    requires Consistent(db) && ConfirmChecked(db, user, Some(lines), pm).Ok? && id in db.products
    ensures var after := ConfirmChecked(db, user, Some(lines), pm).value;
      && db.products[id].quantity - after.products[id].quantity == Units(after.sales[|after.sales| - 1].items, id)
      && after.products[id].quantity >= 0
  {
    var r := ConfirmChecked(db, user, Some(lines), pm);
    assert Known(db.products, lines) by {
      assert forall k :: 0 <= k < |lines| ==> LineOk(db.products, lines[k], Demand(lines[..k + 1], lines[k].id));
    }
    var total := Total(db.products, lines);
    assert r.value.products == Deduct(db.products, lines);
    assert r.value.sales[|r.value.sales| - 1] == Sale(total, SnapshotItems(db.products, lines));
    DeductEffect(db.products, lines, id);
    SnapshotUnits(db.products, lines, id);
    DeductCovered(db.products, lines, |lines|, id);
    assert lines[..|lines|] == lines;
  }

  /**
   * One line of the validation loop: the projected stock `Deduct(read, lines[..i])`
   * minus the line's quantity is the read stock minus the line's running demand,
   * and deducting the line extends the prefix by one.
   */
  lemma ValidateStep(read: map<ProductId, ProductRow>, lines: seq<Line>, i: nat, left: map<ProductId, ProductRow>)
    requires i < |lines| && Known(read, lines[..i]) && lines[i].id in read
    requires left == Deduct(read, lines[..i])
    ensures Known(read, lines[..i + 1])
    ensures lines[i].id in left
    ensures left[lines[i].id].quantity - lines[i].quantity == read[lines[i].id].quantity - RunningDemand(lines)[i]
    ensures Deduct(read, lines[..i + 1]) == Take(left, lines[i])
  {
    PrefixStep(lines, i);
    KnownStep(read, lines, i);
    DeductEffect(read, lines[..i], lines[i].id);
    var need := RunningDemand(lines)[i];
    assert need == Demand(lines[..i + 1], lines[i].id);
  }

  lemma PrefixStep(lines: seq<Line>, i: nat)
    requires i < |lines|
    ensures lines[..i + 1][..i] == lines[..i] && lines[..i + 1][i] == lines[i] && |lines[..i + 1]| == i + 1
  {
    assert lines[..i + 1] == lines[..i] + [lines[i]];
  }

  lemma KnownStep(read: map<ProductId, ProductRow>, lines: seq<Line>, i: nat)
    requires i < |lines| && Known(read, lines[..i]) && lines[i].id in read
    ensures Known(read, lines[..i + 1])
  {
    var p := lines[..i + 1];
    forall k | 0 <= k < |p| ensures p[k].id in read {
      if k < i { assert p[k] == lines[..i][k]; }
    }
  }

  /** Every prefix of validated lines leaves each stock non-negative. */
  lemma {:induction false} DeductCovered(read: map<ProductId, ProductRow>, lines: seq<Line>, j: nat, id: ProductId)
    requires j <= |lines| && NonNegative(read) && id in read && Known(read, lines)
    requires forall k :: 0 <= k < |lines| ==> LineOk(read, lines[k], Demand(lines[..k + 1], lines[k].id))
    ensures Deduct(read, lines[..j])[id].quantity >= 0
    decreases j
  {
    if j > 0 {
      var l := lines[j - 1];
      assert lines[..j][..j - 1] == lines[..j - 1];
      DeductCovered(read, lines, j - 1, id);
      if l.id == id {
        DeductEffect(read, lines[..j], id);
      }
    }
  }

  /** With prices not negative, the corrected action never raises the buyer's balance. */
  lemma CheckedNeverCredits(db: State, user: UserId, lines: seq<Line>, pm: PaymentMethod)
    requires Consistent(db) && ConfirmChecked(db, user, Some(lines), pm).Ok?
    ensures Total(db.products, lines) >= 0
    ensures Ledger.BalanceOf(ConfirmChecked(db, user, Some(lines), pm).value.balances, user) <= Ledger.BalanceOf(db.balances, user)
  {
    TotalNonNegative(db.products, lines);
  }

  lemma {:induction false} TotalNonNegative(products: map<ProductId, ProductRow>, lines: seq<Line>)
    requires Known(products, lines) && NonNegative(products) && PositiveLines(lines)
    ensures Total(products, lines) >= 0
    decreases |lines|
  {
    if lines != [] {
      TotalNonNegative(products, lines[..|lines| - 1]);
    }
  }

  /** The value of a successful `ConfirmChecked`, spelled out for the store's transaction. */
  lemma CheckedSuccess(db: State, user: UserId, lines: seq<Line>, pm: PaymentMethod)
    requires lines != [] && PositiveLines(lines)
    requires ValidateFrom(db.products, lines, RunningDemand(lines), 0).None?
    requires Known(db.products, lines)
    requires pm == Account ==> user in db.balances && db.balances[user] >= Total(db.products, lines)
    ensures ConfirmChecked(db, user, Some(lines), pm) == Ok(State(
      Deduct(db.products, lines),
      Debit(db.balances, user, pm, Total(db.products, lines)),
      db.sales + [Sale(Total(db.products, lines), SnapshotItems(db.products, lines))]))
  {
  }

  /** The corrected action keeps the tables consistent. */
  lemma CheckedKeepsConsistent(db: State, user: UserId, lines: seq<Line>, pm: PaymentMethod)
    requires Consistent(db) && ConfirmChecked(db, user, Some(lines), pm).Ok?
    ensures Consistent(ConfirmChecked(db, user, Some(lines), pm).value)
  {
    var after := ConfirmChecked(db, user, Some(lines), pm).value;
    forall id | id in after.products ensures after.products[id].price >= 0 && after.products[id].quantity >= 0 {
      CheckedConservesUnits(db, user, lines, pm, id);
      DeductEffect(db.products, lines, id);
    }
    forall a, b | a in after.products && b in after.products && a != b
      ensures Text.Lower(after.products[a].name) != Text.Lower(after.products[b].name)
    {
      DeductEffect(db.products, lines, a);
      DeductEffect(db.products, lines, b);
    }
  }

  /** A one-product store for the two counterexamples: "cola" at 15.00 kr, stock as given. */
  function Shop(stock: int): State {
    State(map["cola" := ProductRow("Cola", "owner", None, 1500, stock, None)], map["buyer" := 0], [])
  }

  /**
   * As written, a negative line quantity passes every check: paying from
   * an empty account for -5 colas succeeds, credits the buyer 75.00 kr and
   * raises the stock from 0 to 5. The corrected action refuses it.
   */
  lemma NegativeQuantityCredits()
    ensures var r := Confirm(Shop(0), "buyer", Some([Line("cola", -5)]), Account);
      r.Ok? && r.value.balances["buyer"] == 7500 && r.value.products["cola"].quantity == 5
    ensures ConfirmChecked(Shop(0), "buyer", Some([Line("cola", -5)]), Account) == Err(InvalidItems)
  {
    var lines := [Line("cola", -5)];
    assert lines[..0] == [];
    assert Total(Shop(0).products, lines) == -7500;
    assert !PositiveLines(lines);
  }

  /**
   * As written, two lines of 3 for a product with stock 5 both pass the
   * check, the sale records 6 units, but the stock ends at 2: only the
   * last line is taken off.
   */
  lemma RepeatedLineLosesUnits()
    ensures var r := Confirm(Shop(5), "buyer", Some([Line("cola", 3), Line("cola", 3)]), Swish);
      && r.Ok?
      && r.value.products["cola"].quantity == 2
      && Units(r.value.sales[0].items, "cola") == 6
  {
    var lines := [Line("cola", 3), Line("cola", 3)];
    var read := Shop(5).products;
    assert StockCovers(read, lines);
    var r := Confirm(Shop(5), "buyer", Some(lines), Swish);
    assert r.Ok?;
    assert r.value.products == SetStocks(read, lines);
    assert r.value.sales[0].items == SnapshotItems(read, lines);
    assert lines[..1] == [Line("cola", 3)] && lines[..1][..0] == [];
    assert LastQuantity(lines, "cola") == Some(3);
    SetStocksEffect(read, lines, "cola");
    SnapshotUnits(read, lines, "cola");
    assert Demand(lines, "cola") == 6;
  }

  /** The corrected action refuses the two lines of 3 against a stock of 5: the second line is short. */
  lemma RepeatedLineRefused()
    ensures ConfirmChecked(Shop(5), "buyer", Some([Line("cola", 3), Line("cola", 3)]), Swish) == Err(InsufficientStock("Cola"))
  {
    var lines := [Line("cola", 3), Line("cola", 3)];
    var read := Shop(5).products;
    assert lines[..1] == [Line("cola", 3)] && lines[..1][..0] == [] && lines[..2] == lines;
    assert Demand(lines[..1], "cola") == 3;
    assert Demand(lines, "cola") == 6;
    var needs := RunningDemand(lines);
    assert needs[0] == 3 && needs[1] == 6;
    assert LineOk(read, lines[0], needs[0]);
    assert !LineOk(read, lines[1], needs[1]);
    ValidateFindsFirst(read, lines, needs, 0, 1);
    assert PositiveLines(lines);
  }
}
