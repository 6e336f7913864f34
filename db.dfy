/**
 * The persisted entities (the Product, User and Sale/SaleItem tables), the
 * line shape `confirmSale` receives, and the failures the server actions
 * raise. Amounts are integer öre.
 */
module Db {
  import opened Wrappers
  import Text

  type ProductId = string
  type UserId = string

  /** One Product row; its id is the key it is stored under. */
  datatype ProductRow = ProductRow(
    name: string,
    userId: UserId,
    sku: Option<string>,
    price: int,
    quantity: int,
    lowStockAt: Option<int>)

  /** One SaleItem row: the product, the quantity and the unit price captured at sale time. */
  datatype SaleItem = SaleItem(productId: ProductId, quantity: int, price: int)

  datatype Sale = Sale(totalAmount: int, items: seq<SaleItem>)

  /**
   * The tables: products by id, account balances by user id (a key is a
   * User row), and the sales in the order they were created.
   */
  datatype State = State(products: map<ProductId, ProductRow>, balances: map<UserId, int>, sales: seq<Sale>)

  /** One `{ id, quantity }` line of a `confirmSale` request. */
  datatype Line = Line(id: ProductId, quantity: int)

  /** The errors the server actions throw (by their messages), plus Prisma's missing-record error. */
  datatype Error =
    | InvalidItems                      // "Invalid items"
    | ProductNotFound(id: ProductId)    // "Product <id> not found"
    | InsufficientStock(name: string)   // "Insufficient stock for <name>"
    | InsufficientBalance               // "Insufficient account balance"
    | AmountNotPositive                 // "Amount must be positive"
    | ValidationFailed                  // "Validation failed"
    | RecordNotFound                    // `update` of a User row that does not exist

  datatype Outcome = Success | Failure(error: Error)

  predicate DistinctLineIds(lines: seq<Line>) {
    forall i, j :: 0 <= i < j < |lines| ==> lines[i].id != lines[j].id
  }

  predicate PositiveLines(lines: seq<Line>) {
    forall i :: 0 <= i < |lines| ==> lines[i].quantity > 0
  }

  /** The product names, compared ignoring case, are pairwise different. */
  predicate NamesUnique(products: map<ProductId, ProductRow>) {
    forall a, b :: a in products && b in products && a != b ==>
      Text.Lower(products[a].name) != Text.Lower(products[b].name)
  }

  /** Prices and stock of every product are not negative. */
  predicate NonNegative(products: map<ProductId, ProductRow>) {
    forall id :: id in products ==> products[id].price >= 0 && products[id].quantity >= 0
  }

  /**
   * What the actions keep true of the tables: unique names ignoring case,
   * prices and stock never negative, balances never negative.
   */
  predicate Consistent(s: State) {
    && NamesUnique(s.products)
    && NonNegative(s.products)
    && (forall u :: u in s.balances ==> s.balances[u] >= 0)
  }
}
