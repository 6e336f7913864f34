/**
 * The catalogue actions: `createProduct` validates the form with the zod
 * `ProductSchema` and then either merges the input into the product whose
 * name matches ignoring case (under any owner) or inserts a new row owned by
 * the current user; `deleteProduct` removes a row only when both its id and
 * its owner match.
 */
module Catalog {
  import opened Wrappers
  import opened Db
  import Text

  /** A form value after `z.coerce.number()`: not a number, or a number. */
  datatype Num = NaN | Num(value: real)

  /**
   * The form as `createProduct` hands it to the schema. `name` is None when
   * the field is missing; `price` is the coerced price in öre (None when it
   * is not a number); `sku` and `lowStockAt` are None when the field is
   * missing or empty (the `|| undefined` of the call site).
   */
  datatype ProductForm = ProductForm(
    name: Option<string>,
    price: Option<int>,
    quantity: Num,
    sku: Option<string>,
    lowStockAt: Option<Num>)

  /** `parsed.data`. */
  datatype ProductData = ProductData(
    name: string,
    price: int,
    quantity: int,
    sku: Option<string>,
    lowStockAt: Option<int>)

  /** `.int().min(0)`: a whole number that is not negative. */
  predicate IsCount(n: Num) {
    n.Num? && n.value >= 0.0 && n.value.Floor as real == n.value
  }

  /**
   * `ProductSchema.safeParse`: succeeds exactly when the name is a string
   * of at least one character, the price is a number that is not negative,
   * the quantity is a whole number that is not negative, and a given
   * `lowStockAt` is a whole number that is not negative; any other input
   * is "Validation failed".
   */
  function ParseProduct(form: ProductForm): (r: Result<ProductData, Error>)
    ensures r.Ok? <==>
      && form.name.Some? && |form.name.value| >= 1
      && form.price.Some? && form.price.value >= 0
      && IsCount(form.quantity)
      && (form.lowStockAt.Some? ==> IsCount(form.lowStockAt.value))
    ensures r.Err? ==> r.error == ValidationFailed
    ensures r.Ok? ==>
      && r.value.name == form.name.value
      && r.value.price == form.price.value
      && r.value.quantity as real == form.quantity.value
      && r.value.sku == (if form.sku == Some("") then None else form.sku)
      && r.value.lowStockAt.Some? == form.lowStockAt.Some?
      && (r.value.lowStockAt.Some? ==> r.value.lowStockAt.value as real == form.lowStockAt.value.value)
    ensures r.Ok? ==> r.value.price >= 0 && r.value.quantity >= 0 && |r.value.name| >= 1
  {
    if form.name.None? || |form.name.value| < 1 then Err(ValidationFailed)
    else if form.price.None? || form.price.value < 0 then Err(ValidationFailed)
    else if !IsCount(form.quantity) then Err(ValidationFailed)
    else if form.lowStockAt.Some? && !IsCount(form.lowStockAt.value) then Err(ValidationFailed)
    else
      var low := if form.lowStockAt.Some? then Some(form.lowStockAt.value.value.Floor) else None;
      Ok(ProductData(
        form.name.value,
        form.price.value,
        form.quantity.value.Floor,
        if form.sku == Some("") then None else form.sku,
        low))
  }

  /** The `findFirst` filter: names equal ignoring case. */
  predicate NameMatches(row: ProductRow, name: string) {
    Text.Lower(row.name) == Text.Lower(name)
  }

  /** `findFirst` by name ignoring case: some matching product, or None when no product matches. */
  ghost function Existing(products: map<ProductId, ProductRow>, name: string): (r: Option<ProductId>)
    ensures r.None? <==> forall id :: id in products ==> !NameMatches(products[id], name)
    ensures r.Some? ==> r.value in products && NameMatches(products[r.value], name)
  {
    if exists id :: id in products && NameMatches(products[id], name) then
      var id :| id in products && NameMatches(products[id], name);
      Some(id)
    else None
  }

  /** With names unique ignoring case at most one product matches, so the lookup is determined. */
  lemma {:induction false} ExistingUnique(products: map<ProductId, ProductRow>, name: string, id: ProductId)
    requires NamesUnique(products)
    requires id in products && NameMatches(products[id], name)
    ensures Existing(products, name) == Some(id)
  {
    var found := Existing(products, name);
    assert found.Some?;
  }

  /**
   * The update of a merge: the quantity is added, the price replaced, and
   * `sku` and `lowStockAt` overwritten only when the new value is truthy (a
   * non-empty string, a number other than 0).
   */
  function Merge(row: ProductRow, data: ProductData): (r: ProductRow)
    ensures r.name == row.name && r.userId == row.userId
    ensures r.quantity == row.quantity + data.quantity && r.price == data.price
    ensures r.sku == (if data.sku.Some? && data.sku.value != "" then data.sku else row.sku)
    ensures r.lowStockAt == (if data.lowStockAt.Some? && data.lowStockAt.value != 0 then data.lowStockAt else row.lowStockAt)
  {
    var sku := if data.sku.Some? && data.sku.value != "" then data.sku else row.sku;
    var low := if data.lowStockAt.Some? && data.lowStockAt.value != 0 then data.lowStockAt else row.lowStockAt;
    row.(quantity := row.quantity + data.quantity, price := data.price, sku := sku, lowStockAt := low)
  }

  /** The row `product.create` inserts: the parsed fields, owned by the current user. */
  function NewRow(user: UserId, data: ProductData): ProductRow {
    ProductRow(data.name, user, data.sku, data.price, data.quantity, data.lowStockAt)
  }

  /**
   * `createProduct` after validation: merge into the product whose name
   * matches ignoring case, or insert a new row under a fresh id.
   */
  ghost function CreateProduct(products: map<ProductId, ProductRow>, user: UserId, data: ProductData, newId: ProductId): (r: map<ProductId, ProductRow>)
    requires newId !in products
    ensures Existing(products, data.name).Some? ==>
      var id := Existing(products, data.name).value;
      r == products[id := Merge(products[id], data)]
    ensures Existing(products, data.name).None? ==> r == products[newId := NewRow(user, data)]
    ensures products.Keys <= r.Keys && |r.Keys| <= |products.Keys| + 1
  {
    match Existing(products, data.name)
    case Some(id) =>
      assert products[id := Merge(products[id], data)].Keys == products.Keys;
      products[id := Merge(products[id], data)]
    case None =>
      assert products[newId := NewRow(user, data)].Keys == products.Keys + {newId};
      products[newId := NewRow(user, data)]
  }

  /**
   * A validated `createProduct` keeps names unique ignoring case and
   * prices and stock non-negative: a merge keeps the matched row's name,
   * an insert happens only when no name matches.
   */
  lemma {:induction false} CreateProductKeepsCatalog(products: map<ProductId, ProductRow>, user: UserId, data: ProductData, newId: ProductId)
    requires newId !in products
    requires NamesUnique(products) && NonNegative(products)
    requires data.price >= 0 && data.quantity >= 0
    ensures NamesUnique(CreateProduct(products, user, data, newId))
    ensures NonNegative(CreateProduct(products, user, data, newId))
  {
    var r := CreateProduct(products, user, data, newId);
    match Existing(products, data.name)
    case Some(id) =>
      forall a, b | a in r && b in r && a != b ensures Text.Lower(r[a].name) != Text.Lower(r[b].name) {
        assert r[a].name == products[a].name && r[b].name == products[b].name;
      }
    case None =>
      forall a, b | a in r && b in r && a != b ensures Text.Lower(r[a].name) != Text.Lower(r[b].name) {
        if a == newId {
          assert !NameMatches(products[b], data.name);
        } else if b == newId {
          assert !NameMatches(products[a], data.name);
        }
      }
  }

  /**
   * Submitting the same name twice, in any letter case, never adds a
   * second row: the second call merges into the row the first one left.
   */
  lemma {:induction false} CreateProductTwice(products: map<ProductId, ProductRow>, user: UserId, first: ProductData, second: ProductData, id1: ProductId, id2: ProductId)
    requires id1 !in products
    requires NamesUnique(products)
    requires Text.Lower(first.name) == Text.Lower(second.name)
    requires id2 !in CreateProduct(products, user, first, id1)
    ensures CreateProduct(CreateProduct(products, user, first, id1), user, second, id2).Keys
      == CreateProduct(products, user, first, id1).Keys
  {
    var once := CreateProduct(products, user, first, id1);
    var id := match Existing(products, first.name) case Some(k) => k case None => id1;
    assert id in once && NameMatches(once[id], second.name);
    assert Existing(once, second.name).Some?;
  }

  /** Inserting a new product and then deleting it as its owner restores the catalogue. */
  lemma CreateThenDelete(products: map<ProductId, ProductRow>, user: UserId, data: ProductData, newId: ProductId)
    requires newId !in products
    requires Existing(products, data.name).None?
    ensures DeleteProduct(CreateProduct(products, user, data, newId), user, newId) == products
  {
    assert CreateProduct(products, user, data, newId) - {newId} == products;
  }

  /**
   * `deleteProduct`: `deleteMany` where both id and owner match, so at most
   * the one row with that id goes, and only when the current user owns it.
   */
  function DeleteProduct(products: map<ProductId, ProductRow>, user: UserId, id: ProductId): (r: map<ProductId, ProductRow>)
    ensures id in r <==> id in products && products[id].userId != user
    ensures r.Keys == products.Keys - (if id in products && products[id].userId == user then {id} else {})
    ensures forall k :: k in r ==> r[k] == products[k]
  {
    if id in products && products[id].userId == user then products - {id} else products
  }

  /** Deleting keeps names unique and prices and stock non-negative, and a second delete changes nothing. */
  lemma DeleteProductKeepsCatalog(products: map<ProductId, ProductRow>, user: UserId, id: ProductId)
    requires NamesUnique(products) && NonNegative(products)
    ensures NamesUnique(DeleteProduct(products, user, id)) && NonNegative(DeleteProduct(products, user, id))
    ensures DeleteProduct(DeleteProduct(products, user, id), user, id) == DeleteProduct(products, user, id)
  {
  }
}
