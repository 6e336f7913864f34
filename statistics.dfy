/**
 * The figures of the statistics page for one user: which sales count as
 * theirs, revenue, units, average order value and growth, the per-product
 * stats of their own products, the five best sellers and the ten most
 * recent sales. The sales are given as the page fetches them, newest
 * first; the date windows that select them are left to the caller.
 */
module Statistics {
  import opened Db

  /** A sale item with the owner and name of its product. */
  datatype StatItem = StatItem(productId: ProductId, quantity: int, price: int, owner: UserId, name: string)

  datatype StatSale = StatSale(totalAmount: int, items: seq<StatItem>)

  /** One value of the `productStats` map, with its key. */
  datatype Entry = Entry(id: ProductId, name: string, unitsSold: int, revenue: int)

  /** One row of the recent-sales list. */
  datatype Recent = Recent(totalAmount: int, itemCount: int)

  /** The number of best sellers shown. */
  const TopCount: nat := 5
  /** The number of recent sales shown. */
  const RecentCount: nat := 10

  // ---- The user's sales -----------------------------------------------

  /** `sale.items.some(item => item.product.userId === user.id)`. */
  predicate IsUserSale(sale: StatSale, user: UserId) {
    exists k :: 0 <= k < |sale.items| && sale.items[k].owner == user
  }

  /** `userSales`: the sales holding at least one of the user's products, in the order given. */
  function UserSales(sales: seq<StatSale>, user: UserId): (r: seq<StatSale>)
    ensures |r| <= |sales|
    ensures forall k :: 0 <= k < |r| ==> IsUserSale(r[k], user) && r[k] in sales
    ensures forall k :: 0 <= k < |sales| && IsUserSale(sales[k], user) ==> sales[k] in r
  {
    if sales == [] then []
    else
      var init := sales[..|sales| - 1];
      var last := sales[|sales| - 1];
      var rest := UserSales(init, user);
      assert forall k :: 0 <= k < |init| ==> sales[k] == init[k];
      if IsUserSale(last, user) then rest + [last] else rest
  }

  /**
   * `filter` keeps the order: the user's sales of two consecutive runs are
   * those of the first run followed by those of the second, and a single
   * sale is kept exactly when it is the user's.
   */
  lemma {:induction false} UserSalesAppend(a: seq<StatSale>, b: seq<StatSale>, user: UserId)
    ensures UserSales(a + b, user) == UserSales(a, user) + UserSales(b, user)
    ensures forall s :: UserSales([s], user) == if IsUserSale(s, user) then [s] else []
  {
    UserSalesConcat(a, b, user);
    forall s ensures UserSales([s], user) == if IsUserSale(s, user) then [s] else [] {
      assert [s][..0] == [];
    }
  }

  /** The induction on the second run behind `UserSalesAppend`. */
  lemma {:induction false} UserSalesConcat(a: seq<StatSale>, b: seq<StatSale>, user: UserId)
    ensures UserSales(a + b, user) == UserSales(a, user) + UserSales(b, user)
    decreases |b|
  {
    if b == [] {
      assert a + b == a;
    } else {
      var init := b[..|b| - 1];
      var last := b[|b| - 1];
      var tail := if IsUserSale(last, user) then [last] else [];
      assert (a + b)[..|a + b| - 1] == a + init;
      assert (a + b)[|a + b| - 1] == last;
      assert UserSales(a + b, user) == UserSales(a + init, user) + tail;
      assert UserSales(b, user) == UserSales(init, user) + tail;
      UserSalesConcat(a, init, user);
      assert UserSales(a, user) + UserSales(init, user) + tail == UserSales(a, user) + (UserSales(init, user) + tail);
    }
  }

  // ---- Sums -----------------------------------------------------------

  /** `totalRevenue`: the whole amount of each sale, items of other owners included. */
  function Revenue(sales: seq<StatSale>): int {
    if sales == [] then 0 else Revenue(sales[..|sales| - 1]) + sales[|sales| - 1].totalAmount
  }

  /** `itemCount` of one sale: its units. */
  function ItemUnits(items: seq<StatItem>): int {
    if items == [] then 0 else ItemUnits(items[..|items| - 1]) + items[|items| - 1].quantity
  }

  /** `totalUnitsSold`: all units of the sales, items of other owners included. */
  function Units(sales: seq<StatSale>): int {
    if sales == [] then 0 else Units(sales[..|sales| - 1]) + ItemUnits(sales[|sales| - 1].items)
  }

  /** `averageOrderValue`: revenue per sale, 0 with no sales. */
  function AverageOrderValue(sales: seq<StatSale>): (r: real)
    ensures |sales| == 0 ==> r == 0.0
    ensures |sales| > 0 ==> r * (|sales| as real) == Revenue(sales) as real
  {
    if |sales| > 0 then Revenue(sales) as real / |sales| as real else 0.0
  }

  /** `revenueGrowth` in percent against the previous period, 0 when that had no revenue. */
  function RevenueGrowth(current: int, previous: int): (r: real)
    ensures previous <= 0 ==> r == 0.0
    ensures previous > 0 ==> r * (previous as real) == 100.0 * ((current - previous) as real)
    ensures previous > 0 ==> (r > 0.0 <==> current > previous) && (r == 0.0 <==> current == previous)
  {
    if previous > 0 then ((current - previous) as real / previous as real) * 100.0 else 0.0
  }

  /** Revenue and units add up over consecutive runs of sales. */
  lemma {:induction false} SumsAppend(a: seq<StatSale>, b: seq<StatSale>)
    ensures Revenue(a + b) == Revenue(a) + Revenue(b)
    ensures Units(a + b) == Units(a) + Units(b)
    decreases |b|
  {
    if b == [] {
      assert a + b == a;
    } else {
      assert (a + b)[..|a + b| - 1] == a + b[..|b| - 1];
      SumsAppend(a, b[..|b| - 1]);
    }
  }

  // ---- Per-product stats ----------------------------------------------

  /** The user's own items of one sale, in order. */
  function OwnItems(items: seq<StatItem>, user: UserId): (r: seq<StatItem>)
    ensures forall k :: 0 <= k < |r| ==> r[k].owner == user && r[k] in items
    ensures forall k :: 0 <= k < |items| && items[k].owner == user ==> items[k] in r
  {
    if items == [] then []
    else
      var rest := OwnItems(items[..|items| - 1], user);
      var last := items[|items| - 1];
      assert forall k :: 0 <= k < |items| - 1 ==> items[k] == items[..|items| - 1][k];
      if last.owner == user then rest + [last] else rest
  }

  /** The user's own items of all the sales, in the order the page visits them. */
  function Own(sales: seq<StatSale>, user: UserId): seq<StatItem> {
    if sales == [] then [] else Own(sales[..|sales| - 1], user) + OwnItems(sales[|sales| - 1].items, user)
  }

  /** Where the entry for `id` sits, if there is one. */
  function IndexOf(entries: seq<Entry>, id: ProductId): (r: int)
    ensures -1 <= r < |entries|
    ensures r >= 0 ==> entries[r].id == id
    ensures r < 0 ==> forall k :: 0 <= k < |entries| ==> entries[k].id != id
  {
    if entries == [] then -1
    else if entries[|entries| - 1].id == id then |entries| - 1
    else IndexOf(entries[..|entries| - 1], id)
  }

  predicate DistinctEntryIds(entries: seq<Entry>) {
    forall i, j :: 0 <= i < j < |entries| ==> entries[i].id != entries[j].id
  }

  /**
   * `productStats.set(item.productId, ...)`: the entry of the product, new
   * at the end of the map or updated where it is, takes the item's name
   * and adds its units and its price times its units.
   */
  function Record(entries: seq<Entry>, item: StatItem): (r: seq<Entry>)
    requires DistinctEntryIds(entries)
    ensures DistinctEntryIds(r)
  {
    var k := IndexOf(entries, item.productId);
    if k < 0 then entries + [Entry(item.productId, item.name, item.quantity, item.price * item.quantity)]
    else entries[k := Entry(item.productId, item.name, entries[k].unitsSold + item.quantity, entries[k].revenue + item.price * item.quantity)]
  }

  /** The map the `forEach` loops build from a run of own items, in insertion order. */
  function Tally(items: seq<StatItem>): (r: seq<Entry>)
    ensures DistinctEntryIds(r)
  {
    if items == [] then [] else Record(Tally(items[..|items| - 1]), items[|items| - 1])
  }

  /** The units of the items of product `id`. */
  function UnitsOf(items: seq<StatItem>, id: ProductId): int {
    if items == [] then 0
    else UnitsOf(items[..|items| - 1], id) + (if items[|items| - 1].productId == id then items[|items| - 1].quantity else 0)
  }

  /** The revenue of the items of product `id`, each at its own price. */
  function RevenueOf(items: seq<StatItem>, id: ProductId): int {
    if items == [] then 0
    else
      var last := items[|items| - 1];
      RevenueOf(items[..|items| - 1], id) + (if last.productId == id then last.price * last.quantity else 0)
  }

  predicate HasProduct(items: seq<StatItem>, id: ProductId) {
    exists k :: 0 <= k < |items| && items[k].productId == id
  }

  /**
   * The stats hold one entry for exactly the products among the items, and
   * an entry's units and revenue are those of all the items of its product.
   */
  lemma {:induction false} TallyEntry(items: seq<StatItem>, id: ProductId)
    ensures var r := Tally(items); var k := IndexOf(r, id);
      && (k >= 0 <==> HasProduct(items, id))
      && (k >= 0 ==> r[k].unitsSold == UnitsOf(items, id) && r[k].revenue == RevenueOf(items, id))
  {
    if items != [] {
      var init := items[..|items| - 1];
      var last := items[|items| - 1];
      assert items == init + [last];
      TallyEntry(init, id);
      var t := Tally(init);
      HasProductSnoc(init, last, id);
      if IndexOf(t, id) < 0 {
        AbsentItems(init, id);
      }
      RecordValue(t, last, id, UnitsOf(init, id), RevenueOf(init, id));
      assert Tally(items) == Record(t, last);
      assert UnitsOf(items, id) == UnitsOf(init, id) + (if last.productId == id then last.quantity else 0);
      assert RevenueOf(items, id) == RevenueOf(init, id) + (if last.productId == id then last.price * last.quantity else 0);
    }
  }

  /** Recording an item adds its units and revenue to its own product's entry and to no other. */
  lemma RecordValue(t: seq<Entry>, last: StatItem, id: ProductId, u: int, v: int)
    requires DistinctEntryIds(t)
    requires IndexOf(t, id) >= 0 ==> t[IndexOf(t, id)].unitsSold == u && t[IndexOf(t, id)].revenue == v
    requires IndexOf(t, id) < 0 ==> u == 0 && v == 0
    ensures var r := Record(t, last); var k := IndexOf(r, id);
      && (k >= 0 <==> IndexOf(t, id) >= 0 || last.productId == id)
      && (k >= 0 ==>
            && r[k].unitsSold == u + (if last.productId == id then last.quantity else 0)
            && r[k].revenue == v + (if last.productId == id then last.price * last.quantity else 0))
  {
    IndexOfAfterRecord(t, last, id);
  }

  /** No item of product `id`: nothing sold of it. */
  lemma {:induction false} AbsentItems(items: seq<StatItem>, id: ProductId)
    requires !HasProduct(items, id)
    ensures UnitsOf(items, id) == 0 && RevenueOf(items, id) == 0
  {
    if items != [] {
      var init := items[..|items| - 1];
      HasProductSnoc(init, items[|items| - 1], id);
      assert items == init + [items[|items| - 1]];
      AbsentItems(init, id);
    }
  }

  lemma HasProductSnoc(init: seq<StatItem>, last: StatItem, id: ProductId)
    ensures HasProduct(init + [last], id) <==> HasProduct(init, id) || last.productId == id
  {
    var s := init + [last];
    if HasProduct(init, id) {
      var k :| 0 <= k < |init| && init[k].productId == id;
      assert s[k] == init[k];
    }
    if HasProduct(s, id) {
      var k :| 0 <= k < |s| && s[k].productId == id;
      if k < |init| {
        assert s[k] == init[k];
      }
    }
    if last.productId == id {
      assert s[|init|] == last;
    }
  }

  /** Recording an item moves no entry: every id keeps its place, and a new id goes to the end. */
  lemma IndexOfAfterRecord(entries: seq<Entry>, item: StatItem, id: ProductId)
    requires DistinctEntryIds(entries)
    ensures var j := IndexOf(entries, item.productId); var r := Record(entries, item);
      && (id != item.productId ==> IndexOf(r, id) == IndexOf(entries, id) && (IndexOf(r, id) >= 0 ==> r[IndexOf(r, id)] == entries[IndexOf(entries, id)]))
      && (id == item.productId ==> IndexOf(r, id) == (if j < 0 then |entries| else j))
  {
    var r := Record(entries, item);
    var i := IndexOf(r, id);
    var e := IndexOf(entries, id);
    if i >= 0 && i < |entries| {
      assert r[i].id == entries[i].id;
      IndexOfUnique(entries, id, i);
    }
    if e >= 0 {
      assert r[e].id == id;
      IndexOfUnique(r, id, e);
    }
  }

  lemma IndexOfUnique(entries: seq<Entry>, id: ProductId, k: int)
    requires DistinctEntryIds(entries)
    requires 0 <= k < |entries| && entries[k].id == id
    ensures IndexOf(entries, id) == k
  {
  }

  /** `Own` over one more sale, the step of the outer loop. */
  lemma OwnSnoc(sales: seq<StatSale>, i: nat, user: UserId)
    requires i < |sales|
    ensures Own(sales[..i + 1], user) == Own(sales[..i], user) + OwnItems(sales[i].items, user)
  {
    assert sales[..i + 1][..i] == sales[..i];
  }

  /** `OwnItems` over one more item, the step of the inner loop. */
  lemma OwnItemsSnoc(items: seq<StatItem>, j: nat, user: UserId)
    requires j < |items|
    ensures OwnItems(items[..j + 1], user) == OwnItems(items[..j], user) + (if items[j].owner == user then [items[j]] else [])
  {
    assert items[..j + 1][..j] == items[..j];
  }

  lemma TallySnoc(items: seq<StatItem>, x: StatItem)
    ensures Tally(items + [x]) == Record(Tally(items), x)
  {
    assert (items + [x])[..|items|] == items;
  }

  /**
   * `productStats`: every item of every given sale is visited, and each of
   * the user's own items is recorded; items of other owners are skipped.
   */
  method ProductStats(sales: seq<StatSale>, user: UserId) returns (stats: seq<Entry>)
    ensures stats == Tally(Own(sales, user))
  {
    stats := [];
    for i := 0 to |sales|
      invariant stats == Tally(Own(sales[..i], user))
    {
      var items := sales[i].items;
      ghost var before := Own(sales[..i], user);
      InnerStart(before, items, user);
      for j := 0 to |items|
        invariant stats == Tally(before + OwnItems(items[..j], user))
      {
        var item := items[j];
        InnerStep(before, items, j, user);
        if item.owner == user {
          stats := Record(stats, item);
        }
      }
      OuterStep(sales, i, user);
    }
    assert sales[..|sales|] == sales;
  }

  lemma InnerStart(before: seq<StatItem>, items: seq<StatItem>, user: UserId)
    ensures Tally(before + OwnItems(items[..0], user)) == Tally(before)
  {
    assert before + OwnItems(items[..0], user) == before;
  }

  /** One visit of the inner loop: an own item is recorded, any other item changes nothing. */
  lemma InnerStep(before: seq<StatItem>, items: seq<StatItem>, j: nat, user: UserId)
    requires j < |items|
    ensures var prev := Tally(before + OwnItems(items[..j], user));
      Tally(before + OwnItems(items[..j + 1], user)) == if items[j].owner == user then Record(prev, items[j]) else prev
  {
    OwnItemsSnoc(items, j, user);
    if items[j].owner == user {
      assert before + OwnItems(items[..j + 1], user) == (before + OwnItems(items[..j], user)) + [items[j]];
      TallySnoc(before + OwnItems(items[..j], user), items[j]);
    } else {
      assert OwnItems(items[..j + 1], user) == OwnItems(items[..j], user);
    }
  }

  /** The end of the inner loop is the end of one visit of the outer loop. */
  lemma OuterStep(sales: seq<StatSale>, i: nat, user: UserId)
    requires i < |sales|
    ensures Tally(Own(sales[..i], user) + OwnItems(sales[i].items[..|sales[i].items|], user)) == Tally(Own(sales[..i + 1], user))
  {
    assert sales[i].items[..|sales[i].items|] == sales[i].items;
    OwnSnoc(sales, i, user);
  }

  /** A sale that is not the user's holds none of their items, so restricting to the user's sales loses no own item. */
  lemma {:induction false} OwnOfUserSales(sales: seq<StatSale>, user: UserId)
    ensures Own(UserSales(sales, user), user) == Own(sales, user)
  {
    if sales != [] {
      var init := sales[..|sales| - 1];
      var last := sales[|sales| - 1];
      OwnOfUserSales(init, user);
      if IsUserSale(last, user) {
        TallySnocOwn(UserSales(init, user), last, user);
      } else {
        NoOwnItems(last.items, user);
      }
    }
  }

  lemma TallySnocOwn(a: seq<StatSale>, x: StatSale, user: UserId)
    ensures Own(a + [x], user) == Own(a, user) + OwnItems(x.items, user)
  {
    assert (a + [x])[..|a|] == a;
  }

  lemma {:induction false} NoOwnItems(items: seq<StatItem>, user: UserId)
    requires forall k :: 0 <= k < |items| ==> items[k].owner != user
    ensures OwnItems(items, user) == []
  {
    if items != [] {
      NoOwnItems(items[..|items| - 1], user);
    }
  }

  // ---- Top sellers ----------------------------------------------------

  predicate SortedByUnits(s: seq<Entry>) {
    forall i, j :: 0 <= i < j < |s| ==> s[i].unitsSold >= s[j].unitsSold
  }

  /** Places `x` after every entry that sold at least as many units, so ties keep their order. */
  function Insert(sorted: seq<Entry>, x: Entry): (r: seq<Entry>)
    requires SortedByUnits(sorted)
    ensures SortedByUnits(r)
    ensures multiset(r) == multiset(sorted) + multiset{x}
    ensures |r| == |sorted| + 1
  {
    if sorted == [] || sorted[|sorted| - 1].unitsSold >= x.unitsSold then
      AppendSorted(sorted, x);
      sorted + [x]
    else
      var init := sorted[..|sorted| - 1];
      var last := sorted[|sorted| - 1];
      assert sorted == init + [last];
      var rest := Insert(init, x);
      InsertStep(init, last, x, rest);
      rest + [last]
  }

  lemma AppendSorted(sorted: seq<Entry>, x: Entry)
    requires SortedByUnits(sorted)
    requires sorted == [] || sorted[|sorted| - 1].unitsSold >= x.unitsSold
    ensures SortedByUnits(sorted + [x])
  {
  }

  /** Putting back the last entry behind the recursive insertion keeps the order and the contents. */
  lemma InsertStep(init: seq<Entry>, last: Entry, x: Entry, rest: seq<Entry>)
    requires SortedByUnits(init + [last]) && SortedByUnits(rest)
    requires multiset(rest) == multiset(init) + multiset{x}
    requires x.unitsSold > last.unitsSold
    ensures SortedByUnits(rest + [last])
    ensures multiset(rest + [last]) == multiset(init + [last]) + multiset{x}
  {
    forall k | 0 <= k < |rest|
      ensures rest[k].unitsSold >= last.unitsSold
    {
      assert rest[k] in multiset(rest);
      if rest[k] != x {
        assert rest[k] in multiset(init);
        var idx :| 0 <= idx < |init| && init[idx] == rest[k];
        assert (init + [last])[idx] == init[idx] && (init + [last])[|init|] == last;
      }
    }
  }

  /** `.sort((a, b) => b.unitsSold - a.unitsSold)`: a stable sort, most units first. */
  function SortByUnits(s: seq<Entry>): (r: seq<Entry>)
    ensures SortedByUnits(r)
    ensures multiset(r) == multiset(s)
    ensures |r| == |s|
  {
    if s == [] then []
    else
      assert s == s[..|s| - 1] + [s[|s| - 1]];
      Insert(SortByUnits(s[..|s| - 1]), s[|s| - 1])
  }

  /** `topSellingProducts`: the first five of the sorted stats. */
  function TopSelling(stats: seq<Entry>): (r: seq<Entry>)
    ensures |r| == if |stats| < TopCount then |stats| else TopCount
    ensures SortedByUnits(r)
  {
    var sorted := SortByUnits(stats);
    sorted[..if |sorted| < TopCount then |sorted| else TopCount]
  }

  /**
   * The best sellers are taken from the stats, and no product left out sold
   * more units than any product shown.
   */
  lemma TopSellingDominates(stats: seq<Entry>)
    ensures var top := TopSelling(stats); var sorted := SortByUnits(stats);
      && multiset(top) <= multiset(stats)
      && forall i, j :: 0 <= i < |top| <= j < |sorted| ==> top[i].unitsSold >= sorted[j].unitsSold
  {
    var sorted := SortByUnits(stats);
    var n := |TopSelling(stats)|;
    assert sorted == sorted[..n] + sorted[n..];
    assert multiset(sorted) == multiset(sorted[..n]) + multiset(sorted[n..]);
  }

  // ---- Recent sales ---------------------------------------------------

  /** `recentSalesFormatted`, ids and dates aside: the first ten sales, each with its units. */
  function RecentSales(sales: seq<StatSale>): (r: seq<Recent>)
    ensures |r| == if |sales| < RecentCount then |sales| else RecentCount
    ensures forall k :: 0 <= k < |r| ==> r[k] == Recent(sales[k].totalAmount, ItemUnits(sales[k].items))
  {
    var n := if |sales| < RecentCount then |sales| else RecentCount;
    seq(n, k requires 0 <= k < n => Recent(sales[k].totalAmount, ItemUnits(sales[k].items)))
  }

  function ItemCountSum(r: seq<Recent>): int {
    if r == [] then 0 else ItemCountSum(r[..|r| - 1]) + r[|r| - 1].itemCount
  }

  function AmountSum(r: seq<Recent>): int {
    if r == [] then 0 else AmountSum(r[..|r| - 1]) + r[|r| - 1].totalAmount
  }

  /** The recent list accounts for the units and the revenue of exactly the sales it shows. */
  lemma RecentSalesSums(sales: seq<StatSale>)
    ensures var r := RecentSales(sales);
      ItemCountSum(r) == Units(sales[..|r|]) && AmountSum(r) == Revenue(sales[..|r|])
  {
    var r := RecentSales(sales);
    RecentPrefixSums(sales, r, |r|);
    assert r[..|r|] == r;
  }

  lemma {:induction false} RecentPrefixSums(sales: seq<StatSale>, r: seq<Recent>, m: nat)
    requires m <= |r| <= |sales|
    requires forall k :: 0 <= k < |r| ==> r[k] == Recent(sales[k].totalAmount, ItemUnits(sales[k].items))
    ensures ItemCountSum(r[..m]) == Units(sales[..m]) && AmountSum(r[..m]) == Revenue(sales[..m])
  {
    if m > 0 {
      RecentPrefixSums(sales, r, m - 1);
      assert r[..m][..m - 1] == r[..m - 1];
      assert sales[..m][..m - 1] == sales[..m - 1];
    }
  }
}
