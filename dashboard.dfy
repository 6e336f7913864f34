/**
 * The figures of the dashboard: stock sums, the in/low/out-of-stock
 * counts and their rounded percentages, the colour level of a product in
 * the recent-stock list, the low-stock alert count, and the series of
 * products created per week over the last twelve weeks.
 *
 * Instants are milliseconds on a local clock where every day has
 * exactly `Day` milliseconds; `today` is local midnight of the moment the
 * page is rendered.
 */
module Dashboard {
  import opened Wrappers

  /** The columns of a product row the dashboard reads; price in öre, instants in ms. */
  datatype Row = Row(price: int, quantity: int, lowStockAt: Option<int>, createdAt: int)

  const Day: int := 86_400_000
  const Week: int := 7 * Day
  /** Number of entries of the weekly series. */
  const Weeks: nat := 12
  /** The level below which a product counts as low stock when it sets none. */
  const DefaultThreshold: int := 5

  // ---- Sums -----------------------------------------------------------

  /** `totalItems`: the stock of all products together. */
  function TotalItems(rows: seq<Row>): int {
    if rows == [] then 0 else TotalItems(rows[..|rows| - 1]) + rows[|rows| - 1].quantity
  }

  /** `totalValue`: the stock of all products valued at their prices. */
  function TotalValue(rows: seq<Row>): int {
    if rows == [] then 0 else TotalValue(rows[..|rows| - 1]) + rows[|rows| - 1].price * rows[|rows| - 1].quantity
  }

  /** The sums add up over any split of the product list, so they do not depend on the order rows arrive in. */
  lemma {:induction false} SumsAppend(a: seq<Row>, b: seq<Row>)
    ensures TotalItems(a + b) == TotalItems(a) + TotalItems(b)
    ensures TotalValue(a + b) == TotalValue(a) + TotalValue(b)
    decreases |b|
  {
    if b == [] {
      assert a + b == a;
    } else {
      var b' := b[..|b| - 1];
      assert (a + b)[..|a + b| - 1] == a + b';
      SumsAppend(a, b');
    }
  }

  /** With no negative stock or price, the sums are non-negative and the value is at most the highest price times the items. */
  lemma {:induction false} SumsBounds(rows: seq<Row>, maxPrice: int)
    requires forall i :: 0 <= i < |rows| ==> 0 <= rows[i].quantity && 0 <= rows[i].price <= maxPrice
    ensures 0 <= TotalItems(rows)
    ensures 0 <= TotalValue(rows) <= maxPrice * TotalItems(rows)
  {
    if rows != [] {
      var init := rows[..|rows| - 1];
      var last := rows[|rows| - 1];
      SumsBounds(init, maxPrice);
      assert last.price * last.quantity <= maxPrice * last.quantity by {
        MulMonotone(last.price, maxPrice, last.quantity);
      }
    }
  }

  lemma MulMonotone(a: int, b: int, c: int)
    requires a <= b && 0 <= c
    ensures a * c <= b * c
  {
  }

  // ---- Stock categories -------------------------------------------------

  predicate InStock(q: int) { q > DefaultThreshold }
  predicate LowStock(q: int) { 1 <= q <= DefaultThreshold }
  predicate OutOfStock(q: int) { q == 0 }

  /** The number of rows whose quantity satisfies `p`. */
  function CountWhere(rows: seq<Row>, p: int -> bool): (r: nat)
    ensures r <= |rows|
  {
    if rows == [] then 0
    else CountWhere(rows[..|rows| - 1], p) + (if p(rows[|rows| - 1].quantity) then 1 else 0)
  }

  function InStockCount(rows: seq<Row>): nat { CountWhere(rows, InStock) }
  function LowStockCount(rows: seq<Row>): nat { CountWhere(rows, LowStock) }
  function OutOfStockCount(rows: seq<Row>): nat { CountWhere(rows, OutOfStock) }

  /**
   * Every row is in exactly one of the three categories or has a negative
   * quantity; so with no negative stock the three counts add up to the
   * number of products.
   */
  lemma {:induction false} CategoriesPartition(rows: seq<Row>)
    ensures InStockCount(rows) + LowStockCount(rows) + OutOfStockCount(rows) + CountWhere(rows, q => q < 0) == |rows|
  {
    if rows != [] {
      CategoriesPartition(rows[..|rows| - 1]);
    }
  }

  lemma {:induction false} NoNegativeCount(rows: seq<Row>)
    requires forall i :: 0 <= i < |rows| ==> rows[i].quantity >= 0
    ensures CountWhere(rows, q => q < 0) == 0
  {
    if rows != [] {
      NoNegativeCount(rows[..|rows| - 1]);
    }
  }

  // ---- Percentages ----------------------------------------------------

  /**
   * `total > 0 ? Math.round(count / total * 100) : 0`, in exact arithmetic:
   * the integer nearest to the exact percentage, halves rounded up. The page
   * computes with doubles, where an exact half can fall just below itself.
   */
  function Percent(count: nat, total: nat): (r: int)
    ensures total == 0 ==> r == 0
    ensures total > 0 ==> 2 * total * r <= 200 * count + total < 2 * total * r + 2 * total
  {
    if total == 0 then 0
    else
      var r := (200 * count + total) / (2 * total);
      DivBounds(200 * count + total, 2 * total);
      r
  }

  lemma DivBounds(a: int, b: int)
    requires b > 0
    ensures b * (a / b) <= a < b * (a / b) + b
  {
  }

  /** A part of the whole gets a percentage between 0 and 100. */
  lemma PercentRange(count: nat, total: nat)
    requires count <= total
    ensures 0 <= Percent(count, total) <= 100
  {
    if total > 0 {
      var r := Percent(count, total);
      var u := 2 * total;
      assert u * r < u * 101;
      CancelLeft(u, r, 101);
      assert u * 0 < u * (r + 1);
      CancelLeft(u, 0, r + 1);
    }
  }

  /** Cancelling a positive factor on both sides of a strict inequality. */
  lemma CancelLeft(u: int, x: int, y: int)
    requires u > 0 && u * x < u * y
    ensures x < y
  {
    if x >= y {
      MulMonotone(y, x, u);
    }
  }

  /** Three percentages of a partition, each rounded on its own, add up to 99, 100 or 101. */
  lemma PercentagesOfPartition(a: nat, b: nat, c: nat)
    requires a + b + c > 0
    ensures var t := a + b + c;
      99 <= Percent(a, t) + Percent(b, t) + Percent(c, t) <= 101
  {
    var t := a + b + c;
    var u := 2 * t;
    var pa, pb, pc := Percent(a, t), Percent(b, t), Percent(c, t);
    var s := pa + pb + pc;
    assert u * s == u * pa + u * pb + u * pc;
    assert u * s < u * 102;
    CancelLeft(u, s, 102);
    assert u * 98 < u * s;
    CancelLeft(u, 98, s);
  }

  /** The three stock percentages the dashboard shows add up to 100 give or take one point of rounding. */
  lemma StockPercentages(rows: seq<Row>)
    requires rows != []
    requires forall i :: 0 <= i < |rows| ==> rows[i].quantity >= 0
    ensures var t := |rows|;
      99 <= Percent(InStockCount(rows), t) + Percent(LowStockCount(rows), t) + Percent(OutOfStockCount(rows), t) <= 101
  {
    CategoriesPartition(rows);
    NoNegativeCount(rows);
    PercentagesOfPartition(InStockCount(rows), LowStockCount(rows), OutOfStockCount(rows));
  }

  // ---- Stock level of one product -------------------------------------

  /**
   * The colour level in the recent-stock list: 0 (red) for no stock, 1
   * (amber) up to the product's own threshold, 2 (green) above it. A
   * threshold that is absent or 0 falls back to 5 (`lowStockAt || 5`).
   */
  function StockLevel(quantity: int, lowStockAt: Option<int>): (r: int)
    ensures var threshold := if lowStockAt.None? || lowStockAt.value == 0 then DefaultThreshold else lowStockAt.value;
      && (r == 0 <==> quantity == 0)
      && (r == 1 <==> quantity != 0 && quantity <= threshold)
      && (r == 2 <==> quantity != 0 && quantity > threshold)
  {
    if quantity == 0 then 0
    else if quantity <= (match lowStockAt case Some(t) => if t == 0 then DefaultThreshold else t case None => DefaultThreshold) then 1
    else 2
  }

  /** For a product without its own threshold and with stock, the level agrees with the category it is counted in. */
  lemma StockLevelMatchesCategories(quantity: int)
    requires quantity >= 0
    ensures StockLevel(quantity, None) == 0 <==> OutOfStock(quantity)
    ensures StockLevel(quantity, None) == 1 <==> LowStock(quantity)
    ensures StockLevel(quantity, None) == 2 <==> InStock(quantity)
  {
  }

  // ---- Low-stock alerts -----------------------------------------------

  /** The alert count: products that set some threshold and have at most 5 in stock. */
  function LowStockAlerts(rows: seq<Row>): (r: nat)
    ensures r <= |rows|
  {
    if rows == [] then 0
    else
      var last := rows[|rows| - 1];
      LowStockAlerts(rows[..|rows| - 1]) + (if last.lowStockAt.Some? && last.quantity <= DefaultThreshold then 1 else 0)
  }

  /** Two product lists that agree on quantities and on which rows set a threshold have the same alert count, whatever the thresholds are. */
  lemma {:induction false} AlertsIgnoreThresholdValue(a: seq<Row>, b: seq<Row>)
    requires |a| == |b|
    requires forall i :: 0 <= i < |a| ==> a[i].quantity == b[i].quantity && a[i].lowStockAt.Some? == b[i].lowStockAt.Some?
    ensures LowStockAlerts(a) == LowStockAlerts(b)
  {
    if a != [] {
      AlertsIgnoreThresholdValue(a[..|a| - 1], b[..|b| - 1]);
    }
  }

  /**
   * The alert count and the level colours use different thresholds: a
   * product with threshold 10 and 8 in stock is shown amber but raises no
   * alert, and one with threshold 1 and 3 in stock raises an alert but is
   * shown green.
   */
  lemma AlertsAndLevelsDiffer()
    ensures StockLevel(8, Some(10)) == 1 && LowStockAlerts([Row(0, 8, Some(10), 0)]) == 0
    ensures StockLevel(3, Some(1)) == 2 && LowStockAlerts([Row(0, 3, Some(1), 0)]) == 1
  {
    assert [Row(0, 8, Some(10), 0)][..0] == [];
    assert [Row(0, 3, Some(1), 0)][..0] == [];
  }

  // ---- Weekly series --------------------------------------------------

  /** The number of rows created in the closed interval [lo, hi]. */
  function CountIn(rows: seq<Row>, lo: int, hi: int): (r: nat)
    ensures r <= |rows|
  {
    if rows == [] then 0
    else CountIn(rows[..|rows| - 1], lo, hi) + (if lo <= rows[|rows| - 1].createdAt <= hi then 1 else 0)
  }

  /** Midnight of the first day of the week `weeksAgo` weeks before the current one. */
  function WeekStart(today: int, weeksAgo: int): int {
    today - weeksAgo * Week
  }

  /** The week as intended: from its first midnight to the last millisecond of its seventh day. */
  function WeekWindow(today: int, weeksAgo: int): (int, int) {
    (WeekStart(today, weeksAgo), WeekStart(today, weeksAgo) + Week - 1)
  }

  /**
   * The week as the loop computes it: the end-of-day time is set on the
   * start instead of the end, so the window runs from the last millisecond
   * of the first day to the first millisecond of the seventh.
   */
  function AsWrittenWeekWindow(today: int, weeksAgo: int): (int, int) {
    (WeekStart(today, weeksAgo) + Day - 1, WeekStart(today, weeksAgo) + 6 * Day)
  }

  /** The series as the dashboard means it, oldest week first. */
  function Series(rows: seq<Row>, today: int): (r: seq<nat>)
    ensures |r| == Weeks
  {
    seq(Weeks, k requires 0 <= k < Weeks => CountIn(rows, WeekWindow(today, Weeks - 1 - k).0, WeekWindow(today, Weeks - 1 - k).1))
  }

  /** The series as written, with the misplaced end-of-day time. */
  function AsWrittenSeries(rows: seq<Row>, today: int): (r: seq<nat>)
    ensures |r| == Weeks
  {
    seq(Weeks, k requires 0 <= k < Weeks =>
      CountIn(rows, AsWrittenWeekWindow(today, Weeks - 1 - k).0, AsWrittenWeekWindow(today, Weeks - 1 - k).1))
  }

  /**
   * `weeklyProductsData`, counts only: for each of the twelve weeks, oldest
   * first, the number of products created in it.
   */
  method WeeklyProducts(rows: seq<Row>, today: int) returns (series: seq<nat>)
    ensures series == Series(rows, today)
  {
    series := [];
    var i := Weeks as int - 1;
    while i >= 0
      invariant -1 <= i < Weeks
      invariant |series| == Weeks - 1 - i
      invariant forall k :: 0 <= k < |series| ==> series[k] == Series(rows, today)[k]
    {
      var window := WeekWindow(today, i);
      var count := CountIn(rows, window.0, window.1);
      series := series + [count];
      i := i - 1;
    }
  }

  function Sum(s: seq<nat>): nat {
    if s == [] then 0 else Sum(s[..|s| - 1]) + s[|s| - 1]
  }

  /** Counting over two adjacent intervals is counting over their union. */
  lemma {:induction false} CountInSplit(rows: seq<Row>, lo: int, mid: int, hi: int)
    requires lo <= mid <= hi + 1
    ensures CountIn(rows, lo, mid - 1) + CountIn(rows, mid, hi) == CountIn(rows, lo, hi)
  {
    if rows != [] {
      CountInSplit(rows[..|rows| - 1], lo, mid, hi);
    }
  }

  /** The first m entries of the intended series count the products created from the start of the oldest week to the end of the m-th. */
  lemma {:induction false} SeriesPrefixSum(rows: seq<Row>, today: int, m: nat)
    requires m <= Weeks
    ensures Sum(Series(rows, today)[..m]) == CountIn(rows, WeekStart(today, Weeks - 1), WeekStart(today, Weeks - m) + Week - 1)
  {
    var s := Series(rows, today);
    var lo := WeekStart(today, Weeks - 1);
    if m == 0 {
      assert s[..0] == [];
      CountInEmpty(rows, lo, lo - 1);
    } else {
      SeriesPrefixSum(rows, today, m - 1);
      assert s[..m][..m - 1] == s[..m - 1];
      var mid := WeekStart(today, Weeks - m);
      assert mid == WeekStart(today, Weeks - (m - 1)) + Week - 1 + 1;
      var w := WeekWindow(today, Weeks - m);
      assert s[m - 1] == CountIn(rows, w.0, w.1);
      assert w == (mid, mid + Week - 1);
      assert s[..m][m - 1] == s[m - 1];
      assert Sum(s[..m]) == Sum(s[..m - 1]) + s[m - 1];
      CountInSplit(rows, lo, mid, mid + Week - 1);
    }
  }

  lemma {:induction false} CountInEmpty(rows: seq<Row>, lo: int, hi: int)
    requires hi < lo
    ensures CountIn(rows, lo, hi) == 0
  {
    if rows != [] {
      CountInEmpty(rows[..|rows| - 1], lo, hi);
    }
  }

  /**
   * The intended weeks are contiguous and disjoint: the series adds up to
   * the number of products created from the first midnight of the oldest
   * week to the end of the current one.
   */
  lemma SeriesSum(rows: seq<Row>, today: int)
    ensures Sum(Series(rows, today)) == CountIn(rows, WeekStart(today, Weeks - 1), today + Week - 1)
  {
    SeriesPrefixSum(rows, today, Weeks);
    assert Series(rows, today)[..Weeks] == Series(rows, today);
  }

  /**
   * As written, a product created at today's midnight falls in none of the
   * twelve windows, although it lies inside the span they are meant to
   * cover; the intended series counts it in the current week.
   */
  lemma AsWrittenMissesMidnight(today: int)
    ensures var rows := [Row(100, 1, None, today)];
      && Sum(AsWrittenSeries(rows, today)) == 0
      && Series(rows, today)[Weeks - 1] == 1
  {
    var rows := [Row(100, 1, None, today)];
    var w := AsWrittenSeries(rows, today);
    forall k | 0 <= k < Weeks
      ensures w[k] == 0
    {
      var j := Weeks - 1 - k;
      assert j == 0 || WeekStart(today, j) + 6 * Day < today;
      CountOne(rows[0], AsWrittenWeekWindow(today, j).0, AsWrittenWeekWindow(today, j).1);
    }
    SumZero(w);
    CountOne(rows[0], WeekWindow(today, 0).0, WeekWindow(today, 0).1);
  }

  lemma CountOne(r: Row, lo: int, hi: int)
    ensures CountIn([r], lo, hi) == if lo <= r.createdAt <= hi then 1 else 0
  {
    assert [r][..0] == [];
  }

  lemma {:induction false} SumZero(s: seq<nat>)
    requires forall k :: 0 <= k < |s| ==> s[k] == 0
    ensures Sum(s) == 0
  {
    if s != [] {
      SumZero(s[..|s| - 1]);
    }
  }
}
