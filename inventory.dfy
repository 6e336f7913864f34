/**
 * The inventory list: a search box read from the `q` parameter, and
 * pages of ten products read from the `page` parameter. The products
 * are given newest first, the order the page asks the database for.
 */
module Inventory {
  import opened Wrappers
  import opened Db
  import Text
  import Catalog

  const PageSize: nat := 10

  /** `(params.q ?? "").trim()`. */
  function Query(q: Option<string>): (r: string)
    ensures q.None? ==> r == []
    ensures q.Some? ==> (r == [] <==> Text.IsBlank(q.value))
    ensures r == [] || (!Text.IsSpace(r[0]) && !Text.IsSpace(r[|r| - 1]))
  {
    Text.Trim(match q case Some(s) => s case None => "")
  }

  /** The `where` clause: no filter for an empty query, otherwise the name holds the query, case ignored. */
  predicate Shown(p: ProductRow, query: string) {
    query == [] || Text.Contains(Text.Lower(p.name), Text.Lower(query))
  }

  /** The products the query selects, in their order. */
  function Filter(products: seq<ProductRow>, query: string): (r: seq<ProductRow>)
    ensures |r| <= |products|
    ensures forall i :: 0 <= i < |r| ==> Shown(r[i], query) && r[i] in products
    ensures forall i :: 0 <= i < |products| && Shown(products[i], query) ==> products[i] in r
  {
    if products == [] then []
    else
      var init := products[..|products| - 1];
      var last := products[|products| - 1];
      assert forall i :: 0 <= i < |init| ==> products[i] == init[i];
      var rest := Filter(init, query);
      if Shown(last, query) then rest + [last] else rest
  }

  /**
   * The filter keeps the order: the products of two consecutive runs that
   * the query selects are those of the first run followed by those of the
   * second, and a single product is kept exactly when it is shown.
   */
  lemma {:induction false} FilterAppend(a: seq<ProductRow>, b: seq<ProductRow>, query: string)
    ensures Filter(a + b, query) == Filter(a, query) + Filter(b, query)
    ensures forall p :: Filter([p], query) == if Shown(p, query) then [p] else []
  {
    FilterConcat(a, b, query);
    forall p ensures Filter([p], query) == if Shown(p, query) then [p] else [] {
      assert [p][..0] == [];
    }
  }

  /** The induction on the second run behind `FilterAppend`. */
  lemma {:induction false} FilterConcat(a: seq<ProductRow>, b: seq<ProductRow>, query: string)
    ensures Filter(a + b, query) == Filter(a, query) + Filter(b, query)
    decreases |b|
  {
    if b == [] {
      assert a + b == a;
    } else {
      var init := b[..|b| - 1];
      var last := b[|b| - 1];
      var tail := if Shown(last, query) then [last] else [];
      assert (a + b)[..|a + b| - 1] == a + init;
      assert (a + b)[|a + b| - 1] == last;
      assert Filter(a + b, query) == Filter(a + init, query) + tail;
      assert Filter(b, query) == Filter(init, query) + tail;
      FilterConcat(a, init, query);
      assert Filter(a, query) + Filter(init, query) + tail == Filter(a, query) + (Filter(init, query) + tail);
    }
  }

  /** A blank search box, or none, lists every product. */
  lemma {:induction false} BlankQueryShowsAll(products: seq<ProductRow>, q: Option<string>)
    requires q.None? || Text.IsBlank(q.value)
    ensures Filter(products, Query(q)) == products
  {
    assert Query(q) == [];
    EmptyQueryShowsAll(products);
  }

  /** The induction behind `BlankQueryShowsAll`: the empty query keeps every product. */
  lemma {:induction false} EmptyQueryShowsAll(products: seq<ProductRow>)
    ensures Filter(products, []) == products
  {
    if products != [] {
      var init := products[..|products| - 1];
      var last := products[|products| - 1];
      EmptyQueryShowsAll(init);
      assert Filter(products, []) == Filter(init, []) + [last];
      assert init + [last] == products;
    }
  }

  /** White space around the query does not change the result: trimming again changes nothing. */
  lemma QueryIgnoresSurroundingSpace(s: string)
    ensures Query(Some(Text.Trim(s))) == Query(Some(s))
  {
    Text.TrimIdempotent(s);
  }

  /**
   * `Math.max(1, Number(params.page ?? 1))`: 1 when the parameter is
   * missing, at least 1 for a number, and NaN (which `Math.max` passes
   * through) for text that is not a number.
   */
  function Page(requested: Option<Catalog.Num>): (r: Catalog.Num)
    ensures r.NaN? <==> requested == Some(Catalog.NaN)
    ensures r.Num? ==> r.value >= 1.0
    ensures requested.None? ==> r == Catalog.Num(1.0)
    ensures requested.Some? && requested.value.Num? && requested.value.value >= 1.0 ==> r == requested.value
  {
    match requested
    case None => Catalog.Num(1.0)
    case Some(n) =>
      if n.NaN? then Catalog.NaN
      else Catalog.Num(if n.value < 1.0 then 1.0 else n.value)
  }

  /** `skip` for a whole page number. */
  function Skip(page: int): (r: int)
    ensures page >= 1 ==> r >= 0
  {
    (page - 1) * 10
  }

  /** The positions of the filtered list that page `page` may show. */
  predicate OnPage(i: int, page: int) {
    Skip(page) <= i < Skip(page) + PageSize
  }

  /** Each position of the list is on exactly one page, the page `i / 10 + 1`. */
  lemma PagesPartition(i: nat, page: int)
    ensures OnPage(i, page) <==> page == i / PageSize + 1
  {
  }

  /** `findMany({ skip, take: 10 })` over the filtered products. */
  function PageItems(filtered: seq<ProductRow>, page: int): (r: seq<ProductRow>)
    requires page >= 1
    ensures |r| <= PageSize
    ensures forall k :: 0 <= k < |r| ==> Skip(page) + k < |filtered| && r[k] == filtered[Skip(page) + k]
    ensures |r| == if |filtered| <= Skip(page) then 0 else if |filtered| - Skip(page) < PageSize then |filtered| - Skip(page) else PageSize
  {
    var lo := Skip(page);
    if |filtered| <= lo then []
    else
      var hi := if |filtered| - lo < PageSize then |filtered| else lo + PageSize;
      var r := filtered[lo..hi];
      assert |r| == hi - lo <= PageSize;
      assert forall k :: 0 <= k < |r| ==> r[k] == filtered[lo + k];
      r
  }

  /** `Math.max(1, Math.ceil(totalCount / pageSize))`. */
  function TotalPages(count: nat): (r: nat)
    ensures r >= 1
    ensures r * PageSize >= count
    ensures r == 1 || (r - 1) * PageSize < count
  {
    var pages := (count + PageSize - 1) / PageSize;
    if pages < 1 then 1 else pages
  }

  /** Every product of the filtered list is on a page from 1 to `totalPages`, and page `totalPages` is never empty unless the list is. */
  lemma PagesCoverList(filtered: seq<ProductRow>, i: nat)
    requires i < |filtered|
    ensures 1 <= i / PageSize + 1 <= TotalPages(|filtered|)
    ensures |PageItems(filtered, TotalPages(|filtered|))| > 0
  {
    PagesPartition(i, i / PageSize + 1);
    var t := TotalPages(|filtered|);
    assert i / PageSize * PageSize <= i;
  }

  /**
   * `totalPages > 1`, the condition under which the list renders its
   * `Pagination` element: exactly when more than ten products match.
   */
  predicate ShowPagination(count: nat) {
    TotalPages(count) > 1
  }

  lemma ShowPaginationWhenMoreThanAPage(count: nat)
    ensures ShowPagination(count) <==> count > PageSize
  {
  }

  /**
   * What the list renders below the table. `Pagination` is imported from
   * components/Pagination.tsx, whose default export is the older sell page:
   * a component without props, so `currentPage`, `totalPages`, `baseUrl`
   * and the query are dropped and no page link is shown.
   */
  datatype Footer =
    | NoFooter
    | SellScreen
    | PageLinks(currentPage: Catalog.Num, totalPages: nat, baseUrl: string, query: string)

  /** The footer as written: the older sell page whenever there is more than one page. */
  function AsWrittenFooter(count: nat, page: Catalog.Num, query: string): (r: Footer)
    ensures r.PageLinks? == false
    ensures r.SellScreen? <==> count > PageSize
  {
    ShowPaginationWhenMoreThanAPage(count);
    if ShowPagination(count) then SellScreen else NoFooter
  }

  /**
   * With eleven matching products the eleventh is on page 2, which page 1
   * does not show, and the footer as written offers no link to it.
   */
  lemma AsWrittenHidesSecondPage(filtered: seq<ProductRow>)
    requires |filtered| == PageSize + 1
    ensures PageItems(filtered, 1) == filtered[..PageSize]
    ensures TotalPages(|filtered|) == 2
    ensures AsWrittenFooter(|filtered|, Page(None), "") == SellScreen
  {
    var r := PageItems(filtered, 1);
    assert r == filtered[..PageSize];
  }

  /** The footer as the props describe it: links to the pages of the current query, from the first to `totalPages`. */
  function IntendedFooter(count: nat, page: Catalog.Num, query: string): (r: Footer)
    ensures r.PageLinks? <==> count > PageSize
    ensures r.PageLinks? ==> r.totalPages == TotalPages(count) && r.currentPage == page && r.query == query
  {
    ShowPaginationWhenMoreThanAPage(count);
    if ShowPagination(count) then PageLinks(page, TotalPages(count), "/inventory", query) else NoFooter
  }

  /** When the list spans several pages, the intended footer links a page holding each matching product. */
  lemma FooterReachesEveryProduct(filtered: seq<ProductRow>, page: Catalog.Num, query: string, i: nat)
    requires i < |filtered| && |filtered| > PageSize
    ensures var f := IntendedFooter(|filtered|, page, query);
      && f.PageLinks?
      && 1 <= i / PageSize + 1 <= f.totalPages
      && filtered[i] in PageItems(filtered, i / PageSize + 1)
  {
    PagesCoverList(filtered, i);
    var p := i / PageSize + 1;
    var r := PageItems(filtered, p);
    assert Skip(p) <= i < Skip(p) + PageSize;
    assert r[i - Skip(p)] == filtered[i];
  }
}
