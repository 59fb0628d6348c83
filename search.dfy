/**
 * The search page: the query read from the address's parameters, the
 * server's matches narrowed by category and price, ordered and cut into
 * pages of twelve; and the parameters written back when a filter changes.
 *
 * The server's search is a parameter: `found` is what it returned, or None
 * when the request failed.
 */
module Search {
  import opened Seqs
  import opened Strings
  import opened Listing

  const PageSize := 12
  const DefaultMinPrice := 0
  const DefaultMaxPrice := 1000000

  /** The parameter texts the page falls back on for the page and the price bounds. */
  const FirstPageText: string := "1"
  const MinPriceText: string := "0"
  const MaxPriceText: string := "1000000"

  /** A search hit: its name, its price in đồng and the id of its category, if it has one. */
  datatype Product = Product(id: int, name: string, price: int, category: Option<int>)

  /** The address's query parameters the page reads and writes. */
  datatype Key = Q | Page | Sort | CategoryId | MinPrice | MaxPrice

  /** The address's query parameters, by name. */
  type Params = map<Key, string>

  /** `searchParams.get(key) || fallback`: a missing or empty parameter takes the fallback. */
  function OrDefault(params: Params, key: Key, fallback: string): string
  {
    if key in params && params[key] != "" then params[key] else fallback
  }

  /** What the page reads from its parameters; an unreadable number is `None` (NaN). */
  datatype Query = Query(q: string, page: Option<int>, sort: string, category: Option<int>,
                         minPrice: Option<int>, maxPrice: Option<int>)

  function ReadQuery(params: Params): Query
  {
    Query(OrDefault(params, Q, ""),
          ParseInt(OrDefault(params, Page, FirstPageText)),
          OrDefault(params, Sort, "latest"),
          if CategoryId in params && params[CategoryId] != "" then ParseInt(params[CategoryId]) else None,
          ParseInt(OrDefault(params, MinPrice, MinPriceText)),
          ParseInt(OrDefault(params, MaxPrice, MaxPriceText)))
  }

  /** A number written in decimal reads back as itself. */
  lemma ParseNatString(n: nat)
    ensures ParseInt(NatToString(n)) == Some(n)
  {
    NatToStringValue(n);
    DigitsFirst(NatToString(n), []);
    assert NatToString(n) + [] == NatToString(n);
  }

  /** The numbers the page falls back on read as themselves. */
  lemma DefaultNumbers()
    ensures ParseInt(FirstPageText) == Some(1) && ParseInt(MinPriceText) == Some(DefaultMinPrice)
    ensures ParseInt(MaxPriceText) == Some(DefaultMaxPrice)
  {
    ParseOne();
    ParseZero();
    ParseMillion();
  }

  lemma ParseOne()
    ensures ParseInt("1") == Some(1)
  {
    ParseNatString(1);
  }

  lemma ParseZero()
    ensures ParseInt("0") == Some(0)
  {
    ParseNatString(0);
  }

  lemma ParseMillion()
    ensures ParseInt("1000000") == Some(1000000)
  {
    ParseNatString(1000000);
    MillionDigits();
  }

  lemma MillionDigits()
    ensures NatToString(1000000) == "1000000"
  {
  }

  /** With no parameters: empty query, first page, newest first, no category and the default price bounds. */
  lemma ReadQueryDefaults()
    ensures ReadQuery(map[]) == Query("", Some(1), "latest", None, Some(DefaultMinPrice), Some(DefaultMaxPrice))
  {
    DefaultNumbers();
  }

  /** `if (categoryId)`: a missing, unreadable or zero category does not filter. */
  predicate CategoryOn(category: Option<int>)
  {
    category.Some? && category.value != 0
  }

  /** `minPrice !== 0 || maxPrice !== 1000000`; NaN differs from both. */
  predicate PriceOn(query: Query)
  {
    query.minPrice != Some(DefaultMinPrice) || query.maxPrice != Some(DefaultMaxPrice)
  }

  /** `product.category && product.category.id === categoryId`. */
  function InCategory(category: Option<int>): Product -> bool
  {
    (p: Product) => p.category.Some? && category.Some? && p.category.value == category.value
  }

  /** Both bounds inclusive; a comparison with NaN is false, so an unreadable bound lets nothing through. */
  function InPriceRange(lo: Option<int>, hi: Option<int>): Product -> bool
  {
    (p: Product) => lo.Some? && hi.Some? && lo.value <= p.price && p.price <= hi.value
  }

  /** A product passes every filter the query switches on. */
  predicate Matches(p: Product, query: Query)
  {
    (CategoryOn(query.category) ==> p.category == query.category) &&
    (PriceOn(query) ==> InPriceRange(query.minPrice, query.maxPrice)(p))
  }

  function MatchesQuery(query: Query): Product -> bool
  {
    (p: Product) => Matches(p, query)
  }

  /** The category filter, then the price filter, each only when switched on. */
  function Filtered(found: seq<Product>, query: Query): seq<Product>
  {
    var byCategory := if CategoryOn(query.category) then Filter(found, InCategory(query.category)) else found;
    if PriceOn(query) then Filter(byCategory, InPriceRange(query.minPrice, query.maxPrice)) else byCategory
  }

  /** The two filters together keep exactly the matching products, in search order. */
  lemma FilteredSpec(found: seq<Product>, query: Query)
    ensures Filtered(found, query) == Filter(found, MatchesQuery(query))
    ensures forall x :: x in Filtered(found, query) <==> x in found && Matches(x, query)
    ensures IsSubsequence(Filtered(found, query), found)
  {
    var cat := InCategory(query.category);
    var price := InPriceRange(query.minPrice, query.maxPrice);
    var m := MatchesQuery(query);
    if CategoryOn(query.category) && PriceOn(query) {
      FilterFilter(found, cat, price, m);
    } else if CategoryOn(query.category) {
      FilterSame(found, cat, m);
    } else if PriceOn(query) {
      FilterSame(found, price, m);
    } else {
      FilterKeepsAll(found, m);
    }
    FilterIsSubsequence(found, m);
  }

  lemma FilterSame(s: seq<Product>, p: Product -> bool, q: Product -> bool)
    requires forall x :: p(x) == q(x)
    ensures Filter(s, p) == Filter(s, q)
  {
    FilterFilter(s, p, p, q);
    FilterFilter(s, q, q, q);
    FilterKeepsAll(Filter(s, q), q);
    FilterKeepsAll(Filter(s, p), p);
  }

  /** At the default bounds and without a category nothing is filtered, not even products dearer than the upper bound. */
  lemma DefaultBoundsKeepEverything(found: seq<Product>, query: Query)
    requires !CategoryOn(query.category)
    requires query.minPrice == Some(DefaultMinPrice) && query.maxPrice == Some(DefaultMaxPrice)
    ensures Filtered(found, query) == found
  {
  }

  /** An unreadable price bound hides every product. */
  lemma UnreadableBoundHidesAll(found: seq<Product>, query: Query)
    requires query.minPrice.None? || query.maxPrice.None?
    ensures Filtered(found, query) == []
  {
    FilteredSpec(found, query);
  }

  function ByPriceAscending(): (Product, Product) -> bool { (a: Product, b: Product) => a.price <= b.price }
  function ByPriceDescending(): (Product, Product) -> bool { (a: Product, b: Product) => b.price <= a.price }
  function ByNameAscending(): (Product, Product) -> bool { (a: Product, b: Product) => StrLe(a.name, b.name) }
  function ByNameDescending(): (Product, Product) -> bool { (a: Product, b: Product) => StrLe(b.name, a.name) }

  lemma OrdersArePreorders()
    ensures TotalPreorder(ByPriceAscending()) && TotalPreorder(ByPriceDescending())
    ensures TotalPreorder(ByNameAscending()) && TotalPreorder(ByNameDescending())
  {
    StrLeTotalPreorder();
  }

  /** The comparator the sort parameter names; any other value keeps search order. */
  function Ordered(s: seq<Product>, sort: string): seq<Product>
  {
    OrdersArePreorders();
    if sort == "price-asc" then SortBy(s, ByPriceAscending())
    else if sort == "price-desc" then SortBy(s, ByPriceDescending())
    else if sort == "name-asc" then SortBy(s, ByNameAscending())
    else if sort == "name-desc" then SortBy(s, ByNameDescending())
    else s
  }

  /** Ordering keeps the same products and puts them in the order the sort parameter asks for. */
  lemma OrderedSpec(s: seq<Product>, sort: string)
    ensures var r := Ordered(s, sort);
      multiset(r) == multiset(s) && |r| == |s| && (forall x :: x in r <==> x in s) &&
      (sort == "price-asc" ==> forall i, j :: 0 <= i < j < |r| ==> r[i].price <= r[j].price) &&
      (sort == "price-desc" ==> forall i, j :: 0 <= i < j < |r| ==> r[i].price >= r[j].price) &&
      (sort == "name-asc" ==> forall i, j :: 0 <= i < j < |r| ==> StrLe(r[i].name, r[j].name)) &&
      (sort == "name-desc" ==> forall i, j :: 0 <= i < j < |r| ==> StrLe(r[j].name, r[i].name)) &&
      (sort !in {"price-asc", "price-desc", "name-asc", "name-desc"} ==> r == s)
  {
    var r := Ordered(s, sort);
    OrdersArePreorders();
    forall x
      ensures x in r <==> x in s
    {
      assert x in r <==> x in multiset(r);
    }
    if sort == "price-asc" {
      assert SortedBy(r, ByPriceAscending());
    } else if sort == "price-desc" {
      assert SortedBy(r, ByPriceDescending());
    } else if sort == "name-asc" {
      assert SortedBy(r, ByNameAscending());
    } else if sort == "name-desc" {
      assert SortedBy(r, ByNameDescending());
    }
  }

  /** `Math.ceil(n / 12)`, or 1 when there is nothing to show. */
  function TotalPages(n: nat): (c: nat)
    ensures c >= 1 && n <= c * PageSize
    ensures c > 1 ==> (c - 1) * PageSize < n
  {
    var calculated := PageCount(n, PageSize);
    if calculated > 0 then calculated else 1
  }

  /** The page's slice; a NaN page gives `slice(NaN, NaN)`, which is empty. */
  function Shown(ordered: seq<Product>, page: Option<int>): seq<Product>
  {
    if page.None? then [] else PageOf(ordered, page.value, PageSize)
  }

  /** What the page shows: its products, the number of matches and the number of pages. */
  datatype SearchResult = SearchResult(products: seq<Product>, totalItems: nat, totalPages: nat)

  /** The counts and the page's slice of the ordered matches. */
  function Paged(ordered: seq<Product>, page: Option<int>): SearchResult
  {
    SearchResult(Shown(ordered, page), |ordered|, TotalPages(|ordered|))
  }

  /** The page's state after a search with this query, as a function of what the server returned. */
  function Results(query: Query, found: Option<seq<Product>>): SearchResult
  {
    if Trim(query.q) == "" || found.None? then SearchResult([], 0, 1)
    else Paged(Ordered(Filtered(found.value, query), query.sort), query.page)
  }

  /**
   * The search effect: no query (or a failed request) shows nothing on one
   * page; otherwise filter, sort, count and slice.
   */
  method RunSearch(params: Params, found: Option<seq<Product>>) returns (result: SearchResult)
    ensures result == Results(ReadQuery(params), found)
  {
    var query := ReadQuery(params);
    if Trim(query.q) == "" || found.None? {
      return SearchResult([], 0, 1);
    }
    var filteredResults := ApplyFilters(found.value, query);
    filteredResults := ApplySort(filteredResults, query.sort);
    result := Paginate(filteredResults, query.page);
  }

  /** The category filter, then the price filter, each reassigning the working list. */
  method ApplyFilters(searchResults: seq<Product>, query: Query) returns (filteredResults: seq<Product>)
    ensures filteredResults == Filtered(searchResults, query)
  {
    filteredResults := searchResults;
    if CategoryOn(query.category) {
      filteredResults := Filter(filteredResults, InCategory(query.category));
    }
    if PriceOn(query) {
      filteredResults := Filter(filteredResults, InPriceRange(query.minPrice, query.maxPrice));
    }
  }

  /** The sort the parameter names, applied to the working list. */
  method ApplySort(filtered: seq<Product>, sort: string) returns (filteredResults: seq<Product>)
    ensures filteredResults == Ordered(filtered, sort)
  {
    filteredResults := filtered;
    OrdersArePreorders();
    if sort == "price-asc" {
      filteredResults := SortBy(filteredResults, ByPriceAscending());
    } else if sort == "price-desc" {
      filteredResults := SortBy(filteredResults, ByPriceDescending());
    } else if sort == "name-asc" {
      filteredResults := SortBy(filteredResults, ByNameAscending());
    } else if sort == "name-desc" {
      filteredResults := SortBy(filteredResults, ByNameDescending());
    }
  }

  /** The item count, the page count and the requested page's slice. */
  method Paginate(filteredResults: seq<Product>, currentPage: Option<int>) returns (result: SearchResult)
    ensures result == Paged(filteredResults, currentPage)
  {
    var totalItems := |filteredResults|;
    var calculatedTotalPages := PageCount(totalItems, PageSize);
    var totalPages := if calculatedTotalPages > 0 then calculatedTotalPages else 1;
    var products: seq<Product> := [];
    if currentPage.Some? {
      var startIndex := (currentPage.value - 1) * PageSize;
      var endIndex := startIndex + PageSize;
      products := Slice(filteredResults, startIndex, endIndex);
    }
    result := SearchResult(products, totalItems, totalPages);
  }

  /** A blank query, or a failed request, shows nothing on a single page. */
  lemma BlankQueryShowsNothing(query: Query, found: Option<seq<Product>>)
    requires IsBlank(query.q) || found.None?
    ensures Results(query, found) == SearchResult([], 0, 1)
  {
    TrimEmptyIffBlank(query.q);
  }

  /**
   * The count is the list's length, the page count covers it with no page to
   * spare, and a page from the first on shows at most twelve of its items.
   */
  lemma PagedSpec(ordered: seq<Product>, page: Option<int>)
    ensures var r := Paged(ordered, page);
      r.totalItems == |ordered| && r.totalPages >= 1 && r.totalItems <= r.totalPages * PageSize &&
      (r.totalPages > 1 ==> (r.totalPages - 1) * PageSize < r.totalItems) &&
      (page.Some? && page.value >= 1 ==> |r.products| <= PageSize) &&
      (forall x :: x in r.products ==> x in ordered)
  {
    if page.Some? && page.value >= 1 {
      PageContents(ordered, page.value, PageSize);
    }
  }

  /**
   * With a query, the count is the number of matching hits, the page count
   * covers them, and a page from the first on shows at most twelve products,
   * each of them a matching hit.
   */
  lemma ResultsSpec(query: Query, found: seq<Product>)
    requires !IsBlank(query.q)
    ensures var r := Results(query, Some(found));
      r.totalItems == Count(found, MatchesQuery(query)) &&
      r.totalPages >= 1 && r.totalItems <= r.totalPages * PageSize &&
      (r.totalPages > 1 ==> (r.totalPages - 1) * PageSize < r.totalItems) &&
      (query.page.Some? && query.page.value >= 1 ==> |r.products| <= PageSize) &&
      (forall x :: x in r.products ==> x in found && Matches(x, query))
  {
    TrimEmptyIffBlank(query.q);
    var filtered := Filtered(found, query);
    var ordered := Ordered(filtered, query.sort);
    FilteredSpec(found, query);
    OrderedSpec(filtered, query.sort);
    PagedSpec(ordered, query.page);
    assert Results(query, Some(found)) == Paged(ordered, query.page);
  }

  /** With a query, the page's state is the paging of the ordered matches. */
  lemma ResultsPaged(query: Query, found: seq<Product>)
    requires !IsBlank(query.q)
    ensures Results(query, Some(found)) == Paged(Ordered(Filtered(found, query), query.sort), query.page)
  {
    TrimEmptyIffBlank(query.q);
  }

  /** The item at index i of a list is shown on page i / 12 + 1, which is one of its pages. */
  lemma ShownOnItsPage(ordered: seq<Product>, i: int)
    requires 0 <= i < |ordered|
    ensures 1 <= i / PageSize + 1 <= TotalPages(|ordered|)
    ensures ordered[i] in Shown(ordered, Some(i / PageSize + 1))
  {
    EveryItemOnAPage(ordered, PageSize, i);
  }

  /** A matching hit has a place in the ordered matches. */
  lemma MatchIndex(query: Query, found: seq<Product>, x: Product) returns (i: int)
    requires x in found && Matches(x, query)
    ensures 0 <= i < |Ordered(Filtered(found, query), query.sort)|
    ensures Ordered(Filtered(found, query), query.sort)[i] == x
  {
    var filtered := Filtered(found, query);
    var ordered := Ordered(filtered, query.sort);
    FilteredSpec(found, query);
    OrderedSpec(filtered, query.sort);
    i :| 0 <= i < |ordered| && ordered[i] == x;
  }

  /** The ordered match at index i is shown when the query asks for page i / 12 + 1. */
  lemma ShownWithPage(query: Query, found: seq<Product>, i: int)
    requires !IsBlank(query.q)
    requires 0 <= i < |Ordered(Filtered(found, query), query.sort)|
    ensures Ordered(Filtered(found, query), query.sort)[i] in
      Results(query.(page := Some(i / PageSize + 1)), Some(found)).products
  {
    var ordered := Ordered(Filtered(found, query), query.sort);
    ShownOnItsPage(ordered, i);
    var page := i / PageSize + 1;
    var other := query.(page := Some(page));
    assert other.q == query.q && other.sort == query.sort && other.page == Some(page);
    assert Filtered(found, other) == Filtered(found, query);
    ResultsPaged(other, found);
    assert Results(other, Some(found)) == Paged(ordered, Some(page));
  }

  /** Every matching hit is shown on some page between the first and the last. */
  lemma EveryMatchOnSomePage(query: Query, found: seq<Product>, x: Product) returns (page: int)
    requires !IsBlank(query.q)
    requires x in found && Matches(x, query)
    ensures 1 <= page <= Results(query, Some(found)).totalPages
    ensures x in Results(query.(page := Some(page)), Some(found)).products
  {
    var i := MatchIndex(query, found, x);
    ShownOnItsPage(Ordered(Filtered(found, query), query.sort), i);
    ShownWithPage(query, found, i);
    ResultsPaged(query, found);
    page := i / PageSize + 1;
  }

  /** The filters a shopper picks; an empty text is an unset filter. */
  datatype Filters = Filters(sort: string, category: string, priceRange: string)

  /** The parameters `handleFilterChange` writes: the query kept, page 1, and each set filter. */
  function FilterParams(searchQuery: string, filters: Filters): Params
  {
    var withQuery: Params := if searchQuery != "" then map[Q := searchQuery] else map[];
    var withPage := withQuery[Page := "1"];
    var withSort := if filters.sort != "" then withPage[Sort := filters.sort] else withPage;
    var withCategory := if filters.category != "" then withSort[CategoryId := filters.category] else withSort;
    if Contains(filters.priceRange, "-") then
      var bounds := PriceBounds(filters.priceRange);
      withCategory[MinPrice := bounds.0][MaxPrice := bounds.1]
    else withCategory
  }

  /** `const [min, max] = priceRange.split('-')` for a range holding a "-". */
  function PriceBounds(priceRange: string): (string, string)
    requires Contains(priceRange, "-")
  {
    ContainsChar(priceRange, '-');
    SplitFirstTwo(priceRange, '-');
    var parts := Split(priceRange, '-');
    (parts[0], parts[1])
  }

  /** `handleFilterChange`: a fresh parameter set, filled by successive `set` calls. */
  method HandleFilterChange(searchQuery: string, filters: Filters) returns (newParams: Params)
    ensures newParams == FilterParams(searchQuery, filters)
  {
    newParams := map[];
    if searchQuery != "" {
      newParams := newParams[Q := searchQuery];
    }
    newParams := newParams[Page := "1"];
    if filters.sort != "" {
      newParams := newParams[Sort := filters.sort];
    }
    if filters.category != "" {
      newParams := newParams[CategoryId := filters.category];
    }
    if Contains(filters.priceRange, "-") {
      var bounds := PriceBounds(filters.priceRange);
      newParams := newParams[MinPrice := bounds.0];
      newParams := newParams[MaxPrice := bounds.1];
    }
  }

  /** Which parameters a filter change writes, and their values. */
  lemma FilterParamsSpec(searchQuery: string, filters: Filters)
    ensures var p := FilterParams(searchQuery, filters);
      (Q in p <==> searchQuery != "") && (Q in p ==> p[Q] == searchQuery) &&
      Page in p && p[Page] == "1" &&
      (Sort in p <==> filters.sort != "") && (Sort in p ==> p[Sort] == filters.sort) &&
      (CategoryId in p <==> filters.category != "") && (CategoryId in p ==> p[CategoryId] == filters.category) &&
      (MinPrice in p <==> Contains(filters.priceRange, "-")) && (MaxPrice in p <==> Contains(filters.priceRange, "-")) &&
      (Contains(filters.priceRange, "-") ==>
        p[MinPrice] == PriceBounds(filters.priceRange).0 && p[MaxPrice] == PriceBounds(filters.priceRange).1)
  {
  }

  /**
   * Reading back the parameters a filter change wrote gives the same query
   * on page 1 with the chosen sort and category; a price range without "-"
   * leaves the price filter off.
   */
  lemma FilterChangeRoundTrip(searchQuery: string, filters: Filters)
    ensures var query := ReadQuery(FilterParams(searchQuery, filters));
      query.q == searchQuery && query.page == Some(1) &&
      query.sort == (if filters.sort == "" then "latest" else filters.sort) &&
      query.category == (if filters.category == "" then None else ParseInt(filters.category)) &&
      (!Contains(filters.priceRange, "-") ==> !PriceOn(query))
  {
    var p := FilterParams(searchQuery, filters);
    FilterParamsSpec(searchQuery, filters);
    assert OrDefault(p, Page, FirstPageText) == FirstPageText;
    DefaultNumbers();
    if !Contains(filters.priceRange, "-") {
      assert OrDefault(p, MinPrice, MinPriceText) == MinPriceText;
      assert OrDefault(p, MaxPrice, MaxPriceText) == MaxPriceText;
    }
  }

  /** The two numbers of "lo-hi" written in decimal are split apart again. */
  lemma PriceBoundsOfNumbers(lo: nat, hi: nat)
    ensures var s := NatToString(lo) + "-" + NatToString(hi);
      Contains(s, "-") && PriceBounds(s) == (NatToString(lo), NatToString(hi))
  {
    var a := NatToString(lo);
    var b := NatToString(hi);
    var s := a + "-" + b;
    assert '-' !in a && '-' !in b;
    FirstSeparator(a, '-', b);
    ContainsChar(s, '-');
    SplitFirstTwo(s, '-');
    SplitHead(b, '-');
  }

  /** A range "lo-hi" written with decimal numbers sets exactly those price bounds. */
  lemma PriceRangeRoundTrip(searchQuery: string, filters: Filters, lo: nat, hi: nat)
    requires filters.priceRange == NatToString(lo) + "-" + NatToString(hi)
    ensures var query := ReadQuery(FilterParams(searchQuery, filters));
      query.minPrice == Some(lo) && query.maxPrice == Some(hi)
  {
    PriceBoundsOfNumbers(lo, hi);
    FilterParamsSpec(searchQuery, filters);
    ParseNatString(lo);
    ParseNatString(hi);
  }
}
