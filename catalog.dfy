/**
 * CatalogController::handle, the product listing: input normalisation,
 * the choice between WooCommerce's own pagination and PHP-side filtering,
 * the search predicate, the sort arguments and the pagination arithmetic.
 *
 * The product query is a parameter: `all` is what `wc_get_products` returns
 * for the arguments without limit and offset, in query order. The price
 * range test compares floats and is the parameter `priceOk`.
 */
module Catalog {
  import opened Php

  datatype Product = Product(id: int, name: string, sku: string, slug: string)

  datatype CatalogPage = CatalogPage(
    page: int, perPage: int, total: nat, totalPages: int,
    hasNext: bool, hasPrev: bool, data: seq<Product>)

  /** `$req->get_param($name)`: null when absent. */
  function Param(params: Value, name: string): Value {
    var v := Field(params, name);
    if v.Some? then v.value else Null
  }

  /** `max(1, (int) $v)`, the normalisation of `page` and `per_page`. */
  function AtLeastOne(v: Value): (r: int)
    ensures r >= 1
    ensures ToInt(v) >= 1 ==> r == ToInt(v)
  {
    var n := ToInt(v);
    if n < 1 then 1 else n
  }

  /** `trim(strtolower(sanitize_text_field($search ?? '')))`. */
  function SearchQuery(raw: Value): string {
    Trim(Lower(ToStr(Coalesce(Some(raw), Str("")))))
  }

  // ---------------------------------------------------------------------------
  // is_numeric

  /** PHP 8 `is_numeric`: integers, and numeric strings with optional leading and trailing white space. */
  predicate IsNumeric(v: Value) {
    match v
    case Int(_) => true
    case Str(s) => IsNumericString(s)
    case _ => false
  }

  // ---------------------------------------------------------------------------
  // Filtering

  /** The search test: the query occurs in lower-case `name sku slug`. */
  predicate Matches(p: Product, search: string) {
    IsSubstring(search, Lower(p.name + " " + p.sku + " " + p.slug))
  }

  predicate UsePhpFiltering(params: Value) {
    IsNumeric(Param(params, "min_price")) || IsNumeric(Param(params, "max_price"))
    || SearchQuery(Param(params, "search")) != ""
  }

  /** The `array_filter` closure. */
  predicate Keep(p: Product, search: string, hasPrice: bool, priceOk: Product -> bool) {
    (!hasPrice || priceOk(p)) && (search == "" || Matches(p, search))
  }

  /** `array_values(array_filter(...))`: the kept products in query order. */
  function Filter(all: seq<Product>, search: string, hasPrice: bool, priceOk: Product -> bool): seq<Product>
    decreases |all|
  {
    if all == [] then []
    else
      var p := all[|all| - 1];
      Filter(all[..|all| - 1], search, hasPrice, priceOk) + (if Keep(p, search, hasPrice, priceOk) then [p] else [])
  }

  // ---------------------------------------------------------------------------
  // Pagination

  /** `max(1, (int) ceil($total / $perPage))`. */
  function TotalPages(total: nat, perPage: int): (r: int)
    requires perPage >= 1
    ensures r >= 1
  {
    var pages := (total + perPage - 1) / perPage;
    if pages < 1 then 1 else pages
  }

  /** `array_slice($items, ($page - 1) * $perPage, $perPage)`. */
  function PageSlice<T>(items: seq<T>, page: int, perPage: int): seq<T>
    requires page >= 1 && perPage >= 1
  {
    var offset := (page - 1) * perPage;
    if offset >= |items| then []
    else if offset + perPage >= |items| then items[offset..]
    else items[offset..offset + perPage]
  }

  /**
   * CatalogController::handle. Without PHP-side filtering WooCommerce
   * pages the query with `limit`/`offset` and counts it separately; both
   * branches then amount to the same slice of the listed products.
   */
  function Handle(params: Value, all: seq<Product>, priceOk: Product -> bool): CatalogPage {
    var page := AtLeastOne(Param(params, "page"));
    var perPage := AtLeastOne(Param(params, "per_page"));
    var search := SearchQuery(Param(params, "search"));
    var hasPrice := IsNumeric(Param(params, "min_price")) || IsNumeric(Param(params, "max_price"));
    var listed := if UsePhpFiltering(params) then Filter(all, search, hasPrice, priceOk) else all;
    var totalPages := TotalPages(|listed|, perPage);
    CatalogPage(page, perPage, |listed|, totalPages, page < totalPages, page > 1, PageSlice(listed, page, perPage))
  }

  // ---------------------------------------------------------------------------
  // Sorting

  /** `strtolower($order) === 'asc' ? 'ASC' : 'DESC'`. */
  function SortOrder(order: Value): string {
    if Lower(ToStr(order)) == "asc" then "ASC" else "DESC"
  }

  /** The query arguments before sorting, filters and pagination are applied. */
  function BaseArgs(): Entries {
    [("status", Str("publish")), ("return", Str("objects")), ("orderby", Str("date")), ("order", Str("DESC"))]
  }

  /** The `switch ($orderby)`. */
  function SortArgs(args: Entries, orderby: string, order: string): Entries {
    if orderby == "price" then
      Put(Put(Put(args, "orderby", Str("meta_value_num")), "meta_key", Str("_price")), "order", Str(order))
    else if orderby == "title" then
      Put(Put(args, "orderby", Str("title")), "order", Str(order))
    else if orderby == "popularity" then
      Put(Put(Put(args, "orderby", Str("meta_value_num")), "meta_key", Str("total_sales")), "order", Str(order))
    else
      Put(Put(args, "orderby", Str("date")), "order", Str(order))
  }

  /** The sort arguments of a request: `orderby` defaults to `date`. */
  function RequestSortArgs(params: Value): Entries {
    SortArgs(BaseArgs(), ToStr(Coalesce(Field(params, "orderby"), Str("date"))), SortOrder(Param(params, "order")))
  }

  /** The WP_Query column and meta key each sort name stands for. */
  function SortColumn(orderby: string): (string, Option<string>) {
    match orderby
    case "price" => ("meta_value_num", Some("_price"))
    case "title" => ("title", None)
    case "popularity" => ("meta_value_num", Some("total_sales"))
    case _ => ("date", None)
  }

  // ---------------------------------------------------------------------------
  // Properties

  /** The normalised page and page size are at least 1, and there is always at least one page. */
  lemma HandleBounds(params: Value, all: seq<Product>, priceOk: Product -> bool)
    ensures var r := Handle(params, all, priceOk);
      && r.page >= 1 && r.perPage >= 1 && r.totalPages >= 1
      && |r.data| <= r.perPage
      && (r.hasPrev <==> r.page > 1) && (r.hasNext <==> r.page < r.totalPages)
      && r.total == (if UsePhpFiltering(params) then |Filter(all, SearchQuery(Param(params, "search")),
                       IsNumeric(Param(params, "min_price")) || IsNumeric(Param(params, "max_price")), priceOk)|
                     else |all|)
  {
    var page := AtLeastOne(Param(params, "page"));
    var perPage := AtLeastOne(Param(params, "per_page"));
    var search := SearchQuery(Param(params, "search"));
    var hasPrice := IsNumeric(Param(params, "min_price")) || IsNumeric(Param(params, "max_price"));
    var listed := if UsePhpFiltering(params) then Filter(all, search, hasPrice, priceOk) else all;
    var totalPages := TotalPages(|listed|, perPage);
    assert Handle(params, all, priceOk)
      == CatalogPage(page, perPage, |listed|, totalPages, page < totalPages, page > 1, PageSlice(listed, page, perPage));
    PageSliceShort(listed, page, perPage);
  }

  lemma PageSliceShort<T>(items: seq<T>, page: int, perPage: int)
    requires page >= 1 && perPage >= 1
    ensures |PageSlice(items, page, perPage)| <= perPage
  {
  }

  /** Enough pages to hold every item: `totalPages * perPage >= total`, with one page fewer not enough. */
  lemma TotalPagesCover(total: nat, perPage: int)
    requires perPage >= 1
    ensures TotalPages(total, perPage) * perPage >= total
    ensures total > 0 ==> (TotalPages(total, perPage) - 1) * perPage < total
  {
    var q := (total + perPage - 1) / perPage;
    var r := (total + perPage - 1) % perPage;
    assert total + perPage - 1 == q * perPage + r;
    if q < 1 {
      assert q == 0;
    }
  }

  /** The pages 1..n, concatenated. */
  function PagesUpTo<T>(items: seq<T>, perPage: int, n: nat): seq<T>
    requires perPage >= 1
  {
    if n == 0 then [] else PagesUpTo(items, perPage, n - 1) + PageSlice(items, n, perPage)
  }

  lemma {:induction false} PagesUpToPrefix<T>(items: seq<T>, perPage: int, n: nat)
    requires perPage >= 1
    ensures n * perPage <= |items| ==> PagesUpTo(items, perPage, n) == items[..n * perPage]
    ensures n * perPage > |items| ==> PagesUpTo(items, perPage, n) == items
  {
    if n > 0 {
      var offset := (n - 1) * perPage;
      PageOffset(n, perPage);
      PagesUpToPrefix(items, perPage, n - 1);
      var prev := PagesUpTo(items, perPage, n - 1);
      assert PagesUpTo(items, perPage, n) == prev + PageSlice(items, n, perPage);
      if offset >= |items| {
        assert prev == items by {
          assert items[..|items|] == items;
        }
      } else if offset + perPage >= |items| {
        assert prev == items[..offset];
        assert items[..offset] + items[offset..] == items;
      } else {
        assert prev == items[..offset];
        assert items[..offset] + items[offset..offset + perPage] == items[..offset + perPage];
      }
    }
  }

  lemma PageOffset(n: nat, perPage: int)
    requires n > 0 && perPage >= 1
    ensures 0 <= (n - 1) * perPage && (n - 1) * perPage + perPage == n * perPage
  {
  }

  /** The pages 1..totalPages list every item once, in order. */
  lemma PagesCoverList<T>(items: seq<T>, perPage: int)
    requires perPage >= 1
    ensures PagesUpTo(items, perPage, TotalPages(|items|, perPage)) == items
  {
    TotalPagesCover(|items|, perPage);
    PagesUpToPrefix(items, perPage, TotalPages(|items|, perPage));
  }

  lemma MulLe(a: int, b: int, c: int)
    requires a <= b && c >= 0
    ensures a * c <= b * c
  {
    assert b * c - a * c == (b - a) * c;
  }

  /** Each page before the last is full; `has_next` holds exactly when the next page has items. */
  lemma PageSizes<T>(items: seq<T>, page: int, perPage: int)
    requires page >= 1 && perPage >= 1
    ensures page < TotalPages(|items|, perPage) ==> |PageSlice(items, page, perPage)| == perPage
    ensures page < TotalPages(|items|, perPage) <==> PageSlice(items, page + 1, perPage) != []
  {
    TotalPagesCover(|items|, perPage);
    var tp := TotalPages(|items|, perPage);
    assert (page - 1) * perPage + perPage == page * perPage;
    if page < tp {
      MulLe(page, tp - 1, perPage);
      assert page * perPage < |items|;
    } else {
      MulLe(tp, page, perPage);
      assert page * perPage >= |items|;
    }
  }

  /** A product is kept exactly when it passes the closure; filtering keeps query order and never adds. */
  lemma {:induction false} FilterMembers(all: seq<Product>, search: string, hasPrice: bool, priceOk: Product -> bool)
    ensures forall p :: p in Filter(all, search, hasPrice, priceOk) <==> p in all && Keep(p, search, hasPrice, priceOk)
    ensures |Filter(all, search, hasPrice, priceOk)| <= |all|
    decreases |all|
  {
    if all != [] {
      var init := all[..|all| - 1];
      FilterMembers(init, search, hasPrice, priceOk);
      assert all == init + [all[|all| - 1]];
    }
  }

  /** Without a search and without a numeric price bound, WooCommerce pages the query itself. */
  lemma NativeBranch(params: Value, all: seq<Product>, priceOk: Product -> bool)
    requires !IsNumeric(Param(params, "min_price")) && !IsNumeric(Param(params, "max_price"))
    requires SearchQuery(Param(params, "search")) == ""
    ensures Handle(params, all, priceOk).total == |all|
  {
  }

  lemma LowerAppend(a: string, b: string)
    ensures Lower(a + b) == Lower(a) + Lower(b)
  {
  }

  lemma LowerIdempotent(s: string)
    ensures Lower(Lower(s)) == Lower(s)
  {
  }

  /** A query found in the lower-cased name, SKU or slug matches the product. */
  lemma MatchesAnyField(p: Product, search: string)
    requires IsSubstring(search, Lower(p.name)) || IsSubstring(search, Lower(p.sku)) || IsSubstring(search, Lower(p.slug))
    ensures Matches(p, search)
  {
    var ln, lk, ls := Lower(p.name), Lower(p.sku), Lower(p.slug);
    var h := ln + " " + lk + " " + ls;
    LowerFields(p);
    if IsSubstring(search, ln) {
      assert h[0..|ln|] == ln;
      SubstringOfPart(search, ln, h, 0);
    } else if IsSubstring(search, lk) {
      assert h[|ln| + 1..|ln| + 1 + |lk|] == lk;
      SubstringOfPart(search, lk, h, |ln| + 1);
    } else {
      assert h[|ln| + |lk| + 2..|h|] == ls;
      SubstringOfPart(search, ls, h, |ln| + |lk| + 2);
    }
  }

  /** Lower-casing the searched text lower-cases each field and keeps the separating spaces. */
  lemma LowerFields(p: Product)
    ensures Lower(p.name + " " + p.sku + " " + p.slug) == Lower(p.name) + " " + Lower(p.sku) + " " + Lower(p.slug)
  {
    LowerAppend(p.name + " " + p.sku + " ", p.slug);
    LowerAppend(p.name + " " + p.sku, " ");
    LowerAppend(p.name + " ", p.sku);
    LowerAppend(p.name, " ");
  }

  lemma SubstringOfPart(search: string, part: string, h: string, at: nat)
    requires at + |part| <= |h| && h[at..at + |part|] == part
    requires IsSubstring(search, part)
    ensures IsSubstring(search, h)
  {
    SubstringAt(part, h, at);
    SubstringTransitive(search, part, h);
  }

  /** The search is case-insensitive: a query differing only in letter case filters the same. */
  lemma SearchIgnoresCase(raw: string)
    ensures SearchQuery(Str(Lower(raw))) == SearchQuery(Str(raw))
  {
    LowerIdempotent(raw);
  }

  /** `ASC` only for `asc` in any letter case, `DESC` for everything else, a missing param included. */
  lemma SortOrderRule(s: string)
    ensures SortOrder(Str(s)) == "ASC" <==> Lower(s) == "asc"
    ensures SortOrder(Str("ASC")) == "ASC" && SortOrder(Str("Asc")) == "ASC"
    ensures SortOrder(Null) == "DESC" && SortOrder(Str("desc")) == "DESC"
  {
    assert Lower("ASC") == "asc" && Lower("Asc") == "asc";
    assert Lower("desc") == "desc";
  }

  /**
   * The switch sets `orderby` to the column of the sort name, `order` to
   * the requested direction, and `meta_key` for price and popularity only;
   * names other than price, title and popularity sort by date.
   */
  lemma SortMapping(orderby: string, order: string)
    ensures var r := SortArgs(BaseArgs(), orderby, order);
      var (column, metaKey) := SortColumn(orderby);
      && Lookup(r, "orderby") == Some(Str(column))
      && Lookup(r, "order") == Some(Str(order))
      && Lookup(r, "meta_key") == (if metaKey.Some? then Some(Str(metaKey.value)) else None)
      && Lookup(r, "status") == Some(Str("publish"))
  {
    var b := BaseArgs();
    var (column, metaKey) := SortColumn(orderby);
    assert Lookup(b, "status") == Some(Str("publish"));
    assert !HasKey(b, "meta_key");
    SortArgsWrite(b, orderby, order);
    WriteSortEffect(b, column, metaKey, order);
  }

  /** Each `case` of the switch is the three writes for its column and meta key. */
  lemma SortArgsWrite(args: Entries, orderby: string, order: string)
    ensures SortArgs(args, orderby, order) == WriteSort(args, SortColumn(orderby).0, SortColumn(orderby).1, order)
  {
    if orderby == "price" {
      assert SortColumn(orderby) == ("meta_value_num", Some("_price"));
    } else if orderby == "title" {
      assert SortColumn(orderby) == ("title", None);
    } else if orderby == "popularity" {
      assert SortColumn(orderby) == ("meta_value_num", Some("total_sales"));
    } else {
      assert SortColumn(orderby) == ("date", None);
    }
  }

  /** The three writes of one `case` of the switch. */
  function WriteSort(args: Entries, column: string, metaKey: Option<string>, order: string): Entries {
    var o1 := Put(args, "orderby", Str(column));
    var o2 := if metaKey.Some? then Put(o1, "meta_key", Str(metaKey.value)) else o1;
    Put(o2, "order", Str(order))
  }

  lemma WriteSortEffect(b: Entries, column: string, metaKey: Option<string>, order: string)
    requires Lookup(b, "status") == Some(Str("publish")) && !HasKey(b, "meta_key")
    ensures var r := WriteSort(b, column, metaKey, order);
      && Lookup(r, "orderby") == Some(Str(column))
      && Lookup(r, "order") == Some(Str(order))
      && Lookup(r, "meta_key") == (if metaKey.Some? then Some(Str(metaKey.value)) else None)
      && Lookup(r, "status") == Some(Str("publish"))
  {
    var o1 := Put(b, "orderby", Str(column));
    PutFind(b, "orderby", Str(column));
    PutOther(b, "orderby", Str(column), "meta_key");
    PutOther(b, "orderby", Str(column), "status");
    var o2 := if metaKey.Some? then Put(o1, "meta_key", Str(metaKey.value)) else o1;
    if metaKey.Some? {
      PutFind(o1, "meta_key", Str(metaKey.value));
      PutOther(o1, "meta_key", Str(metaKey.value), "orderby");
      PutOther(o1, "meta_key", Str(metaKey.value), "status");
    }
    PutFind(o2, "order", Str(order));
    PutOther(o2, "order", Str(order), "orderby");
    PutOther(o2, "order", Str(order), "meta_key");
    PutOther(o2, "order", Str(order), "status");
  }

  /** `is_numeric` accepts integers, decimals (leading white space allowed) and exponents. */
  lemma NumericAccepted()
    ensures IsNumeric(Str("10")) && IsNumeric(Str(" 12.5")) && IsNumeric(Str("1e3")) && IsNumeric(Int(0))
  {
    IntegerNumeric();
    DecimalNumeric();
    ExponentNumeric();
  }

  lemma IntegerNumeric()
    ensures IsNumeric(Str("10"))
  {
    assert SkipSpaces("10") == "10" && SkipSpacesRight("10") == "10";
    assert NumericPrefix("10").value.end == 2;
  }

  lemma DecimalNumeric()
    ensures IsNumeric(Str(" 12.5"))
  {
    assert SkipSpaces(" 12.5") == "12.5" && SkipSpacesRight("12.5") == "12.5";
    assert NumericPrefix("12.5").value.end == 4;
  }

  lemma ExponentNumeric()
    ensures IsNumeric(Str("1e3"))
  {
    assert SkipSpaces("1e3") == "1e3" && SkipSpacesRight("1e3") == "1e3";
    assert ExponentFollows("1e3", 2);
    assert NumericPrefix("1e3").value.end == 3;
  }

  /** `is_numeric` rejects the empty string, a lone dot, words, trailing garbage and null. */
  lemma NumericRejected()
    ensures !IsNumeric(Str("")) && !IsNumeric(Str(".")) && !IsNumeric(Str("abc")) && !IsNumeric(Str("1x")) && !IsNumeric(Null)
  {
    assert !IsNumeric(Str(".")) by {
      assert SkipSpaces(".") == "." && SkipSpacesRight(".") == ".";
      assert NumericPrefix(".") == None;
    }
    assert !IsNumeric(Str("abc")) by {
      assert SkipSpaces("abc") == "abc" && SkipSpacesRight("abc") == "abc";
      assert NumericPrefix("abc") == None;
    }
    assert !IsNumeric(Str("1x")) by {
      assert SkipSpaces("1x") == "1x" && SkipSpacesRight("1x") == "1x";
      assert NumericPrefix("1x").value.end == 1;
    }
  }
}
