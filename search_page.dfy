/**
 * The search page: it fetches the first page of 50 products and filters it in the browser,
 * keeping a product when the query, ignoring ASCII letter case, occurs in its name, description,
 * category name or brand name.
 *
 * The filter as written reads `description` and `categoryName` as strings, but the backend sends
 * a null description for a product created without one. The model keeps both the filter as
 * written, which fails on such a product, and a corrected filter that treats a null field as not
 * matching, which the page below uses.
 */
module SearchPage {
  import opened Wrappers
  import opened Strings
  import opened Browser
  import opened ApiClient
  import opened ProductService
  import ProductRepository
  import Entities

  const PageSize := 50

  /** The page of products the listing endpoint answers with; `content` may be missing. */
  datatype ProductPage = ProductPage(content: Option<seq<ProductResponse>>)

  /** The requests the page makes: the product listing, by page number and size. */
  datatype Request = ListProducts(page: int, size: int)

  /** `searchParams.get('q') || ''`. */
  function QueryOf(param: Option<string>): string {
    if param.Some? then param.value else ""
  }

  /** `field.toLowerCase().includes(query.toLowerCase())`. */
  predicate Hit(field: string, query: string) {
    Contains(ToLower(field), ToLower(query))
  }

  /** The text fields a product is searched in: name, description, category name and brand name,
      each when present. */
  function SearchedFields(p: ProductResponse): seq<string> {
    [p.name]
    + (if p.description.Some? then [p.description.value] else [])
    + (if p.categoryName.Some? then [p.categoryName.value] else [])
    + (if p.brandName.Some? then [p.brandName.value] else [])
  }

  /** The corrected match: a null field does not match. */
  predicate Matches(p: ProductResponse, query: string) {
    || Hit(p.name, query)
    || (p.description.Some? && Hit(p.description.value, query))
    || (p.categoryName.Some? && Hit(p.categoryName.value, query))
    || (p.brandName.Some? && p.brandName.value != "" && Hit(p.brandName.value, query))
  }

  /** For a non-empty query, a product matches exactly when the query occurs in one of its present
      text fields. */
  lemma MatchesIffSomeField(p: ProductResponse, query: string)
    requires query != ""
    ensures Matches(p, query) <==> exists i :: 0 <= i < |SearchedFields(p)| && Hit(SearchedFields(p)[i], query)
  {
    var fs := SearchedFields(p);
    if p.brandName.Some? && p.brandName.value == "" {
      ContainsLength(ToLower(""), ToLower(query));
    }
    if Matches(p, query) {
      if Hit(p.name, query) {
        assert fs[0] == p.name;
      } else if p.description.Some? && Hit(p.description.value, query) {
        assert fs[1] == p.description.value;
      } else if p.categoryName.Some? && Hit(p.categoryName.value, query) {
        var k := if p.description.Some? then 2 else 1;
        assert fs[k] == p.categoryName.value;
      } else {
        var k := |fs| - 1;
        assert fs[k] == p.brandName.value;
      }
    }
  }

  /** A product without a brand is kept only through its other fields. */
  lemma NoBrandNeverMatchesOnBrand(p: ProductResponse, query: string)
    requires p.brandName.None?
    ensures Matches(p, query) <==>
      Hit(p.name, query) || (p.description.Some? && Hit(p.description.value, query))
      || (p.categoryName.Some? && Hit(p.categoryName.value, query))
  {
  }

  /** The match ignores the query's letter case. */
  lemma MatchIgnoresQueryCase(p: ProductResponse, query: string)
    ensures Matches(p, ToLower(query)) <==> Matches(p, query)
  {
    ToLowerIdempotent(query);
  }

  /** The corrected filter: the matching products, in order. */
  function Filter(products: seq<ProductResponse>, query: string): (r: seq<ProductResponse>)
    ensures |r| <= |products|
    decreases |products|
  {
    if |products| == 0 then []
    else (if Matches(products[0], query) then [products[0]] else []) + Filter(products[1..], query)
  }

  /** The filter keeps exactly the matching products. */
  lemma {:induction false} FilterKeeps(products: seq<ProductResponse>, query: string)
    ensures forall p :: p in Filter(products, query) <==> p in products && Matches(p, query)
    decreases |products|
  {
    if |products| > 0 {
      FilterKeeps(products[1..], query);
      assert products == [products[0]] + products[1..];
    }
  }

  /** The filter distributes over concatenation, so it keeps the relative order of what it keeps. */
  lemma {:induction false} FilterAppend(a: seq<ProductResponse>, b: seq<ProductResponse>, query: string)
    ensures Filter(a + b, query) == Filter(a, query) + Filter(b, query)
    decreases |a|
  {
    if |a| > 0 {
      assert (a + b)[1..] == a[1..] + b;
      FilterAppend(a[1..], b, query);
    } else {
      assert a + b == b;
    }
  }

  /** One product as the filter callback as written evaluates it: the fields are read left to
      right until one matches, and reading a null description or category name throws. */
  function MatchesAsWritten(p: ProductResponse, query: string): Result<bool> {
    if Hit(p.name, query) then Ok(true)
    else if p.description.None? then Err(NullValue)
    else if Hit(p.description.value, query) then Ok(true)
    else if p.categoryName.None? then Err(NullValue)
    else if Hit(p.categoryName.value, query) then Ok(true)
    else Ok(p.brandName.Some? && p.brandName.value != "" && Hit(p.brandName.value, query))
  }

  /** The filter as written: it throws as soon as one product's callback throws. */
  function FilterAsWritten(products: seq<ProductResponse>, query: string): Result<seq<ProductResponse>>
    decreases |products|
  {
    if |products| == 0 then Ok([])
    else match MatchesAsWritten(products[0], query)
      case Err(e) => Err(e)
      case Ok(keep) =>
        match FilterAsWritten(products[1..], query)
        case Err(e) => Err(e)
        case Ok(rest) => Ok((if keep then [products[0]] else []) + rest)
  }

  /** Where every product has a description and a category name, the filter as written is the
      corrected one. */
  lemma {:induction false} AsWrittenAgrees(products: seq<ProductResponse>, query: string)
    requires forall i :: 0 <= i < |products| ==> products[i].description.Some? && products[i].categoryName.Some?
    ensures FilterAsWritten(products, query) == Ok(Filter(products, query))
    decreases |products|
  {
    if |products| > 0 {
      AsWrittenAgrees(products[1..], query);
    }
  }

  /** Whenever the filter as written does not throw, it keeps what the corrected filter keeps. */
  lemma {:induction false} AsWrittenOkIsFilter(products: seq<ProductResponse>, query: string)
    ensures FilterAsWritten(products, query).Ok? ==> FilterAsWritten(products, query).value == Filter(products, query)
    decreases |products|
  {
    if |products| > 0 {
      AsWrittenOkIsFilter(products[1..], query);
      var m := MatchesAsWritten(products[0], query);
      assert m.Ok? ==> m.value == Matches(products[0], query);
    }
  }

  /** One product with a null description whose name does not match makes the whole search fail. */
  lemma {:induction false} NullDescriptionFailsSearch(products: seq<ProductResponse>, query: string, i: int)
    requires 0 <= i < |products| && products[i].description.None? && !Hit(products[i].name, query)
    ensures FilterAsWritten(products, query).Err?
    decreases i
  {
    if i > 0 {
      NullDescriptionFailsSearch(products[1..], query, i - 1);
    }
  }

  /** A concrete case: a lamp created without a description hides the chair the query asks for. */
  lemma NullDescriptionExample()
    ensures var lamp := ProductResponse(1, "Lamp", None, 1999, None, 1, Some("Home"), None, None, true);
      var chair := ProductResponse(2, "Chair", Some("Oak"), 4999, None, 2, Some("Seating"), None, None, true);
      FilterAsWritten([lamp, chair], "chair").Err? && Filter([lamp, chair], "chair") == [chair]
  {
    var lamp := ProductResponse(1, "Lamp", None, 1999, None, 1, Some("Home"), None, None, true);
    var chair := ProductResponse(2, "Chair", Some("Oak"), 4999, None, 2, Some("Seating"), None, None, true);
    ContainsLength(ToLower("Lamp"), ToLower("chair"));
    ContainsLength(ToLower("Home"), ToLower("chair"));
    NullDescriptionFailsSearch([lamp, chair], "chair", 0);
    assert ToLower("chair") == "chair";
    assert ToLower("Chair") == "chair";
    assert StartsWith(ToLower("Chair"), ToLower("chair"));
    assert [lamp, chair][1..] == [chair];
    assert [chair][1..] == [];
  }

  /** Every product the backend's own search finds is also kept by the page's filter: the page
      searches more fields and does not require the product to be active. */
  lemma BackendHitsAreKept(categories: map<int, Entities.Category>, brands: map<int, Entities.Brand>,
                           id: int, p: Entities.Product, query: string)
    requires ProductRepository.SearchMatches(query, p)
    ensures Matches(ToResponse(categories, brands, id, p), query)
  {
  }

  /** The first page of a listing, as a page request of the given size reads it. */
  function FirstPage(listing: seq<ProductResponse>): (r: seq<ProductResponse>)
    ensures |r| <= PageSize && |r| <= |listing| && r == listing[..|r|]
  {
    if |listing| <= PageSize then listing else listing[..PageSize]
  }

  /** Results come only from the first 50 products of the listing. */
  lemma ResultsFromFirstPage(listing: seq<ProductResponse>, query: string)
    ensures |Filter(FirstPage(listing), query)| <= PageSize
    ensures forall p :: p in Filter(FirstPage(listing), query) ==> p in listing[..|FirstPage(listing)|]
  {
    FilterKeeps(FirstPage(listing), query);
  }

  /** The page component. */
  class Page {
    var products: seq<ProductResponse>
    var loading: bool
    var requests: seq<Request>
    const window: Window

    /** The first render: no products, loading. */
    constructor (w: Window)
      ensures window == w && products == [] && loading && requests == []
    {
      window := w;
      products, loading, requests := [], true, [];
    }

    /**
     * `searchProducts`: fetch page 0 of size 50 and filter its content, with the corrected filter.
     * Where the filter as written does not throw, the result is the one it gives. A failed fetch
     * leaves the products as they were.
     */
    method SearchProducts(query: string, fetched: Outcome<ProductPage>)
      modifies this, window
      ensures requests == old(requests) + [ListProducts(0, PageSize)] && !loading
      ensures window.Snapshot() == AfterResponse(old(window.Snapshot()), true, fetched)
      ensures fetched.Rejected? ==> products == old(products)
      ensures fetched.Resolved? ==>
        var all := if fetched.value.content.Some? then fetched.value.content.value else [];
        products == Filter(all, query)
      ensures fetched.Resolved? ==>
        var all := if fetched.value.content.Some? then fetched.value.content.value else [];
        FilterAsWritten(all, query).Ok? ==> products == FilterAsWritten(all, query).value
    {
      loading := true;
      requests := requests + [ListProducts(0, PageSize)];
      var response := InterceptResponse(window, true, fetched);
      if response.Resolved? {
        var allProducts := if response.value.content.Some? then response.value.content.value else [];
        products := Filter(allProducts, query);
        AsWrittenOkIsFilter(allProducts, query);
      }
      loading := false;
    }

    /** The effect on the query parameter: a search runs only for a non-empty query. */
    method OnQuery(param: Option<string>, fetched: Outcome<ProductPage>)
      modifies this, window
      ensures QueryOf(param) == "" ==>
        products == old(products) && loading == old(loading) && requests == old(requests)
        && window.Snapshot() == old(window.Snapshot())
      ensures QueryOf(param) != "" ==> requests == old(requests) + [ListProducts(0, PageSize)] && !loading
      ensures QueryOf(param) != "" ==> window.Snapshot() == AfterResponse(old(window.Snapshot()), true, fetched)
      ensures QueryOf(param) != "" && fetched.Rejected? ==> products == old(products)
      ensures QueryOf(param) != "" && fetched.Resolved? ==>
        products == Filter(if fetched.value.content.Some? then fetched.value.content.value else [], QueryOf(param))
    {
      var query := QueryOf(param);
      if query != "" {
        SearchProducts(query, fetched);
      }
    }
  }
}
