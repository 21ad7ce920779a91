/**
 * ProductRepository's two JPQL queries as filters over the product table, a sequence of
 * (id, product) rows in table order. Paging is not part of this model: the functions return every
 * matching row, and the page is a slice of that.
 */
module ProductRepository {
  import opened Wrappers
  import opened Entities
  import Strings

  /** A row of the product table. */
  type Row = (int, Product)

  /** The five optional query parameters of `findWithFilters`; None is SQL NULL. */
  datatype Filters = Filters(
    categoryId: Option<int>,
    brandId: Option<int>,
    minPrice: Option<int>,
    maxPrice: Option<int>,
    isActive: Option<bool>)

  const NoFilters := Filters(None, None, None, None, None)

  /**
   * The WHERE clause: each parameter that is not null must hold. A product without a brand has a
   * NULL brand id, so it fails a brand filter.
   */
  predicate Matches(f: Filters, p: Product) {
    && (f.categoryId.None? || p.categoryId == f.categoryId.value)
    && (f.brandId.None? || p.brandId == Some(f.brandId.value))
    && (f.minPrice.None? || p.price >= f.minPrice.value)
    && (f.maxPrice.None? || p.price <= f.maxPrice.value)
    && (f.isActive.None? || p.isActive == f.isActive.value)
  }

  /** The rows of the product table that satisfy the filters, in table order. */
  function FindWithFilters(rows: seq<Row>, f: Filters): (r: seq<Row>)
    ensures |r| <= |rows|
    ensures forall x :: x in r <==> x in rows && Matches(f, x.1)
    decreases |rows|
  {
    if |rows| == 0 then []
    else
      var pre, last := rows[..|rows| - 1], rows[|rows| - 1];
      assert rows == pre + [last];
      var rest := FindWithFilters(pre, f);
      if Matches(f, last.1) then rest + [last] else rest
  }

  /** The query distributes over concatenation, so it keeps the table order. */
  lemma {:induction false} FiltersKeepOrder(a: seq<Row>, b: seq<Row>, f: Filters)
    ensures FindWithFilters(a + b, f) == FindWithFilters(a, f) + FindWithFilters(b, f)
    decreases |b|
  {
    if |b| == 0 {
      assert a + b == a;
    } else {
      assert (a + b)[..|a + b| - 1] == a + b[..|b| - 1];
      FiltersKeepOrder(a, b[..|b| - 1], f);
    }
  }

  /** With every parameter null, every product is returned. */
  lemma {:induction false} NoFiltersReturnsAll(rows: seq<Row>)
    ensures FindWithFilters(rows, NoFilters) == rows
    decreases |rows|
  {
    if |rows| > 0 {
      NoFiltersReturnsAll(rows[..|rows| - 1]);
      assert rows == rows[..|rows| - 1] + [rows[|rows| - 1]];
    }
  }

  /** g sets every parameter f sets, to the same value, and possibly more. */
  predicate Refines(f: Filters, g: Filters) {
    && (f.categoryId.Some? ==> g.categoryId == f.categoryId)
    && (f.brandId.Some? ==> g.brandId == f.brandId)
    && (f.minPrice.Some? ==> g.minPrice == f.minPrice)
    && (f.maxPrice.Some? ==> g.maxPrice == f.maxPrice)
    && (f.isActive.Some? ==> g.isActive == f.isActive)
  }

  /**
   * Supplying more filters only removes rows: the refined query's result is the refined filter
   * applied to the coarser query's result.
   */
  lemma {:induction false} MoreFiltersShrink(rows: seq<Row>, f: Filters, g: Filters)
    requires Refines(f, g)
    ensures FindWithFilters(rows, g) == FindWithFilters(FindWithFilters(rows, f), g)
    decreases |rows|
  {
    if |rows| > 0 {
      var pre, last := rows[..|rows| - 1], rows[|rows| - 1];
      MoreFiltersShrink(pre, f, g);
      var coarse := FindWithFilters(pre, f);
      if Matches(f, last.1) {
        assert (coarse + [last])[..|coarse|] == coarse;
      }
    }
  }

  /** A minimum price above the maximum price matches nothing. */
  lemma {:induction false} EmptyPriceRange(rows: seq<Row>, f: Filters)
    requires f.minPrice.Some? && f.maxPrice.Some? && f.minPrice.value > f.maxPrice.value
    ensures FindWithFilters(rows, f) == []
    decreases |rows|
  {
    if |rows| > 0 {
      EmptyPriceRange(rows[..|rows| - 1], f);
    }
  }

  /**
   * The search predicate: an active product whose lower-cased name, or lower-cased description
   * when it has one, contains the lower-cased query. A NULL description makes its LIKE unknown,
   * which the OR treats as false.
   */
  predicate SearchMatches(query: string, p: Product) {
    var q := Strings.ToLower(query);
    && p.isActive
    && (Strings.Contains(Strings.ToLower(p.name), q)
        || (p.description.Some? && Strings.Contains(Strings.ToLower(p.description.value), q)))
  }

  /** `searchActiveProductsByQuery`: the matching rows, in table order. */
  function SearchActiveProductsByQuery(rows: seq<Row>, query: string): (r: seq<Row>)
    ensures |r| <= |rows|
    ensures forall x :: x in r <==> x in rows && SearchMatches(query, x.1)
    decreases |rows|
  {
    if |rows| == 0 then []
    else
      var pre, last := rows[..|rows| - 1], rows[|rows| - 1];
      assert rows == pre + [last];
      var rest := SearchActiveProductsByQuery(pre, query);
      if SearchMatches(query, last.1) then rest + [last] else rest
  }

  /** Inactive products are never found, and the empty query finds every active product. */
  lemma SearchOnlyActive(rows: seq<Row>, query: string, x: Row)
    requires x in rows
    ensures !x.1.isActive ==> x !in SearchActiveProductsByQuery(rows, query)
    ensures x.1.isActive ==> x in SearchActiveProductsByQuery(rows, "")
  {
    Strings.ContainsLength(Strings.ToLower(x.1.name), "");
  }

  /** The search ignores the query's letter case. */
  lemma SearchIgnoresCase(rows: seq<Row>, query: string)
    ensures SearchActiveProductsByQuery(rows, Strings.ToLower(query)) == SearchActiveProductsByQuery(rows, query)
  {
    Strings.ToLowerIdempotent(query);
    SearchSameMatches(rows, Strings.ToLower(query), query);
  }

  lemma {:induction false} SearchSameMatches(rows: seq<Row>, q1: string, q2: string)
    requires Strings.ToLower(q1) == Strings.ToLower(q2)
    ensures SearchActiveProductsByQuery(rows, q1) == SearchActiveProductsByQuery(rows, q2)
    decreases |rows|
  {
    if |rows| > 0 {
      SearchSameMatches(rows[..|rows| - 1], q1, q2);
    }
  }
}
