/**
 * AnalyticsService: the admin dashboard's stream pipelines over the repositories' rows, as
 * functions. The date-range arithmetic that turns the requested dates into timestamps is not
 * part of this model; the repository rows arrive already computed.
 */
module AnalyticsService {
  import opened Wrappers
  import opened Entities
  import Strings
  import Repo = OrderItemAnalyticsRepository

  /** An inventory record joined with its product: what `inventoryRepository.findAll()` yields. */
  datatype InventoryRow = InventoryRow(productId: int, productName: string, quantity: Option<int>)

  datatype LowStockItem = LowStockItem(productId: int, productName: string, quantity: int)

  /** `categoryName` is absent when the product's category id names no stored category. */
  datatype CategoryRevenue = CategoryRevenue(categoryId: int, categoryName: Option<string>, revenue: int)

  datatype TopProduct = TopProduct(productId: int, productName: string, quantitySold: int, revenue: int)

  datatype TopCustomer = TopCustomer(userId: int, username: string, revenue: int)

  predicate IsLow(row: InventoryRow, threshold: int) {
    row.quantity.Some? && row.quantity.value <= threshold
  }

  /** `getLowStockItems`: the records with a quantity at most the threshold, in the order given. */
  function GetLowStockItems(rows: seq<InventoryRow>, threshold: int): (r: seq<LowStockItem>)
    ensures |r| <= |rows|
    ensures forall x :: x in r <==>
      exists row :: row in rows && IsLow(row, threshold) && x == LowStockItem(row.productId, row.productName, row.quantity.value)
    decreases |rows|
  {
    if |rows| == 0 then []
    else
      var pre, last := rows[..|rows| - 1], rows[|rows| - 1];
      assert rows == pre + [last];
      var rest := GetLowStockItems(pre, threshold);
      if IsLow(last, threshold) then rest + [LowStockItem(last.productId, last.productName, last.quantity.value)] else rest
  }

  /** Filtering distributes over concatenation, so the input order is kept. */
  lemma {:induction false} LowStockKeepsOrder(a: seq<InventoryRow>, b: seq<InventoryRow>, threshold: int)
    ensures GetLowStockItems(a + b, threshold) == GetLowStockItems(a, threshold) + GetLowStockItems(b, threshold)
    decreases |b|
  {
    if |b| == 0 {
      assert a + b == a;
    } else {
      var b', last := b[..|b| - 1], b[|b| - 1];
      assert (a + b)[..|a + b| - 1] == a + b';
      LowStockKeepsOrder(a, b', threshold);
    }
  }

  /** The category of each row's product, with the row's revenue: the stream's `map` step. */
  function CategoryEntries(products: map<int, Product>, rows: seq<Repo.Entry>): (r: Result<seq<Repo.Entry>>)
    ensures r.Err? <==> exists i :: 0 <= i < |rows| && rows[i].key !in products
    ensures r.Err? ==> r.error == NoSuchElement
    ensures r.Ok? ==> |r.value| == |rows| && forall i :: 0 <= i < |rows| ==>
      r.value[i] == Repo.Entry(products[rows[i].key].categoryId, 0, rows[i].revenue)
    decreases |rows|
  {
    if |rows| == 0 then Ok([])
    else
      var pre, last := rows[..|rows| - 1], rows[|rows| - 1];
      var rest := CategoryEntries(products, pre);
      if rest.Err? then
        assert exists i :: 0 <= i < |rows| && rows[i].key !in products by {
          var i :| 0 <= i < |pre| && pre[i].key !in products;
          assert rows[i] == pre[i];
        }
        rest
      else if last.key !in products then Err(NoSuchElement)
      else Ok(rest.value + [Repo.Entry(products[last.key].categoryId, 0, last.revenue)])
  }

  /** The revenue of the rows whose product is in the category. */
  function RevenueInCategory(products: map<int, Product>, rows: seq<Repo.Entry>, categoryId: int): int
    decreases |rows|
  {
    if |rows| == 0 then 0
    else
      var last := rows[|rows| - 1];
      RevenueInCategory(products, rows[..|rows| - 1], categoryId)
        + (if last.key in products && products[last.key].categoryId == categoryId then last.revenue else 0)
  }

  /** The category entries' per-key sums are the per-category revenues of the rows. */
  lemma {:induction false} CategorySums(products: map<int, Product>, rows: seq<Repo.Entry>, categoryId: int)
    requires CategoryEntries(products, rows).Ok?
    ensures Repo.SumRevenue(CategoryEntries(products, rows).value, categoryId) == RevenueInCategory(products, rows, categoryId)
    ensures Repo.TotalRevenue(CategoryEntries(products, rows).value) == Repo.TotalRevenue(rows)
    decreases |rows|
  {
    if |rows| > 0 {
      var pre := rows[..|rows| - 1];
      CategorySums(products, pre, categoryId);
      var es := CategoryEntries(products, rows).value;
      assert es[..|es| - 1] == CategoryEntries(products, pre).value;
    }
  }

  /** Each group of the merge, with its category's name. */
  function Named(categories: map<int, Category>, groups: seq<Repo.Entry>): (r: seq<CategoryRevenue>)
    ensures |r| == |groups|
    ensures forall i :: 0 <= i < |groups| ==> r[i].categoryId == groups[i].key && r[i].revenue == groups[i].revenue
    ensures forall i :: 0 <= i < |groups| ==>
      r[i].categoryName == if groups[i].key in categories then Some(categories[groups[i].key].name) else None
  {
    seq(|groups|, i requires 0 <= i < |groups| =>
      var c := groups[i].key;
      CategoryRevenue(c, if c in categories then Some(categories[c].name) else None, groups[i].revenue))
  }

  /**
   * `getRevenuePerCategory`: the rows of `findTopProducts`, merged by their product's category with
   * the revenues added. A row whose product does not exist fails the whole call. The merged groups
   * come out of a hash map in an unspecified order; the model lists them in the order their
   * category first occurs.
   */
  function GetRevenuePerCategory(products: map<int, Product>, categories: map<int, Category>, rows: seq<Repo.Entry>)
    : Result<seq<CategoryRevenue>>
  {
    var es := CategoryEntries(products, rows);
    if es.Err? then Err(es.error) else Ok(Named(categories, Repo.GroupSum(es.value)))
  }

  /** The sum of the revenues of a list of category groups. */
  function TotalCategoryRevenue(r: seq<CategoryRevenue>): int
    decreases |r|
  {
    if |r| == 0 then 0 else TotalCategoryRevenue(r[..|r| - 1]) + r[|r| - 1].revenue
  }

  lemma {:induction false} NamedTotal(categories: map<int, Category>, groups: seq<Repo.Entry>)
    ensures TotalCategoryRevenue(Named(categories, groups)) == Repo.TotalRevenue(groups)
    decreases |groups|
  {
    if |groups| > 0 {
      var pre := groups[..|groups| - 1];
      NamedTotal(categories, pre);
      assert Named(categories, groups)[..|groups| - 1] == Named(categories, pre);
    }
  }

  /** True when some row's product is in the category. */
  ghost predicate SoldIn(products: map<int, Product>, rows: seq<Repo.Entry>, categoryId: int) {
    exists i :: 0 <= i < |rows| && rows[i].key in products && products[rows[i].key].categoryId == categoryId
  }

  /**
   * The merge fails exactly when some row's product is missing. Otherwise it holds one entry per
   * category that some row's product belongs to and no other, each with the summed revenue of
   * that category's rows, and the category revenues add up to the revenue of all rows.
   */
  lemma RevenuePerCategorySpec(products: map<int, Product>, categories: map<int, Category>, rows: seq<Repo.Entry>)
    ensures var r := GetRevenuePerCategory(products, categories, rows);
      (r.Err? <==> exists i :: 0 <= i < |rows| && rows[i].key !in products) && (r.Err? ==> r.error == NoSuchElement)
    ensures var r := GetRevenuePerCategory(products, categories, rows);
      r.Ok? ==> (
        && (forall i, j :: 0 <= i < j < |r.value| ==> r.value[i].categoryId != r.value[j].categoryId)
        && (forall i :: 0 <= i < |r.value| ==>
             SoldIn(products, rows, r.value[i].categoryId) &&
             r.value[i].revenue == RevenueInCategory(products, rows, r.value[i].categoryId))
        && (forall c :: SoldIn(products, rows, c) ==> exists i :: 0 <= i < |r.value| && r.value[i].categoryId == c)
        && TotalCategoryRevenue(r.value) == Repo.TotalRevenue(rows))
  {
    var es := CategoryEntries(products, rows);
    if es.Ok? {
      var groups := Repo.GroupSum(es.value);
      var r := Named(categories, groups);
      Repo.GroupSumSpec(es.value);
      Repo.GroupSumTotal(es.value);
      NamedTotal(categories, groups);
      CategorySums(products, rows, 0);
      forall c ensures Repo.HasKey(es.value, c) <==> SoldIn(products, rows, c) {
        if Repo.HasKey(es.value, c) {
          var j :| 0 <= j < |es.value| && es.value[j].key == c;
          assert rows[j].key in products;
        }
        if SoldIn(products, rows, c) {
          var j :| 0 <= j < |rows| && rows[j].key in products && products[rows[j].key].categoryId == c;
          assert es.value[j].key == c;
        }
      }
      forall i | 0 <= i < |r|
        ensures SoldIn(products, rows, r[i].categoryId) && r[i].revenue == RevenueInCategory(products, rows, r[i].categoryId)
      {
        assert Repo.KeyIndex(groups, groups[i].key) >= 0;
        CategorySums(products, rows, groups[i].key);
      }
      forall c | SoldIn(products, rows, c) ensures exists i :: 0 <= i < |r| && r[i].categoryId == c {
        var i := Repo.KeyIndex(groups, c);
        assert r[i].categoryId == c;
      }
    }
  }

  /** `Stream.limit(n)`: refuses a negative n, with the number as the message. */
  function LimitRefusal(limit: int): Option<Error> {
    if limit < 0 then Some(IllegalArgument("-" + Strings.NatToString(-limit))) else None
  }

  /** The rows `limit` lets through. */
  function Limited<T>(rows: seq<T>, limit: nat): (r: seq<T>)
    ensures |r| == if limit < |rows| then limit else |rows|
    ensures r == rows[..|r|]
  {
    if limit < |rows| then rows[..limit] else rows
  }

  /** Maps the kept rows to products; the first row whose product is missing fails. */
  function NameProducts(products: map<int, Product>, rows: seq<Repo.Entry>): (r: Result<seq<TopProduct>>)
    ensures r.Err? <==> exists i :: 0 <= i < |rows| && rows[i].key !in products
    ensures r.Err? ==> r.error == NoSuchElement
    ensures r.Ok? ==> |r.value| == |rows| && forall i :: 0 <= i < |rows| ==>
      r.value[i] == TopProduct(rows[i].key, products[rows[i].key].name, rows[i].quantity, rows[i].revenue)
  {
    if exists i :: 0 <= i < |rows| && rows[i].key !in products then Err(NoSuchElement)
    else Ok(seq(|rows|, i requires 0 <= i < |rows| =>
      TopProduct(rows[i].key, products[rows[i].key].name, rows[i].quantity, rows[i].revenue)))
  }

  /**
   * `getTopProducts`: the first `limit` rows of `findTopProducts`, each with its product's name.
   * Products are looked up only for the rows the limit lets through.
   */
  function GetTopProducts(products: map<int, Product>, rows: seq<Repo.Entry>, limit: int): (r: Result<seq<TopProduct>>)
    ensures LimitRefusal(limit).Some? ==> r == Err(LimitRefusal(limit).value)
    ensures limit >= 0 ==> r == NameProducts(products, Limited(rows, limit))
  {
    match LimitRefusal(limit)
    case Some(e) => Err(e)
    case None => NameProducts(products, Limited(rows, limit))
  }

  /**
   * A non-negative limit yields the first min(limit, |rows|) rows, in repository order, with
   * their product id, quantity and revenue kept; it fails only when one of them names a missing
   * product.
   */
  lemma TopProductsTruncates(products: map<int, Product>, rows: seq<Repo.Entry>, limit: int)
    requires limit >= 0
    ensures var r := GetTopProducts(products, rows, limit);
      var n := if limit < |rows| then limit else |rows|;
      && (r.Err? <==> exists i :: 0 <= i < n && rows[i].key !in products)
      && (r.Ok? ==> |r.value| == n && forall i :: 0 <= i < n ==>
            r.value[i].productId == rows[i].key && r.value[i].quantitySold == rows[i].quantity &&
            r.value[i].revenue == rows[i].revenue && r.value[i].productName == products[rows[i].key].name)
  {
    var kept := Limited(rows, limit);
    assert forall i :: 0 <= i < |kept| ==> kept[i] == rows[i];
  }

  /** Fed with `findTopProducts`, the top products come out by quantity sold, largest first. */
  lemma TopProductsByQuantity(products: map<int, Product>, items: seq<Repo.ItemRow>, start: int, end: int, limit: int)
    requires limit >= 0
    ensures var r := GetTopProducts(products, Repo.FindTopProducts(items, start, end), limit);
      r.Ok? ==> forall i, j :: 0 <= i < j < |r.value| ==> r.value[i].quantitySold >= r.value[j].quantitySold
  {
    var rows := Repo.FindTopProducts(items, start, end);
    Repo.TopProductsSpec(items, start, end);
    TopProductsTruncates(products, rows, limit);
    var r := GetTopProducts(products, rows, limit);
    if r.Ok? {
      forall i, j | 0 <= i < j < |r.value| ensures r.value[i].quantitySold >= r.value[j].quantitySold {
        assert Repo.Weight(rows[i], Repo.ByQuantity) >= Repo.Weight(rows[j], Repo.ByQuantity);
      }
    }
  }

  /** Maps the kept rows to customers; the first row whose user is missing fails. */
  function NameCustomers(users: map<int, User>, rows: seq<Repo.Entry>): (r: Result<seq<TopCustomer>>)
    ensures r.Err? <==> exists i :: 0 <= i < |rows| && rows[i].key !in users
    ensures r.Err? ==> r.error == NoSuchElement
    ensures r.Ok? ==> |r.value| == |rows| && forall i :: 0 <= i < |rows| ==>
      r.value[i] == TopCustomer(rows[i].key, users[rows[i].key].username, rows[i].revenue)
  {
    if exists i :: 0 <= i < |rows| && rows[i].key !in users then Err(NoSuchElement)
    else Ok(seq(|rows|, i requires 0 <= i < |rows| =>
      TopCustomer(rows[i].key, users[rows[i].key].username, rows[i].revenue)))
  }

  /** `getTopCustomers`: the first `limit` rows of `findTopCustomers`, each with its user's name. */
  function GetTopCustomers(users: map<int, User>, rows: seq<Repo.Entry>, limit: int): (r: Result<seq<TopCustomer>>)
    ensures LimitRefusal(limit).Some? ==> r == Err(LimitRefusal(limit).value)
    ensures limit >= 0 ==> r == NameCustomers(users, Limited(rows, limit))
  {
    match LimitRefusal(limit)
    case Some(e) => Err(e)
    case None => NameCustomers(users, Limited(rows, limit))
  }

  /** A non-negative limit yields the first min(limit, |rows|) rows with user id and revenue kept. */
  lemma TopCustomersTruncates(users: map<int, User>, rows: seq<Repo.Entry>, limit: int)
    requires limit >= 0
    ensures var r := GetTopCustomers(users, rows, limit);
      var n := if limit < |rows| then limit else |rows|;
      && (r.Err? <==> exists i :: 0 <= i < n && rows[i].key !in users)
      && (r.Ok? ==> |r.value| == n && forall i :: 0 <= i < n ==>
            r.value[i].userId == rows[i].key && r.value[i].revenue == rows[i].revenue &&
            r.value[i].username == users[rows[i].key].username)
  {
    var kept := Limited(rows, limit);
    assert forall i :: 0 <= i < |kept| ==> kept[i] == rows[i];
  }
}
