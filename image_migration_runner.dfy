/**
 * ImageMigrationRunner: a start-up job that moves stored image paths from `/images/` to
 * `/assets/images/`, first for every product and then for every category, counting the records
 * it changes. It runs in one transaction.
 */
module ImageMigrationRunner {
  import opened Wrappers
  import opened Entities
  import Strings

  const OldPrefix := "/images/"
  const NewPrefix := "/assets/images/"

  /** Only a present url starting with `/images/` is rewritten. */
  predicate NeedsMigration(url: Option<string>) {
    url.Some? && Strings.StartsWith(url.value, OldPrefix)
  }

  /** The rewrite replaces every occurrence of `/images/` in the url, not just the leading one. */
  function MigrateUrl(url: Option<string>): (r: Option<string>)
    ensures !NeedsMigration(url) ==> r == url
    ensures NeedsMigration(url) ==> r.Some? && Strings.StartsWith(r.value, NewPrefix)
  {
    if NeedsMigration(url) then
      Strings.ReplaceAllPrefix(url.value, OldPrefix, NewPrefix);
      Some(Strings.ReplaceAll(url.value, OldPrefix, NewPrefix))
    else url
  }

  /** A second migration changes nothing: a rewritten url starts with `/assets/`. */
  lemma MigrateIdempotent(url: Option<string>)
    ensures MigrateUrl(MigrateUrl(url)) == MigrateUrl(url)
    ensures !NeedsMigration(MigrateUrl(url))
  {
    var r := MigrateUrl(url);
    if NeedsMigration(url) {
      assert r.value[..|NewPrefix|] == NewPrefix;
      assert r.value[1] == 'a';
    }
  }

  /** A later occurrence is rewritten too. */
  lemma EveryOccurrenceRewritten(rest: string)
    requires !Strings.Contains(rest, OldPrefix)
    ensures MigrateUrl(Some(OldPrefix + "x" + OldPrefix + rest)) == Some(NewPrefix + "x" + NewPrefix + rest)
  {
    var tail := OldPrefix + rest;
    var middle := ['x'] + tail;
    var url := OldPrefix + middle;
    assert Strings.ReplaceAll(tail, OldPrefix, NewPrefix) == NewPrefix + rest by {
      Strings.ReplaceAllAtTarget(OldPrefix, NewPrefix, rest);
      Strings.ReplaceAllAbsent(rest, OldPrefix, NewPrefix);
    }
    assert Strings.ReplaceAll(middle, OldPrefix, NewPrefix) == ['x'] + (NewPrefix + rest) by {
      assert !Strings.StartsWith(middle, OldPrefix) by {
        assert middle[0] == 'x';
      }
      Strings.ReplaceAllSkip('x', tail, OldPrefix, NewPrefix);
    }
    assert Strings.ReplaceAll(url, OldPrefix, NewPrefix) == NewPrefix + (['x'] + (NewPrefix + rest)) by {
      Strings.ReplaceAllAtTarget(OldPrefix, NewPrefix, middle);
    }
    assert NeedsMigration(Some(url)) by {
      assert url[..|OldPrefix|] == OldPrefix;
    }
    assert url == OldPrefix + "x" + OldPrefix + rest;
    assert NewPrefix + (['x'] + (NewPrefix + rest)) == NewPrefix + "x" + NewPrefix + rest;
  }

  function MigrateProduct(p: Product): Product {
    p.(imageUrl := MigrateUrl(p.imageUrl))
  }

  function MigrateCategory(c: Category): Category {
    c.(imageUrl := MigrateUrl(c.imageUrl))
  }

  /** The products after the migration. */
  function MigratedProducts(products: map<int, Product>): map<int, Product> {
    map k | k in products :: MigrateProduct(products[k])
  }

  /** The categories after the migration. */
  function MigratedCategories(categories: map<int, Category>): map<int, Category> {
    map k | k in categories :: MigrateCategory(categories[k])
  }

  /** The products whose url gets rewritten. */
  function ProductsToMigrate(products: map<int, Product>): set<int> {
    set k | k in products && NeedsMigration(products[k].imageUrl)
  }

  function CategoriesToMigrate(categories: map<int, Category>): set<int> {
    set k | k in categories && NeedsMigration(categories[k].imageUrl)
  }

  /** The products with an id below n whose url gets rewritten, counted. */
  function CountProductsBelow(products: map<int, Product>, n: int): nat
    decreases n
  {
    if n <= 1 then 0
    else CountProductsBelow(products, n - 1) + (if n - 1 in products && NeedsMigration(products[n - 1].imageUrl) then 1 else 0)
  }

  function CountCategoriesBelow(categories: map<int, Category>, n: int): nat
    decreases n
  {
    if n <= 1 then 0
    else CountCategoriesBelow(categories, n - 1) + (if n - 1 in categories && NeedsMigration(categories[n - 1].imageUrl) then 1 else 0)
  }

  /** With every id at least 1, the count below n is the number of such products below n. */
  lemma {:induction false} CountProductsIsSize(products: map<int, Product>, n: int)
    requires forall k :: k in products ==> k >= 1
    ensures CountProductsBelow(products, n) == |set k | k in products && k < n && NeedsMigration(products[k].imageUrl)|
    decreases n
  {
    var below := set k | k in products && k < n && NeedsMigration(products[k].imageUrl);
    if n <= 1 {
      assert below == {};
    } else {
      CountProductsIsSize(products, n - 1);
      var fewer := set k | k in products && k < n - 1 && NeedsMigration(products[k].imageUrl);
      if n - 1 in products && NeedsMigration(products[n - 1].imageUrl) {
        assert below == fewer + {n - 1};
      } else {
        assert below == fewer;
      }
    }
  }

  lemma {:induction false} CountCategoriesIsSize(categories: map<int, Category>, n: int)
    requires forall k :: k in categories ==> k >= 1
    ensures CountCategoriesBelow(categories, n) == |set k | k in categories && k < n && NeedsMigration(categories[k].imageUrl)|
    decreases n
  {
    var below := set k | k in categories && k < n && NeedsMigration(categories[k].imageUrl);
    if n <= 1 {
      assert below == {};
    } else {
      CountCategoriesIsSize(categories, n - 1);
      var fewer := set k | k in categories && k < n - 1 && NeedsMigration(categories[k].imageUrl);
      if n - 1 in categories && NeedsMigration(categories[n - 1].imageUrl) {
        assert below == fewer + {n - 1};
      } else {
        assert below == fewer;
      }
    }
  }

  /** Only urls change, so every invariant of the store still holds. */
  lemma MigrationKeepsConsistent(d: Db)
    requires Consistent(d)
    ensures Consistent(d.(products := MigratedProducts(d.products)))
    ensures Consistent(d.(categories := MigratedCategories(d.categories)))
  {
  }

  /**
   * The product loop: rewrites each product's url that needs it, in id order, and counts the
   * rewrites. The rewritten records are saved when the transaction commits.
   */
  method MigrateProducts(st: Store) returns (productCount: nat)
    requires st.Valid()
    modifies st
    ensures st.Valid()
    ensures st.Snapshot() == old(st.Snapshot()).(products := MigratedProducts(old(st.products)))
    ensures productCount == |ProductsToMigrate(old(st.products))|
  {
    var products;
    products, productCount := RewriteProducts(st.products, st.nextId);
    MigrationKeepsConsistent(st.Snapshot());
    st.products := products;
  }

  /** The loop over the product ids, in order, on a copy of the rows. */
  method RewriteProducts(rows: map<int, Product>, nextId: int) returns (products: map<int, Product>, productCount: nat)
    requires nextId >= 1 && KeysBelow(rows, nextId)
    ensures products == MigratedProducts(rows)
    ensures productCount == |ProductsToMigrate(rows)|
  {
    products := rows;
    productCount := 0;
    var id := 1;
    while id < nextId
      invariant 1 <= id <= nextId
      invariant products.Keys == rows.Keys
      invariant forall k :: k in rows && k < id ==> products[k] == MigrateProduct(rows[k])
      invariant forall k :: k in rows && k >= id ==> products[k] == rows[k]
      invariant productCount == CountProductsBelow(rows, id)
      decreases nextId - id
    {
      if id in products && NeedsMigration(products[id].imageUrl) {
        var product := products[id];
        products := products[id := product.(imageUrl := MigrateUrl(product.imageUrl))];
        assert products[id] == MigrateProduct(rows[id]);
        productCount := productCount + 1;
      } else {
        if id in products {
          assert products[id] == rows[id];
          assert MigrateProduct(products[id]) == products[id];
        }
      }
      id := id + 1;
    }
    ProductsLoopDone(rows, nextId, products, productCount);
  }

  /** When the loop has passed every id, the copy is the migrated rows and the count their number. */
  lemma ProductsLoopDone(rows: map<int, Product>, nextId: int, products: map<int, Product>, productCount: nat)
    requires KeysBelow(rows, nextId) && products.Keys == rows.Keys
    requires forall k :: k in rows && k < nextId ==> products[k] == MigrateProduct(rows[k])
    requires productCount == CountProductsBelow(rows, nextId)
    ensures products == MigratedProducts(rows)
    ensures productCount == |ProductsToMigrate(rows)|
  {
    assert ProductsToMigrate(rows) == set k | k in rows && k < nextId && NeedsMigration(rows[k].imageUrl);
    CountProductsIsSize(rows, nextId);
  }

  /** The category loop, likewise. */
  method MigrateCategories(st: Store) returns (categoryCount: nat)
    requires st.Valid()
    modifies st
    ensures st.Valid()
    ensures st.Snapshot() == old(st.Snapshot()).(categories := MigratedCategories(old(st.categories)))
    ensures categoryCount == |CategoriesToMigrate(old(st.categories))|
  {
    var categories;
    categories, categoryCount := RewriteCategories(st.categories, st.nextId);
    MigrationKeepsConsistent(st.Snapshot());
    st.categories := categories;
  }

  /** The loop over the category ids, in order, on a copy of the rows. */
  method RewriteCategories(rows: map<int, Category>, nextId: int) returns (categories: map<int, Category>, categoryCount: nat)
    requires nextId >= 1 && KeysBelow(rows, nextId)
    ensures categories == MigratedCategories(rows)
    ensures categoryCount == |CategoriesToMigrate(rows)|
  {
    categories := rows;
    categoryCount := 0;
    var id := 1;
    while id < nextId
      invariant 1 <= id <= nextId
      invariant categories.Keys == rows.Keys
      invariant forall k :: k in rows && k < id ==> categories[k] == MigrateCategory(rows[k])
      invariant forall k :: k in rows && k >= id ==> categories[k] == rows[k]
      invariant categoryCount == CountCategoriesBelow(rows, id)
      decreases nextId - id
    {
      if id in categories && NeedsMigration(categories[id].imageUrl) {
        var category := categories[id];
        categories := categories[id := category.(imageUrl := MigrateUrl(category.imageUrl))];
        assert categories[id] == MigrateCategory(rows[id]);
        categoryCount := categoryCount + 1;
      } else {
        if id in categories {
          assert categories[id] == rows[id];
          assert MigrateCategory(categories[id]) == categories[id];
        }
      }
      id := id + 1;
    }
    CategoriesLoopDone(rows, nextId, categories, categoryCount);
  }

  /** When the loop has passed every id, the copy is the migrated rows and the count their number. */
  lemma CategoriesLoopDone(rows: map<int, Category>, nextId: int, categories: map<int, Category>, categoryCount: nat)
    requires KeysBelow(rows, nextId) && categories.Keys == rows.Keys
    requires forall k :: k in rows && k < nextId ==> categories[k] == MigrateCategory(rows[k])
    requires categoryCount == CountCategoriesBelow(rows, nextId)
    ensures categories == MigratedCategories(rows)
    ensures categoryCount == |CategoriesToMigrate(rows)|
  {
    assert CategoriesToMigrate(rows) == set k | k in rows && k < nextId && NeedsMigration(rows[k].imageUrl);
    CountCategoriesIsSize(rows, nextId);
  }

  /**
   * `run`: migrates the products, then the categories. Nothing else in the store changes, and the
   * two counts are the numbers of records each loop rewrote.
   */
  method Run(st: Store) returns (productCount: nat, categoryCount: nat)
    requires st.Valid()
    modifies st
    ensures st.Valid()
    ensures st.Snapshot() == old(st.Snapshot()).(
      products := MigratedProducts(old(st.products)),
      categories := MigratedCategories(old(st.categories)))
    ensures productCount == |ProductsToMigrate(old(st.products))|
    ensures categoryCount == |CategoriesToMigrate(old(st.categories))|
  {
    productCount := MigrateProducts(st);
    categoryCount := MigrateCategories(st);
  }

  /** Running the migration again rewrites nothing. */
  lemma SecondRunChangesNothing(products: map<int, Product>, categories: map<int, Category>)
    ensures MigratedProducts(MigratedProducts(products)) == MigratedProducts(products)
    ensures MigratedCategories(MigratedCategories(categories)) == MigratedCategories(categories)
    ensures ProductsToMigrate(MigratedProducts(products)) == {}
    ensures CategoriesToMigrate(MigratedCategories(categories)) == {}
  {
    var once := MigratedProducts(products);
    forall k | k in once ensures MigrateProduct(once[k]) == once[k] && !NeedsMigration(once[k].imageUrl) {
      MigrateIdempotent(products[k].imageUrl);
    }
    assert MigratedProducts(once) == once;
    assert ProductsToMigrate(once) == {};
    var onceC := MigratedCategories(categories);
    forall k | k in onceC ensures MigrateCategory(onceC[k]) == onceC[k] && !NeedsMigration(onceC[k].imageUrl) {
      MigrateIdempotent(categories[k].imageUrl);
    }
    assert MigratedCategories(onceC) == onceC;
    assert CategoriesToMigrate(onceC) == {};
  }
}
