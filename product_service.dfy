/**
 * ProductService: creating, updating and deleting products, with their category and optional
 * brand looked up first, and the product response with the category and brand names.
 */
module ProductService {
  import opened Wrappers
  import opened Entities
  import opened Strings

  /** `ProductRequest`; `brandId` and `isActive` are nullable. */
  datatype ProductRequest = ProductRequest(
    name: string,
    description: Option<string>,
    price: int,
    imageUrl: Option<string>,
    categoryId: int,
    brandId: Option<int>,
    isActive: Option<bool>)

  /** The request's bean-validation constraints: a non-blank name of at most 200 UTF-16 units, a
      description of at most 2000, a positive price. */
  predicate ValidRequest(req: ProductRequest) {
    && NotBlank(req.name) && Utf16Length(req.name) <= 200
    && (req.description.Some? ==> Utf16Length(req.description.value) <= 2000)
    && req.price > 0
  }

  /**
   * `ProductResponse`. `categoryName` and `brandName` are read through the product's relations;
   * a relation whose row the store lacks, which the database's foreign keys rule out, gives None.
   */
  datatype ProductResponse = ProductResponse(
    id: int,
    name: string,
    description: Option<string>,
    price: int,
    imageUrl: Option<string>,
    categoryId: int,
    categoryName: Option<string>,
    brandId: Option<int>,
    brandName: Option<string>,
    isActive: bool)

  /** `toResponse`: the product's own fields; no brand gives a null brand id and a null brand name. */
  function ToResponse(categories: map<int, Category>, brands: map<int, Brand>, id: int, p: Product): (r: ProductResponse)
    ensures r.id == id && r.name == p.name && r.description == p.description && r.price == p.price
    ensures r.imageUrl == p.imageUrl && r.categoryId == p.categoryId && r.isActive == p.isActive
    ensures r.brandId == p.brandId
    ensures p.brandId.None? ==> r.brandName.None?
    ensures p.brandId.Some? && p.brandId.value in brands ==> r.brandName == Some(brands[p.brandId.value].name)
    ensures p.categoryId in categories ==> r.categoryName == Some(categories[p.categoryId].name)
  {
    var categoryName := if p.categoryId in categories then Some(categories[p.categoryId].name) else None;
    var brandName := if p.brandId.Some? && p.brandId.value in brands then Some(brands[p.brandId.value].name) else None;
    ProductResponse(id, p.name, p.description, p.price, p.imageUrl, p.categoryId, categoryName, p.brandId, brandName, p.isActive)
  }

  /** Why a create or update throws on the request's relations, if it does. */
  function RelationRefusal(d: Db, req: ProductRequest): Option<Error> {
    if req.categoryId !in d.categories then Some(NotFound("Category not found"))
    else if req.brandId.Some? && req.brandId.value !in d.brands then Some(NotFound("Brand not found"))
    else None
  }

  /** The product `createProduct` builds: the request's fields, active unless the request says not. */
  function Created(req: ProductRequest): (p: Product)
    ensures p.name == req.name && p.description == req.description && p.price == req.price
    ensures p.imageUrl == req.imageUrl && p.categoryId == req.categoryId && p.brandId == req.brandId
    ensures p.isActive == (req.isActive.None? || req.isActive.value)
  {
    Product(req.name, req.description, req.price, req.imageUrl, req.categoryId, req.brandId,
      if req.isActive.Some? then req.isActive.value else true)
  }

  /** The product `updateProduct` leaves: every field overwritten, except a null `isActive` keeps the old flag. */
  function Updated(prev: Product, req: ProductRequest): (p: Product)
    ensures p.name == req.name && p.description == req.description && p.price == req.price
    ensures p.imageUrl == req.imageUrl && p.categoryId == req.categoryId && p.brandId == req.brandId
    ensures req.isActive.Some? ==> p.isActive == req.isActive.value
    ensures req.isActive.None? ==> p.isActive == prev.isActive
  {
    prev.(name := req.name, description := req.description, price := req.price, imageUrl := req.imageUrl,
          categoryId := req.categoryId, brandId := req.brandId,
          isActive := if req.isActive.Some? then req.isActive.value else prev.isActive)
  }

  /** Applying the same update twice is the same as applying it once. */
  lemma UpdateIdempotent(p: Product, req: ProductRequest)
    ensures Updated(Updated(p, req), req) == Updated(p, req)
  {
  }

  /** An update that gives `isActive` makes the product what creating it from that request would. */
  lemma UpdateWithFlagIsCreate(p: Product, req: ProductRequest)
    requires req.isActive.Some?
    ensures Updated(p, req) == Created(req)
  {
  }

  /**
   * `createProduct`. An unknown category, or an unknown brand when a brand id is given, fails and
   * changes nothing; otherwise the product is stored under a fresh id.
   */
  method CreateProduct(st: Store, req: ProductRequest) returns (r: Result<ProductResponse>)
    requires st.Valid() && ValidRequest(req)
    modifies st
    ensures st.Valid()
    ensures r.Err? <==> RelationRefusal(old(st.Snapshot()), req).Some?
    ensures r.Err? ==> r.error == RelationRefusal(old(st.Snapshot()), req).value && st.Snapshot() == old(st.Snapshot())
    ensures r.Ok? ==>
      var d := old(st.Snapshot());
      && st.Snapshot() == d.(products := d.products[d.nextId := Created(req)], nextId := d.nextId + 1)
      && r.value == ToResponse(d.categories, d.brands, d.nextId, Created(req))
  {
    if req.categoryId !in st.categories {
      return Err(NotFound("Category not found"));
    }
    if req.brandId.Some? && req.brandId.value !in st.brands {
      return Err(NotFound("Brand not found"));
    }
    var product := Created(req);
    var id := st.NewId();
    st.products := st.products[id := product];
    r := Ok(ToResponse(st.categories, st.brands, id, product));
  }

  /**
   * `updateProduct`. An unknown product, category or brand fails, in that order, and changes
   * nothing; otherwise the product's fields are overwritten as `Updated` says.
   */
  method UpdateProduct(st: Store, id: int, req: ProductRequest) returns (r: Result<ProductResponse>)
    requires st.Valid() && ValidRequest(req)
    modifies st
    ensures st.Valid()
    ensures r.Err? <==> id !in old(st.products) || RelationRefusal(old(st.Snapshot()), req).Some?
    ensures r.Err? ==> st.Snapshot() == old(st.Snapshot())
    ensures id !in old(st.products) ==> r == Err(NotFound("Product not found"))
    ensures id in old(st.products) && r.Err? ==> r.error == RelationRefusal(old(st.Snapshot()), req).value
    ensures r.Ok? ==> id in old(st.products)
    ensures r.Ok? ==>
      var d := old(st.Snapshot());
      var p := Updated(d.products[id], req);
      && st.Snapshot() == d.(products := d.products[id := p])
      && r.value == ToResponse(d.categories, d.brands, id, p)
  {
    if id !in st.products {
      return Err(NotFound("Product not found"));
    }
    if req.categoryId !in st.categories {
      return Err(NotFound("Category not found"));
    }
    if req.brandId.Some? && req.brandId.value !in st.brands {
      return Err(NotFound("Brand not found"));
    }
    var product := Updated(st.products[id], req);
    st.products := st.products[id := product];
    r := Ok(ToResponse(st.categories, st.brands, id, product));
  }

  /** `getProductById`. */
  function GetProductById(d: Db, id: int): (r: Result<ProductResponse>)
    ensures r.Ok? <==> id in d.products
    ensures r.Ok? ==> r.value == ToResponse(d.categories, d.brands, id, d.products[id])
    ensures r.Err? ==> r.error == NotFound("Product not found")
  {
    if id in d.products then Ok(ToResponse(d.categories, d.brands, id, d.products[id])) else Err(NotFound("Product not found"))
  }

  /** `deleteProduct`: an unknown id fails; otherwise only that product row is removed. */
  method DeleteProduct(st: Store, id: int) returns (r: Result<()>)
    requires st.Valid()
    modifies st
    ensures st.Valid()
    ensures r.Err? <==> id !in old(st.products)
    ensures r.Err? ==> r.error == NotFound("Product not found") && st.Snapshot() == old(st.Snapshot())
    ensures r.Ok? ==> st.Snapshot() == old(st.Snapshot()).(products := old(st.products) - {id})
  {
    if id !in st.products {
      return Err(NotFound("Product not found"));
    }
    st.products := st.products - {id};
    r := Ok(());
  }

  /** Reading a product back after an update gives the updated fields. */
  lemma UpdateThenGet(d: Db, id: int, req: ProductRequest)
    requires id in d.products
    ensures var p := Updated(d.products[id], req);
      GetProductById(d.(products := d.products[id := p]), id) == Ok(ToResponse(d.categories, d.brands, id, p))
  {
  }
}
