/**
 * WishlistService: a user's saved products, reached through the authenticated username. Adding
 * an entry that exists already does nothing; removing an absent entry is not an error.
 */
module WishlistService {
  import opened Wrappers
  import opened Entities
  import ProductService

  /** `WishlistResponse`: the entry id and its product's response (None for a product the store lacks). */
  datatype WishlistResponse = WishlistResponse(id: int, product: Option<ProductService.ProductResponse>)

  /** `existsByUserIdAndProductId`. */
  predicate InWishlist(wishlist: map<int, WishlistEntry>, userId: int, productId: int) {
    exists k :: k in wishlist && wishlist[k] == WishlistEntry(userId, productId)
  }

  /** Why `addToWishlist` throws, if it does. An existing entry is checked before the product. */
  function AddRefusal(d: Db, username: string, productId: int): Option<Error>
    requires UsersUnique(d.users)
  {
    match FindByUsername(d.users, username)
    case None => Some(IllegalArgument("User not found"))
    case Some(u) =>
      if InWishlist(d.wishlist, u, productId) then None
      else if productId !in d.products then Some(IllegalArgument("Product not found"))
      else None
  }

  /**
   * `addToWishlist`. An unknown username fails; an entry already present returns without any
   * change; otherwise an unknown product fails and a known one gets one new entry.
   */
  method AddToWishlist(st: Store, username: string, productId: int) returns (r: Result<()>)
    requires st.Valid()
    modifies st
    ensures st.Valid()
    ensures r.Err? <==> AddRefusal(old(st.Snapshot()), username, productId).Some?
    ensures r.Err? ==> r.error == AddRefusal(old(st.Snapshot()), username, productId).value
    ensures r.Ok? ==> FindByUsername(old(st.users), username).Some?
    ensures r.Ok? ==>
      var d := old(st.Snapshot());
      var u := FindByUsername(d.users, username).value;
      && (InWishlist(d.wishlist, u, productId) ==> st.Snapshot() == d)
      && (!InWishlist(d.wishlist, u, productId) ==>
            st.Snapshot() == d.(wishlist := d.wishlist[d.nextId := WishlistEntry(u, productId)], nextId := d.nextId + 1))
    ensures r.Err? ==> st.Snapshot() == old(st.Snapshot())
  {
    var found := FindByUsername(st.users, username);
    if found.None? {
      return Err(IllegalArgument("User not found"));
    }
    var u := found.value;
    if exists k :: k in st.wishlist && st.wishlist[k] == WishlistEntry(u, productId) {
      return Ok(());
    }
    if productId !in st.products {
      return Err(IllegalArgument("Product not found"));
    }
    var id := st.NewId();
    st.wishlist := st.wishlist[id := WishlistEntry(u, productId)];
    r := Ok(());
  }

  /** The wishlist without the user's entry for the product (`deleteByUserIdAndProductId`). */
  function Without(wishlist: map<int, WishlistEntry>, userId: int, productId: int): (w: map<int, WishlistEntry>)
    ensures !InWishlist(w, userId, productId)
    ensures forall k :: k in wishlist && wishlist[k] != WishlistEntry(userId, productId) ==> k in w && w[k] == wishlist[k]
    ensures forall k :: k in w ==> k in wishlist
  {
    map k | k in wishlist && wishlist[k] != WishlistEntry(userId, productId) :: wishlist[k]
  }

  /** `removeFromWishlist`: an unknown username fails; otherwise the entry, if any, is gone. */
  method RemoveFromWishlist(st: Store, username: string, productId: int) returns (r: Result<()>)
    requires st.Valid()
    modifies st
    ensures st.Valid()
    ensures r.Err? <==> FindByUsername(old(st.users), username).None?
    ensures r.Err? ==> r.error == IllegalArgument("User not found") && st.Snapshot() == old(st.Snapshot())
    ensures r.Ok? ==>
      var d := old(st.Snapshot());
      st.Snapshot() == d.(wishlist := Without(d.wishlist, FindByUsername(d.users, username).value, productId))
  {
    var found := FindByUsername(st.users, username);
    if found.None? {
      return Err(IllegalArgument("User not found"));
    }
    st.wishlist := Without(st.wishlist, found.value, productId);
    r := Ok(());
  }

  /** After a successful add there is exactly one entry for the user and product. */
  lemma AddLeavesOneEntry(wishlist: map<int, WishlistEntry>, id: int, userId: int, productId: int)
    requires WishlistUnique(wishlist) && id !in wishlist
    ensures var after := if InWishlist(wishlist, userId, productId) then wishlist else wishlist[id := WishlistEntry(userId, productId)];
      && InWishlist(after, userId, productId)
      && forall a, b :: a in after && b in after && after[a] == WishlistEntry(userId, productId) && after[b] == after[a] ==> a == b
  {
    if !InWishlist(wishlist, userId, productId) {
      var after := wishlist[id := WishlistEntry(userId, productId)];
      assert after[id] == WishlistEntry(userId, productId);
    }
  }

  /** Removing after adding leaves no entry for the pair, and no other entry changes. */
  lemma RemoveUndoesAdd(wishlist: map<int, WishlistEntry>, id: int, userId: int, productId: int)
    requires id !in wishlist && !InWishlist(wishlist, userId, productId)
    ensures Without(wishlist[id := WishlistEntry(userId, productId)], userId, productId) == wishlist
  {
    var added := wishlist[id := WishlistEntry(userId, productId)];
    var w := Without(added, userId, productId);
    forall k | k in wishlist ensures k in w && w[k] == wishlist[k] {
      assert added[k] == wishlist[k];
    }
    assert w.Keys == wishlist.Keys;
  }

  /** `toResponse`: the entry id and the product's response. */
  function ToResponse(products: map<int, Product>, categories: map<int, Category>, brands: map<int, Brand>,
                      id: int, entry: WishlistEntry): (r: WishlistResponse)
    ensures r.id == id
    ensures entry.productId in products <==> r.product.Some?
    ensures r.product.Some? ==>
      r.product.value == ProductService.ToResponse(categories, brands, entry.productId, products[entry.productId])
  {
    var product := if entry.productId in products
      then Some(ProductService.ToResponse(categories, brands, entry.productId, products[entry.productId]))
      else None;
    WishlistResponse(id, product)
  }

  /** The ids of the user's entries. */
  function EntriesOf(wishlist: map<int, WishlistEntry>, userId: int): set<int> {
    set k | k in wishlist && wishlist[k].userId == userId
  }

  /**
   * `getWishlist`. An unknown username fails; otherwise one response per entry of that user and
   * no other, listed by ascending entry id.
   */
  method GetWishlist(st: Store, username: string) returns (r: Result<seq<WishlistResponse>>, ghost ids: seq<int>)
    requires st.Valid()
    ensures r.Err? <==> FindByUsername(st.users, username).None?
    ensures r.Err? ==> r.error == IllegalArgument("User not found")
    ensures r.Ok? ==>
      && (forall i, j :: 0 <= i < j < |ids| ==> ids[i] < ids[j])
      && (forall k :: k in ids <==> k in EntriesOf(st.wishlist, FindByUsername(st.users, username).value))
      && (forall i :: 0 <= i < |ids| ==> ids[i] in st.wishlist)
      && |r.value| == |ids|
      && forall i :: 0 <= i < |ids| ==> r.value[i] == ToResponse(st.products, st.categories, st.brands, ids[i], st.wishlist[ids[i]])
  {
    ids := [];
    var found := FindByUsername(st.users, username);
    if found.None? {
      return Err(IllegalArgument("User not found")), ids;
    }
    var u := found.value;
    var lines: seq<WishlistResponse> := [];
    var id := 1;
    while id < st.nextId
      invariant 1 <= id <= st.nextId
      invariant forall i, j :: 0 <= i < j < |ids| ==> ids[i] < ids[j]
      invariant forall i :: 0 <= i < |ids| ==> ids[i] < id
      invariant forall k :: k in ids <==> k in EntriesOf(st.wishlist, u) && k < id
      invariant forall i :: 0 <= i < |ids| ==> ids[i] in st.wishlist
      invariant |lines| == |ids|
      invariant forall i :: 0 <= i < |ids| ==> lines[i] == ToResponse(st.products, st.categories, st.brands, ids[i], st.wishlist[ids[i]])
    {
      if id in st.wishlist && st.wishlist[id].userId == u {
        lines := lines + [ToResponse(st.products, st.categories, st.brands, id, st.wishlist[id])];
        ids := ids + [id];
      }
      id := id + 1;
    }
    r := Ok(lines);
  }
}
