/**
 * The backend's persistent state: one record type per JPA entity and one map per repository,
 * from the generated id to the record. Money is held in integer cents. A record does not repeat
 * its own id; the map key is the id.
 *
 * Two repositories are keyed differently, because the services only ever reach those rows
 * through one other entity: a cart is found by its user (`CartRepository.findByUserId`) and an
 * inventory record by its product (`InventoryRepository.findByProductId`). Their own ids are
 * kept inside the record.
 */
module Entities {
  import opened Wrappers

  /** The nine optional profile fields a user carries and `UpdateProfileRequest` can overwrite. */
  datatype Profile = Profile(
    firstName: Option<string>,
    lastName: Option<string>,
    phoneNumber: Option<string>,
    addressLine1: Option<string>,
    addressLine2: Option<string>,
    city: Option<string>,
    state: Option<string>,
    zipCode: Option<string>,
    country: Option<string>)

  /** `password` holds what the password encoder returned. `roles` holds role ids. */
  datatype User = User(username: string, email: string, password: string, profile: Profile, roles: set<int>)

  datatype Category = Category(name: string, description: Option<string>, imageUrl: Option<string>)

  datatype Brand = Brand(name: string, description: Option<string>, logoUrl: Option<string>)

  datatype Product = Product(
    name: string,
    description: Option<string>,
    price: int,
    imageUrl: Option<string>,
    categoryId: int,
    brandId: Option<int>,
    isActive: bool)

  /** The quantity column is a nullable `Integer`. */
  datatype Inventory = Inventory(id: int, quantity: Option<int>)

  datatype CartItem = CartItem(id: int, productId: int, quantity: int, unitPrice: int)

  /** `items` is the cart's item list in list order. */
  datatype Cart = Cart(id: int, items: seq<CartItem>)

  datatype OrderStatus = Pending | Confirmed | Paid | Shipped | Delivered | Cancelled

  datatype OrderItem = OrderItem(productId: int, quantity: int, unitPrice: int)

  /** `createdAt` is a timestamp supplied by the clock. */
  datatype Order = Order(userId: int, status: OrderStatus, totalAmount: int, items: seq<OrderItem>, createdAt: int)

  datatype PaymentStatus = Pending | Success | Failed

  datatype Payment = Payment(orderId: int, amount: int, status: PaymentStatus, provider: string, providerPaymentId: Option<string>)

  datatype Review = Review(userId: int, productId: int, rating: int, comment: Option<string>)

  datatype WishlistEntry = WishlistEntry(userId: int, productId: int)

  /** A value copy of every repository, used to state what an operation leaves unchanged. */
  datatype Db = Db(
    users: map<int, User>,
    roles: map<int, string>,
    categories: map<int, Category>,
    brands: map<int, Brand>,
    products: map<int, Product>,
    inventory: map<int, Inventory>,
    carts: map<int, Cart>,
    orders: map<int, Order>,
    payments: map<int, Payment>,
    reviews: map<int, Review>,
    wishlist: map<int, WishlistEntry>,
    nextId: int)

  /** Every key is an id the generator handed out: from 1 up to, not including, `n`. */
  predicate KeysBelow<V>(m: map<int, V>, n: int) {
    forall k :: k in m ==> 1 <= k < n
  }

  /** Usernames and emails identify users: `findByUsername` and `findByEmail` return one user. */
  predicate UsersUnique(users: map<int, User>) {
    forall a, b :: a in users && b in users && a != b ==>
      users[a].username != users[b].username && users[a].email != users[b].email
  }

  predicate RoleNamesUnique(roles: map<int, string>) {
    forall a, b :: a in roles && b in roles && a != b ==> roles[a] != roles[b]
  }

  predicate CategoryNamesUnique(categories: map<int, Category>) {
    forall a, b :: a in categories && b in categories && a != b ==> categories[a].name != categories[b].name
  }

  predicate BrandNamesUnique(brands: map<int, Brand>) {
    forall a, b :: a in brands && b in brands && a != b ==> brands[a].name != brands[b].name
  }

  /** Stock is never negative, and every inventory id was generated. */
  predicate InventoryOk(inventory: map<int, Inventory>, nextId: int) {
    forall p :: p in inventory ==>
      inventory[p].id < nextId && (inventory[p].quantity.Some? ==> inventory[p].quantity.value >= 0)
  }

  /** Within one cart, item ids are distinct and each product has at most one line. */
  predicate LinesDistinct(items: seq<CartItem>) {
    forall i, j :: 0 <= i < j < |items| ==> items[i].id != items[j].id && items[i].productId != items[j].productId
  }

  predicate IdsBelow(items: seq<CartItem>, n: int) {
    forall k :: 0 <= k < |items| ==> items[k].id < n
  }

  /** A cart's own id and its item ids were generated, and its lines are distinct. */
  predicate CartOk(cart: Cart, nextId: int) {
    cart.id < nextId && LinesDistinct(cart.items) && IdsBelow(cart.items, nextId)
  }

  predicate CartsOk(carts: map<int, Cart>, nextId: int) {
    forall u :: u in carts ==> CartOk(carts[u], nextId)
  }

  /** Every payment belongs to a stored order. */
  predicate PaymentsOk(payments: map<int, Payment>, orders: map<int, Order>) {
    forall k :: k in payments ==> payments[k].orderId in orders
  }

  /** At most one review per user and product. */
  predicate ReviewsUnique(reviews: map<int, Review>) {
    forall a, b :: a in reviews && b in reviews && a != b ==>
      reviews[a].userId != reviews[b].userId || reviews[a].productId != reviews[b].productId
  }

  /** At most one wishlist entry per user and product. */
  predicate WishlistUnique(wishlist: map<int, WishlistEntry>) {
    forall a, b :: a in wishlist && b in wishlist && a != b ==> wishlist[a] != wishlist[b]
  }

  /** The invariants every service operation preserves. */
  predicate Consistent(d: Db) {
    && d.nextId >= 1
    && KeysBelow(d.users, d.nextId) && KeysBelow(d.roles, d.nextId)
    && KeysBelow(d.categories, d.nextId) && KeysBelow(d.brands, d.nextId)
    && KeysBelow(d.products, d.nextId) && KeysBelow(d.orders, d.nextId)
    && KeysBelow(d.payments, d.nextId) && KeysBelow(d.reviews, d.nextId)
    && KeysBelow(d.wishlist, d.nextId)
    && UsersUnique(d.users) && RoleNamesUnique(d.roles)
    && CategoryNamesUnique(d.categories) && BrandNamesUnique(d.brands)
    && InventoryOk(d.inventory, d.nextId) && CartsOk(d.carts, d.nextId)
    && PaymentsOk(d.payments, d.orders)
    && ReviewsUnique(d.reviews) && WishlistUnique(d.wishlist)
  }

  /** The database behind the repositories. */
  class Store {
    var users: map<int, User>
    var roles: map<int, string>
    var categories: map<int, Category>
    var brands: map<int, Brand>
    var products: map<int, Product>
    var inventory: map<int, Inventory>
    var carts: map<int, Cart>
    var orders: map<int, Order>
    var payments: map<int, Payment>
    var reviews: map<int, Review>
    var wishlist: map<int, WishlistEntry>
    /** The id generator: the next id the database hands out. */
    var nextId: int

    ghost function Snapshot(): Db
      reads this
    {
      Db(users, roles, categories, brands, products, inventory, carts, orders, payments, reviews, wishlist, nextId)
    }

    ghost predicate Valid()
      reads this
    {
      Consistent(Snapshot())
    }

    /** An empty database. */
    constructor ()
      ensures Valid()
      ensures Snapshot() == Db(map[], map[], map[], map[], map[], map[], map[], map[], map[], map[], map[], 1)
    {
      users, roles, categories, brands, products := map[], map[], map[], map[], map[];
      inventory, carts, orders, payments, reviews, wishlist := map[], map[], map[], map[], map[], map[];
      nextId := 1;
    }

    /** The id of a row about to be inserted: larger than every id handed out so far. */
    method NewId() returns (id: int)
      requires Valid()
      modifies this
      ensures Valid()
      ensures id >= 1 && id == old(nextId)
      ensures Snapshot() == old(Snapshot()).(nextId := id + 1)
    {
      id := nextId;
      nextId := nextId + 1;
    }

    /** `cartRepository.save`: stores a consistent cart as the user's cart. */
    method SaveCart(userId: int, cart: Cart)
      requires Valid() && CartOk(cart, nextId)
      modifies this
      ensures Valid()
      ensures Snapshot() == old(Snapshot()).(carts := old(carts)[userId := cart])
    {
      ghost var d := Snapshot();
      StoreCart(d, userId, cart);
      carts := carts[userId := cart];
      assert Snapshot() == d.(carts := d.carts[userId := cart]);
    }
  }

  /** `userRepository.findByUsername`: the id of the user with that username, if any. */
  function FindByUsername(users: map<int, User>, username: string): (r: Option<int>)
    requires UsersUnique(users)
    ensures r.None? <==> forall u :: u in users ==> users[u].username != username
    ensures r.Some? ==> r.value in users && users[r.value].username == username
  {
    if exists u :: u in users && users[u].username == username then
      var u :| u in users && users[u].username == username; Some(u)
    else None
  }

  /** `userRepository.findByEmail`: the id of the user with that email, if any. */
  function FindByEmail(users: map<int, User>, email: string): (r: Option<int>)
    requires UsersUnique(users)
    ensures r.None? <==> forall u :: u in users ==> users[u].email != email
    ensures r.Some? ==> r.value in users && users[r.value].email == email
  {
    if exists u :: u in users && users[u].email == email then
      var u :| u in users && users[u].email == email; Some(u)
    else None
  }

  /** Storing a consistent cart keeps the database consistent. */
  lemma StoreCart(d: Db, userId: int, cart: Cart)
    requires Consistent(d) && CartOk(cart, d.nextId)
    ensures Consistent(d.(carts := d.carts[userId := cart]))
  {
  }
}
