/**
 * ReviewService: a user may review a product only after buying it, and only once; only the
 * author may change or delete a review.
 */
module ReviewService {
  import opened Wrappers
  import opened Entities
  import OrderService
  import Strings

  /** Some line of the order is for the product. */
  predicate HasLineFor(order: Order, productId: int) {
    exists k :: 0 <= k < |order.items| && order.items[k].productId == productId
  }

  /** Bought: some order of the user has a line for the product. */
  predicate Purchased(orders: map<int, Order>, userId: int, productId: int) {
    exists o :: o in orders && orders[o].userId == userId && HasLineFor(orders[o], productId)
  }

  /** The `flatMap(order -> items).anyMatch(product id equals)` over a list of orders. */
  function AnyLineFor(orders: seq<Order>, productId: int): bool
    decreases |orders|
  {
    if |orders| == 0 then false else HasLineFor(orders[0], productId) || AnyLineFor(orders[1..], productId)
  }

  /** The stream is true exactly when some listed order has a line for the product. */
  lemma {:induction false} AnyLineForIff(orders: seq<Order>, productId: int)
    ensures AnyLineFor(orders, productId) <==> exists i :: 0 <= i < |orders| && HasLineFor(orders[i], productId)
    decreases |orders|
  {
    if |orders| > 0 {
      AnyLineForIff(orders[1..], productId);
      if exists i :: 0 <= i < |orders| && HasLineFor(orders[i], productId) {
        var i :| 0 <= i < |orders| && HasLineFor(orders[i], productId);
        if i > 0 {
          assert orders[1..][i - 1] == orders[i];
        }
      }
      if AnyLineFor(orders[1..], productId) {
        var i :| 0 <= i < |orders[1..]| && HasLineFor(orders[1..][i], productId);
        assert orders[i + 1] == orders[1..][i];
      }
    }
  }

  /** `hasUserPurchasedProduct`: the user's orders, newest first, searched for a line of the product. */
  method HasUserPurchasedProduct(st: Store, userId: int, productId: int) returns (b: bool)
    requires st.Valid()
    ensures b <==> Purchased(st.orders, userId, productId)
  {
    var orders := st.orders;
    var ids := OrderService.FindByUserIdOrderByCreatedAtDesc(orders, st.nextId, userId);
    var listed := seq(|ids|, i requires 0 <= i < |ids| => orders[ids[i]]);
    b := AnyLineFor(listed, productId);
    AnyLineForIff(listed, productId);
    if Purchased(orders, userId, productId) {
      var o :| o in orders && orders[o].userId == userId && HasLineFor(orders[o], productId);
      assert o in OrderService.UserOrderIds(orders, userId);
      assert o in multiset(ids);
      var i :| 0 <= i < |ids| && ids[i] == o;
      assert listed[i] == orders[o];
      assert HasLineFor(listed[i], productId);
      assert b;
    }
    if b {
      var i :| 0 <= i < |listed| && HasLineFor(listed[i], productId);
      var o := ids[i];
      assert o in multiset(ids);
      assert o in OrderService.UserOrderIds(orders, userId);
      assert listed[i] == orders[o];
      assert o in orders && orders[o].userId == userId && HasLineFor(orders[o], productId);
    }
  }

  /** `findByUserIdAndProductId(...).isPresent()`. */
  predicate HasReviewed(reviews: map<int, Review>, userId: int, productId: int) {
    exists k :: k in reviews && reviews[k].userId == userId && reviews[k].productId == productId
  }

  /** Why `createReview` throws, if it does, in the order it checks. */
  function CreateRefusal(d: Db, userId: int, productId: int): Option<Error> {
    if userId !in d.users then Some(NotFound("User not found"))
    else if productId !in d.products then Some(NotFound("Product not found"))
    else if !Purchased(d.orders, userId, productId) then Some(IllegalArgument("You can only review products you have purchased"))
    else if HasReviewed(d.reviews, userId, productId) then Some(IllegalArgument("You have already reviewed this product"))
    else None
  }

  /** `ReviewRequest`: a rating from 1 to 5 and an optional comment of at most 2000 UTF-16 units. */
  predicate ValidRequest(rating: int, comment: Option<string>) {
    1 <= rating <= 5 && (comment.Some? ==> Strings.Utf16Length(comment.value) <= 2000)
  }

  /**
   * `createReview`. Unknown user or product, a product the user never ordered, and a second
   * review of the same product all fail and change nothing; otherwise the review is stored with
   * exactly the given rating and comment.
   */
  method CreateReview(st: Store, userId: int, productId: int, rating: int, comment: Option<string>) returns (r: Result<(int, Review)>)
    requires st.Valid() && ValidRequest(rating, comment)
    modifies st
    ensures st.Valid()
    ensures r.Err? <==> CreateRefusal(old(st.Snapshot()), userId, productId).Some?
    ensures r.Err? ==> r.error == CreateRefusal(old(st.Snapshot()), userId, productId).value && st.Snapshot() == old(st.Snapshot())
    ensures r.Ok? ==>
      var d := old(st.Snapshot());
      && r.value == (d.nextId, Review(userId, productId, rating, comment))
      && st.Snapshot() == d.(reviews := d.reviews[d.nextId := r.value.1], nextId := d.nextId + 1)
  {
    if userId !in st.users {
      return Err(NotFound("User not found"));
    }
    if productId !in st.products {
      return Err(NotFound("Product not found"));
    }
    var bought := HasUserPurchasedProduct(st, userId, productId);
    if !bought {
      return Err(IllegalArgument("You can only review products you have purchased"));
    }
    if HasReviewed(st.reviews, userId, productId) {
      return Err(IllegalArgument("You have already reviewed this product"));
    }
    var review := Review(userId, productId, rating, comment);
    var id := SaveNewReview(st, review);
    r := Ok((id, review));
  }

  /** `reviewRepository.save` of a new review: it is stored under a fresh id. */
  method SaveNewReview(st: Store, review: Review) returns (id: int)
    requires st.Valid() && !HasReviewed(st.reviews, review.userId, review.productId)
    modifies st
    ensures st.Valid()
    ensures id == old(st.nextId)
    ensures st.Snapshot() == old(st.Snapshot()).(reviews := old(st.reviews)[id := review], nextId := id + 1)
  {
    id := st.NewId();
    StoreNewReview(st.Snapshot(), id, review);
    st.reviews := st.reviews[id := review];
  }

  /** A first review by a user of a product, under a fresh id, keeps the database consistent. */
  lemma StoreNewReview(d: Db, id: int, review: Review)
    requires Consistent(d) && 1 <= id < d.nextId && id !in d.reviews
    requires !HasReviewed(d.reviews, review.userId, review.productId)
    ensures Consistent(d.(reviews := d.reviews[id := review]))
  {
  }

  /** Why `updateReview` or `deleteReview` throws, if it does. */
  function OwnerRefusal(reviews: map<int, Review>, userId: int, reviewId: int, notOwner: string): Option<Error> {
    if reviewId !in reviews then Some(NotFound("Review not found"))
    else if reviews[reviewId].userId != userId then Some(IllegalArgument(notOwner))
    else None
  }

  /** `updateReview`: only the author may change a review; rating and comment are replaced. */
  method UpdateReview(st: Store, userId: int, reviewId: int, rating: int, comment: Option<string>) returns (r: Result<Review>)
    requires st.Valid() && ValidRequest(rating, comment)
    modifies st
    ensures st.Valid()
    ensures r.Err? <==> OwnerRefusal(old(st.reviews), userId, reviewId, "You can only update your own reviews").Some?
    ensures r.Err? ==> r.error == OwnerRefusal(old(st.reviews), userId, reviewId, "You can only update your own reviews").value && st.Snapshot() == old(st.Snapshot())
    ensures r.Ok? ==> reviewId in old(st.reviews)
    ensures r.Ok? ==>
      var d := old(st.Snapshot());
      && r.value == d.reviews[reviewId].(rating := rating, comment := comment)
      && st.Snapshot() == d.(reviews := d.reviews[reviewId := r.value])
  {
    if reviewId !in st.reviews {
      return Err(NotFound("Review not found"));
    }
    var review := st.reviews[reviewId];
    if review.userId != userId {
      return Err(IllegalArgument("You can only update your own reviews"));
    }
    review := review.(rating := rating, comment := comment);
    StoreReview(st.Snapshot(), reviewId, review);
    st.reviews := st.reviews[reviewId := review];
    r := Ok(review);
  }

  /** `deleteReview`: only the author may delete a review; no other review is touched. */
  method DeleteReview(st: Store, userId: int, reviewId: int) returns (r: Result<()>)
    requires st.Valid()
    modifies st
    ensures st.Valid()
    ensures r.Err? <==> OwnerRefusal(old(st.reviews), userId, reviewId, "You can only delete your own reviews").Some?
    ensures r.Err? ==> r.error == OwnerRefusal(old(st.reviews), userId, reviewId, "You can only delete your own reviews").value && st.Snapshot() == old(st.Snapshot())
    ensures r.Ok? ==> st.Snapshot() == old(st.Snapshot()).(reviews := old(st.reviews) - {reviewId})
  {
    if reviewId !in st.reviews {
      return Err(NotFound("Review not found"));
    }
    if st.reviews[reviewId].userId != userId {
      return Err(IllegalArgument("You can only delete your own reviews"));
    }
    st.reviews := st.reviews - {reviewId};
    r := Ok(());
  }

  /** Rewriting a review's rating and comment keeps the database consistent. */
  lemma StoreReview(d: Db, reviewId: int, review: Review)
    requires Consistent(d) && reviewId in d.reviews
    requires review.userId == d.reviews[reviewId].userId && review.productId == d.reviews[reviewId].productId
    ensures Consistent(d.(reviews := d.reviews[reviewId := review]))
  {
    var after := d.reviews[reviewId := review];
    assert after.Keys == d.reviews.Keys;
    forall a, b | a in after && b in after && a != b
      ensures after[a].userId != after[b].userId || after[a].productId != after[b].productId
    {
      assert d.reviews[a].userId == after[a].userId && d.reviews[a].productId == after[a].productId;
      assert d.reviews[b].userId == after[b].userId && d.reviews[b].productId == after[b].productId;
    }
  }

  /** After a successful create the user has exactly one review of the product: the new one. */
  lemma CreatedReviewIsTheOnlyOne(reviews: map<int, Review>, id: int, userId: int, productId: int, rating: int, comment: Option<string>)
    requires !HasReviewed(reviews, userId, productId) && id !in reviews
    ensures var after := reviews[id := Review(userId, productId, rating, comment)];
      HasReviewed(after, userId, productId) &&
      forall k :: k in after && after[k].userId == userId && after[k].productId == productId ==> k == id
  {
    var after := reviews[id := Review(userId, productId, rating, comment)];
    assert after[id].userId == userId && after[id].productId == productId;
  }
}
