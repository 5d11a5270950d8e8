/** A buyer's review of a purchased product. Both copies of `ReviewEntity`
    (src/server/domain/entities/review.ts and freemarket-app/src/domain/entities/review.ts)
    wrap the same record, have the same `isValidRating` and `toPlainObject`, and
    nothing that changes the record after construction, so a review is a value. The
    second copy has fewer getters (none for the product, seller or buyer id); the
    fields of the value stand for the getters of both. */
module ReviewEntities {
  import opened Common

  datatype ReviewId = ReviewId(value: string)

  /** The record a `ReviewEntity` wraps; its getters are the fields. */
  datatype Review = Review(
    id: ReviewId,
    productId: string,
    buyerId: string,
    sellerId: string,
    rating: int,
    comment: string,
    productTitle: string,
    buyerName: string,
    createdAt: Time)
  {
    /** `isValidRating()`: a rating from 1 to 5, both ends included. */
    predicate IsValidRating() {
      rating >= 1 && rating <= 5
    }
  }

  /** The boundary ratings: just outside the range is refused, its ends and its
      middle are accepted. */
  lemma RatingBoundaries(r: Review)
    ensures r.rating in {0, 6, -1} ==> !r.IsValidRating()
    ensures r.rating in {1, 3, 5} ==> r.IsValidRating()
    ensures r.IsValidRating() <==> r.rating in {1, 2, 3, 4, 5}
  {
  }
}
