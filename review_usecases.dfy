/** The two review use cases: create a review (src/server/application/usecase/review/
    createReviewUsecase.ts: rating guard, build, save) and read the timeline
    (src/server/application/usecase/review/getReviewTimelineUsecase.ts: limit guard,
    then `findRecent`). */
module ReviewUseCases {
  import opened Common
  import opened ReviewEntities
  import opened ReviewRepositories

  /** What `CreateReviewUseCaseInteractor` throws for a rating outside 1 to 5. */
  const INVALID_RATING: string := "評価は1から5の間で入力してください"
  /** What `GetReviewTimelineUseCaseInputData` throws for a negative limit. */
  const INVALID_TIMELINE_LIMIT: string := "limit must over 1."

  /** `CreateReviewRequest`. */
  datatype CreateReviewRequest = CreateReviewRequest(
    productId: string,
    buyerId: string,
    sellerId: string,
    rating: int,
    comment: string,
    productTitle: string,
    buyerName: string)

  /** The review `execute(request)` builds at `now` with the id `freshId` (the
      `crypto.randomUUID()` of the code), or the error it throws first. */
  function NewReview(request: CreateReviewRequest, freshId: string, now: Time): (r: Result<Review>)
    ensures r.Ok? <==> 1 <= request.rating <= 5
    ensures r.Err? ==> r.message == INVALID_RATING
    ensures r.Ok? ==> r.value.IsValidRating()
    ensures r.Ok? ==> && r.value.id == ReviewId(freshId) && r.value.createdAt == now
                      && r.value.productId == request.productId && r.value.buyerId == request.buyerId
                      && r.value.sellerId == request.sellerId && r.value.rating == request.rating
                      && r.value.comment == request.comment && r.value.productTitle == request.productTitle
                      && r.value.buyerName == request.buyerName
  {
    if request.rating < 1 || request.rating > 5 then Err(INVALID_RATING)
    else Ok(Review(ReviewId(freshId), request.productId, request.buyerId, request.sellerId,
                   request.rating, request.comment, request.productTitle, request.buyerName, now))
  }

  /** Creating is accepted for exactly the ratings a review built from the request
      would call valid, whatever the comment (the empty one included). */
  lemma CreatedReviewsAreValid(request: CreateReviewRequest, freshId: string, now: Time, comment: string)
    ensures NewReview(request, freshId, now).Ok? <==>
              Review(ReviewId(freshId), request.productId, request.buyerId, request.sellerId, request.rating,
                     request.comment, request.productTitle, request.buyerName, now).IsValidRating()
    ensures NewReview(request, freshId, now).Ok? == NewReview(request.(comment := comment), freshId, now).Ok?
  {
  }

  /** `CreateReviewUseCaseInteractor`. */
  class CreateReviewUseCaseInteractor {
    const reviewRepository: TrpcReviewRepository

    constructor (reviewRepository: TrpcReviewRepository)
      ensures this.reviewRepository == reviewRepository
    {
      this.reviewRepository := reviewRepository;
    }

    /** `execute(request)`: a rating outside 1 to 5 throws before anything is stored;
        otherwise the new review is saved once, under its id, and returned. */
    method Execute(request: CreateReviewRequest, freshId: string, now: Time) returns (r: Result<Review>)
      requires reviewRepository.Valid()
      modifies reviewRepository
      ensures reviewRepository.Valid()
      ensures match NewReview(request, freshId, now)
              case Ok(review) =>
                && r == Ok(review)
                && reviewRepository.reviews == old(reviewRepository.reviews)[freshId := review]
                && reviewRepository.keys ==
                     (if freshId in old(reviewRepository.reviews) then old(reviewRepository.keys)
                      else old(reviewRepository.keys) + [freshId])
              case Err(message) =>
                && r == Err(message)
                && reviewRepository.reviews == old(reviewRepository.reviews)
                && reviewRepository.keys == old(reviewRepository.keys)
    {
      if request.rating < 1 || request.rating > 5 {
        return Err(INVALID_RATING);
      }
      var review := Review(ReviewId(freshId), request.productId, request.buyerId, request.sellerId,
                           request.rating, request.comment, request.productTitle, request.buyerName, now);
      reviewRepository.Save(review);
      r := Ok(review);
    }
  }

  /** A `GetReviewTimelineUseCaseInputData` that was constructed without throwing. */
  datatype GetReviewTimelineInput = GetReviewTimelineInput(limit: nat)

  /** `new GetReviewTimelineUseCaseInputData(limit)`: only a negative limit throws, so
      0 is accepted; the `Limit` getter gives back the value passed. */
  function NewGetReviewTimelineInput(limit: int): (r: Result<GetReviewTimelineInput>)
    ensures r.Ok? <==> limit >= 0
    ensures r.Ok? ==> r.value.limit == limit
    ensures r.Err? ==> r.message == INVALID_TIMELINE_LIMIT
  {
    if limit < 0 then Err(INVALID_TIMELINE_LIMIT) else Ok(GetReviewTimelineInput(limit))
  }

  /** `GetReviewTimelineUseCaseInteractor`. */
  class GetReviewTimelineUseCaseInteractor {
    const reviewRepository: TrpcReviewRepository

    constructor (reviewRepository: TrpcReviewRepository)
      ensures this.reviewRepository == reviewRepository
    {
      this.reviewRepository := reviewRepository;
    }

    /** `execute(request)`: `findRecent(request.Limit)` as it is. The input guard keeps
        the limit from counting back from the end, so exactly min(limit, stored count)
        reviews come back, newest first, and none left out is newer than one kept. */
    method Execute(request: GetReviewTimelineInput) returns (r: seq<Review>)
      requires reviewRepository.Valid()
      ensures r == Recent(reviewRepository.Listing(), request.limit)
      ensures |r| == Min(request.limit, |reviewRepository.reviews|)
      ensures NewestFirst(r)
      ensures forall x | x in r :: x.id.value in reviewRepository.reviews && reviewRepository.reviews[x.id.value] == x
      ensures forall x, y | x in r && y in reviewRepository.reviews.Values && y !in r :: y.createdAt <= x.createdAt
    {
      r := reviewRepository.FindRecent(request.limit);
    }
  }

  /** On the seeded store, the timeline is the first `limit` sample reviews in their
      stored order (2024-01-22, -21, -20). */
  lemma SeededTimeline(repo: TrpcReviewRepository, limit: nat)
    requires repo.Valid() && repo.Listing() == SampleReviews()
    ensures Recent(repo.Listing(), limit) == SampleReviews()[..Min(limit, 3)]
  {
    SampleReviewsNewestFirst();
    NewestFirstTimeline(SampleReviews(), limit);
  }

  /** A review stored under its id (as `save` leaves it) is in every timeline at
      least as long as the store. */
  lemma SavedReviewIsVisible(repo: TrpcReviewRepository, review: Review, limit: int)
    requires repo.Valid() && review.id.value in repo.reviews && repo.reviews[review.id.value] == review
    requires limit >= |repo.reviews|
    ensures review in Recent(repo.Listing(), limit)
  {
    repo.ListingHoldsStored();
    repo.ListingIsDistinct();
    WholeTimeline(repo.Listing(), limit, review);
  }
}
