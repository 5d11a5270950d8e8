# BuyReal marketplace: a verified model of its core

BuyReal is a small layered marketplace: sellers list products, buyers purchase
them, every purchase earns the buyer a loyalty stamp, buyers review what they
bought, and categories are ranked by sales. This project models the logic
underneath that flow in Dafny and proves properties of it.

- **Stamp cards.** `StampCardEntity` is a per-user counter with a reward every
  10 stamps. The in-memory `TrpcStampCardRepository` is a map keyed by user id
  with get-or-create. The add-stamp, use-reward and get-card use cases work over
  that map.
- **Products.** `ProductEntity` has a status machine: AVAILABLE may become SOLD
  or RESERVED, and both of those are final. The purchase use case applies three
  ordered guards, then marks the product sold and saves it. The router's
  `purchase` procedure runs the purchase, then credits the buyer a stamp, with no
  rollback between the two steps.
- **Queries.** The product repository filters by AND-ed optional criteria, with
  JavaScript truthiness rules. The review repository returns a newest-first
  timeline cut to a limit. The category ranking repository returns a top-N prefix.
- **Validators.** The guard chain that creates a product, the review rating range,
  the non-negative limits, the non-empty user id, the paging defaults, the
  flattening of product objects by the list adapter, and `UserEntity.updateProfile`.

Modelling choices:

- A mutable object of the code is a Dafny `class` holding its plain record.
  `StampCardEntity`, `ProductEntity` and `UserEntity` are modelled this way, and
  their methods reassign that record.
- A repository is a class whose field is a `map` from key to object. A second
  field, the `keys` sequence, records the `Map`'s insertion order, which is the
  order `Array.from(map.values())` lists.
- Reviews and category rankings have no mutators, so they are stored as values.
- Each state-changing method is proved against a function of the stored records.
  For example, the add-stamp interactor leaves exactly `AddStamp(old cards, user, …)`.
  The lemmas about these functions carry the properties that span several calls.
- A thrown `Error` is an `Err(message)` or a `Fail(message)` result, carrying the
  code's exact message.
- `new Date()` is a `now: Time` parameter, measured in milliseconds. The
  `new Date()` calls of one operation share one `now`; the lines under
  "## Left out" that start with a member name say where that matters.
- `crypto.randomUUID()` is a `freshId` parameter.

In four places the model follows the code rather than its tests:

- The limit guards accept 0, because they only reject values `< 0`.
- The get-card input accepts a user id made of spaces, because only the empty
  string is falsy.
- The use-reward message for a missing card is `スタンプカードが見つかりません`.
- The create-product guard for an empty title reports the price message,
  `param error: price  is invalid!`.

## Model

| member | source | states |
|---|---|---|
| StampCardEntities.StampCard.StampsUntilReward | freemarket-app/src/domain/entities/stampCardEntity.ts:65-70 | never negative; 0 exactly when a reward can be taken; otherwise the stamps plus the result make 10 |
| StampCardEntities.StampCard.RewardCount | freemarket-app/src/domain/entities/stampCardEntity.ts:72-76 | the floor of stamps / 10: result·10 ≤ stamps < (result+1)·10; positive exactly when a reward can be taken |
| StampCardEntities.StampCard.WithStamp | freemarket-app/src/domain/entities/stampCardEntity.ts:40-45 | stamps and totalPurchases each rise by exactly 1; id, userId and createdAt are kept; lastPurchaseDate is set; the reward count never falls |
| StampCardEntities.StampCard.Redeemed | freemarket-app/src/domain/entities/stampCardEntity.ts:61-62 | exactly 10 stamps are spent (not a reset), the result stays ≥ 0, totalPurchases is kept, and the reward count drops by exactly one |
| StampCardEntities.StampCard.UseReward | freemarket-app/src/domain/entities/stampCardEntity.ts:57-63 | succeeds iff stamps ≥ 10; success subtracts 10; failure carries スタンプが足りません |
| StampCardEntities.StampCard.CanGetReward | freemarket-app/src/domain/entities/stampCardEntity.ts:50-52 | a definition, without a contract of its own: at least 10 stamps; what it means for the reward is stated by StampsUntilRewardZeroIffReward and RewardCount |
| StampCardEntities.NewStampCard | src/server/api/repository/trpcStampCardRepository.ts:41-50 | the card `create` builds: the given user and id, 0 stamps, 0 purchases, no last purchase, 10 stamps short of a reward |
| StampCardEntities.StampsUntilRewardZeroIffReward | freemarket-app/src/domain/entities/stampCardEntity.ts:16-16 | `canGetReward` holds iff no stamp is missing iff stamps ≥ 10 |
| StampCardEntities.StampsStayNonNegative | freemarket-app/src/domain/entities/stampCardEntity.ts:40-63 | over any sequence of addStamp/useReward calls, stamps stay ≥ 0 and totalPurchases rises by exactly the number of addStamp calls |
| StampCardEntities.StampCardEntity.constructor | freemarket-app/src/domain/entities/stampCardEntity.ts:18-18 | the object holds the given record |
| StampCardEntities.StampCardEntity.AddStamp | freemarket-app/src/domain/entities/stampCardEntity.ts:40-45 | the record becomes `WithStamp(now)` of the old one |
| StampCardEntities.StampCardEntity.UseReward | freemarket-app/src/domain/entities/stampCardEntity.ts:57-63 | with ≥ 10 stamps it passes and the record is redeemed; otherwise it fails with スタンプが足りません and the record is unchanged |
| StampCardEntities.StampCardEntity.ToPlainObject | freemarket-app/src/domain/entities/stampCardEntity.ts:78-80 | returns the current record |
| StampCardRepositories.SeedCard | src/server/api/repository/trpcStampCardRepository.ts:15-25 | the seeded card belongs to "current-user" and has 3 stamps from 3 purchases |
| StampCardRepositories.SampleStampCards | src/server/api/repository/trpcStampCardRepository.ts:15-25 | a definition, without a contract of its own: the one seeded card; SeedCard states its facts |
| StampCardRepositories.CardsFrame | src/server/api/repository/trpcStampCardRepository.ts:8-8 | a step that writes neither the map nor a stored card leaves the stored records and validity as they were |
| StampCardRepositories.TrpcStampCardRepository.constructor | src/server/api/repository/trpcStampCardRepository.ts:10-30 | the store holds exactly one card, the seed card under "current-user" |
| StampCardRepositories.TrpcStampCardRepository.FindByUserId | src/server/api/repository/trpcStampCardRepository.ts:32-34 | the card stored under the user id, or null when there is none |
| StampCardRepositories.TrpcStampCardRepository.Save | src/server/api/repository/trpcStampCardRepository.ts:36-39 | stores the card under its own user id, replacing any earlier one; every other entry is kept |
| StampCardRepositories.TrpcStampCardRepository.Create | src/server/api/repository/trpcStampCardRepository.ts:41-55 | a fresh empty card for the user is returned and stored under that user, so a later find returns it |
| StampCardUseCases.ValidRepositoryIsKeyedByUser | src/server/api/repository/trpcStampCardRepository.ts:36-39 | every stored record sits under its own user's id, so there is at most one card per user |
| StampCardUseCases.NewGetStampCardInput | src/server/application/usecase/stampCard/getStampUsecase.ts:4-14 | rejects exactly the empty user id, with "userID is invalid."; any other id is kept as given |
| StampCardUseCases.StampedCard | src/server/application/usecase/stampCard/addStampUsecase.ts:19-25 | an existing card gains one stamp and one purchase and keeps its id; a missing one starts at 1 stamp and 1 purchase |
| StampCardUseCases.AddStamp | src/server/application/usecase/stampCard/addStampUsecase.ts:18-27 | only the user's card changes (appearing if missing); every other card is kept; records stay keyed by user |
| StampCardUseCases.UseReward | src/server/application/usecase/stampCard/useRewardUsecase.ts:18-31 | the existence guard comes first (スタンプカードが見つかりません), then the stamp guard (スタンプが足りません); success spends 10 stamps on that card only |
| StampCardUseCases.CardOf | src/server/application/usecase/stampCard/getStampUsecase.ts:23-31 | the stored card as it is, or a new empty card for that user |
| StampCardUseCases.GetStampCard | src/server/application/usecase/stampCard/getStampUsecase.ts:23-31 | a missing card is added; every stored card is kept as it was, so no stamp count moves |
| StampCardUseCases.AddStampUseCaseInteractor.constructor | src/server/application/usecase/stampCard/addStampUsecase.ts:16-16 | the interactor holds the repository it is given |
| StampCardUseCases.AddStampUseCaseInteractor.Execute | src/server/application/usecase/stampCard/addStampUsecase.ts:18-27 | the stored records become `AddStamp` of the old ones; an existing card object is stamped in place, a missing one is a fresh object |
| StampCardUseCases.AddStampUseCaseInteractor.FindOrCreate | src/server/application/usecase/stampCard/addStampUsecase.ts:19-23 | the stored object is found, or created and stored only when missing |
| StampCardUseCases.AddStampUseCaseInteractor.StampAndSave | src/server/application/usecase/stampCard/addStampUsecase.ts:25-26 | the stored card is stamped and saved; only that record changes |
| StampCardUseCases.UseRewardUseCaseInteractor.constructor | src/server/application/usecase/stampCard/useRewardUsecase.ts:16-16 | the interactor holds the repository it is given |
| StampCardUseCases.UseRewardUseCaseInteractor.Execute | src/server/application/usecase/stampCard/useRewardUsecase.ts:18-31 | the outcome and the new records are those of `UseReward`; on either failure nothing is created or changed |
| StampCardUseCases.UseRewardUseCaseInteractor.RedeemAndSave | src/server/application/usecase/stampCard/useRewardUsecase.ts:29-30 | the card's own guard cannot fire after the use case's guard; the redeemed card is saved and only that record changes |
| StampCardUseCases.GetStampCardUseCaseInteractor.constructor | src/server/application/usecase/stampCard/getStampUsecase.ts:21-21 | the interactor holds the repository it is given |
| StampCardUseCases.GetStampCardUseCaseInteractor.Execute | src/server/application/usecase/stampCard/getStampUsecase.ts:23-31 | returns the stored object unchanged when there is one; otherwise a fresh created one; the records become `GetStampCard` of the old ones |
| StampCardUseCases.AddStampRepeatedly | src/server/application/usecase/stampCard/addStampUsecase.ts:18-27 | repeated add-stamp keeps every user and stores the target user once it has run |
| StampCardUseCases.AddStampNTimes | src/server/application/usecase/stampCard/addStampUsecase.ts:18-27 | N executions raise stamps and totalPurchases by exactly N and leave every other user's card alone |
| StampCardUseCases.FreshUserStampCount | src/server/application/usecase/stampCard/addStampUsecase.ts:21-26 | a first-time user holds N stamps from N purchases after N executions |
| StampCardUseCases.TenStampsOneReward | src/server/application/usecase/stampCard/useRewardUsecase.ts:25-30 | from no card, 10 stamps pay for one reward, which leaves 0 stamps; one more stamp gives 1, and a second reward fails with スタンプが足りません |
| StampCardUseCases.GetTwiceReturnsSameCard | src/server/application/usecase/stampCard/getStampUsecase.ts:24-28 | a second get returns the card the first one stored and stores nothing more |
| ProductEntities.ConditionName | src/domain/entities/product.ts:28-34 | every condition has a non-empty string value |
| ProductEntities.ConditionNamesDistinct | src/domain/entities/product.ts:28-34 | distinct conditions have distinct string values |
| ProductEntities.Product.MarkAsSold | src/domain/entities/product.ts:104-110 | succeeds iff the product is AVAILABLE, giving SOLD with only status and updatedAt changed; otherwise it fails with 商品は既に売り切れまたは予約済みです |
| ProductEntities.Product.Reserve | src/domain/entities/product.ts:115-121 | succeeds iff the product is AVAILABLE, giving RESERVED with only status and updatedAt changed; otherwise it fails with the same message |
| ProductEntities.Product.IsAvailable | src/domain/entities/product.ts:97-99 | a definition, without a contract of its own: the status is AVAILABLE; MarkAsSold and Reserve state what it guards |
| ProductEntities.TerminalStatusesAreFinal | src/domain/entities/product.ts:104-121 | from SOLD or RESERVED, no sequence of markAsSold/reserve calls changes the product |
| ProductEntities.AtMostOneTransition | freemarket-app/src/server/domain/entities/product.ts:75-92 | any sequence of calls keeps the listing fields, never moves a product out of SOLD or RESERVED, and ends either where it started or where a single one of the calls would have put it: the first call decides the end state |
| ProductEntities.ProductEntity.constructor | src/domain/entities/product.ts:51-51 | the object holds the given record |
| ProductEntities.ProductEntity.MarkAsSold | freemarket-app/src/server/domain/entities/product.ts:75-81 | an AVAILABLE product becomes SOLD; otherwise it fails and the record is unchanged (the same code is at src/domain/entities/product.ts:104-110) |
| ProductEntities.ProductEntity.Reserve | freemarket-app/src/server/domain/entities/product.ts:86-92 | an AVAILABLE product becomes RESERVED; otherwise it fails and the record is unchanged (the same code is at src/domain/entities/product.ts:115-121) |
| ProductEntities.ProductEntity.Price | src/domain/entities/product.ts:60-65 | a Money with the stored amount and currency |
| ProductEntities.ProductEntity.ToPlainObject | src/domain/entities/product.ts:123-125 | returns the current record (the same code is at freemarket-app/src/server/domain/entities/product.ts:94-96) |
| ProductRepositories.MatchesIsConjunction | freemarket-app/src/server/api/repository/trpcProductRepository.ts:89-129 | a product matches iff it passes every active criterion: the keyword, category, price bounds (inclusive), condition and seller |
| ProductRepositories.KeywordMatches | freemarket-app/src/server/api/repository/trpcProductRepository.ts:92-100 | a definition, without a contract of its own: the lowered keyword occurs in the lowered title or the lowered description |
| ProductRepositories.Matches | freemarket-app/src/server/api/repository/trpcProductRepository.ts:91-127 | a definition, without a contract of its own: every truthy criterion holds of the product; MatchesIsConjunction and FalsyCriteriaIgnored state it criterion by criterion |
| ProductRepositories.FalsyCriteriaIgnored | freemarket-app/src/server/api/repository/trpcProductRepository.ts:109-115 | a falsy criterion (an empty string, or a 0 bound) filters nothing, so `maxPrice: 0` is the same as no bound |
| ProductRepositories.Search | freemarket-app/src/server/api/repository/trpcProductRepository.ts:87-89 | a product is in the result iff it is stored and matches; the result is never longer than the input |
| ProductRepositories.SearchIsSubsequence | freemarket-app/src/server/api/repository/trpcProductRepository.ts:87-89 | the result keeps the stored order: it is a subsequence |
| ProductRepositories.EmptyCriteriaKeepAll | freemarket-app/src/server/api/repository/trpcProductRepository.ts:89-129 | the criteria `{}` return every stored product, in order |
| ProductRepositories.UnknownKeywordFindsNothing | freemarket-app/src/server/api/repository/trpcProductRepository.ts:92-100 | a non-empty keyword that is a substring of no lowered title or description finds nothing |
| ProductRepositories.SampleProductsFacts | freemarket-app/src/server/api/repository/trpcProductRepository.ts:21-78 | the seed holds products "1" to "4", in order, with distinct ids; only "3" is SOLD and the rest are available |
| ProductRepositories.SampleProducts | freemarket-app/src/server/api/repository/trpcProductRepository.ts:21-78 | a definition, without a contract of its own: the four seeded products; SampleProductsFacts states their facts |
| ProductRepositories.TrpcProductRepository.Entities | freemarket-app/src/server/api/repository/trpcProductRepository.ts:87-87 | the stored objects in insertion order |
| ProductRepositories.TrpcProductRepository.constructor | freemarket-app/src/server/api/repository/trpcProductRepository.ts:16-18 | the store lists exactly the four sample products, in order |
| ProductRepositories.TrpcProductRepository.InitializeSampleData | freemarket-app/src/server/api/repository/trpcProductRepository.ts:20-79 | the empty store comes to list the sample products under the keys "1" to "4" |
| ProductRepositories.TrpcProductRepository.SetAll | freemarket-app/src/server/api/repository/trpcProductRepository.ts:76-78 | the seeding loop stores each product under its own id, in order, so the listing is the input |
| ProductRepositories.TrpcProductRepository.ListingOf | freemarket-app/src/server/api/repository/trpcProductRepository.ts:76-78 | keys that are the products' ids, each holding its product, list exactly those products |
| ProductRepositories.TrpcProductRepository.SetNew | freemarket-app/src/server/api/repository/trpcProductRepository.ts:77-77 | a new id is appended to the order and holds a new object with the product; every earlier entry and its record are kept |
| ProductRepositories.TrpcProductRepository.FindById | freemarket-app/src/server/api/repository/trpcProductRepository.ts:80-82 | the stored object, or null |
| ProductRepositories.TrpcProductRepository.FindByCriteria | freemarket-app/src/server/api/repository/trpcProductRepository.ts:84-130 | the records returned are `Search` of the listing: a subsequence in insertion order of exactly the matching stored products |
| ProductRepositories.TrpcProductRepository.Save | freemarket-app/src/server/api/repository/trpcProductRepository.ts:132-134 | an upsert by id: a new id goes to the end of the order, an existing one keeps its place, and other entries stay |
| ProductRepositories.TrpcProductRepository.Delete | freemarket-app/src/server/api/repository/trpcProductRepository.ts:136-138 | removes that id only; the others keep their order |
| ProductRepositories.ProductsFrame | freemarket-app/src/server/api/repository/trpcProductRepository.ts:14-14 | a step that writes neither the map nor a stored product keeps every stored record and validity |
| ProductRepositories.FilterRecords | freemarket-app/src/server/api/repository/trpcProductRepository.ts:89-129 | filtering the objects selects exactly the records `Search` selects |
| ProductRepositories.Filter | freemarket-app/src/server/api/repository/trpcProductRepository.ts:89-129 | `filter` over the stored objects: every object kept is one of them and matches, and every matching one is kept |
| ProductUseCases.Purchase | src/server/application/usecase/product/purchaseProductUsecase.ts:18-37 | the guards in order: missing (商品が見つかりません), not available (この商品は購入できません), own product (自分の商品は購入できません); success iff all three pass, giving SOLD with the listing kept |
| ProductUseCases.SecondPurchaseFails | src/server/application/usecase/product/purchaseProductUsecase.ts:26-28 | a sold product cannot be bought again, by anyone: the availability guard fires |
| ProductUseCases.SellerCannotBuyOwnProduct | src/server/application/usecase/product/purchaseProductUsecase.ts:31-33 | a seller's purchase of their own product always fails |
| ProductUseCases.PurchaseProductUseCaseInteractor.constructor | src/server/application/usecase/product/purchaseProductUsecase.ts:16-16 | the interactor holds the repository it is given |
| ProductUseCases.PurchaseProductUseCaseInteractor.Execute | src/server/application/usecase/product/purchaseProductUsecase.ts:18-37 | the outcome is that of `Purchase`; on success the stored object holds the sold record; on failure it is unchanged; no other object and no key changes |
| ProductUseCases.NewCreateProductInputData | freemarket-app/src/application/usecase/product/createProductUsecase.ts:24-74 | accepts iff every guard passes; the first failing guard, in source order, gives its own message (an empty title gives the price message); the getters return the request fields verbatim |
| ProductUseCases.CreateProductBoundaries | freemarket-app/src/application/usecase/product/createProductUsecase.ts:25-45 | price 0 and an empty image list are accepted; price −1 and an empty title, description, seller or category are rejected |
| ProductUseCases.NewProduct | freemarket-app/src/application/usecase/product/createProductUsecase.ts:91-103 | a new AVAILABLE product priced in JPY at the request price, with every other field copied |
| ProductUseCases.NewProductIsPurchasable | freemarket-app/src/application/usecase/product/createProductUsecase.ts:97-98 | a newly listed product can be bought by exactly the users who are not its seller |
| ProductUseCases.CreateProductUseCaseInteractor.constructor | freemarket-app/src/application/usecase/product/createProductUsecase.ts:88-88 | the interactor holds the repository it is given |
| ProductUseCases.CreateProductUseCaseInteractor.Execute | freemarket-app/src/application/usecase/product/createProductUsecase.ts:90-109 | the returned fresh object holds `NewProduct` and is what is stored under its id; saved once, other entries kept |
| ProductUseCases.GetProductUseCaseInputData.Limit | src/server/application/usecase/product/getProductUsecase.ts:12-14 | a missing limit is 0; a given one, negative included, comes back unchanged |
| ProductUseCases.GetProductUseCaseInputData.Page | src/server/application/usecase/product/getProductUsecase.ts:16-18 | a missing page is 0; a given one comes back unchanged |
| ProductUseCases.GetProductExecute | src/server/application/usecase/product/getProductUsecase.ts:28-32 | a pass-through: the result is the repository's page result, taken as a parameter because `getByPage` has no implementation |
| ProductUseCases.GetProductIgnoresInput | src/server/application/usecase/product/getProductUsecase.ts:28-32 | the paging input is not passed on, so it has no influence on the result (true of the signature) |
| ProductRouters.StampNeverGoesToSeller | freemarket-app/src/server/api/routers/product.ts:65-65 | when the purchase succeeds, buyer and seller differ, so the seller's card is untouched by the stamp step |
| ProductRouters.SuccessfulPurchaseCreditsBuyer | freemarket-app/src/server/api/routers/product.ts:64-65 | after a successful purchase and its stamp, the product is SOLD and the buyer's stamps and purchases are each one higher |
| ProductRouters.ProductRouter.constructor | freemarket-app/src/server/api/routers/product.ts:11-12 | the router holds the two module-level repositories it shares between requests |
| ProductRouters.ProductRouter.Purchase | freemarket-app/src/server/api/routers/product.ts:56-67 | when the purchase throws, its message is returned, the stored product is unchanged and no card changes; otherwise the stored product is sold, the buyer's cards become `AddStamp` of the old ones, and only then is `{ success: true }` returned; the product map and its iteration order are kept either way |
| ProductRouters.ProductRouter.CreditBuyer | freemarket-app/src/server/api/routers/product.ts:65-65 | the stamp step writes only the stamp cards, so the sold product stays sold (there is no rollback) and the product iteration order is kept |
| ProductAdapters.FlattenRoundTrip | src/server/adapter/getProducts.ts:43-57 | flattening loses nothing: the product can be rebuilt from its response, so distinct products give distinct responses |
| ProductAdapters.FlattenAll | src/server/adapter/getProducts.ts:43-57 | one response per object, in order, each rebuilding exactly that object's record |
| ProductAdapters.Flatten | src/server/adapter/getProducts.ts:44-56 | a definition, without a contract of its own: the response record of one product; FlattenRoundTrip states that it loses nothing |
| ProductAdapters.Unflatten | src/server/adapter/getProducts.ts:44-56 | a definition, without a contract of its own: the inverse FlattenRoundTrip uses to rebuild the product |
| ProductAdapters.ConvertToResponse | src/server/adapter/getProducts.ts:36-58 | null iff the output is null; otherwise one response per object, in order, with id and sellerId flattened to strings and every field recoverable |
| ProductAdapters.GetByPage | src/server/adapter/getProducts.ts:29-34 | null iff the page is null, and the same length otherwise; the result is the conversion of the use case's output for every input |
| ReviewEntities.RatingBoundaries | src/server/domain/entities/review.ts:55-57 | valid iff the rating is one of 1 to 5; 0, 6 and −1 are invalid, and 1, 3 and 5 are valid (the same code is at freemarket-app/src/domain/entities/review.ts:44-46) |
| ReviewEntities.Review.IsValidRating | src/server/domain/entities/review.ts:55-57 | a definition, without a contract of its own: 1 ≤ rating ≤ 5; RatingBoundaries pins its edges |
| ReviewRepositories.InsertNewest | src/server/api/repository/trpcReviewRepository.ts:70-70 | one placement step of the sort: the result holds the inserted review plus the rest, with the multiset kept |
| ReviewRepositories.SortNewest | src/server/api/repository/trpcReviewRepository.ts:70-70 | the sort is a permutation: same length, same multiset |
| ReviewRepositories.InsertNewestKeepsOrder | src/server/api/repository/trpcReviewRepository.ts:70-70 | inserting into a newest-first sequence keeps it newest first |
| ReviewRepositories.SortNewestIsNewestFirst | src/server/api/repository/trpcReviewRepository.ts:70-70 | the sorted reviews have non-increasing createdAt |
| ReviewRepositories.SortNewestKeepsSorted | src/server/api/repository/trpcReviewRepository.ts:70-70 | reviews already newest first come back unchanged |
| ReviewRepositories.InsertNewestAtTime | src/server/api/repository/trpcReviewRepository.ts:70-70 | one placement step puts the review ahead of the others of its own time and reorders none of them |
| ReviewRepositories.SortNewestIsStable | src/server/api/repository/trpcReviewRepository.ts:70-70 | the sort is stable: for every time, the reviews created at that time keep their stored order |
| ReviewRepositories.NewestFirstSplit | src/server/api/repository/trpcReviewRepository.ts:70-71 | in a newest-first sequence, each review before a cut is at least as new as each one after it |
| ReviewRepositories.NewestFirstPrefix | src/server/api/repository/trpcReviewRepository.ts:70-71 | a prefix of a newest-first rearrangement is newest first, drawn from the reviews, and at least as new as every review it leaves out |
| ReviewRepositories.Recent | src/server/api/repository/trpcReviewRepository.ts:67-72 | the `slice` length (min(limit, n) for limit ≥ 0), newest first, drawn from the stored reviews without adding any, and the newest ones: no review left out is newer than one kept |
| ReviewRepositories.WholeTimeline | src/server/api/repository/trpcReviewRepository.ts:67-72 | with a limit of at least the number of reviews, every review is in the timeline |
| ReviewRepositories.NewerThanKeptIsKept | src/server/api/repository/trpcReviewRepository.ts:67-72 | a review newer than one the timeline keeps is in the timeline too |
| ReviewRepositories.ForProduct | src/server/api/repository/trpcReviewRepository.ts:61-65 | a review is in the result iff it is in the input and has that productId |
| ReviewRepositories.ForProductIsSubsequence | src/server/api/repository/trpcReviewRepository.ts:61-65 | the per-product result keeps the stored order |
| ReviewRepositories.SampleReviewIds | src/server/api/repository/trpcReviewRepository.ts:16-50 | the seed's ids are "1", "2" and "3", all distinct |
| ReviewRepositories.SampleReviewsNewestFirst | src/server/api/repository/trpcReviewRepository.ts:16-50 | every seeded rating is valid and the seed is already newest first |
| ReviewRepositories.SampleReviews | src/server/api/repository/trpcReviewRepository.ts:16-50 | a definition, without a contract of its own: the three seeded reviews; SampleReviewIds and SampleReviewsNewestFirst state their facts |
| ReviewRepositories.NewestFirstTimeline | src/server/api/repository/trpcReviewRepository.ts:67-72 | for reviews stored newest first, the timeline is their `slice(0, limit)` |
| ReviewRepositories.TrpcReviewRepository.Listing | src/server/api/repository/trpcReviewRepository.ts:68-68 | `Array.from(reviews.values())`: one review per key, in insertion order |
| ReviewRepositories.TrpcReviewRepository.ListingHoldsStored | src/server/api/repository/trpcReviewRepository.ts:68-68 | the listing holds exactly the stored reviews, each under its own id |
| ReviewRepositories.TrpcReviewRepository.ListingIsDistinct | src/server/api/repository/trpcReviewRepository.ts:68-68 | no review is listed twice, and the listing is as long as the store |
| ReviewRepositories.TrpcReviewRepository.constructor | src/server/api/repository/trpcReviewRepository.ts:11-13 | the store lists exactly the three sample reviews |
| ReviewRepositories.TrpcReviewRepository.InitializeSampleData | src/server/api/repository/trpcReviewRepository.ts:15-55 | the empty store comes to list the three sample reviews |
| ReviewRepositories.TrpcReviewRepository.SetAll | src/server/api/repository/trpcReviewRepository.ts:52-54 | the seeding loop stores each review under its own id, in order, so the listing is the input |
| ReviewRepositories.TrpcReviewRepository.SetNew | src/server/api/repository/trpcReviewRepository.ts:53-53 | a review under a new id is appended to the listing |
| ReviewRepositories.TrpcReviewRepository.FindById | src/server/api/repository/trpcReviewRepository.ts:57-59 | the stored review, or none |
| ReviewRepositories.TrpcReviewRepository.FindByProductId | src/server/api/repository/trpcReviewRepository.ts:61-65 | exactly the stored reviews with that productId, in stored order, with the store unchanged |
| ReviewRepositories.TrpcReviewRepository.FindRecent | src/server/api/repository/trpcReviewRepository.ts:67-72 | `Recent` of the listing: newest first; min(limit, n) long for limit ≥ 0; each a stored review; no id twice; no stored review left out is newer than one returned; the store unchanged |
| ReviewRepositories.TrpcReviewRepository.RecentAreStored | src/server/api/repository/trpcReviewRepository.ts:67-72 | every review of the timeline is the one stored under its id |
| ReviewRepositories.TrpcReviewRepository.RecentHaveDistinctIds | src/server/api/repository/trpcReviewRepository.ts:67-72 | no two reviews of the timeline share an id |
| ReviewRepositories.TrpcReviewRepository.RecentAreNewest | src/server/api/repository/trpcReviewRepository.ts:67-72 | no stored review the timeline leaves out is newer than one it keeps |
| ReviewRepositories.TrpcReviewRepository.StoredAreListed | src/server/api/repository/trpcReviewRepository.ts:68-68 | every stored review appears in the listing |
| ReviewRepositories.LeftOutIsOlder | src/server/api/repository/trpcReviewRepository.ts:67-72 | being older than everything kept carries over from the multiset that is left out to each stored review not returned |
| ReviewRepositories.TrpcReviewRepository.Save | src/server/api/repository/trpcReviewRepository.ts:74-76 | an upsert by id: a new id goes to the end of the order, an existing one keeps its place, and other entries stay |
| ReviewUseCases.NewReview | src/server/application/usecase/review/createReviewUsecase.ts:22-36 | accepted iff 1 ≤ rating ≤ 5, otherwise 評価は1から5の間で入力してください; the review has the fresh id, the time and every request field verbatim, and a valid rating |
| ReviewUseCases.CreatedReviewsAreValid | src/server/application/usecase/review/createReviewUsecase.ts:22-24 | creation is accepted iff the review built would satisfy `isValidRating`, whatever the comment (the empty one included) |
| ReviewUseCases.CreateReviewUseCaseInteractor.constructor | src/server/application/usecase/review/createReviewUsecase.ts:19-19 | the interactor holds the repository it is given |
| ReviewUseCases.CreateReviewUseCaseInteractor.Execute | src/server/application/usecase/review/createReviewUsecase.ts:21-42 | a bad rating returns its error with the store unchanged; otherwise the review is saved once under its id and returned |
| ReviewUseCases.NewGetReviewTimelineInput | src/server/application/usecase/review/getReviewTimelineUsecase.ts:4-14 | rejects exactly the negative limits, with "limit must over 1."; 0 is accepted; the getter returns the value given |
| ReviewUseCases.GetReviewTimelineUseCaseInteractor.constructor | src/server/application/usecase/review/getReviewTimelineUsecase.ts:24-24 | the interactor holds the repository it is given |
| ReviewUseCases.GetReviewTimelineUseCaseInteractor.Execute | src/server/application/usecase/review/getReviewTimelineUsecase.ts:26-30 | `findRecent(limit)` as it is: min(limit, n) stored reviews, newest first, and no stored review left out is newer than one returned |
| ReviewUseCases.SeededTimeline | src/server/api/repository/trpcReviewRepository.ts:15-72 | on the seeded store, the timeline is the first min(limit, 3) sample reviews, in stored order |
| ReviewUseCases.SavedReviewIsVisible | src/server/api/repository/trpcReviewRepository.ts:67-76 | a review stored under its id is in every timeline whose limit is at least the store's size |
| CategoryRankings.SampleRanksAscend | src/server/infrastcutrure/repositories/inMemoryCategoryRankingRepository.ts:15-57 | the seed holds five rankings: position i has rank i+1, so ranks strictly ascend, and sales strictly fall |
| CategoryRankings.SampleRankings | src/server/infrastcutrure/repositories/inMemoryCategoryRankingRepository.ts:15-57 | a definition, without a contract of its own: the five seeded rankings; SampleRanksAscend states their facts |
| CategoryRankings.InMemoryCategoryRankingRepository.constructor | src/server/infrastcutrure/repositories/inMemoryCategoryRankingRepository.ts:12-14 | the store holds the sample rankings |
| CategoryRankings.InMemoryCategoryRankingRepository.InitializeSampleData | src/server/infrastcutrure/repositories/inMemoryCategoryRankingRepository.ts:15-57 | the list becomes the sample rankings |
| CategoryRankings.InMemoryCategoryRankingRepository.GetTopCategories | src/server/infrastcutrure/repositories/inMemoryCategoryRankingRepository.ts:64-66 | a prefix of the stored list, of the `slice` length (min(limit, n) for limit ≥ 0); the list is unchanged |
| CategoryRankings.NewGetCategoryRankingInput | src/server/application/usecase/ranking/getCategoryRanking.ts:4-14 | rejects exactly the negative limits, with "limit is invalid. plese setting over 1."; 0 is accepted; the getter returns the value given |
| CategoryRankings.GetCategoryRankingUseCaseInteractor.constructor | src/server/application/usecase/ranking/getCategoryRanking.ts:25-25 | the interactor holds the repository it is given |
| CategoryRankings.GetCategoryRankingUseCaseInteractor.Execute | src/server/application/usecase/ranking/getCategoryRanking.ts:27-31 | `getTopCategories(limit)` as it is: the first min(limit, n) rankings |
| CategoryRankings.SeededTopCategories | src/server/infrastcutrure/repositories/inMemoryCategoryRankingRepository.ts:15-66 | on the seed, the top `limit` are ranks 1 to min(limit, 5), in order |
| UserEntities.User.WithProfile | freemarket-app/src/domain/entities/user.ts:35-41 | displayName is set; avatar is replaced only by a given non-empty one; updatedAt is set; id, username, email, rating and createdAt are kept |
| UserEntities.ProfileUpdatesKeepAccount | freemarket-app/src/domain/entities/user.ts:35-41 | over any sequence of profile updates the account fields stay the same, and an avatar once set is never removed |
| UserEntities.ProfileUpdateIdempotent | freemarket-app/src/domain/entities/user.ts:35-41 | repeating an update changes nothing but its time |
| UserEntities.UserEntity.constructor | freemarket-app/src/domain/entities/user.ts:17-17 | the object holds the given record |
| UserEntities.UserEntity.UpdateProfile | freemarket-app/src/domain/entities/user.ts:35-41 | the record becomes `WithProfile` of the old one |
| UserEntities.UserEntity.ToPlainObject | freemarket-app/src/domain/entities/user.ts:43-45 | returns the current record |
| Common.Slice | src/server/api/repository/trpcReviewRepository.ts:71-71 | `slice(0, limit)`: a prefix, of length min(limit, n) for limit ≥ 0, counting back from the end for a negative limit, and the whole array once limit ≥ n |
| Common.ToLowerCase | freemarket-app/src/server/api/repository/trpcProductRepository.ts:93-95 | the lowered string has the same length, with each ASCII capital lowered and every other character kept |
| Common.LowerChar | freemarket-app/src/server/api/repository/trpcProductRepository.ts:93-95 | an ASCII capital becomes the small letter 32 code points above it; every other character is kept |
| Common.Includes | freemarket-app/src/server/api/repository/trpcProductRepository.ts:95-96 | a definition, without a contract of its own: `includes`, the needle occurs at some position of the string |
| Common.Truthy | freemarket-app/src/application/usecase/product/createProductUsecase.ts:25-27 | a definition, without a contract of its own: only the empty string is falsy; NewCreateProductInputData and NewGetStampCardInput state the guards built on it |
| Common.TruthyNumber | freemarket-app/src/server/api/repository/trpcProductRepository.ts:109-115 | a definition, without a contract of its own: only 0 is falsy; FalsyCriteriaIgnored states that a 0 price bound is ignored |
| Common.Option.GetOr | src/server/application/usecase/product/getProductUsecase.ts:13-13 | the `??` operator: the value when present, the default otherwise |

## Left out

- Concurrency and `async`: every operation runs to completion in sequence, so
  interleaved requests (`Promise.all`) are not modelled.
- Failures of a repository call itself (a rejected promise) are not modelled.
  Neither the router nor the use cases catch them, so nothing would be rolled back.
- ProductRouters.ProductRouter.Purchase: both steps are given the same `now`.
  The code calls `new Date()` separately in each step.
- ProductUseCases.NewProduct: `createdAt` and `updatedAt` are both `now`. The
  code takes two `new Date()` values, which can differ by a millisecond.
- StampCardEntities.StampCard.WithStamp: `lastPurchaseDate` and `updatedAt` are
  both `now`, so `lastPurchaseDate == Some(updatedAt)` holds in the model only.
  The code takes two `new Date()` values (stampCardEntity.ts:43-44).
- StampCardEntities.StampCardEntity.AddStamp: the same two dates share one `now`,
  as in WithStamp.
- StampCardEntities.NewStampCard: `createdAt` and `updatedAt` are both `now`, so
  their equality holds in the model only. The code takes two `new Date()` values
  (trpcStampCardRepository.ts:48-49).
- StampCardRepositories.TrpcStampCardRepository.Create: the new card's dates share
  one `now`, as in NewStampCard.
- StampCardUseCases.AddStampUseCaseInteractor.Execute: one `now` stands for every
  `new Date()` of the call: the new card's two dates and the stamp's two dates. In
  the code they can all differ.
- Common.ToLowerCase: lowers ASCII letters only. JavaScript's Unicode case mapping
  is not modelled, so the keyword search is exact for ASCII text.
- Floating point: prices, ratings, limits and pages are integers, so fractional
  ratings and limits are not modelled.
- Getters are the fields of the record. Each `ProductEntity`, `ReviewEntity`,
  `UserEntity` and `StampCardEntity` getter returns a field as it is, except
  `Price`, which is modelled.
- `ReviewEntity` and `CategoryRankingEntity` have no mutators, so each is modelled
  as its record. `toPlainObject` on such a value is the value itself.
- The two copies of `ProductEntity` and of `ReviewEntity` are modelled once each,
  because their records, status rules and `toPlainObject` are the same. Their
  getters differ. The freemarket-app server `ProductEntity` has only `getId`,
  `getTitle`, `getPrice` and `getStatus`, and its `getPrice` returns the stored
  `Money` object itself; the other copy's `Price` builds a new one, which is what
  ProductEntities.ProductEntity.Price models. A `Money` is a value here, so the
  sharing is not modelled. The freemarket-app `ReviewEntity` has no getter for the
  product, seller or buyer id.
- ReviewRepositories.SortNewest: `Array.prototype.sort` with the comparator
  `b - a` is modelled as a stable insertion sort. The model proves it is a
  permutation, newest first (SortNewestIsNewestFirst), and stable
  (SortNewestIsStable: the reviews of each time keep their stored order).
  JavaScript engines guarantee stability, but not this particular algorithm.
- ReviewRepositories.TrpcReviewRepository.FindRecent: "no review returned twice"
  is stated as distinct ids. Reviews are values, so object identity has no meaning
  here.
- The product repository's `getByPage` has no implementation in the repository
  (`src/server/domain/repositories/productRepository.ts` only declares it). So
  ProductUseCases.GetProductExecute and ProductAdapters.GetByPage take its result
  as a parameter.
- The stamp card repository follows the `findByUserId`/`create`/`save` interface.
  The router tests use a `getByUserId` variant, which is not part of this model.
- `sellerId` in the search criteria is an `Option`. The interface types it as
  required but uses it as optional.
- Seeding: the constructors state the seeded contents. They do not state that the
  seeded objects are fresh, apart from the stamp card store.
- Test expectations that contradict the code are not modelled; see the four
  points above the table.
- React components, the zod schemas and dispatch of the tRPC routers, the other
  routers, the thin search use cases, `console.log`, and the presentation-only
  `formatTimeAgo` are not part of this model.
- Real dates are not modelled. Seeded dates are written as milliseconds since the
  epoch (`Jan2024(day)`).
- Object aliasing: a stored object is shared with its caller, as in the code. The
  model states this for stamp cards and products, where the code mutates stored
  objects. Reviews are values, so their repositories copy nothing.
