/** The `purchase` procedure of the product router
    (freemarket-app/src/server/api/routers/product.ts): the purchase use case, then one
    stamp for the buyer, run in sequence over the two module-level repositories, with
    no rollback between them. */
module ProductRouters {
  import opened Common
  import opened ProductEntities
  import opened ProductRepositories
  import opened ProductUseCases
  import opened StampCardUseCases
  import opened StampCardRepositories

  /** The `{ success: true }` the procedure returns. */
  datatype PurchaseResponse = PurchaseResponse(success: bool)

  /** A purchase never credits the seller: when it succeeds, the seller's card (if any)
      is exactly what it was, since buyer and seller differ. */
  lemma StampNeverGoesToSeller(p: Product, buyerId: string, now: Time, cards: Cards, freshId: string, stampedAt: Time)
    requires KeyedByUser(cards)
    requires Purchase(Some(p), buyerId, now).Ok?
    ensures p.sellerId.value != buyerId
    ensures p.sellerId.value in cards ==>
              AddStamp(cards, buyerId, freshId, stampedAt)[p.sellerId.value] == cards[p.sellerId.value]
  {
  }

  /** A successful purchase followed by its stamp: the product is sold and the buyer
      has one more stamp and one more purchase than before (a first card holding one). */
  lemma SuccessfulPurchaseCreditsBuyer(p: Product, buyerId: string, now: Time, cards: Cards, freshId: string)
    requires KeyedByUser(cards)
    requires Purchase(Some(p), buyerId, now).Ok?
    ensures Purchase(Some(p), buyerId, now).value.status == SOLD
    ensures AddStamp(cards, buyerId, freshId, now)[buyerId].stamps ==
              (if buyerId in cards then cards[buyerId].stamps else 0) + 1
    ensures AddStamp(cards, buyerId, freshId, now)[buyerId].totalPurchases ==
              (if buyerId in cards then cards[buyerId].totalPurchases else 0) + 1
  {
  }

  /** The router, holding the two repositories it shares between requests. */
  class ProductRouter {
    const productRepository: TrpcProductRepository
    const stampCardRepository: TrpcStampCardRepository

    constructor (productRepository: TrpcProductRepository, stampCardRepository: TrpcStampCardRepository)
      ensures this.productRepository == productRepository
      ensures this.stampCardRepository == stampCardRepository
    {
      this.productRepository := productRepository;
      this.stampCardRepository := stampCardRepository;
    }

    /** `purchase`: when the purchase throws, its message is the result, the product
        is left as it was and the stamp step never runs, so no card changes. Otherwise the product is sold, the buyer
        (`input.buyerId`) gets one stamp through the add-stamp use case, and only then
        is `{ success: true }` returned. The iteration order of the products stays as
        it was. */
    method Purchase(input: PurchaseProductRequest, freshId: string, now: Time) returns (r: Result<PurchaseResponse>)
      requires productRepository.Valid() && stampCardRepository.Valid()
      modifies productRepository,
        if input.productId in productRepository.products
        then {productRepository.products[input.productId]} else {}
      modifies stampCardRepository, stampCardRepository.stampCards.Values
      ensures productRepository.Valid() && stampCardRepository.Valid()
      ensures productRepository.products == old(productRepository.products)
      ensures productRepository.keys == old(productRepository.keys)
      ensures var found := if input.productId in old(productRepository.products)
                           then Some(old(productRepository.products[input.productId].product)) else None;
              match ProductUseCases.Purchase(found, input.buyerId, now)
              case Ok(sold) =>
                && r == Ok(PurchaseResponse(true))
                && productRepository.products[input.productId].product == sold
                && stampCardRepository.Cards() == AddStamp(old(stampCardRepository.Cards()), input.buyerId, freshId, now)
              case Err(message) =>
                && r == Err(message)
                && (input.productId in productRepository.products ==>
                      productRepository.products[input.productId].product == found.value)
                && stampCardRepository.stampCards == old(stampCardRepository.stampCards)
                && stampCardRepository.Cards() == old(stampCardRepository.Cards())
    {
      var purchaseUseCase := new PurchaseProductUseCaseInteractor(productRepository);
      var addStampUseCase := new AddStampUseCaseInteractor(stampCardRepository);
      var purchased := purchaseUseCase.Execute(input, now);
      CardsFrame(stampCardRepository);
      if purchased.Fail? {
        return Err(purchased.message);
      }
      CreditBuyer(addStampUseCase, input.buyerId, freshId, now);
      r := Ok(PurchaseResponse(true));
    }

    /** The second step, `addStampUseCase.execute(input.buyerId)`: it writes only the
        stamp cards, so every stored product stays as the purchase left it. */
    method CreditBuyer(addStampUseCase: AddStampUseCaseInteractor, buyerId: string, freshId: string, now: Time)
      requires addStampUseCase.stampCardRepository == stampCardRepository
      requires stampCardRepository.Valid()
      modifies stampCardRepository, stampCardRepository.stampCards.Values
      ensures stampCardRepository.Valid()
      ensures stampCardRepository.Cards() == AddStamp(old(stampCardRepository.Cards()), buyerId, freshId, now)
      ensures old(productRepository.Valid()) ==> productRepository.Valid()
      ensures productRepository.keys == old(productRepository.keys)
      ensures forall k | k in productRepository.products ::
                productRepository.products[k].product == old(productRepository.products[k].product)
    {
      addStampUseCase.Execute(buyerId, freshId, now);
      ProductsFrame(productRepository);
    }
  }
}
