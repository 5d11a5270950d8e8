/** The product use cases: buying a product
    (src/server/application/usecase/product/purchaseProductUsecase.ts), listing a new
    one (freemarket-app/src/application/usecase/product/createProductUsecase.ts) and the
    paging input of the product list
    (src/server/application/usecase/product/getProductUsecase.ts). */
module ProductUseCases {
  import opened Common
  import opened ProductEntities
  import opened ProductRepositories

  // ---------------------------------------------------------------------------
  // Purchase

  /** What the purchase throws, guard by guard. */
  const PRODUCT_NOT_FOUND: string := "商品が見つかりません"
  const NOT_PURCHASABLE: string := "この商品は購入できません"
  const OWN_PRODUCT: string := "自分の商品は購入できません"

  /** `PurchaseProductRequest`. */
  datatype PurchaseProductRequest = PurchaseProductRequest(productId: string, buyerId: string)

  /** The purchase as a function of the record `findById` found (`None` for null):
      the sold record, or the message of the first guard that fails. The guards run
      in order: existence, availability, then "not the seller's own product". */
  function Purchase(found: Option<Product>, buyerId: string, now: Time): (r: Result<Product>)
    ensures found.None? ==> r == Err(PRODUCT_NOT_FOUND)
    ensures found.Some? && !found.value.IsAvailable() ==> r == Err(NOT_PURCHASABLE)
    ensures found.Some? && found.value.IsAvailable() && found.value.sellerId.value == buyerId ==>
              r == Err(OWN_PRODUCT)
    ensures r.Ok? <==> found.Some? && found.value.IsAvailable() && found.value.sellerId.value != buyerId
    ensures r.Ok? ==> r.value.status == SOLD && r.value.updatedAt == now && SameListing(found.value, r.value)
  {
    if found.None? then Err(PRODUCT_NOT_FOUND)
    else if !found.value.IsAvailable() then Err(NOT_PURCHASABLE)
    else if found.value.sellerId.value == buyerId then Err(OWN_PRODUCT)
    else found.value.MarkAsSold(now)
  }

  /** A product, once bought, cannot be bought again, by anyone: the second attempt
      fails the availability guard. */
  lemma SecondPurchaseFails(p: Product, buyer: string, now: Time, otherBuyer: string, later: Time)
    requires Purchase(Some(p), buyer, now).Ok?
    ensures Purchase(Some(Purchase(Some(p), buyer, now).value), otherBuyer, later) == Err(NOT_PURCHASABLE)
  {
  }

  /** A seller never buys their own product, whatever its status. */
  lemma SellerCannotBuyOwnProduct(p: Product, now: Time)
    ensures Purchase(Some(p), p.sellerId.value, now).Err?
  {
  }

  /** `PurchaseProductUseCaseInteractor`. */
  class PurchaseProductUseCaseInteractor {
    const productRepository: TrpcProductRepository

    constructor (productRepository: TrpcProductRepository)
      ensures this.productRepository == productRepository
    {
      this.productRepository := productRepository;
    }

    /** `execute(request)`: looks the product up, applies the three guards, then marks
        it sold in place and saves it. On success the stored object of that id holds
        the record `Purchase` computes; on a failure nothing changes. Only that one
        object is written, and the map of objects stays the same. */
    method Execute(request: PurchaseProductRequest, now: Time) returns (r: Outcome)
      requires productRepository.Valid()
      modifies productRepository,
        if request.productId in productRepository.products
        then {productRepository.products[request.productId]} else {}
      ensures productRepository.Valid()
      ensures productRepository.products == old(productRepository.products)
      ensures productRepository.keys == old(productRepository.keys)
      ensures var found := if request.productId in old(productRepository.products)
                           then Some(old(productRepository.products[request.productId].product)) else None;
              match Purchase(found, request.buyerId, now)
              case Ok(sold) => r == Pass && productRepository.products[request.productId].product == sold
              case Err(message) =>
                && r == Fail(message)
                && (request.productId in productRepository.products ==>
                      productRepository.products[request.productId].product == found.value)
    {
      var repo := productRepository;
      var product := repo.FindById(ProductId(request.productId));
      if product == null {
        return Fail(PRODUCT_NOT_FOUND);
      }
      if !product.product.IsAvailable() {
        return Fail(NOT_PURCHASABLE);
      }
      var data := product.ToPlainObject();
      if data.sellerId.value == request.buyerId {
        return Fail(OWN_PRODUCT);
      }
      var sold := product.MarkAsSold(now);
      assert sold == Pass;
      repo.Save(product);
      r := Pass;
    }
  }

  // ---------------------------------------------------------------------------
  // Create

  /** `CreateProductRequest` as it reaches the input data. `condition` is one of the
      `ProductCondition` strings, none of them empty, and `images` is an array, which is
      truthy even when empty; so both are falsy only when absent. */
  datatype CreateProductRequest = CreateProductRequest(
    title: string,
    description: string,
    price: int,
    condition: Option<ProductCondition>,
    sellerId: string,
    categoryId: string,
    images: Option<seq<string>>)

  /** The messages of the guard chain. An empty title reports the price message. */
  const INVALID_TITLE: string := "param error: price  is invalid!"
  const INVALID_DESCRIPTION: string := "param error: description is invalid!"
  const INVALID_PRICE: string := "param error: price  is invalid!"
  const INVALID_CONDITION: string := "param error: condition is invalid!"
  const INVALID_SELLER_ID: string := "param error: sellerId is invalid!"
  const INVALID_CATEGORY_ID: string := "param error: category id is invalid!"
  const INVALID_IMAGES: string := "param error: images is invalid!"

  /** A `CreateProductInputData` that was constructed without throwing; its fields are
      what the getters return. */
  datatype CreateProductInputData = CreateProductInputData(
    title: string,
    description: string,
    price: int,
    condition: ProductCondition,
    sellerId: string,
    categoryId: string,
    images: seq<string>)

  /** The request passes every guard. */
  predicate ValidRequest(req: CreateProductRequest) {
    && Truthy(req.title) && Truthy(req.description) && req.price >= 0
    && req.condition.Some? && Truthy(req.sellerId) && Truthy(req.categoryId)
    && req.images.Some?
  }

  /** `new CreateProductInputData(request)`: the guards in source order, the first
      failure winning; a request that passes them all is kept verbatim. */
  function NewCreateProductInputData(req: CreateProductRequest): (r: Result<CreateProductInputData>)
    ensures r.Ok? <==> ValidRequest(req)
    ensures req.title == "" ==> r == Err(INVALID_TITLE)
    ensures req.title != "" && req.description == "" ==> r == Err(INVALID_DESCRIPTION)
    ensures req.title != "" && req.description != "" && req.price < 0 ==> r == Err(INVALID_PRICE)
    ensures req.title != "" && req.description != "" && req.price >= 0 && req.condition.None? ==>
              r == Err(INVALID_CONDITION)
    ensures (req.title != "" && req.description != "" && req.price >= 0 && req.condition.Some? &&
             req.sellerId == "") ==> r == Err(INVALID_SELLER_ID)
    ensures (req.title != "" && req.description != "" && req.price >= 0 && req.condition.Some? &&
             req.sellerId != "" && req.categoryId == "") ==> r == Err(INVALID_CATEGORY_ID)
    ensures (req.title != "" && req.description != "" && req.price >= 0 && req.condition.Some? &&
             req.sellerId != "" && req.categoryId != "" && req.images.None?) ==> r == Err(INVALID_IMAGES)
    ensures r.Ok? ==>
              && r.value.title == req.title && r.value.description == req.description
              && r.value.price == req.price && Some(r.value.condition) == req.condition
              && r.value.sellerId == req.sellerId && r.value.categoryId == req.categoryId
              && Some(r.value.images) == req.images
  {
    if !Truthy(req.title) then Err(INVALID_TITLE)
    else if !Truthy(req.description) then Err(INVALID_DESCRIPTION)
    else if req.price < 0 then Err(INVALID_PRICE)
    else if req.condition.None? then Err(INVALID_CONDITION)
    else if !Truthy(req.sellerId) then Err(INVALID_SELLER_ID)
    else if !Truthy(req.categoryId) then Err(INVALID_CATEGORY_ID)
    else if req.images.None? then Err(INVALID_IMAGES)
    else Ok(CreateProductInputData(req.title, req.description, req.price, req.condition.value,
                                   req.sellerId, req.categoryId, req.images.value))
  }

  /** Price 0 is accepted (the guard is `< 0`) and an empty image list is accepted
      (an array is truthy); every other field left empty is refused. */
  lemma CreateProductBoundaries(req: CreateProductRequest)
    requires ValidRequest(req)
    ensures NewCreateProductInputData(req.(price := 0)).Ok?
    ensures NewCreateProductInputData(req.(images := Some([]))).Ok?
    ensures NewCreateProductInputData(req.(price := -1)) == Err(INVALID_PRICE)
    ensures NewCreateProductInputData(req.(title := "")).Err?
    ensures NewCreateProductInputData(req.(description := "")).Err?
    ensures NewCreateProductInputData(req.(sellerId := "")).Err?
    ensures NewCreateProductInputData(req.(categoryId := "")).Err?
  {
  }

  /** The record `execute` builds: a new AVAILABLE listing priced in JPY, every other
      field taken from the input. */
  function NewProduct(input: CreateProductInputData, freshId: string, now: Time): (p: Product)
    ensures p.id == ProductId(freshId) && p.status == AVAILABLE && p.IsAvailable()
    ensures p.price == Money(input.price, "JPY")
    ensures p.title == input.title && p.description == input.description
    ensures p.condition == input.condition && p.sellerId == UserId(input.sellerId)
    ensures p.categoryId == input.categoryId && p.images == input.images
    ensures p.createdAt == now && p.updatedAt == now
  {
    Product(ProductId(freshId), input.title, input.description, Money(input.price, "JPY"),
            input.condition, AVAILABLE, UserId(input.sellerId), input.categoryId, input.images,
            now, now)
  }

  /** A newly listed product can be bought by anyone but its seller. */
  lemma NewProductIsPurchasable(input: CreateProductInputData, freshId: string, now: Time, buyerId: string, later: Time)
    ensures Purchase(Some(NewProduct(input, freshId, now)), buyerId, later).Ok? <==> buyerId != input.sellerId
  {
  }

  /** `CreateProductUseCaseInteractor`. */
  class CreateProductUseCaseInteractor {
    const productRepository: TrpcProductRepository

    constructor (productRepository: TrpcProductRepository)
      ensures this.productRepository == productRepository
    {
      this.productRepository := productRepository;
    }

    /** `execute(request)`: a new object holding `NewProduct`, saved once under its id
        (`freshId`, the `crypto.randomUUID()` of the code) and returned. */
    method Execute(request: CreateProductInputData, freshId: string, now: Time) returns (r: ProductEntity)
      requires productRepository.Valid()
      modifies productRepository
      ensures productRepository.Valid()
      ensures fresh(r) && r.product == NewProduct(request, freshId, now)
      ensures productRepository.products == old(productRepository.products)[freshId := r]
      ensures productRepository.keys ==
                if freshId in old(productRepository.products) then old(productRepository.keys)
                else old(productRepository.keys) + [freshId]
    {
      var product := NewProduct(request, freshId, now);
      r := new ProductEntity(product);
      productRepository.Save(r);
    }
  }

  // ---------------------------------------------------------------------------
  // Product list paging

  /** `GetProductUseCaseInputData`: both members optional. */
  datatype GetProductUseCaseInputData = GetProductUseCaseInputData(limit: Option<int>, page: Option<int>)
  {
    /** The `Limit` getter: the given limit, any value, or 0 when absent. */
    function Limit(): (n: int)
      ensures limit.None? ==> n == 0
      ensures limit.Some? ==> n == limit.value
    {
      limit.GetOr(0)
    }

    /** The `Page` getter: the given page, any value, or 0 when absent. */
    function Page(): (n: int)
      ensures page.None? ==> n == 0
      ensures page.Some? ==> n == page.value
    {
      page.GetOr(0)
    }
  }

  /** `GetProductUseCaseInteractor.execute(input)`: the result of the repository's
      `getByPage()`, passed in as `pageResult`, whatever the input. */
  function GetProductExecute(input: GetProductUseCaseInputData, pageResult: Option<seq<ProductEntity>>): (r: Option<seq<ProductEntity>>)
    ensures r == pageResult
  {
    pageResult
  }

  /** The paging input does not influence the result. */
  lemma GetProductIgnoresInput(a: GetProductUseCaseInputData, b: GetProductUseCaseInputData, pageResult: Option<seq<ProductEntity>>)
    ensures GetProductExecute(a, pageResult) == GetProductExecute(b, pageResult)
  {
  }
}
