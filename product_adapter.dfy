/** The product list adapter (src/server/adapter/getProducts.ts): the page of product
    objects the use case returns, flattened into plain response records. */
module ProductAdapters {
  import opened Common
  import opened ProductEntities
  import opened ProductUseCases

  /** `ResponseGetByPage`: a product with its id and seller id as plain strings. */
  datatype ResponseGetByPage = ResponseGetByPage(
    id: string,
    title: string,
    description: string,
    price: Money,
    condition: ProductCondition,
    status: ProductStatus,
    sellerId: string,
    categoryId: string,
    images: seq<string>,
    createdAt: Time,
    updatedAt: Time)

  /** The response record the `map` callback builds from one product, through the
      entity's getters (`Id.value`, `SellerId`, and the rest as they are). */
  function Flatten(p: Product): ResponseGetByPage {
    ResponseGetByPage(p.id.value, p.title, p.description, Money(p.price.amount, p.price.currency),
                      p.condition, p.status, p.sellerId.value, p.categoryId, p.images,
                      p.createdAt, p.updatedAt)
  }

  /** Wrapping the two ids back into their objects. */
  function Unflatten(r: ResponseGetByPage): Product {
    Product(ProductId(r.id), r.title, r.description, r.price, r.condition, r.status,
            UserId(r.sellerId), r.categoryId, r.images, r.createdAt, r.updatedAt)
  }

  /** Flattening loses nothing: the product can be rebuilt from its response, so
      distinct products give distinct responses. */
  lemma FlattenRoundTrip(p: Product, q: Product)
    ensures Unflatten(Flatten(p)) == p
    ensures Flatten(p) == Flatten(q) ==> p == q
  {
    assert Unflatten(Flatten(p)) == p;
    assert Unflatten(Flatten(q)) == q;
  }

  /** `output.map(...)` over the objects, in order. */
  function FlattenAll(es: seq<ProductEntity>): (r: seq<ResponseGetByPage>)
    reads es
    ensures |r| == |es|
    ensures forall i | 0 <= i < |es| :: Unflatten(r[i]) == es[i].product
  {
    if es == [] then []
    else
      FlattenRoundTrip(es[0].product, es[0].product);
      [Flatten(es[0].product)] + FlattenAll(es[1..])
  }

  /** `convertToResponse(output)`: a null page stays null; otherwise one response per
      product, in the same order, each carrying exactly its product's data. */
  function ConvertToResponse(output: Option<seq<ProductEntity>>): (r: Option<seq<ResponseGetByPage>>)
    reads if output.Some? then output.value else []
    ensures r.None? <==> output.None?
    ensures r.Some? ==> |r.value| == |output.value|
    ensures r.Some? ==> forall i | 0 <= i < |output.value| ::
                          Unflatten(r.value[i]) == output.value[i].product
    ensures r.Some? ==> forall i | 0 <= i < |output.value| ::
                          r.value[i].id == output.value[i].product.id.value
                          && r.value[i].sellerId == output.value[i].product.sellerId.value
  {
    if output.None? then None else Some(FlattenAll(output.value))
  }

  /** `getByPage()`: the use case run on the empty input `{}`, then converted; the page
      the repository gives is the only thing that matters. */
  function GetByPage(pageResult: Option<seq<ProductEntity>>): (r: Option<seq<ResponseGetByPage>>)
    reads if pageResult.Some? then pageResult.value else []
    ensures r.None? <==> pageResult.None?
    ensures r.Some? ==> |r.value| == |pageResult.value|
    ensures forall input: GetProductUseCaseInputData :: r == ConvertToResponse(GetProductExecute(input, pageResult))
  {
    ConvertToResponse(GetProductExecute(GetProductUseCaseInputData(None, None), pageResult))
  }
}
