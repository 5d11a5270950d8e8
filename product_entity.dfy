/** The listed product and its status machine. The two copies of `ProductEntity`
    (src/domain/entities/product.ts and freemarket-app/src/server/domain/entities/product.ts)
    hold the same record and the same `isAvailable`, `markAsSold`, `reserve` and
    `toPlainObject`, so they are modelled once. Their getters differ: the first has one
    per field, and its `Price` builds a new `Money`; the second has only `getId`,
    `getTitle`, `getStatus` and a `getPrice` that hands out the stored `Money` object
    itself. A `Money` is a value here, so that sharing is not visible in the model. */
module ProductEntities {
  import opened Common

  /** What `markAsSold` and `reserve` throw for a product that is not available. */
  const NOT_AVAILABLE: string := "商品は既に売り切れまたは予約済みです"

  datatype ProductStatus = AVAILABLE | SOLD | RESERVED

  datatype ProductCondition = NEW | LIKE_NEW | GOOD | FAIR | POOR

  /** The string value of each `ProductCondition` member. */
  function ConditionName(c: ProductCondition): (s: string)
    ensures s != ""
  {
    match c
    case NEW => "NEW"
    case LIKE_NEW => "LIKE_NEW"
    case GOOD => "GOOD"
    case FAIR => "FAIR"
    case POOR => "POOR"
  }

  /** Distinct conditions have distinct names, so comparing names compares conditions. */
  lemma ConditionNamesDistinct(c: ProductCondition, d: ProductCondition)
    ensures ConditionName(c) == ConditionName(d) ==> c == d
  {
  }

  datatype Money = Money(amount: int, currency: string)

  datatype ProductId = ProductId(value: string)

  /** The plain record a `ProductEntity` wraps. */
  datatype Product = Product(
    id: ProductId,
    title: string,
    description: string,
    price: Money,
    condition: ProductCondition,
    status: ProductStatus,
    sellerId: UserId,
    categoryId: string,
    images: seq<string>,
    createdAt: Time,
    updatedAt: Time)
  {
    /** `isAvailable()`. */
    predicate IsAvailable() {
      status == AVAILABLE
    }

    /** The record after `markAsSold()` at `now`, or the error it throws. */
    function MarkAsSold(now: Time): (r: Result<Product>)
      ensures r.Ok? <==> IsAvailable()
      ensures r.Ok? ==> r.value.status == SOLD && r.value.updatedAt == now && SameListing(this, r.value)
      ensures r.Err? ==> r.message == NOT_AVAILABLE
    {
      if !IsAvailable() then Err(NOT_AVAILABLE) else Ok(this.(status := SOLD, updatedAt := now))
    }

    /** The record after `reserve()` at `now`, or the error it throws. */
    function Reserve(now: Time): (r: Result<Product>)
      ensures r.Ok? <==> IsAvailable()
      ensures r.Ok? ==> r.value.status == RESERVED && r.value.updatedAt == now && SameListing(this, r.value)
      ensures r.Err? ==> r.message == NOT_AVAILABLE
    {
      if !IsAvailable() then Err(NOT_AVAILABLE) else Ok(this.(status := RESERVED, updatedAt := now))
    }
  }

  /** The two records agree on everything but `status` and `updatedAt`. */
  predicate SameListing(p: Product, q: Product) {
    && p.id == q.id && p.title == q.title && p.description == q.description
    && p.price == q.price && p.condition == q.condition && p.sellerId == q.sellerId
    && p.categoryId == q.categoryId && p.images == q.images && p.createdAt == q.createdAt
  }

  /** One call on a product: `markAsSold()` or `reserve()`, at a given time. */
  datatype ProductOp = MarkAsSoldAt(now: Time) | ReserveAt(now: Time)

  /** The record after one call; a call that throws leaves it as it was. */
  function ApplyProductOp(p: Product, op: ProductOp): Product {
    var r := match op
      case MarkAsSoldAt(now) => p.MarkAsSold(now)
      case ReserveAt(now) => p.Reserve(now);
    if r.Ok? then r.value else p
  }

  function ApplyProductOps(p: Product, ops: seq<ProductOp>): Product
    decreases |ops|
  {
    if ops == [] then p else ApplyProductOps(ApplyProductOp(p, ops[0]), ops[1..])
  }

  /** SOLD and RESERVED are terminal: no sequence of calls changes a product that is
      in either of them. */
  lemma {:induction false} TerminalStatusesAreFinal(p: Product, ops: seq<ProductOp>)
    requires p.status != AVAILABLE
    ensures ApplyProductOps(p, ops) == p
    decreases |ops|
  {
    if ops != [] {
      TerminalStatusesAreFinal(ApplyProductOp(p, ops[0]), ops[1..]);
    }
  }

  /** Whatever calls are made, a product only ever moves away from AVAILABLE, keeps its
      listing, and takes at most one transition: it ends where it started or where one
      of the calls, made on it first, would have put it; that call is the first one. */
  lemma {:induction false} AtMostOneTransition(p: Product, ops: seq<ProductOp>)
    ensures SameListing(p, ApplyProductOps(p, ops))
    ensures p.status != AVAILABLE ==> ApplyProductOps(p, ops).status == p.status
    ensures ApplyProductOps(p, ops) == p || exists op | op in ops :: ApplyProductOps(p, ops) == ApplyProductOp(p, op)
    ensures ops != [] ==> ApplyProductOps(p, ops) == ApplyProductOp(p, ops[0])
    decreases |ops|
  {
    if ops != [] {
      var next := ApplyProductOp(p, ops[0]);
      AtMostOneTransition(next, ops[1..]);
      if p.status != AVAILABLE {
        TerminalStatusesAreFinal(p, ops);
      } else {
        TerminalStatusesAreFinal(next, ops[1..]);
        assert ApplyProductOps(p, ops) == ApplyProductOp(p, ops[0]);
      }
    }
  }

  /** `ProductEntity`: the mutable object around one `Product` record. */
  class ProductEntity {
    var product: Product

    constructor (product: Product)
      ensures this.product == product
    {
      this.product := product;
    }

    /** `markAsSold()`: AVAILABLE becomes SOLD; anything else throws and stays as it is. */
    method MarkAsSold(now: Time) returns (r: Outcome)
      modifies this
      ensures old(product).IsAvailable() ==> r == Pass && product == old(product).MarkAsSold(now).value
      ensures !old(product).IsAvailable() ==> r == Fail(NOT_AVAILABLE) && product == old(product)
    {
      if !product.IsAvailable() {
        return Fail(NOT_AVAILABLE);
      }
      product := product.(status := SOLD, updatedAt := now);
      r := Pass;
    }

    /** `reserve()`: AVAILABLE becomes RESERVED; anything else throws and stays as it is. */
    method Reserve(now: Time) returns (r: Outcome)
      modifies this
      ensures old(product).IsAvailable() ==> r == Pass && product == old(product).Reserve(now).value
      ensures !old(product).IsAvailable() ==> r == Fail(NOT_AVAILABLE) && product == old(product)
    {
      if !product.IsAvailable() {
        return Fail(NOT_AVAILABLE);
      }
      product := product.(status := RESERVED, updatedAt := now);
      r := Pass;
    }

    /** The `Price` getter: a new `Money` with the stored amount and currency. */
    method Price() returns (m: Money)
      ensures m.amount == product.price.amount && m.currency == product.price.currency
    {
      m := Money(product.price.amount, product.price.currency);
    }

    /** `toPlainObject()`: a copy of the current record. */
    method ToPlainObject() returns (r: Product)
      ensures r == product
    {
      r := product;
    }
  }
}
