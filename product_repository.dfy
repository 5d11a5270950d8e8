/** The in-memory product store (freemarket-app/src/server/api/repository/trpcProductRepository.ts):
    a JavaScript `Map` from a product id to its `ProductEntity` object, and the
    search filter over it. A `Map` iterates in insertion order, so the model keeps,
    beside the map, the sequence of its keys in the order they were first set. */
module ProductRepositories {
  import opened Common
  import opened ProductEntities

  // ---------------------------------------------------------------------------
  // Search criteria and the filter

  /** `ProductSearchCriteria`, every member optional. */
  datatype SearchCriteria = SearchCriteria(
    keyword: Option<string>,
    categoryId: Option<string>,
    minPrice: Option<int>,
    maxPrice: Option<int>,
    condition: Option<string>,
    sellerId: Option<UserId>)

  /** The criteria object `{}`. */
  const NO_CRITERIA: SearchCriteria := SearchCriteria(None, None, None, None, None, None)

  /** A string criterion takes part only when present and truthy (non-empty). */
  predicate StringActive(o: Option<string>) {
    o.Some? && Truthy(o.value)
  }

  /** A price bound takes part only when present and truthy (non-zero). */
  predicate NumberActive(o: Option<int>) {
    o.Some? && TruthyNumber(o.value)
  }

  /** The keyword test: the lowered keyword occurs in the lowered title or description. */
  predicate KeywordMatches(p: Product, keyword: string) {
    var k := ToLowerCase(keyword);
    Includes(ToLowerCase(p.title), k) || Includes(ToLowerCase(p.description), k)
  }

  /** The callback `findByCriteria` passes to `filter`: each active criterion in turn
      may reject the product; a product no criterion rejects is kept. */
  predicate Matches(p: Product, c: SearchCriteria) {
    if StringActive(c.keyword) && !KeywordMatches(p, c.keyword.value) then false
    else if StringActive(c.categoryId) && p.categoryId != c.categoryId.value then false
    else if NumberActive(c.minPrice) && p.price.amount < c.minPrice.value then false
    else if NumberActive(c.maxPrice) && p.price.amount > c.maxPrice.value then false
    else if StringActive(c.condition) && ConditionName(p.condition) != c.condition.value then false
    else if c.sellerId.Some? && p.sellerId.value != c.sellerId.value.value then false
    else true
  }

  /** The criteria are a conjunction: a product matches exactly when it passes every
      active test, price bounds inclusive. */
  lemma MatchesIsConjunction(p: Product, c: SearchCriteria)
    ensures Matches(p, c) <==>
      && (StringActive(c.keyword) ==> KeywordMatches(p, c.keyword.value))
      && (StringActive(c.categoryId) ==> p.categoryId == c.categoryId.value)
      && (NumberActive(c.minPrice) ==> c.minPrice.value <= p.price.amount)
      && (NumberActive(c.maxPrice) ==> p.price.amount <= c.maxPrice.value)
      && (StringActive(c.condition) ==> ConditionName(p.condition) == c.condition.value)
      && (c.sellerId.Some? ==> p.sellerId == c.sellerId.value)
  {
  }

  /** A falsy criterion (an empty string, a zero bound) filters nothing: `maxPrice: 0`
      and `minPrice: 0` are the same as no bound, `keyword: ""` the same as none. */
  lemma FalsyCriteriaIgnored(p: Product, c: SearchCriteria)
    ensures Matches(p, c.(maxPrice := Some(0))) == Matches(p, c.(maxPrice := None))
    ensures Matches(p, c.(minPrice := Some(0))) == Matches(p, c.(minPrice := None))
    ensures Matches(p, c.(keyword := Some(""))) == Matches(p, c.(keyword := None))
    ensures Matches(p, c.(categoryId := Some(""))) == Matches(p, c.(categoryId := None))
    ensures Matches(p, c.(condition := Some(""))) == Matches(p, c.(condition := None))
  {
  }

  /** `products.filter(...)`: the products that match, in their original order. */
  function Search(ps: seq<Product>, c: SearchCriteria): (r: seq<Product>)
    ensures |r| <= |ps|
    ensures forall p :: p in r <==> p in ps && Matches(p, c)
  {
    if ps == [] then []
    else (if Matches(ps[0], c) then [ps[0]] else []) + Search(ps[1..], c)
  }

  /** The search result is a subsequence of the stored products: nothing is added or
      reordered. */
  lemma {:induction false} SearchIsSubsequence(ps: seq<Product>, c: SearchCriteria)
    ensures IsSubsequence(Search(ps, c), ps)
  {
    if ps != [] {
      SearchIsSubsequence(ps[1..], c);
      if Matches(ps[0], c) {
        assert Search(ps, c) == [ps[0]] + Search(ps[1..], c);
        assert Search(ps, c)[1..] == Search(ps[1..], c);
      } else {
        assert ps == [ps[0]] + ps[1..];
        assert Search(ps, c) == Search(ps[1..], c);
        SubsequenceCons(Search(ps[1..], c), ps[1..], ps[0]);
      }
    }
  }

  /** The empty criteria keep every stored product. */
  lemma {:induction false} EmptyCriteriaKeepAll(ps: seq<Product>)
    ensures Search(ps, NO_CRITERIA) == ps
  {
    if ps != [] {
      EmptyCriteriaKeepAll(ps[1..]);
      assert ps == [ps[0]] + ps[1..];
    }
  }

  /** A keyword that occurs in no title or description finds nothing. */
  lemma {:induction false} UnknownKeywordFindsNothing(ps: seq<Product>, keyword: string)
    requires keyword != ""
    requires forall p | p in ps :: !KeywordMatches(p, keyword)
    ensures Search(ps, NO_CRITERIA.(keyword := Some(keyword))) == []
  {
    if ps != [] {
      UnknownKeywordFindsNothing(ps[1..], keyword);
    }
  }

  // ---------------------------------------------------------------------------
  // Seed data

  const SAMPLE_IMAGE: string := "/placeholder.svg?height=300&width=300"

  /** The ids of the sample products, in the order they are stored. */
  const SAMPLE_IDS: seq<string> := ["1", "2", "3", "4"]

  /** The four sample products `initializeSampleData` stores, in order. */
  function SampleProducts(): seq<Product> {
    [ Product(ProductId("1"), "iPhone 14 Pro", "美品です。使用期間は1年程度。",
              Money(120000, "JPY"), LIKE_NEW, AVAILABLE, UserId("user1"), "electronics",
              [SAMPLE_IMAGE], Jan2024(15), Jan2024(15)),
      Product(ProductId("2"), "ナイキ エアマックス", "サイズ27cm。数回着用のみ。",
              Money(8500, "JPY"), GOOD, AVAILABLE, UserId("user2"), "fashion",
              [SAMPLE_IMAGE], Jan2024(10), Jan2024(10)),
      Product(ProductId("3"), "MacBook Air M2", "2023年モデル。ほぼ未使用。",
              Money(150000, "JPY"), NEW, SOLD, UserId("user3"), "electronics",
              [SAMPLE_IMAGE], Jan2024(5), Jan2024(20)),
      Product(ProductId("4"), "Nintendo Switch", "付属品完備。動作確認済み。",
              Money(25000, "JPY"), GOOD, AVAILABLE, UserId("user1"), "books",
              [SAMPLE_IMAGE], Jan2024(12), Jan2024(12)) ]
  }

  /** The seed: products "1" to "4" in that order, each keyed by its own id, only
      "3" sold. */
  lemma SampleProductsFacts()
    ensures |SampleProducts()| == 4
    ensures forall i | 0 <= i < 4 :: SampleProducts()[i].id.value == SAMPLE_IDS[i]
    ensures forall i | 0 <= i < 4 :: SampleProducts()[i].status == SOLD <==> i == 2
    ensures forall i | 0 <= i < 4 :: SampleProducts()[i].status != SOLD ==> SampleProducts()[i].IsAvailable()
    ensures Ids(SampleProducts()) == SAMPLE_IDS && NoDuplicates(SAMPLE_IDS)
  {
    assert Ids(SampleProducts()) == SAMPLE_IDS;
  }

  // ---------------------------------------------------------------------------
  // The repository

  /** `TrpcProductRepository`. */
  class TrpcProductRepository {
    var products: map<string, ProductEntity>
    /** The keys of `products` in insertion order (the `Map`'s iteration order). */
    var keys: seq<string>

    /** Every product is stored under its own id, and `keys` lists each key once. */
    ghost predicate Valid()
      reads this, products.Values
    {
      && KeyedById(products)
      && (forall k :: k in products <==> k in keys)
      && NoDuplicates(keys)
    }

    /** `Array.from(this.products.values())`: the stored objects in iteration order. */
    function Entities(): (r: seq<ProductEntity>)
      reads this
      requires forall k | k in keys :: k in products
      ensures |r| == |keys|
      ensures forall i | 0 <= i < |keys| :: r[i] == products[keys[i]]
    {
      ValuesAt(products, keys)
    }

    /** The records of the stored products, in iteration order. */
    ghost function Listing(): seq<Product>
      reads this, products.Values
      requires Valid()
    {
      Records(Entities())
    }

    /** Stores the four sample products. */
    constructor ()
      ensures Valid()
      ensures keys == SAMPLE_IDS
      ensures Listing() == SampleProducts()
    {
      products := map[];
      keys := [];
      new;
      InitializeSampleData();
    }

    /** `initializeSampleData()`: stores the four sample products in the empty map. */
    method InitializeSampleData()
      requires products == map[] && keys == []
      modifies this
      ensures Valid()
      ensures keys == SAMPLE_IDS
      ensures Listing() == SampleProducts()
    {
      SampleProductsFacts();
      SetAll(SampleProducts());
    }

    /** The loop `for (const p of ps) this.products.set(p.id.value, new ProductEntity(p))`
        run on an empty map with distinct ids: each record ends up in a new object under
        its id, in the order of `ps`. */
    method SetAll(ps: seq<Product>)
      requires products == map[] && keys == []
      requires NoDuplicates(Ids(ps))
      modifies this
      ensures Valid()
      ensures keys == Ids(ps)
      ensures Listing() == ps
    {
      ghost var ids := Ids(ps);
      for i := 0 to |ps|
        invariant Valid()
        invariant keys == ids[..i]
        invariant forall j | 0 <= j < i :: products[ids[j]].product == ps[j]
      {
        assert ids[i] !in ids[..i];
        SetNew(ps[i]);
        TakeOneMore(ids, i);
      }
      assert ids[..|ps|] == ids;
      ListingOf(ps);
    }

    /** When the keys are the ids of `ps`, in order, and each holds its record, the
        listing is `ps`. */
    lemma ListingOf(ps: seq<Product>)
      requires Valid() && keys == Ids(ps)
      requires forall j | 0 <= j < |ps| :: products[Ids(ps)[j]].product == ps[j]
      ensures Listing() == ps
    {
      forall j | 0 <= j < |ps| ensures Listing()[j] == ps[j] {
        assert Entities()[j] == products[keys[j]];
      }
    }

    /** The body of that loop for a new id: a new object holding `p` is stored under
        it and comes last in the iteration order; every other entry stays. */
    method SetNew(p: Product)
      requires Valid() && p.id.value !in products
      modifies this
      ensures Valid()
      ensures keys == old(keys) + [p.id.value]
      ensures products.Keys == old(products.Keys) + {p.id.value}
      ensures forall k | k in old(products) :: products[k] == old(products[k]) && products[k].product == old(products[k].product)
      ensures products[p.id.value].product == p
    {
      var e := new ProductEntity(p);
      Save(e);
    }

    /** `findById(id)`: the stored object, or null. */
    method FindById(id: ProductId) returns (r: ProductEntity?)
      ensures id.value in products ==> r == products[id.value]
      ensures id.value !in products ==> r == null
    {
      if id.value in products {
        r := products[id.value];
      } else {
        r := null;
      }
    }

    /** `findByCriteria(criteria)`: the stored objects, in iteration order, whose record
        matches: the records `Search` selects from the listing. */
    method FindByCriteria(criteria: SearchCriteria) returns (r: seq<ProductEntity>)
      requires Valid()
      ensures Records(r) == Search(Listing(), criteria)
      ensures IsSubsequence(Records(r), Listing())
      ensures forall e | e in r :: e in products.Values && Matches(e.product, criteria)
    {
      var all := Entities();
      r := Filter(all, criteria);
      FilterRecords(all, criteria);
      SearchIsSubsequence(Listing(), criteria);
      EntitiesAreStored();
    }

    /** Every object of the iteration order is a stored one. */
    lemma EntitiesAreStored()
      requires Valid()
      ensures forall e | e in Entities() :: e in products.Values
    {
      forall e | e in Entities() ensures e in products.Values {
        var i :| 0 <= i < |keys| && Entities()[i] == e;
      }
    }

    /** `save(product)`: stores the object under its own id. A new id goes to the end
        of the iteration order; an existing one keeps its place. Other entries stay. */
    method Save(product: ProductEntity)
      requires Valid()
      modifies this
      ensures Valid()
      ensures products == old(products)[product.product.id.value := product]
      ensures keys == if product.product.id.value in old(products) then old(keys) else old(keys) + [product.product.id.value]
    {
      var id := product.product.id.value;
      if id !in products {
        keys := keys + [id];
      }
      products := products[id := product];
    }

    /** `delete(id)`: removes that entry; the others stay, in their order. */
    method Delete(id: ProductId)
      requires Valid()
      modifies this
      ensures Valid()
      ensures products == old(products) - {id.value}
      ensures keys == Without(old(keys), id.value)
    {
      WithoutNoDuplicates(keys, id.value);
      products := products - {id.value};
      keys := Without(keys, id.value);
    }
  }

  /** A step that writes neither the repository nor any stored product leaves every
      stored record and the invariant as they were. */
  twostate lemma ProductsFrame(repo: TrpcProductRepository)
    requires unchanged(repo) && unchanged(repo.products.Values)
    ensures old(repo.Valid()) ==> repo.Valid()
    ensures forall k | k in repo.products :: repo.products[k].product == old(repo.products[k].product)
  {
  }

  /** Every object of `m` holds the product whose id is its key. */
  ghost predicate KeyedById(m: map<string, ProductEntity>)
    reads m.Values
  {
    forall k | k in m :: m[k].product.id.value == k
  }

  /** The ids of the records, in order. */
  function Ids(ps: seq<Product>): (r: seq<string>)
    ensures |r| == |ps|
    ensures forall i | 0 <= i < |ps| :: r[i] == ps[i].id.value
  {
    if ps == [] then [] else [ps[0].id.value] + Ids(ps[1..])
  }

  /** The objects of `es` whose product matches `c`, in order: `filter` over them. */
  function Filter(es: seq<ProductEntity>, c: SearchCriteria): (r: seq<ProductEntity>)
    reads es
    ensures forall e | e in r :: e in es && Matches(e.product, c)
    ensures forall e | e in es && Matches(e.product, c) :: e in r
  {
    if es == [] then []
    else (if Matches(es[0].product, c) then [es[0]] else []) + Filter(es[1..], c)
  }

  /** The matched objects carry exactly the records `Search` selects. */
  lemma {:induction false} FilterRecords(es: seq<ProductEntity>, c: SearchCriteria)
    ensures Records(Filter(es, c)) == Search(Records(es), c)
  {
    if es != [] {
      FilterRecords(es[1..], c);
      assert Records(es)[1..] == Records(es[1..]);
      var head: seq<ProductEntity> := if Matches(es[0].product, c) then [es[0]] else [];
      RecordsAppend(head, Filter(es[1..], c));
    }
  }

  /** The records of a sequence of objects. */
  ghost function Records(es: seq<ProductEntity>): (r: seq<Product>)
    reads es
    ensures |r| == |es|
    ensures forall i | 0 <= i < |es| :: r[i] == es[i].product
  {
    if es == [] then [] else [es[0].product] + Records(es[1..])
  }

  /** Objects whose fields did not change hold the same records. */
  twostate lemma {:induction false} RecordsFrame(es: seq<ProductEntity>)
    requires forall i | 0 <= i < |es| :: unchanged(es[i])
    ensures Records(es) == old(Records(es))
  {
    if es != [] {
      RecordsFrame(es[1..]);
    }
  }

  lemma RecordsAppend(a: seq<ProductEntity>, b: seq<ProductEntity>)
    ensures Records(a + b) == Records(a) + Records(b)
  {
    assert forall i | 0 <= i < |a + b| :: (a + b)[i] == if i < |a| then a[i] else b[i - |a|];
  }
}
