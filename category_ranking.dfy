/** The category ranking: the in-memory store
    (src/server/infrastcutrure/repositories/inMemoryCategoryRankingRepository.ts), a
    seeded list of five categories by rank with a top-N query, and the use case over it
    (src/server/application/usecase/ranking/getCategoryRanking.ts). */
module CategoryRankings {
  import opened Common

  /** What `GetCategoryRankingUseCaseInputData` throws for a negative limit. */
  const INVALID_RANKING_LIMIT: string := "limit is invalid. plese setting over 1."

  /** The record a `CategoryRankingEntity` wraps; its getters are the fields. */
  datatype CategoryRanking = CategoryRanking(
    categoryId: string,
    categoryName: string,
    soldCount: int,
    totalRevenue: int,
    rank: int)

  /** The five rankings `initializeSampleData` stores, in this order. */
  function SampleRankings(): seq<CategoryRanking> {
    [ CategoryRanking("electronics", "家電・スマホ・カメラ", 156, 2340000, 1),
      CategoryRanking("fashion", "ファッション", 134, 890000, 2),
      CategoryRanking("books", "本・音楽・ゲーム", 98, 450000, 3),
      CategoryRanking("sports", "スポーツ・レジャー", 76, 680000, 4),
      CategoryRanking("home", "インテリア・住まい", 54, 320000, 5) ]
  }

  /** Position `i` of the seed holds rank `i + 1`, so ranks run 1 to 5 strictly upwards,
      and fewer sales never rank higher. */
  lemma SampleRanksAscend()
    ensures |SampleRankings()| == 5
    ensures forall i | 0 <= i < 5 :: SampleRankings()[i].rank == i + 1
    ensures forall i, j | 0 <= i < j < 5 :: SampleRankings()[i].rank < SampleRankings()[j].rank
    ensures forall i, j | 0 <= i < j < 5 :: SampleRankings()[i].soldCount > SampleRankings()[j].soldCount
  {
  }

  /** `InMemoryCategoryRankingRepository`. */
  class InMemoryCategoryRankingRepository {
    var rankings: seq<CategoryRanking>

    /** Stores the sample rankings. */
    constructor ()
      ensures rankings == SampleRankings()
    {
      rankings := [];
      new;
      InitializeSampleData();
    }

    /** `initializeSampleData()`: replaces the list by the sample rankings. */
    method InitializeSampleData()
      modifies this
      ensures rankings == SampleRankings()
    {
      rankings := SampleRankings();
    }

    /** `getTopCategories(limit)`: `rankings.slice(0, limit)`, without changing the list.
        A limit of 0 or more gives the first min(limit, n) entries; a negative one counts
        back from the end as `slice` does. */
    method GetTopCategories(limit: int) returns (r: seq<CategoryRanking>)
      ensures r <= rankings
      ensures |r| == SliceLength(|rankings|, limit)
      ensures 0 <= limit ==> |r| == Min(limit, |rankings|)
      ensures limit >= |rankings| ==> r == rankings
    {
      r := Slice(rankings, limit);
    }
  }

  /** A `GetCategoryRankingUseCaseInputData` that was constructed without throwing. */
  datatype GetCategoryRankingInput = GetCategoryRankingInput(limit: nat)

  /** `new GetCategoryRankingUseCaseInputData(limit)`: only a negative limit throws, so
      0 is accepted; the `Limit` getter gives back the value passed. */
  function NewGetCategoryRankingInput(limit: int): (r: Result<GetCategoryRankingInput>)
    ensures r.Ok? <==> limit >= 0
    ensures r.Ok? ==> r.value.limit == limit
    ensures r.Err? ==> r.message == INVALID_RANKING_LIMIT
  {
    if limit < 0 then Err(INVALID_RANKING_LIMIT) else Ok(GetCategoryRankingInput(limit))
  }

  /** `GetCategoryRankingUseCaseInteractor`. */
  class GetCategoryRankingUseCaseInteractor {
    const categoryRankingRepository: InMemoryCategoryRankingRepository

    constructor (categoryRankingRepository: InMemoryCategoryRankingRepository)
      ensures this.categoryRankingRepository == categoryRankingRepository
    {
      this.categoryRankingRepository := categoryRankingRepository;
    }

    /** `execute(request)`: `getTopCategories(request.Limit)` as it is: the first
        min(limit, n) rankings, in rank order. */
    method Execute(request: GetCategoryRankingInput) returns (r: seq<CategoryRanking>)
      ensures r == categoryRankingRepository.rankings[..Min(request.limit, |categoryRankingRepository.rankings|)]
    {
      r := categoryRankingRepository.GetTopCategories(request.limit);
    }
  }

  /** On the seeded store, the top `limit` are the categories of ranks 1 to
      min(limit, 5), in that order. */
  lemma SeededTopCategories(repo: InMemoryCategoryRankingRepository, limit: nat)
    requires repo.rankings == SampleRankings()
    ensures var top := repo.rankings[..Min(limit, |repo.rankings|)];
            |top| == Min(limit, 5) && forall i | 0 <= i < |top| :: top[i].rank == i + 1
  {
    SampleRanksAscend();
  }
}
