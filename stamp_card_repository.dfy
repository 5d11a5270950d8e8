/** The in-memory stamp card store (src/server/api/repository/trpcStampCardRepository.ts):
    a `Map` from a user id to that user's `StampCardEntity` object, seeded with one card. */
module StampCardRepositories {
  import opened Common
  import opened StampCardEntities

  /** The seeded card of "current-user": 3 stamps from 3 purchases, the last on 2024-01-20. */
  function SeedCard(): (c: StampCard)
    ensures c.userId.value == "current-user" && c.stamps == 3 && c.totalPurchases == 3
  {
    StampCard(StampCardId("1"), UserId("current-user"), 3, 3,
              Some(Jan2024(20)), Jan2024(1), Jan2024(20))
  }

  /** The sample records `initializeSampleData` stores. */
  function SampleStampCards(): seq<StampCard> {
    [SeedCard()]
  }

  /** A step that writes neither the repository nor any stored card leaves its
      records and its invariant as they were. */
  twostate lemma CardsFrame(repo: TrpcStampCardRepository)
    requires unchanged(repo) && unchanged(repo.stampCards.Values)
    ensures repo.Cards() == old(repo.Cards())
    ensures old(repo.Valid()) ==> repo.Valid()
  {
  }

  /** `TrpcStampCardRepository`. */
  class TrpcStampCardRepository {
    var stampCards: map<string, StampCardEntity>

    /** Every card is stored under its own user's id (the key `save` uses), so a user
        has at most one card and distinct users never share an entity object. */
    ghost predicate Valid()
      reads this, stampCards.Values
    {
      forall u | u in stampCards :: stampCards[u].stampCard.userId.value == u
    }

    /** The records of the stored cards, by user id. */
    ghost function Cards(): map<string, StampCard>
      reads this, stampCards.Values
    {
      map u | u in stampCards :: stampCards[u].stampCard
    }

    /** Stores the sample cards, each under its own user's id. */
    constructor ()
      ensures Valid()
      ensures Cards() == map["current-user" := SeedCard()]
      ensures fresh(stampCards.Values)
    {
      stampCards := map[];
      new;
      var samples := SampleStampCards();
      for i := 0 to |samples|
        invariant fresh(stampCards.Values)
        invariant Valid()
        invariant stampCards.Keys == set k | 0 <= k < i :: samples[k].userId.value
        invariant forall k | 0 <= k < i :: stampCards[samples[k].userId.value].stampCard == samples[k]
      {
        var e := new StampCardEntity(samples[i]);
        stampCards := stampCards[samples[i].userId.value := e];
      }
      assert samples[0].userId.value in stampCards.Keys;
      assert stampCards.Keys == {"current-user"};
    }

    /** `findByUserId(userId)`: the user's card object, or null. */
    method FindByUserId(userId: string) returns (r: StampCardEntity?)
      ensures userId in stampCards ==> r == stampCards[userId]
      ensures userId !in stampCards ==> r == null
    {
      if userId in stampCards {
        r := stampCards[userId];
      } else {
        r := null;
      }
    }

    /** `save(stampCard)`: stores the object under its own user's id, replacing any
        earlier card of that user; every other entry is kept. */
    method Save(stampCard: StampCardEntity)
      requires Valid()
      modifies this
      ensures Valid()
      ensures stampCards == old(stampCards)[stampCard.stampCard.userId.value := stampCard]
      ensures Cards() == old(Cards())[stampCard.stampCard.userId.value := stampCard.stampCard]
    {
      var data := stampCard.ToPlainObject();
      stampCards := stampCards[data.userId.value := stampCard];
    }

    /** `create(userId)`: a new empty card for `userId` with the id `freshId` (the
        `crypto.randomUUID()` of the code), saved before it is returned. */
    method Create(userId: string, freshId: string, now: Time) returns (r: StampCardEntity)
      requires Valid()
      modifies this
      ensures Valid()
      ensures fresh(r) && r.stampCard == NewStampCard(userId, freshId, now)
      ensures stampCards == old(stampCards)[userId := r]
      ensures Cards() == old(Cards())[userId := NewStampCard(userId, freshId, now)]
    {
      r := new StampCardEntity(NewStampCard(userId, freshId, now));
      Save(r);
    }
  }
}
