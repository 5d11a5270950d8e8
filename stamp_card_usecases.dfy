/** The three stamp card use cases (src/server/application/usecase/stampCard/):
    add a stamp (get-or-create, stamp, save), redeem a reward (two guards, redeem,
    save) and read a card (get-or-create). Each interactor is proved against a
    function of the stored records, and the functions carry the properties. */
module StampCardUseCases {
  import opened Common
  import opened StampCardEntities
  import opened StampCardRepositories

  /** What `UseRewardUseCaseInteractor` throws for a user without a card. */
  const CARD_NOT_FOUND: string := "スタンプカードが見つかりません"
  /** What `GetStampCardUseCaseInputData` throws for a falsy user id. */
  const INVALID_USER_ID: string := "userID is invalid."

  /** The stored records, by user id. */
  type Cards = map<string, StampCard>

  /** Every record is stored under its own user's id. */
  ghost predicate KeyedByUser(cards: Cards) {
    forall u | u in cards :: cards[u].userId.value == u
  }

  lemma ValidRepositoryIsKeyedByUser(repo: TrpcStampCardRepository)
    requires repo.Valid()
    ensures KeyedByUser(repo.Cards())
  {
  }

  // ---------------------------------------------------------------------------
  // Inputs

  /** `addStampUseCaseInputData`: any string, the empty one included, is accepted. */
  datatype AddStampInput = AddStampInput(userId: string)

  /** `UseRewardUseCaseInputData`: any string, the empty one included, is accepted. */
  datatype UseRewardInput = UseRewardInput(userId: string)

  /** A user id that is not the empty string, the one falsy string. */
  type NonEmptyUserId = s: string | s != "" witness "u"

  /** A `GetStampCardUseCaseInputData` that was constructed without throwing. */
  datatype GetStampCardInput = GetStampCardInput(userId: NonEmptyUserId)

  /** `new GetStampCardUseCaseInputData(userId)`: throws for a falsy (empty) id and
      keeps any other id unchanged for its `UserId` getter. */
  function NewGetStampCardInput(userId: string): (r: Result<GetStampCardInput>)
    ensures r.Ok? <==> userId != ""
    ensures r.Ok? ==> r.value.userId == userId
    ensures r.Err? ==> r.message == INVALID_USER_ID
  {
    if !Truthy(userId) then Err(INVALID_USER_ID) else Ok(GetStampCardInput(userId))
  }

  // ---------------------------------------------------------------------------
  // The use cases as functions of the stored records

  /** The card a user has after add-stamp: the stored one, or a new empty one, with
      one more stamp. */
  function StampedCard(cards: Cards, userId: string, freshId: string, now: Time): (c: StampCard)
    requires KeyedByUser(cards)
    ensures c.userId.value == userId && c.lastPurchaseDate == Some(now)
    ensures userId in cards ==> c.stamps == cards[userId].stamps + 1
    ensures userId in cards ==> c.totalPurchases == cards[userId].totalPurchases + 1
    ensures userId in cards ==> c.id == cards[userId].id && c.createdAt == cards[userId].createdAt
    ensures userId !in cards ==> c.stamps == 1 && c.totalPurchases == 1 && c.id.value == freshId
  {
    var card := if userId in cards then cards[userId] else NewStampCard(userId, freshId, now);
    card.WithStamp(now)
  }

  /** The records after `AddStampUseCaseInteractor.execute(userId)`: only the
      user's own card changes (appearing if it was missing), every other is kept. */
  function AddStamp(cards: Cards, userId: string, freshId: string, now: Time): (r: Cards)
    requires KeyedByUser(cards)
    ensures KeyedByUser(r)
    ensures r.Keys == cards.Keys + {userId}
    ensures forall u | u in cards && u != userId :: r[u] == cards[u]
    ensures r[userId] == StampedCard(cards, userId, freshId, now)
  {
    cards[userId := StampedCard(cards, userId, freshId, now)]
  }

  /** The result of `UseRewardUseCaseInteractor.execute`: the existence guard first,
      then the eligibility guard, and only then the redemption of that one card. */
  function UseReward(cards: Cards, userId: string, now: Time): (r: Result<Cards>)
    requires KeyedByUser(cards)
    ensures r.Ok? <==> userId in cards && cards[userId].stamps >= STAMPS_FOR_REWARD
    ensures userId !in cards ==> r == Err(CARD_NOT_FOUND)
    ensures userId in cards && cards[userId].stamps < STAMPS_FOR_REWARD ==> r == Err(NOT_ENOUGH_STAMPS)
    ensures r.Ok? ==> KeyedByUser(r.value) && r.value.Keys == cards.Keys
    ensures r.Ok? ==> r.value[userId].stamps == cards[userId].stamps - STAMPS_FOR_REWARD
    ensures r.Ok? ==> r.value[userId].totalPurchases == cards[userId].totalPurchases
    ensures r.Ok? ==> forall u | u in cards && u != userId :: r.value[u] == cards[u]
  {
    if userId !in cards then Err(CARD_NOT_FOUND)
    else if !cards[userId].CanGetReward() then Err(NOT_ENOUGH_STAMPS)
    else Ok(cards[userId := cards[userId].Redeemed(now)])
  }

  /** The card `GetStampCardUseCaseInteractor.execute` returns: the stored one, or a
      new empty one. */
  function CardOf(cards: Cards, userId: string, freshId: string, now: Time): (c: StampCard)
    requires KeyedByUser(cards)
    ensures c.userId.value == userId
    ensures userId in cards ==> c == cards[userId]
    ensures userId !in cards ==> c.stamps == 0 && c.totalPurchases == 0 && c.lastPurchaseDate == None
  {
    if userId in cards then cards[userId] else NewStampCard(userId, freshId, now)
  }

  /** The records after a get: a missing card is stored, nothing else changes, and
      no stamp count moves. */
  function GetStampCard(cards: Cards, userId: string, freshId: string, now: Time): (r: Cards)
    requires KeyedByUser(cards)
    ensures KeyedByUser(r)
    ensures r.Keys == cards.Keys + {userId}
    ensures forall u | u in cards :: r[u] == cards[u]
    ensures r[userId] == CardOf(cards, userId, freshId, now)
  {
    cards[userId := CardOf(cards, userId, freshId, now)]
  }

  // ---------------------------------------------------------------------------
  // The interactors

  /** `AddStampUseCaseInteractor`. */
  class AddStampUseCaseInteractor {
    const stampCardRepository: TrpcStampCardRepository

    constructor (stampCardRepository: TrpcStampCardRepository)
      ensures this.stampCardRepository == stampCardRepository
    {
      this.stampCardRepository := stampCardRepository;
    }

    /** `execute(userId)`: find the card, create it when missing, add a stamp, save.
        An existing card is stamped in place (its object stays stored); a created
        one is a fresh object. */
    method Execute(userId: string, freshId: string, now: Time)
      requires stampCardRepository.Valid()
      modifies stampCardRepository, stampCardRepository.stampCards.Values
      ensures stampCardRepository.Valid()
      ensures stampCardRepository.Cards() == AddStamp(old(stampCardRepository.Cards()), userId, freshId, now)
      ensures userId in old(stampCardRepository.stampCards) ==>
                stampCardRepository.stampCards == old(stampCardRepository.stampCards)
      ensures userId !in old(stampCardRepository.stampCards) ==>
                fresh(stampCardRepository.stampCards[userId]) &&
                stampCardRepository.stampCards == old(stampCardRepository.stampCards)[userId := stampCardRepository.stampCards[userId]]
    {
      ghost var before := stampCardRepository.Cards();
      ValidRepositoryIsKeyedByUser(stampCardRepository);
      var stampCard := FindOrCreate(userId, freshId, now);
      ghost var found := stampCard.stampCard;
      ghost var stored := stampCardRepository.stampCards;
      assert found.WithStamp(now) == StampedCard(before, userId, freshId, now);
      StampAndSave(stampCard, userId, now);
      assert stampCardRepository.stampCards == stored;
      assert stampCardRepository.Cards() == before[userId := found][userId := found.WithStamp(now)];
      OverwriteTwice(before, userId, found, found.WithStamp(now));
    }

    /** The first two steps of `execute`: `findByUserId(userId)`, and `create(userId)`
        when that gives null. */
    method FindOrCreate(userId: string, freshId: string, now: Time) returns (r: StampCardEntity)
      requires stampCardRepository.Valid()
      requires KeyedByUser(stampCardRepository.Cards())
      modifies stampCardRepository
      ensures stampCardRepository.Valid()
      ensures userId in stampCardRepository.stampCards && stampCardRepository.stampCards[userId] == r
      ensures r.stampCard == CardOf(old(stampCardRepository.Cards()), userId, freshId, now)
      ensures stampCardRepository.Cards() == old(stampCardRepository.Cards())[userId := r.stampCard]
      ensures userId in old(stampCardRepository.stampCards) ==>
                stampCardRepository.stampCards == old(stampCardRepository.stampCards)
      ensures userId !in old(stampCardRepository.stampCards) ==>
                fresh(r) && stampCardRepository.stampCards == old(stampCardRepository.stampCards)[userId := r]
    {
      var repo := stampCardRepository;
      var found := repo.FindByUserId(userId);
      if found == null {
        r := repo.Create(userId, freshId, now);
      } else {
        r := found;
        assert repo.Cards() == repo.Cards()[userId := r.stampCard];
      }
    }

    /** The last two steps of `execute`: `stampCard.addStamp()` on the stored object,
        then `save(stampCard)`. */
    method StampAndSave(stampCard: StampCardEntity, userId: string, now: Time)
      requires stampCardRepository.Valid()
      requires userId in stampCardRepository.stampCards && stampCardRepository.stampCards[userId] == stampCard
      modifies stampCardRepository, stampCard
      ensures stampCardRepository.Valid()
      ensures stampCardRepository.stampCards == old(stampCardRepository.stampCards)
      ensures stampCardRepository.Cards() == old(stampCardRepository.Cards())[userId := old(stampCard.stampCard).WithStamp(now)]
    {
      stampCard.AddStamp(now);
      stampCardRepository.Save(stampCard);
    }
  }

  /** `UseRewardUseCaseInteractor`. */
  class UseRewardUseCaseInteractor {
    const stampCardRepository: TrpcStampCardRepository

    constructor (stampCardRepository: TrpcStampCardRepository)
      ensures this.stampCardRepository == stampCardRepository
    {
      this.stampCardRepository := stampCardRepository;
    }

    /** `execute(input)`: throws when the user has no card, then when the card is short
        of stamps (in both cases nothing is created or saved), otherwise redeems the
        reward and saves the card. */
    method Execute(input: UseRewardInput, now: Time) returns (r: Outcome)
      requires stampCardRepository.Valid()
      modifies stampCardRepository, stampCardRepository.stampCards.Values
      ensures stampCardRepository.Valid()
      ensures stampCardRepository.stampCards == old(stampCardRepository.stampCards)
      ensures match UseReward(old(stampCardRepository.Cards()), input.userId, now)
              case Ok(cards) => r == Pass && stampCardRepository.Cards() == cards
              case Err(m) => r == Fail(m) && stampCardRepository.Cards() == old(stampCardRepository.Cards())
    {
      var repo := stampCardRepository;
      ghost var before := repo.Cards();
      ValidRepositoryIsKeyedByUser(repo);
      var stampCard := repo.FindByUserId(input.userId);
      if stampCard == null {
        return Fail(CARD_NOT_FOUND);
      }
      ghost var card := stampCard.stampCard;
      assert card == before[input.userId];
      if !stampCard.stampCard.CanGetReward() {
        return Fail(NOT_ENOUGH_STAMPS);
      }
      RedeemAndSave(stampCard, input.userId, now);
      assert repo.Cards() == before[input.userId := card.Redeemed(now)];
      r := Pass;
    }

    /** The last two steps of `execute`: `stampCard.useReward()` on the stored object,
        whose own guard cannot fire after the one before it, then `save(stampCard)`. */
    method RedeemAndSave(stampCard: StampCardEntity, userId: string, now: Time)
      requires stampCardRepository.Valid()
      requires userId in stampCardRepository.stampCards && stampCardRepository.stampCards[userId] == stampCard
      requires stampCard.stampCard.CanGetReward()
      modifies stampCardRepository, stampCard
      ensures stampCardRepository.Valid()
      ensures stampCardRepository.stampCards == old(stampCardRepository.stampCards)
      ensures stampCardRepository.Cards() == old(stampCardRepository.Cards())[userId := old(stampCard.stampCard).Redeemed(now)]
    {
      var redeemed := stampCard.UseReward(now);
      assert redeemed == Pass;
      stampCardRepository.Save(stampCard);
    }
  }

  /** `GetStampCardUseCaseInteractor`. */
  class GetStampCardUseCaseInteractor {
    const stampCardRepository: TrpcStampCardRepository

    constructor (stampCardRepository: TrpcStampCardRepository)
      ensures this.stampCardRepository == stampCardRepository
    {
      this.stampCardRepository := stampCardRepository;
    }

    /** `execute(input)`: the stored card object, or a freshly created and saved one. */
    method Execute(input: GetStampCardInput, freshId: string, now: Time) returns (r: StampCardEntity)
      requires stampCardRepository.Valid()
      modifies stampCardRepository
      ensures stampCardRepository.Valid()
      ensures r.stampCard == CardOf(old(stampCardRepository.Cards()), input.userId, freshId, now)
      ensures stampCardRepository.Cards() == GetStampCard(old(stampCardRepository.Cards()), input.userId, freshId, now)
      ensures input.userId in old(stampCardRepository.stampCards) ==>
                r == old(stampCardRepository.stampCards)[input.userId] &&
                stampCardRepository.stampCards == old(stampCardRepository.stampCards)
      ensures input.userId !in old(stampCardRepository.stampCards) ==> fresh(r)
    {
      var repo := stampCardRepository;
      ValidRepositoryIsKeyedByUser(repo);
      var found := repo.FindByUserId(input.userId);
      if found == null {
        r := repo.Create(input.userId, freshId, now);
      } else {
        r := found;
      }
    }
  }

  // ---------------------------------------------------------------------------
  // Properties across calls

  /** `n` add-stamp executions for one user, at the given times. */
  function AddStampRepeatedly(cards: Cards, userId: string, freshId: string, times: seq<Time>): (r: Cards)
    requires KeyedByUser(cards)
    ensures KeyedByUser(r)
    ensures cards.Keys <= r.Keys
    ensures times != [] ==> userId in r
    decreases |times|
  {
    if times == [] then cards
    else AddStampRepeatedly(AddStamp(cards, userId, freshId, times[0]), userId, freshId, times[1..])
  }

  /** N executions of add-stamp raise the user's stamps and purchases by exactly N
      (from 0 for a user without a card) and leave every other user's card alone. */
  lemma {:induction false} AddStampNTimes(cards: Cards, userId: string, freshId: string, times: seq<Time>)
    requires KeyedByUser(cards)
    requires times != []
    ensures var r := AddStampRepeatedly(cards, userId, freshId, times);
      && r.Keys == cards.Keys + {userId}
      && r[userId].stamps == (if userId in cards then cards[userId].stamps else 0) + |times|
      && r[userId].totalPurchases == (if userId in cards then cards[userId].totalPurchases else 0) + |times|
      && (forall u | u in cards && u != userId :: r[u] == cards[u])
    decreases |times|
  {
    var next := AddStamp(cards, userId, freshId, times[0]);
    if |times| > 1 {
      AddStampNTimes(next, userId, freshId, times[1..]);
    }
  }

  /** A first-time user who makes N purchases holds N stamps from N purchases. */
  lemma FreshUserStampCount(cards: Cards, userId: string, freshId: string, times: seq<Time>)
    requires KeyedByUser(cards) && userId !in cards
    requires times != []
    ensures AddStampRepeatedly(cards, userId, freshId, times)[userId].stamps == |times|
    ensures AddStampRepeatedly(cards, userId, freshId, times)[userId].totalPurchases == |times|
  {
    AddStampNTimes(cards, userId, freshId, times);
  }

  /** From zero stamps, ten stamps pay for exactly one reward, which leaves zero
      stamps; an eleventh stamp is not enough for another. */
  lemma TenStampsOneReward(cards: Cards, userId: string, freshId: string, times: seq<Time>, now: Time, later: Time)
    requires KeyedByUser(cards) && userId !in cards
    requires |times| == 10
    ensures var ten := AddStampRepeatedly(cards, userId, freshId, times);
      && UseReward(ten, userId, now).Ok?
      && UseReward(ten, userId, now).value[userId].stamps == 0
      && var eleven := AddStamp(UseReward(ten, userId, now).value, userId, freshId, later);
         eleven[userId].stamps == 1 && UseReward(eleven, userId, later) == Err(NOT_ENOUGH_STAMPS)
  {
    AddStampNTimes(cards, userId, freshId, times);
  }

  /** A second get for the same user returns the card the first one stored, whatever
      fresh id and time it is given, and stores nothing more. */
  lemma GetTwiceReturnsSameCard(cards: Cards, userId: string, id1: string, id2: string, t1: Time, t2: Time)
    requires KeyedByUser(cards)
    ensures var after := GetStampCard(cards, userId, id1, t1);
      && CardOf(after, userId, id2, t2) == CardOf(cards, userId, id1, t1)
      && GetStampCard(after, userId, id2, t2) == after
  {
  }
}
