/** The loyalty stamp card: one card per user, a stamp per purchase, and a reward
    for every `STAMPS_FOR_REWARD` stamps (freemarket-app/src/domain/entities/stampCardEntity.ts). */
module StampCardEntities {
  import opened Common

  /** The fixed reward threshold (`StampCardEntity.STAMPS_FOR_REWARD`). */
  const STAMPS_FOR_REWARD: int := 10

  /** The message `useReward` throws when the card holds too few stamps. */
  const NOT_ENOUGH_STAMPS: string := "スタンプが足りません"

  datatype StampCardId = StampCardId(value: string)

  /** The plain record a `StampCardEntity` wraps. */
  datatype StampCard = StampCard(
    id: StampCardId,
    userId: UserId,
    stamps: int,
    totalPurchases: int,
    lastPurchaseDate: Option<Time>,
    createdAt: Time,
    updatedAt: Time)
  {
    /** `canGetReward()`: enough stamps for one reward. */
    predicate CanGetReward() {
      stamps >= STAMPS_FOR_REWARD
    }

    /** `getStampsUntilReward()`: how many more stamps the next reward needs. */
    function StampsUntilReward(): (r: int)
      ensures r >= 0
      ensures r == 0 <==> CanGetReward()
      ensures !CanGetReward() ==> stamps + r == STAMPS_FOR_REWARD
    {
      Max(0, STAMPS_FOR_REWARD - stamps)
    }

    /** `getRewardCount()`: `Math.floor(stamps / STAMPS_FOR_REWARD)`, the number of
        rewards the stamps on the card pay for. */
    function RewardCount(): (r: int)
      ensures r * STAMPS_FOR_REWARD <= stamps < (r + 1) * STAMPS_FOR_REWARD
      ensures stamps >= 0 ==> r >= 0
      ensures r > 0 <==> CanGetReward()
    {
      stamps / STAMPS_FOR_REWARD
    }

    /** The card after `addStamp()` at time `now`. */
    function WithStamp(now: Time): (r: StampCard)
      ensures r.stamps == stamps + 1 && r.totalPurchases == totalPurchases + 1
      ensures r.id == id && r.userId == userId && r.createdAt == createdAt
      ensures r.lastPurchaseDate == Some(now) && r.updatedAt == now
      ensures r.RewardCount() >= RewardCount()
      ensures stamps >= 0 ==> r.StampsUntilReward() == Max(0, StampsUntilReward() - 1)
    {
      this.(stamps := stamps + 1, totalPurchases := totalPurchases + 1,
            lastPurchaseDate := Some(now), updatedAt := now)
    }

    /** The card after a successful `useReward()` at time `now`: one threshold's worth
        of stamps is spent, not all of them. */
    function Redeemed(now: Time): (r: StampCard)
      requires CanGetReward()
      ensures r.stamps == stamps - STAMPS_FOR_REWARD && r.stamps >= 0
      ensures r.totalPurchases == totalPurchases
      ensures r.id == id && r.userId == userId && r.createdAt == createdAt
      ensures r.lastPurchaseDate == lastPurchaseDate && r.updatedAt == now
      ensures r.RewardCount() == RewardCount() - 1
    {
      this.(stamps := stamps - STAMPS_FOR_REWARD, updatedAt := now)
    }

    /** `useReward()` as a function of the card: the redeemed card, or the error it
        throws when the card cannot pay for a reward. */
    function UseReward(now: Time): (r: Result<StampCard>)
      ensures r.Ok? <==> CanGetReward()
      ensures r.Ok? ==> r.value.stamps == stamps - STAMPS_FOR_REWARD
      ensures r.Err? ==> r.message == NOT_ENOUGH_STAMPS
    {
      if CanGetReward() then Ok(Redeemed(now)) else Err(NOT_ENOUGH_STAMPS)
    }
  }

  /** The record `create(userId)` builds: an empty card for `userId`. */
  function NewStampCard(userId: string, freshId: string, now: Time): (r: StampCard)
    ensures r.userId.value == userId && r.id.value == freshId
    ensures r.stamps == 0 && r.totalPurchases == 0 && r.lastPurchaseDate == None
    ensures r.StampsUntilReward() == STAMPS_FOR_REWARD && r.RewardCount() == 0
  {
    StampCard(StampCardId(freshId), UserId(userId), 0, 0, None, now, now)
  }

  /** `canGetReward()` holds exactly when no stamp is missing, and a card that can
      pay for a reward is the only kind whose reward count is positive. */
  lemma StampsUntilRewardZeroIffReward(c: StampCard)
    ensures c.StampsUntilReward() == 0 <==> c.CanGetReward()
    ensures c.CanGetReward() <==> c.stamps >= 10
  {
  }

  /** A card with no negative stamp count keeps none through any number of stamps
      and redemptions; this is the invariant the entity's methods preserve. */
  lemma {:induction false} StampsStayNonNegative(c: StampCard, ops: seq<StampOp>)
    requires c.stamps >= 0
    ensures ApplyStampOps(c, ops).stamps >= 0
    ensures ApplyStampOps(c, ops).totalPurchases - c.totalPurchases == CountStamps(ops)
    decreases |ops|
  {
    if ops != [] {
      var next := ApplyStampOp(c, ops[0]);
      assert next.stamps >= 0;
      StampsStayNonNegative(next, ops[1..]);
      assert ops == [ops[0]] + ops[1..];
    }
  }

  /** One call on a stamp card: `addStamp()` or `useReward()`, at a given time. */
  datatype StampOp = AddStampAt(now: Time) | UseRewardAt(now: Time)

  /** The card after one call; a `useReward()` that throws leaves the card as it was. */
  function ApplyStampOp(c: StampCard, op: StampOp): StampCard {
    match op
    case AddStampAt(now) => c.WithStamp(now)
    case UseRewardAt(now) => if c.CanGetReward() then c.Redeemed(now) else c
  }

  function ApplyStampOps(c: StampCard, ops: seq<StampOp>): StampCard
    decreases |ops|
  {
    if ops == [] then c else ApplyStampOps(ApplyStampOp(c, ops[0]), ops[1..])
  }

  /** How many `addStamp()` calls a sequence holds. */
  function CountStamps(ops: seq<StampOp>): nat
    decreases |ops|
  {
    if ops == [] then 0 else (if ops[0].AddStampAt? then 1 else 0) + CountStamps(ops[1..])
  }

  /** `StampCardEntity`: the mutable object around one `StampCard` record. */
  class StampCardEntity {
    var stampCard: StampCard

    constructor (stampCard: StampCard)
      ensures this.stampCard == stampCard
    {
      this.stampCard := stampCard;
    }

    /** `addStamp()`: one more stamp and one more purchase, stamped at `now`. */
    method AddStamp(now: Time)
      modifies this
      ensures stampCard == old(stampCard).WithStamp(now)
    {
      stampCard := stampCard.(stamps := stampCard.stamps + 1,
                              totalPurchases := stampCard.totalPurchases + 1,
                              lastPurchaseDate := Some(now),
                              updatedAt := now);
    }

    /** `useReward()`: throws and changes nothing when the card is short of stamps,
        otherwise spends one threshold's worth of stamps. */
    method UseReward(now: Time) returns (r: Outcome)
      modifies this
      ensures old(stampCard).CanGetReward() ==> r == Pass && stampCard == old(stampCard).Redeemed(now)
      ensures !old(stampCard).CanGetReward() ==> r == Fail(NOT_ENOUGH_STAMPS) && stampCard == old(stampCard)
    {
      if !stampCard.CanGetReward() {
        return Fail(NOT_ENOUGH_STAMPS);
      }
      stampCard := stampCard.(stamps := stampCard.stamps - STAMPS_FOR_REWARD, updatedAt := now);
      r := Pass;
    }

    /** `toPlainObject()`: a copy of the current record. */
    method ToPlainObject() returns (r: StampCard)
      ensures r == stampCard
    {
      r := stampCard;
    }
  }
}
