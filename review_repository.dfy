/** The in-memory review store (src/server/api/repository/trpcReviewRepository.ts): a
    `Map` from a review id to its review, seeded with three reviews, with a timeline
    query (newest first, then the first `limit`) and a per-product query. */
module ReviewRepositories {
  import opened Common
  import opened ReviewEntities

  // ---------------------------------------------------------------------------
  // The timeline order

  /** Newest first: `createdAt` never increases along the sequence. */
  predicate NewestFirst(rs: seq<Review>) {
    forall i, j | 0 <= i < j < |rs| :: rs[i].createdAt >= rs[j].createdAt
  }

  /** The place a stable sort with the comparator `b.createdAt - a.createdAt` gives `r`
      in front of the already sorted `rs`: behind every strictly newer review, ahead of
      the rest (so ahead of the ones of the same time, which came after it). */
  function InsertNewest(r: Review, rs: seq<Review>): (out: seq<Review>)
    ensures |out| == |rs| + 1
    ensures multiset(out) == multiset(rs) + multiset{r}
    ensures forall y | y in out :: y == r || y in rs
  {
    if rs == [] || rs[0].createdAt <= r.createdAt then [r] + rs
    else
      assert rs == [rs[0]] + rs[1..];
      [rs[0]] + InsertNewest(r, rs[1..])
  }

  /** `reviews.sort((a, b) => b.getCreatedAt().getTime() - a.getCreatedAt().getTime())`:
      a rearrangement of the reviews. */
  function SortNewest(rs: seq<Review>): (out: seq<Review>)
    ensures |out| == |rs|
    ensures multiset(out) == multiset(rs)
  {
    if rs == [] then []
    else
      assert rs == [rs[0]] + rs[1..];
      InsertNewest(rs[0], SortNewest(rs[1..]))
  }

  /** Inserting into a newest-first sequence keeps it newest first. */
  lemma {:induction false} InsertNewestKeepsOrder(r: Review, rs: seq<Review>)
    requires NewestFirst(rs)
    ensures NewestFirst(InsertNewest(r, rs))
  {
    if rs == [] || rs[0].createdAt <= r.createdAt {
      forall y | y in rs ensures y.createdAt <= r.createdAt {
        var j :| 0 <= j < |rs| && rs[j] == y;
        assert rs[0].createdAt >= rs[j].createdAt;
      }
      NewestFirstCons(r, rs);
    } else {
      var rest := rs[1..];
      assert NewestFirst(rest) by {
        forall i, j | 0 <= i < j < |rest| ensures rest[i].createdAt >= rest[j].createdAt {
          assert rest[i] == rs[i + 1] && rest[j] == rs[j + 1];
        }
      }
      InsertNewestKeepsOrder(r, rest);
      var tail := InsertNewest(r, rest);
      forall y | y in tail ensures y.createdAt <= rs[0].createdAt {
        if y != r {
          var j :| 0 <= j < |rest| && rest[j] == y;
          assert rs[j + 1] == y;
        }
      }
      NewestFirstCons(rs[0], tail);
    }
  }

  /** A review no older than any of a newest-first sequence can go in front of it. */
  lemma NewestFirstCons(x: Review, rs: seq<Review>)
    requires NewestFirst(rs)
    requires forall y | y in rs :: y.createdAt <= x.createdAt
    ensures NewestFirst([x] + rs)
  {
    var out := [x] + rs;
    forall i, j | 0 <= i < j < |out| ensures out[i].createdAt >= out[j].createdAt {
      if i == 0 {
        assert out[j] == rs[j - 1] && out[j] in rs;
      } else {
        assert out[i] == rs[i - 1] && out[j] == rs[j - 1];
      }
    }
  }

  /** The sort puts the reviews newest first. */
  lemma {:induction false} SortNewestIsNewestFirst(rs: seq<Review>)
    ensures NewestFirst(SortNewest(rs))
  {
    if rs != [] {
      SortNewestIsNewestFirst(rs[1..]);
      InsertNewestKeepsOrder(rs[0], SortNewest(rs[1..]));
    }
  }

  /** Reviews already newest first come back unchanged. */
  lemma {:induction false} SortNewestKeepsSorted(rs: seq<Review>)
    requires NewestFirst(rs)
    ensures SortNewest(rs) == rs
  {
    if rs != [] {
      assert NewestFirst(rs[1..]) by {
        forall i, j | 0 <= i < j < |rs[1..]| ensures rs[1..][i].createdAt >= rs[1..][j].createdAt {
          assert rs[1..][i] == rs[i + 1] && rs[1..][j] == rs[j + 1];
        }
      }
      SortNewestKeepsSorted(rs[1..]);
      assert rs == [rs[0]] + rs[1..];
    }
  }

  /** The reviews of `rs` created at time `t`, in their order in `rs`. */
  function AtTime(rs: seq<Review>, t: Time): seq<Review> {
    if rs == [] then []
    else (if rs[0].createdAt == t then [rs[0]] else []) + AtTime(rs[1..], t)
  }

  /** Placing `r` puts it ahead of every review of its own time and moves no other. */
  lemma {:induction false} InsertNewestAtTime(r: Review, rs: seq<Review>, t: Time)
    ensures AtTime(InsertNewest(r, rs), t) == (if r.createdAt == t then [r] else []) + AtTime(rs, t)
  {
    var out := InsertNewest(r, rs);
    if rs == [] || rs[0].createdAt <= r.createdAt {
      assert out[0] == r && out[1..] == rs;
    } else {
      InsertNewestAtTime(r, rs[1..], t);
      assert out[0] == rs[0] && out[1..] == InsertNewest(r, rs[1..]);
      assert !(rs[0].createdAt == t && r.createdAt == t);
    }
  }

  /** The sort is stable: the reviews of any one time keep their original order, so
      of two reviews created at the same time the earlier stored one comes first. */
  lemma {:induction false} SortNewestIsStable(rs: seq<Review>, t: Time)
    ensures AtTime(SortNewest(rs), t) == AtTime(rs, t)
  {
    if rs != [] {
      SortNewestIsStable(rs[1..], t);
      InsertNewestAtTime(rs[0], SortNewest(rs[1..]), t);
    }
  }

  /** In a newest-first sequence, every review of a prefix is at least as new as every
      review after it. */
  lemma NewestFirstSplit(s: seq<Review>, k: nat)
    requires NewestFirst(s) && k <= |s|
    ensures forall x, y | x in s[..k] && y in s[k..] :: y.createdAt <= x.createdAt
  {
    forall x, y | x in s[..k] && y in s[k..] ensures y.createdAt <= x.createdAt {
      var i :| 0 <= i < k && s[..k][i] == x;
      var j :| 0 <= j < |s| - k && s[k..][j] == y;
      assert s[i] == x && s[k + j] == y;
    }
  }

  /** A prefix of a newest-first rearrangement of `rs` is newest first, is part of
      `rs`, and is at least as new as everything of `rs` it leaves out. */
  lemma NewestFirstPrefix(rs: seq<Review>, s: seq<Review>, k: nat)
    requires NewestFirst(s) && multiset(s) == multiset(rs) && k <= |s|
    ensures NewestFirst(s[..k])
    ensures multiset(s[..k]) <= multiset(rs)
    ensures forall x | x in s[..k] :: x in rs
    ensures forall x, y | x in s[..k] && y in multiset(rs) - multiset(s[..k]) :: y.createdAt <= x.createdAt
  {
    var p := s[..k];
    assert NewestFirst(p) by {
      forall i, j | 0 <= i < j < |p| ensures p[i].createdAt >= p[j].createdAt {
        assert p[i] == s[i] && p[j] == s[j];
      }
    }
    MultisetOfSplit(s, k);
    forall x | x in p ensures x in rs {
      assert x in multiset(s);
    }
    NewestFirstSplit(s, k);
    forall x, y | x in p && y in multiset(rs) - multiset(p) ensures y.createdAt <= x.createdAt {
      assert y in s[k..];
    }
  }

  /** `findRecent(limit)` over the stored reviews: sorted newest first, then
      `slice(0, limit)`. What is kept is the newest: no review left out is newer than
      one kept. */
  function Recent(rs: seq<Review>, limit: int): (out: seq<Review>)
    ensures |out| == SliceLength(|rs|, limit)
    ensures 0 <= limit ==> |out| == Min(limit, |rs|)
    ensures NewestFirst(out)
    ensures multiset(out) <= multiset(rs)
    ensures forall x | x in out :: x in rs
    ensures forall x, y | x in out && y in multiset(rs) - multiset(out) :: y.createdAt <= x.createdAt
  {
    var sorted := SortNewest(rs);
    SortNewestIsNewestFirst(rs);
    NewestFirstPrefix(rs, sorted, SliceLength(|rs|, limit));
    Slice(sorted, limit)
  }

  /** With a limit at least the number of reviews, every review is in the timeline. */
  lemma WholeTimeline(rs: seq<Review>, limit: int, x: Review)
    requires limit >= |rs| && x in rs
    ensures x in Recent(rs, limit)
  {
    assert x in multiset(rs);
    assert x in multiset(SortNewest(rs));
  }

  /** A review newer than one the timeline keeps is kept too. */
  lemma NewerThanKeptIsKept(rs: seq<Review>, limit: int, x: Review, y: Review)
    requires x in Recent(rs, limit) && y in rs && x.createdAt < y.createdAt
    ensures y in Recent(rs, limit)
  {
    var out := Recent(rs, limit);
    assert y !in out ==> y in multiset(rs) - multiset(out);
  }

  /** `filter((review) => review.toPlainObject().productId === productId)`. */
  function ForProduct(rs: seq<Review>, productId: string): (out: seq<Review>)
    ensures forall x :: x in out <==> x in rs && x.productId == productId
    ensures |out| <= |rs|
  {
    if rs == [] then []
    else
      assert rs == [rs[0]] + rs[1..];
      (if rs[0].productId == productId then [rs[0]] else []) + ForProduct(rs[1..], productId)
  }

  /** The per-product query keeps the stored order. */
  lemma {:induction false} ForProductIsSubsequence(rs: seq<Review>, productId: string)
    ensures IsSubsequence(ForProduct(rs, productId), rs)
  {
    if rs != [] {
      ForProductIsSubsequence(rs[1..], productId);
      if rs[0].productId == productId {
        assert ForProduct(rs, productId)[1..] == ForProduct(rs[1..], productId);
      } else {
        assert ForProduct(rs, productId) == ForProduct(rs[1..], productId);
        SubsequenceCons(ForProduct(rs[1..], productId), rs[1..], rs[0]);
        assert rs == [rs[0]] + rs[1..];
      }
    }
  }

  // ---------------------------------------------------------------------------
  // Seed data

  /** The three reviews `initializeSampleData` stores, dated 2024-01-22, -21 and -20. */
  function SampleReviews(): seq<Review> {
    [ Review(ReviewId("1"), "1", "user2", "user1", 5,
             "とても良い商品でした！梱包も丁寧で満足です。", "iPhone 14 Pro", "佐藤花子", Jan2024(22)),
      Review(ReviewId("2"), "2", "user3", "user2", 4,
             "思っていたより状態が良くて嬉しいです。", "ナイキ エアマックス", "田中次郎", Jan2024(21)),
      Review(ReviewId("3"), "3", "user1", "user3", 5,
             "新品同様でした！迅速な対応ありがとうございました。", "MacBook Air M2", "山田太郎", Jan2024(20)) ]
  }

  /** The seed has the distinct ids "1" to "3". */
  lemma SampleReviewIds()
    ensures Ids(SampleReviews()) == ["1", "2", "3"] && NoDuplicates(Ids(SampleReviews()))
  {
    assert Ids(SampleReviews()) == ["1", "2", "3"];
  }

  /** Every seeded rating is valid, and the seed is already newest first. */
  lemma SampleReviewsNewestFirst()
    ensures forall i | 0 <= i < |SampleReviews()| :: SampleReviews()[i].IsValidRating()
    ensures NewestFirst(SampleReviews())
  {
    var s := SampleReviews();
    NewestFirstOfThree(s[0], s[1], s[2]);
    assert s == [s[0], s[1], s[2]];
  }

  lemma NewestFirstOfThree(a: Review, b: Review, c: Review)
    requires a.createdAt >= b.createdAt >= c.createdAt
    ensures NewestFirst([a, b, c])
  {
  }

  /** The timeline of reviews stored newest first is a prefix of them. */
  lemma NewestFirstTimeline(rs: seq<Review>, limit: int)
    requires NewestFirst(rs)
    ensures Recent(rs, limit) == Slice(rs, limit)
  {
    SortNewestKeepsSorted(rs);
  }

  /** The ids of the reviews, in order. */
  function Ids(rs: seq<Review>): (r: seq<string>)
    ensures |r| == |rs|
    ensures forall i | 0 <= i < |rs| :: r[i] == rs[i].id.value
  {
    if rs == [] then [] else [rs[0].id.value] + Ids(rs[1..])
  }

  // ---------------------------------------------------------------------------
  // The repository

  /** `TrpcReviewRepository`. */
  class TrpcReviewRepository {
    var reviews: map<string, Review>
    /** The keys of `reviews` in insertion order (the `Map`'s iteration order). */
    var keys: seq<string>

    /** Every review is stored under its own id, and `keys` lists each key once. */
    ghost predicate Valid()
      reads this
    {
      && (forall k | k in reviews :: reviews[k].id.value == k)
      && (forall k :: k in reviews <==> k in keys)
      && NoDuplicates(keys)
    }

    /** `Array.from(this.reviews.values())`: the stored reviews in iteration order. */
    function Listing(): (r: seq<Review>)
      reads this
      requires forall k | k in keys :: k in reviews
      ensures |r| == |keys|
    {
      ValuesAt(reviews, keys)
    }

    /** The listing holds exactly the stored reviews. */
    lemma ListingHoldsStored()
      requires Valid()
      ensures forall x | x in Listing() :: x.id.value in reviews && reviews[x.id.value] == x
      ensures forall k | k in reviews :: reviews[k] in Listing()
    {
      var l := Listing();
      forall k | k in reviews ensures reviews[k] in l {
        var i :| 0 <= i < |keys| && keys[i] == k;
        assert l[i] == reviews[k];
      }
    }

    /** Every stored review is in the listing. */
    lemma StoredAreListed()
      requires Valid()
      ensures forall y | y in reviews.Values :: y in Listing()
    {
      ListingHoldsStored();
      forall y | y in reviews.Values ensures y in Listing() {
        var k :| k in reviews && reviews[k] == y;
      }
    }

    /** The listing holds each stored review once, so it is as long as the store. */
    lemma ListingIsDistinct()
      requires Valid()
      ensures NoDuplicates(Listing())
      ensures |Listing()| == |reviews|
    {
      var l := Listing();
      forall i, j | 0 <= i < j < |l| ensures l[i] != l[j] {
        assert l[i].id.value == keys[i] && l[j].id.value == keys[j];
      }
      assert reviews.Keys == set k | k in keys;
      DistinctKeysCount(keys);
    }

    /** Stores the three sample reviews. */
    constructor ()
      ensures Valid()
      ensures Listing() == SampleReviews()
    {
      reviews := map[];
      keys := [];
      new;
      InitializeSampleData();
    }

    /** `initializeSampleData()`: stores the three sample reviews in the empty map. */
    method InitializeSampleData()
      requires reviews == map[] && keys == []
      modifies this
      ensures Valid()
      ensures Listing() == SampleReviews()
    {
      SampleReviewIds();
      SetAll(SampleReviews());
    }

    /** The loop `for (const e of sampleReviews) this.reviews.set(e.id.value, ...)` run
        on an empty map with distinct ids: each review ends up under its id, in order. */
    method SetAll(rs: seq<Review>)
      requires reviews == map[] && keys == []
      requires NoDuplicates(Ids(rs))
      modifies this
      ensures Valid()
      ensures keys == Ids(rs)
      ensures Listing() == rs
    {
      for i := 0 to |rs|
        invariant Valid()
        invariant keys == Ids(rs)[..i]
        invariant Listing() == rs[..i]
      {
        SetNew(rs[i]);
        TakeOneMore(Ids(rs), i);
        TakeOneMore(rs, i);
      }
      assert Ids(rs)[..|rs|] == Ids(rs);
    }

    /** The step of that loop: a review under a new id comes last in the order. */
    method SetNew(r: Review)
      requires Valid() && r.id.value !in reviews
      modifies this
      ensures Valid()
      ensures keys == old(keys) + [r.id.value]
      ensures Listing() == old(Listing()) + [r]
    {
      ghost var before := reviews;
      ghost var keysBefore := keys;
      Save(r);
      ValuesAtExtend(before, keysBefore, r.id.value, r);
    }

    /** `findById(id)`: the stored review, or null. */
    method FindById(id: ReviewId) returns (r: Option<Review>)
      ensures id.value in reviews ==> r == Some(reviews[id.value])
      ensures id.value !in reviews ==> r == None
    {
      if id.value in reviews {
        r := Some(reviews[id.value]);
      } else {
        r := None;
      }
    }

    /** `findByProductId(productId)`: the stored reviews of that product, in iteration
        order, and nothing else. */
    method FindByProductId(productId: string) returns (r: seq<Review>)
      requires Valid()
      ensures r == ForProduct(Listing(), productId)
      ensures IsSubsequence(r, Listing())
      ensures forall x :: x in r <==> x in reviews.Values && x.productId == productId
    {
      r := ForProduct(Listing(), productId);
      ForProductIsSubsequence(Listing(), productId);
      ListingHoldsStored();
    }

    /** `findRecent(limit)`: the newest `limit` stored reviews, newest first, each a
        stored review and none twice; no stored review left out is newer than one
        returned. */
    method FindRecent(limit: int) returns (r: seq<Review>)
      requires Valid()
      ensures r == Recent(Listing(), limit)
      ensures NewestFirst(r)
      ensures |r| == SliceLength(|reviews|, limit)
      ensures forall x | x in r :: x.id.value in reviews && reviews[x.id.value] == x
      ensures forall i, j | 0 <= i < j < |r| :: r[i].id != r[j].id
      ensures forall x, y | x in r && y in reviews.Values && y !in r :: y.createdAt <= x.createdAt
    {
      r := Recent(Listing(), limit);
      ListingIsDistinct();
      RecentAreStored(limit);
      RecentHaveDistinctIds(limit);
      RecentAreNewest(limit);
    }

    /** Every review of the timeline is stored under its id. */
    lemma RecentAreStored(limit: int)
      requires Valid()
      ensures forall x | x in Recent(Listing(), limit) :: x.id.value in reviews && reviews[x.id.value] == x
    {
      ListingHoldsStored();
    }

    /** No two reviews of the timeline share an id. */
    lemma RecentHaveDistinctIds(limit: int)
      requires Valid()
      ensures forall i, j | 0 <= i < j < |Recent(Listing(), limit)| ::
        Recent(Listing(), limit)[i].id != Recent(Listing(), limit)[j].id
    {
      var r := Recent(Listing(), limit);
      ListingIsDistinct();
      NoDuplicatesSubMultiset(Listing(), r);
      RecentAreStored(limit);
    }

    /** No stored review the timeline leaves out is newer than one it keeps. */
    lemma RecentAreNewest(limit: int)
      requires Valid()
      ensures forall x, y | x in Recent(Listing(), limit) && y in reviews.Values && y !in Recent(Listing(), limit) ::
        y.createdAt <= x.createdAt
    {
      StoredAreListed();
      LeftOutIsOlder(Listing(), Recent(Listing(), limit));
    }

    /** `save(review)`: stores the review under its own id. A new id goes to the end of
        the iteration order; an existing one keeps its place. Other entries stay. */
    method Save(review: Review)
      requires Valid()
      modifies this
      ensures Valid()
      ensures reviews == old(reviews)[review.id.value := review]
      ensures keys == if review.id.value in old(reviews) then old(keys) else old(keys) + [review.id.value]
    {
      var id := review.id.value;
      if id !in reviews {
        keys := keys + [id];
      }
      reviews := reviews[id := review];
    }
  }

  /** A review of `rs` missing from `out` is older than every review of `out`, when
      that holds of what `out` leaves of `rs` as a multiset. */
  lemma LeftOutIsOlder(rs: seq<Review>, out: seq<Review>)
    requires forall x, y | x in out && y in multiset(rs) - multiset(out) :: y.createdAt <= x.createdAt
    ensures forall x, y | x in out && y in rs && y !in out :: y.createdAt <= x.createdAt
  {
    forall x, y | x in out && y in rs && y !in out ensures y.createdAt <= x.createdAt {
      assert y in multiset(rs) - multiset(out);
    }
  }

  /** Distinct keys are as many as the set of them. */
  lemma {:induction false} DistinctKeysCount(ks: seq<string>)
    requires NoDuplicates(ks)
    ensures |set k | k in ks| == |ks|
  {
    if ks != [] {
      assert NoDuplicates(ks[1..]) by {
        forall i, j | 0 <= i < j < |ks[1..]| ensures ks[1..][i] != ks[1..][j] {
          assert ks[1..][i] == ks[i + 1] && ks[1..][j] == ks[j + 1];
        }
      }
      DistinctKeysCount(ks[1..]);
      assert (set k | k in ks) == (set k | k in ks[1..]) + {ks[0]};
      assert ks[0] !in ks[1..] by {
        forall j | 0 <= j < |ks[1..]| ensures ks[1..][j] != ks[0] {
          assert ks[1..][j] == ks[j + 1];
        }
      }
    }
  }
}
