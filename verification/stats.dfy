/** The aggregate statistics over the stored rows: the total, the count per
    rating present (`GROUP BY rating ORDER BY rating`) and the average rating
    rounded to one decimal. */
module Stats {
  import opened Models
  import opened Schemas

  /** `COUNT(*) WHERE rating = r`. */
  function CountRating(store: seq<Review>, r: int): (n: nat)
    ensures n <= |store|
    ensures n > 0 <==> exists i :: 0 <= i < |store| && store[i].rating == r
  {
    if store == [] then 0
    else
      var rest := CountRating(store[1..], r);
      assert forall i :: 0 < i < |store| ==> store[i] == store[1..][i - 1];
      assert rest > 0 ==> exists i :: 0 < i < |store| && store[i].rating == r;
      (if store[0].rating == r then 1 else 0) + rest
  }

  /** Rows whose rating lies in `lo..hi`. */
  function CountBetween(store: seq<Review>, lo: int, hi: int): nat {
    if store == [] then 0
    else (if lo <= store[0].rating <= hi then 1 else 0) + CountBetween(store[1..], lo, hi)
  }

  /** `SUM(rating)`. */
  function SumRatings(store: seq<Review>): int {
    if store == [] then 0 else store[0].rating + SumRatings(store[1..])
  }

  predicate RatingsWithin(store: seq<Review>, lo: int, hi: int) {
    forall i :: 0 <= i < |store| ==> lo <= store[i].rating <= hi
  }

  /** `MIN(rating)` of a non-empty store. */
  function LowestRating(store: seq<Review>): (m: int)
    requires store != []
    ensures exists i :: 0 <= i < |store| && store[i].rating == m
    ensures forall i :: 0 <= i < |store| ==> m <= store[i].rating
  {
    if |store| == 1 then store[0].rating
    else
      var m := LowestRating(store[1..]);
      assert forall i :: 0 < i < |store| ==> store[i] == store[1..][i - 1];
      if store[0].rating <= m then store[0].rating else m
  }

  /** `MAX(rating)` of a non-empty store. */
  function HighestRating(store: seq<Review>): (m: int)
    requires store != []
    ensures exists i :: 0 <= i < |store| && store[i].rating == m
    ensures forall i :: 0 <= i < |store| ==> store[i].rating <= m
  {
    if |store| == 1 then store[0].rating
    else
      var m := HighestRating(store[1..]);
      assert forall i :: 0 < i < |store| ==> store[i] == store[1..][i - 1];
      if store[0].rating >= m then store[0].rating else m
  }

  function SumCounts(groups: seq<StatsByRating>): int {
    if groups == [] then 0 else groups[0].count + SumCounts(groups[1..])
  }

  function RatingsOf(groups: seq<StatsByRating>): (rs: seq<int>)
    ensures |rs| == |groups|
    ensures forall i :: 0 <= i < |groups| ==> rs[i] == groups[i].rating
  {
    seq(|groups|, i requires 0 <= i < |groups| => groups[i].rating)
  }

  /** The groups are ordered by rating, strictly. */
  predicate StrictlyAscending(groups: seq<StatsByRating>) {
    forall i, j :: 0 <= i < j < |groups| ==> groups[i].rating < groups[j].rating
  }

  lemma {:induction false} CountBetweenSplit(store: seq<Review>, lo: int, hi: int)
    requires lo <= hi
    ensures CountBetween(store, lo, hi) == CountRating(store, lo) + CountBetween(store, lo + 1, hi)
  {
    if store != [] {
      CountBetweenSplit(store[1..], lo, hi);
    }
  }

  lemma {:induction false} CountBetweenEmptyRange(store: seq<Review>, lo: int, hi: int)
    requires lo > hi
    ensures CountBetween(store, lo, hi) == 0
  {
    if store != [] {
      CountBetweenEmptyRange(store[1..], lo, hi);
    }
  }

  lemma {:induction false} CountBetweenAll(store: seq<Review>, lo: int, hi: int)
    requires RatingsWithin(store, lo, hi)
    ensures CountBetween(store, lo, hi) == |store|
  {
    if store != [] {
      assert RatingsWithin(store[1..], lo, hi) by {
        forall i | 0 <= i < |store[1..]| ensures lo <= store[1..][i].rating <= hi {
          assert store[1..][i] == store[i + 1];
        }
      }
      CountBetweenAll(store[1..], lo, hi);
    }
  }

  /** `g` lists, in ascending order, each rating in `lo..hi` that occurs in
      the store, once, with its number of rows. */
  ghost predicate GroupsOf(store: seq<Review>, lo: int, hi: int, g: seq<StatsByRating>) {
    && (forall i :: 0 <= i < |g| ==> lo <= g[i].rating <= hi)
    && (forall i :: 0 <= i < |g| ==> g[i].count == CountRating(store, g[i].rating) && g[i].count > 0)
    && StrictlyAscending(g)
    && (forall k :: lo <= k <= hi && CountRating(store, k) > 0 ==> k in RatingsOf(g))
  }

  lemma ConsGroup(store: seq<Review>, lo: int, hi: int, rest: seq<StatsByRating>)
    requires lo <= hi && CountRating(store, lo) > 0
    requires GroupsOf(store, lo + 1, hi, rest)
    ensures GroupsOf(store, lo, hi, [StatsByRating(lo, CountRating(store, lo))] + rest)
  {
    var x := StatsByRating(lo, CountRating(store, lo));
    ConsAscending(x, rest, hi);
    ConsCounts(store, x, rest);
    ConsCovers(store, lo, hi, x, rest);
  }

  lemma ConsAscending(x: StatsByRating, rest: seq<StatsByRating>, hi: int)
    requires x.rating <= hi
    requires forall i :: 0 <= i < |rest| ==> x.rating + 1 <= rest[i].rating <= hi
    requires StrictlyAscending(rest)
    ensures StrictlyAscending([x] + rest)
    ensures forall i :: 0 <= i < |[x] + rest| ==> x.rating <= ([x] + rest)[i].rating <= hi
  {
    var g := [x] + rest;
    forall i, j | 0 <= i < j < |g| ensures g[i].rating < g[j].rating {
      assert g[j] == rest[j - 1];
      if i > 0 {
        assert g[i] == rest[i - 1];
      }
    }
  }

  lemma ConsCounts(store: seq<Review>, x: StatsByRating, rest: seq<StatsByRating>)
    requires x.count == CountRating(store, x.rating) && x.count > 0
    requires forall i :: 0 <= i < |rest| ==> rest[i].count == CountRating(store, rest[i].rating) && rest[i].count > 0
    ensures forall i :: 0 <= i < |[x] + rest| ==>
      ([x] + rest)[i].count == CountRating(store, ([x] + rest)[i].rating) && ([x] + rest)[i].count > 0
  {
    var g := [x] + rest;
    forall i | 0 < i < |g| ensures g[i].count == CountRating(store, g[i].rating) && g[i].count > 0 {
      assert g[i] == rest[i - 1];
    }
  }

  lemma ConsCovers(store: seq<Review>, lo: int, hi: int, x: StatsByRating, rest: seq<StatsByRating>)
    requires x.rating == lo
    requires forall k :: lo + 1 <= k <= hi && CountRating(store, k) > 0 ==> k in RatingsOf(rest)
    ensures forall k :: lo <= k <= hi && CountRating(store, k) > 0 ==> k in RatingsOf([x] + rest)
  {
    var g := [x] + rest;
    forall k | lo <= k <= hi && CountRating(store, k) > 0 ensures k in RatingsOf(g) {
      if k == lo {
        assert RatingsOf(g)[0] == k;
      } else {
        var i :| 0 <= i < |rest| && RatingsOf(rest)[i] == k;
        assert RatingsOf(g)[i + 1] == k;
      }
    }
  }

  lemma SkipGroup(store: seq<Review>, lo: int, hi: int, rest: seq<StatsByRating>)
    requires lo <= hi && CountRating(store, lo) == 0
    requires GroupsOf(store, lo + 1, hi, rest)
    ensures GroupsOf(store, lo, hi, rest)
  {
  }

  /** One entry per rating in `lo..hi` that occurs, in ascending order, each
      with its number of rows; the counts add up to the rows in the range. */
  function Groups(store: seq<Review>, lo: int, hi: int): (g: seq<StatsByRating>)
    ensures GroupsOf(store, lo, hi, g)
    ensures SumCounts(g) == CountBetween(store, lo, hi)
    decreases hi - lo
  {
    if lo > hi then
      CountBetweenEmptyRange(store, lo, hi);
      []
    else
      var rest := Groups(store, lo + 1, hi);
      var n := CountRating(store, lo);
      CountBetweenSplit(store, lo, hi);
      if n > 0 then
        ConsGroup(store, lo, hi, rest);
        var g := [StatsByRating(lo, n)] + rest;
        assert g[1..] == rest;
        g
      else
        SkipGroup(store, lo, hi, rest);
        rest
  }

  /** `by_rating`: the groups between the lowest and highest rating present. */
  function ByRating(store: seq<Review>): (g: seq<StatsByRating>)
    ensures StrictlyAscending(g)
    ensures forall i :: 0 <= i < |g| ==> g[i].count == CountRating(store, g[i].rating) && g[i].count > 0
    ensures forall i :: 0 <= i < |store| ==> store[i].rating in RatingsOf(g)
    ensures SumCounts(g) == |store|
  {
    if store == [] then []
    else
      var lo, hi := LowestRating(store), HighestRating(store);
      CountBetweenAll(store, lo, hi);
      assert forall i :: 0 <= i < |store| ==> CountRating(store, store[i].rating) > 0;
      Groups(store, lo, hi)
  }

  /** The integer nearest to `num / den`, ties to the even one. */
  function RoundToNearest(num: int, den: nat): (q: int)
    requires den > 0
    ensures -(den as int) <= 2 * (q * den - num) <= den
  {
    var f, rem := num / den, num % den;
    assert num == f * den + rem;
    if 2 * rem > den then f + 1
    else if 2 * rem < den then f
    else if f % 2 == 0 then f
    else f + 1
  }

  /** `round(avg(rating), 1)` in tenths, `0.0` for an empty store. */
  function AverageTenths(store: seq<Review>): (a: int)
    ensures store == [] ==> a == 0
    ensures store != [] ==> -|store| <= 2 * (a * |store| - 10 * SumRatings(store)) <= |store|
  {
    if store == [] then 0 else RoundToNearest(10 * SumRatings(store), |store|)
  }

  /** The statistics snapshot. */
  function ComputeStats(store: seq<Review>): (d: StatsData)
    ensures d.total == |store|
    ensures SumCounts(d.byRating) == d.total
    ensures StrictlyAscending(d.byRating)
    ensures forall i :: 0 <= i < |d.byRating| ==> d.byRating[i].count == CountRating(store, d.byRating[i].rating) > 0
    ensures forall i :: 0 <= i < |store| ==> store[i].rating in RatingsOf(d.byRating)
    ensures store == [] <==> d.byRating == []
    ensures store == [] ==> d.averageTenths == 0
    ensures store != [] ==> -|store| <= 2 * (d.averageTenths * |store| - 10 * SumRatings(store)) <= |store|
  {
    var g := ByRating(store);
    assert store != [] ==> store[0].rating in RatingsOf(g);
    StatsData(|store|, g, AverageTenths(store))
  }

  // ---- Properties ----

  lemma {:induction false} SumRatingsBounds(store: seq<Review>, lo: int, hi: int)
    requires RatingsWithin(store, lo, hi)
    ensures lo * |store| <= SumRatings(store) <= hi * |store|
  {
    if store != [] {
      assert RatingsWithin(store[1..], lo, hi) by {
        forall i | 0 <= i < |store[1..]| ensures lo <= store[1..][i].rating <= hi {
          assert store[1..][i] == store[i + 1];
        }
      }
      SumRatingsBounds(store[1..], lo, hi);
    }
  }

  lemma RoundStaysWithin(q: int, n: int, num: int, lo: int, hi: int)
    requires n > 0
    requires -n <= 2 * (q * n - num) <= n
    requires lo * n <= num <= hi * n
    ensures lo <= q <= hi
  {
    assert n * (2 * q - 2 * lo + 1) == 2 * (q * n) - 2 * (lo * n) + n;
    assert n * (2 * hi - 2 * q + 1) == 2 * (hi * n) - 2 * (q * n) + n;
    ProductSign(n, 2 * q - 2 * lo + 1);
    ProductSign(n, 2 * hi - 2 * q + 1);
  }

  lemma ProductSign(n: int, x: int)
    requires n > 0 && n * x >= 0
    ensures x >= 0
  {
  }

  /** The rounded average lies between the lowest and highest ratings: with
      ratings in 1..5 it is between 1.0 and 5.0. */
  lemma AverageWithinRatingRange(store: seq<Review>, lo: int, hi: int)
    requires store != [] && RatingsWithin(store, lo, hi)
    ensures 10 * lo <= AverageTenths(store) <= 10 * hi
  {
    SumRatingsBounds(store, lo, hi);
    var n := |store|;
    assert (10 * lo) * n <= 10 * SumRatings(store) <= (10 * hi) * n;
    RoundStaysWithin(AverageTenths(store), n, 10 * SumRatings(store), 10 * lo, 10 * hi);
  }

  /** Every rating present has exactly one entry, and only ratings present
      have one. */
  lemma ByRatingExactlyOnce(store: seq<Review>, r: int)
    ensures r in RatingsOf(ByRating(store)) <==> CountRating(store, r) > 0
    ensures forall i, j :: 0 <= i < j < |ByRating(store)| ==> ByRating(store)[i].rating != ByRating(store)[j].rating
  {
    var g := ByRating(store);
    if CountRating(store, r) > 0 {
      var i :| 0 <= i < |store| && store[i].rating == r;
      assert store[i].rating in RatingsOf(g);
    }
    if r in RatingsOf(g) {
      var i :| 0 <= i < |g| && RatingsOf(g)[i] == r;
      assert g[i].count > 0;
    }
  }

  /** Four rows rated 5, 5, 3 and 1. */
  function ExampleStore(): seq<Review> {
    [Row(1, 5), Row(2, 5), Row(3, 3), Row(4, 1)]
  }

  /** Counting over a row in front of a sequence. */
  lemma CountRatingCons(x: Review, s: seq<Review>, r: int)
    ensures CountRating([x] + s, r) == (if x.rating == r then 1 else 0) + CountRating(s, r)
  {
    assert ([x] + s)[1..] == s;
  }

  lemma ExampleCount(r: int)
    ensures CountRating(ExampleStore(), r)
         == (if r == 5 then 2 else if r == 3 || r == 1 then 1 else 0)
  {
    var s := ExampleStore();
    CountRatingCons(s[0], s[1..], r);
    CountRatingCons(s[1], s[2..], r);
    CountRatingCons(s[2], s[3..], r);
    CountRatingCons(s[3], [], r);
    assert s == [s[0]] + s[1..];
    assert s[1..] == [s[1]] + s[2..];
    assert s[2..] == [s[2]] + s[3..];
    assert s[3..] == [s[3]] + [];
  }

  lemma ExampleCounts()
    ensures LowestRating(ExampleStore()) == 1 && HighestRating(ExampleStore()) == 5
    ensures SumRatings(ExampleStore()) == 14
  {
    ExampleLowest();
    ExampleHighest();
    ExampleSum();
  }

  /** A rating bound that some row attains is the lowest rating. */
  lemma LowestIsAttainedBound(store: seq<Review>, lo: int, hi: int, k: nat)
    requires RatingsWithin(store, lo, hi) && k < |store| && store[k].rating == lo
    ensures LowestRating(store) == lo
  {
    var m := LowestRating(store);
    assert m <= store[k].rating;
  }

  /** A rating bound that some row attains is the highest rating. */
  lemma HighestIsAttainedBound(store: seq<Review>, lo: int, hi: int, k: nat)
    requires RatingsWithin(store, lo, hi) && k < |store| && store[k].rating == hi
    ensures HighestRating(store) == hi
  {
    var m := HighestRating(store);
    assert store[k].rating <= m;
  }

  lemma ExampleLowest()
    ensures LowestRating(ExampleStore()) == 1
  {
    LowestIsAttainedBound(ExampleStore(), 1, 5, 3);
  }

  lemma ExampleHighest()
    ensures HighestRating(ExampleStore()) == 5
  {
    HighestIsAttainedBound(ExampleStore(), 1, 5, 0);
  }

  lemma SumRatingsCons(x: Review, s: seq<Review>)
    ensures SumRatings([x] + s) == x.rating + SumRatings(s)
  {
    assert ([x] + s)[1..] == s;
  }

  lemma ExampleSum()
    ensures SumRatings(ExampleStore()) == 14
  {
    var s := ExampleStore();
    assert s == [s[0]] + s[1..];
    assert s[1..] == [s[1]] + s[2..];
    assert s[2..] == [s[2]] + s[3..];
    assert s[3..] == [s[3]] + [];
    SumRatingsCons(s[0], s[1..]);
    SumRatingsCons(s[1], s[2..]);
    SumRatingsCons(s[2], s[3..]);
    SumRatingsCons(s[3], []);
  }

  lemma GroupsStep(store: seq<Review>, lo: int, hi: int)
    requires lo <= hi
    ensures CountRating(store, lo) > 0 ==>
      Groups(store, lo, hi) == [StatsByRating(lo, CountRating(store, lo))] + Groups(store, lo + 1, hi)
    ensures CountRating(store, lo) == 0 ==> Groups(store, lo, hi) == Groups(store, lo + 1, hi)
  {
  }

  lemma ExampleGroupsFrom5(store: seq<Review>)
    requires store == ExampleStore()
    ensures Groups(store, 5, 5) == [StatsByRating(5, 2)]
  {
    ExampleCount(5);
    GroupsStep(store, 5, 5);
  }

  lemma ExampleGroupsFrom4(store: seq<Review>)
    requires store == ExampleStore()
    ensures Groups(store, 4, 5) == [StatsByRating(5, 2)]
  {
    ExampleCount(4);
    GroupsStep(store, 4, 5);
    ExampleGroupsFrom5(store);
  }

  lemma ExampleGroupsFrom3(store: seq<Review>)
    requires store == ExampleStore()
    ensures Groups(store, 3, 5) == [StatsByRating(3, 1), StatsByRating(5, 2)]
  {
    ExampleCount(3);
    GroupsStep(store, 3, 5);
    ExampleGroupsFrom4(store);
  }

  lemma ExampleGroupsFrom2(store: seq<Review>)
    requires store == ExampleStore()
    ensures Groups(store, 2, 5) == [StatsByRating(3, 1), StatsByRating(5, 2)]
  {
    ExampleCount(2);
    GroupsStep(store, 2, 5);
    ExampleGroupsFrom3(store);
  }

  lemma ExampleGroups(store: seq<Review>)
    requires store == ExampleStore()
    ensures Groups(store, 1, 5) == [StatsByRating(1, 1), StatsByRating(3, 1), StatsByRating(5, 2)]
  {
    ExampleCount(1);
    GroupsStep(store, 1, 5);
    ExampleGroupsFrom2(store);
  }

  /** The ratings 5, 5, 3 and 1 give a total of 4, groups (1, 1), (3, 1),
      (5, 2) and an average of 3.5. */
  lemma FourReviewsExample()
    ensures ComputeStats(ExampleStore())
         == StatsData(4, [StatsByRating(1, 1), StatsByRating(3, 1), StatsByRating(5, 2)], 35)
  {
    var store := ExampleStore();
    ExampleCounts();
    ExampleCount(1);
    ExampleGroups(store);
    assert AverageTenths(store) == RoundToNearest(140, 4) == 35;
    assert ByRating(store) == Groups(store, 1, 5);
  }

  /** A stored row with the given id and rating (other columns arbitrary). */
  function Row(id: int, rating: int): Review {
    Review(id, rating, "", "reply", "summary", "actions", id)
  }
}
