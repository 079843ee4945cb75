/** The listing order `ORDER BY created_at DESC, id DESC`, as a functional
    sort over the stored rows, and the listing items built from them. */
module Listing {
  import opened Models
  import opened Schemas

  /** The row with key `(t1, id1)` may be listed ahead of the row with key
      `(t2, id2)`: it is newer, or equally new with an id no smaller. */
  predicate KeyBefore(t1: Timestamp, id1: int, t2: Timestamp, id2: int) {
    t1 > t2 || (t1 == t2 && id1 >= id2)
  }

  predicate ListedBefore(a: Review, b: Review) {
    KeyBefore(a.createdAt, a.id, b.createdAt, b.id)
  }

  /** Rows in listing order. */
  predicate NewestFirst(s: seq<Review>) {
    forall i, j :: 0 <= i < j < |s| ==> ListedBefore(s[i], s[j])
  }

  /** Listing items in listing order. */
  predicate ItemsNewestFirst(s: seq<ReviewOut>) {
    forall i, j :: 0 <= i < j < |s| ==> KeyBefore(s[i].createdAt, s[i].id, s[j].createdAt, s[j].id)
  }

  /** Places `r` into an ordered sequence. */
  function Insert(r: Review, s: seq<Review>): (t: seq<Review>)
    requires NewestFirst(s)
    ensures NewestFirst(t)
    ensures multiset(t) == multiset(s) + multiset{r}
  {
    if s == [] || ListedBefore(r, s[0]) then
      [r] + s
    else
      var rest := Insert(r, s[1..]);
      assert s == [s[0]] + s[1..];
      HeadBeforeInsert(r, s, rest);
      [s[0]] + rest
  }

  lemma HeadBeforeInsert(r: Review, s: seq<Review>, rest: seq<Review>)
    requires s != [] && NewestFirst(s) && !ListedBefore(r, s[0])
    requires multiset(rest) == multiset(s[1..]) + multiset{r}
    ensures forall k :: 0 <= k < |rest| ==> ListedBefore(s[0], rest[k])
  {
    forall k | 0 <= k < |rest| ensures ListedBefore(s[0], rest[k]) {
      assert rest[k] in multiset(rest);
      if rest[k] != r {
        assert rest[k] in multiset(s[1..]);
        var m :| 0 <= m < |s[1..]| && s[1..][m] == rest[k];
        assert s[m + 1] == rest[k];
      }
    }
  }

  /** The rows of the store in listing order: a permutation of the store
      that is ordered newest first. */
  function SortNewestFirst(s: seq<Review>): (t: seq<Review>)
    ensures NewestFirst(t)
    ensures multiset(t) == multiset(s)
    ensures |t| == |s|
  {
    if s == [] then []
    else
      assert s == [s[0]] + s[1..];
      Insert(s[0], SortNewestFirst(s[1..]))
  }

  /** The first row of an ordered sequence may be listed ahead of every row
      in it. */
  lemma HeadListedFirst(s: seq<Review>, x: Review)
    requires NewestFirst(s) && x in s
    ensures ListedBefore(s[0], x)
  {
    var m :| 0 <= m < |s| && s[m] == x;
    if m > 0 {
      assert ListedBefore(s[0], s[m]);
    }
  }

  lemma MultisetWithout<T>(s: seq<T>, m: nat)
    requires m < |s|
    ensures multiset(s[..m] + s[m + 1..]) == multiset(s) - multiset{s[m]}
  {
    assert s == s[..m] + [s[m]] + s[m + 1..];
  }

  lemma TailsSameRows(a: seq<Review>, b: seq<Review>)
    requires a != [] && b != [] && a[0] == b[0]
    requires multiset(a) == multiset(b)
    ensures multiset(a[1..]) == multiset(b[1..])
  {
    assert a == [a[0]] + a[1..];
    assert b == [b[0]] + b[1..];
    assert multiset(a) == multiset{a[0]} + multiset(a[1..]);
    assert multiset(b) == multiset{b[0]} + multiset(b[1..]);
    assert multiset(a[1..]) == multiset(a) - multiset{a[0]};
    assert multiset(b[1..]) == multiset(b) - multiset{b[0]};
  }

  /** Two orderings of the same rows with unique ids start with the same row. */
  lemma HeadsAgree(a: seq<Review>, b: seq<Review>)
    requires NewestFirst(a) && NewestFirst(b)
    requires multiset(a) == multiset(b)
    requires UniqueIds(a) && a != []
    ensures b != [] && a[0] == b[0]
  {
    assert a[0] in multiset(b);
    HeadListedFirst(b, a[0]);
    assert b[0] in multiset(a);
    HeadListedFirst(a, b[0]);
    var n :| 0 <= n < |a| && a[n] == b[0];
    assert n == 0;
  }

  lemma TailKeepsOrder(a: seq<Review>)
    requires a != [] && NewestFirst(a)
    ensures NewestFirst(a[1..])
  {
    forall i, j | 0 <= i < j < |a[1..]| ensures ListedBefore(a[1..][i], a[1..][j]) {
      assert a[1..][i] == a[i + 1] && a[1..][j] == a[j + 1];
    }
  }

  lemma TailKeepsUniqueIds(a: seq<Review>)
    requires a != [] && UniqueIds(a)
    ensures UniqueIds(a[1..])
  {
    forall i, j | 0 <= i < j < |a[1..]| ensures a[1..][i].id != a[1..][j].id {
      assert a[1..][i] == a[i + 1] && a[1..][j] == a[j + 1];
    }
  }

  /** With unique ids the listing order is total, so any two orderings of
      the same rows agree: the listing is determined by the store alone,
      whatever algorithm orders it. */
  lemma {:induction false} OrderIsDetermined(a: seq<Review>, b: seq<Review>)
    requires NewestFirst(a) && NewestFirst(b)
    requires multiset(a) == multiset(b)
    requires UniqueIds(a)
    ensures a == b
    decreases |a|
  {
    if a == [] {
      assert |b| == |multiset(b)| == 0;
    } else {
      PeelHead(a, b);
      OrderIsDetermined(a[1..], b[1..]);
      assert a == [a[0]] + a[1..];
      assert b == [b[0]] + b[1..];
    }
  }

  /** One step of `OrderIsDetermined`: equal heads, and tails that again
      satisfy its requirements. */
  lemma PeelHead(a: seq<Review>, b: seq<Review>)
    requires NewestFirst(a) && NewestFirst(b)
    requires multiset(a) == multiset(b)
    requires UniqueIds(a) && a != []
    ensures b != [] && a[0] == b[0]
    ensures multiset(a[1..]) == multiset(b[1..])
    ensures NewestFirst(a[1..]) && NewestFirst(b[1..]) && UniqueIds(a[1..])
  {
    HeadsAgree(a, b);
    TailsSameRows(a, b);
    TailKeepsOrder(a);
    TailKeepsOrder(b);
    TailKeepsUniqueIds(a);
  }

  /** Every stored row as a listing item, in the same order. */
  function ToReviewOuts(s: seq<Review>): (o: seq<ReviewOut>)
    ensures |o| == |s|
    ensures forall i :: 0 <= i < |s| ==> o[i] == ToReviewOut(s[i])
  {
    seq(|s|, i requires 0 <= i < |s| => ToReviewOut(s[i]))
  }

  lemma ToReviewOutsAppend(a: seq<Review>, b: seq<Review>)
    ensures ToReviewOuts(a + b) == ToReviewOuts(a) + ToReviewOuts(b)
  {
  }

  /** Converting rows to items commutes with reordering them. */
  lemma {:induction false} ToReviewOutsPermutes(a: seq<Review>, b: seq<Review>)
    requires multiset(a) == multiset(b)
    ensures multiset(ToReviewOuts(a)) == multiset(ToReviewOuts(b))
    decreases |a|
  {
    assert |a| == |multiset(a)| == |multiset(b)| == |b|;
    if a != [] {
      assert a[0] in multiset(b);
      var m :| 0 <= m < |b| && b[m] == a[0];
      var b' := b[..m] + b[m + 1..];
      assert b == b[..m] + [b[m]] + b[m + 1..];
      assert a == [a[0]] + a[1..];
      MultisetWithout(a, 0);
      MultisetWithout(b, m);
      assert a[..0] + a[1..] == a[1..];
      ToReviewOutsPermutes(a[1..], b');
      ToReviewOutsAppend([a[0]], a[1..]);
      ToReviewOutsAppend(b[..m] + [b[m]], b[m + 1..]);
      ToReviewOutsAppend(b[..m], [b[m]]);
      ToReviewOutsAppend(b[..m], b[m + 1..]);
    }
  }

  /** Items keep the order of the rows they come from. */
  lemma ToReviewOutsKeepsOrder(s: seq<Review>)
    requires NewestFirst(s)
    ensures ItemsNewestFirst(ToReviewOuts(s))
  {
  }
}
