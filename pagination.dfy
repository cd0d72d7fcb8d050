/**
 * Pagination of the notification list: clamping of the `page` and `limit` query
 * parameters, the offset of a page, newest-first ordering by creation time, and the
 * slice of the ordered list that one page holds.
 */
module Pagination {
  import opened Wrappers
  import opened Notifications

  /** Page size used when the `limit` parameter is absent. */
  const DefaultLimit := 10

  /** A query parameter read with a default, then floored at 1. */
  function AtLeastOne(raw: Option<int>, default: int): int {
    var v := raw.GetOr(default);
    if v < 1 then 1 else v
  }

  /** The `page` parameter: 1 when absent, and never below 1. */
  function ClampPage(raw: Option<int>): (page: int)
    ensures page >= 1
    ensures raw.None? ==> page == 1
    ensures raw.Some? && raw.value >= 1 ==> page == raw.value
    ensures raw.Some? && raw.value < 1 ==> page == 1
  {
    AtLeastOne(raw, 1)
  }

  /** The `limit` parameter: 10 when absent, and never below 1. */
  function ClampLimit(raw: Option<int>): (limit: int)
    ensures limit >= 1
    ensures raw.None? ==> limit == DefaultLimit
    ensures raw.Some? && raw.value >= 1 ==> limit == raw.value
    ensures raw.Some? && raw.value < 1 ==> limit == 1
  {
    AtLeastOne(raw, DefaultLimit)
  }

  /**
   * The number of records on the pages before `page`: the first page starts at 0 and
   * each page ends where the next one begins.
   */
  function Offset(page: int, limit: int): (offset: nat)
    requires page >= 1 && limit >= 1
    ensures offset + limit == page * limit
  {
    (page - 1) * limit
  }

  /** Newest first: creation times never increase along the sequence. */
  predicate NewestFirst(s: seq<Notification>) {
    forall i, j :: 0 <= i < j < |s| ==> s[i].createdAt >= s[j].createdAt
  }

  /** Putting a record no older than the head in front of a newest-first sequence keeps it newest first. */
  lemma ConsNewestFirst(n: Notification, s: seq<Notification>)
    requires NewestFirst(s)
    requires s == [] || n.createdAt >= s[0].createdAt
    ensures NewestFirst([n] + s)
  {
  }

  /** Insert `n` into a newest-first sequence, before the first record not newer than it. */
  function Insert(n: Notification, s: seq<Notification>): (r: seq<Notification>)
    requires NewestFirst(s)
    ensures NewestFirst(r)
    ensures multiset(r) == multiset(s) + multiset{n}
    ensures |r| > 0 && (r[0] == n || (|s| > 0 && r[0] == s[0]))
  {
    if s == [] || n.createdAt >= s[0].createdAt then
      ConsNewestFirst(n, s);
      [n] + s
    else
      assert s == [s[0]] + s[1..];
      var tail := Insert(n, s[1..]);
      ConsNewestFirst(s[0], tail);
      [s[0]] + tail
  }

  /**
   * The stored records ordered by creation time, newest first. Records created at the
   * same time keep their stored order.
   */
  function SortNewestFirst(s: seq<Notification>): (r: seq<Notification>)
    ensures NewestFirst(r)
    ensures multiset(r) == multiset(s)
  {
    if s == [] then []
    else
      assert s == [s[0]] + s[1..];
      Insert(s[0], SortNewestFirst(s[1..]))
  }

  /**
   * At most `limit` records of `s`, starting at position `offset`: empty when the
   * offset is past the end, otherwise as many as remain, up to `limit`.
   */
  function PageSlice(s: seq<Notification>, offset: nat, limit: nat): (page: seq<Notification>)
    ensures |page| <= limit
    ensures offset >= |s| ==> page == []
    ensures offset < |s| ==> |page| == if offset + limit <= |s| then limit else |s| - offset
    ensures forall k :: 0 <= k < |page| ==> offset + k < |s| && page[k] == s[offset + k]
  {
    if offset >= |s| then []
    else if offset + limit <= |s| then s[offset..offset + limit]
    else s[offset..]
  }

  /** A slice of a newest-first sequence is newest first. */
  lemma PageSliceNewestFirst(s: seq<Notification>, offset: nat, limit: nat)
    requires NewestFirst(s)
    ensures NewestFirst(PageSlice(s, offset, limit))
  {
  }

  /**
   * The page of a list: the records at ranks `offset` to `offset + limit - 1` of a
   * newest-first ordering of the stored records, so exactly `limit` of them when
   * enough remain, the rest when fewer do, and none past the end.
   */
  function NewestFirstPage(items: seq<Notification>, offset: nat, limit: nat): (page: seq<Notification>)
    ensures |page| <= limit
    ensures offset >= |items| ==> page == []
    ensures offset < |items| ==> |page| == if offset + limit <= |items| then limit else |items| - offset
    ensures NewestFirst(page)
    ensures multiset(page) <= multiset(items)
    ensures exists sorted :: NewestFirst(sorted) && multiset(sorted) == multiset(items) && page == PageSlice(sorted, offset, limit)
  {
    var sorted := SortNewestFirst(items);
    assert |sorted| == |multiset(sorted)| == |multiset(items)| == |items|;
    PageSliceNewestFirst(sorted, offset, limit);
    SliceSubMultiset(sorted, offset, limit);
    PageSlice(sorted, offset, limit)
  }

  /** A page holds no record more often than the whole list does. */
  lemma SliceSubMultiset(s: seq<Notification>, offset: nat, limit: nat)
    ensures multiset(PageSlice(s, offset, limit)) <= multiset(s)
  {
    if offset < |s| {
      var hi := if offset + limit <= |s| then offset + limit else |s|;
      assert s == s[..offset] + s[offset..hi] + s[hi..];
      assert PageSlice(s, offset, limit) == s[offset..hi];
    }
  }

  /**
   * Pages partition the ordered list: the record of rank `i` (counting from 0) is on
   * page `i / limit + 1`, at position `i % limit`.
   */
  lemma RankOnPage(s: seq<Notification>, limit: int, i: nat)
    requires limit >= 1 && i < |s|
    ensures var page := PageSlice(s, Offset(i / limit + 1, limit), limit);
      i % limit < |page| && page[i % limit] == s[i]
  {
  }

  /** A record on page `p` has a rank that belongs to page `p` and no other. */
  lemma PageRanks(s: seq<Notification>, page: int, limit: int, k: nat)
    requires page >= 1 && limit >= 1
    requires k < |PageSlice(s, Offset(page, limit), limit)|
    ensures var i := Offset(page, limit) + k;
      i < |s| && i / limit + 1 == page
  {
    var i := Offset(page, limit) + k;
    assert (page - 1) * limit <= i < page * limit;
    DivBetween(i, page - 1, limit);
  }

  lemma DivBetween(i: nat, q: nat, limit: int)
    requires limit >= 1 && q * limit <= i < (q + 1) * limit
    ensures i / limit == q
  {
    var d := i / limit;
    var m := i % limit;
    assert i == d * limit + m && 0 <= m < limit;
    if d < q {
      MulMonotone(d + 1, q, limit);
    } else if d > q {
      MulMonotone(q + 1, d, limit);
    }
  }

  lemma MulMonotone(a: int, b: int, c: nat)
    requires a <= b
    ensures a * c <= b * c
  {
  }

  /**
   * When no two records share a creation time, there is only one newest-first
   * ordering of them, so which records a page holds does not depend on how ties
   * would be broken.
   */
  lemma {:induction false} NewestFirstUnique(a: seq<Notification>, b: seq<Notification>)
    requires NewestFirst(a) && NewestFirst(b) && multiset(a) == multiset(b)
    requires forall i, j :: 0 <= i < j < |a| ==> a[i].createdAt != a[j].createdAt
    ensures a == b
  {
    assert |a| == |multiset(a)| == |multiset(b)| == |b|;
    if a != [] {
      SameNewest(a, b);
      SameRest(a, b);
      assert NewestFirst(a[1..]) && NewestFirst(b[1..]);
      NewestFirstUnique(a[1..], b[1..]);
      assert a == [a[0]] + a[1..] && b == [b[0]] + b[1..];
    }
  }

  /** Two newest-first orderings of the same records without shared creation times start with the same record. */
  lemma SameNewest(a: seq<Notification>, b: seq<Notification>)
    requires a != [] && b != []
    requires NewestFirst(a) && NewestFirst(b) && multiset(a) == multiset(b)
    requires forall i, j :: 0 <= i < j < |a| ==> a[i].createdAt != a[j].createdAt
    ensures a[0] == b[0]
  {
    assert a[0] in multiset(b) && b[0] in multiset(a);
    var i :| 0 <= i < |b| && b[i] == a[0];
    var j :| 0 <= j < |a| && a[j] == b[0];
    assert b[0].createdAt >= b[i].createdAt;
    assert a[0].createdAt >= a[j].createdAt;
    assert j == 0;
  }

  /** Removing the same first record from two sequences of equal contents leaves equal contents. */
  lemma SameRest(a: seq<Notification>, b: seq<Notification>)
    requires a != [] && b != [] && a[0] == b[0] && multiset(a) == multiset(b)
    ensures multiset(a[1..]) == multiset(b[1..])
  {
    assert a == [a[0]] + a[1..];
    assert b == [b[0]] + b[1..];
    assert multiset(a[1..]) == multiset(a) - multiset{a[0]};
    assert multiset(b[1..]) == multiset(b) - multiset{b[0]};
  }
}
