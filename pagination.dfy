/**
 * The pagination helpers shared by every listing endpoint: page metadata, option
 * normalisation, the skip offset, and a paginated query over a document collection
 * (filter, sort by a key newest-first, skip, limit, and a count of the matches).
 */
module Pagination {

  import opened Wrappers
  import opened Arithmetic

  const DEFAULT_PAGE: int := 1
  const DEFAULT_LIMIT: int := 10
  const MAX_LIMIT: int := 100

  datatype PaginationMeta = PaginationMeta(
    page: int,
    limit: int,
    totalItems: nat,
    totalPages: int,
    hasPreviousPage: bool,
    hasNextPage: bool)

  datatype PaginatedData<T> = PaginatedData(items: seq<T>, meta: PaginationMeta)

  /** Options as a caller hands them in: each field absent or a (possibly fractional) number. */
  datatype PaginationOptions = PaginationOptions(page: Option<real>, limit: Option<real>)

  /** The options after normalisation: both fields present and whole. */
  datatype NormalizedOptions = NormalizedOptions(page: int, limit: int)

  function Max(a: int, b: int): int { if a >= b then a else b }
  function Min(a: int, b: int): int { if a <= b then a else b }

  /** Math.ceil(a / b) for a non-zero divisor of either sign. */
  function CeilQuotient(a: int, b: int): int
    requires b != 0
  {
    if b > 0 then -((-a) / b) else -(a / (-b))
  }

  /** For a positive divisor the ceiling is the least `c` with `a <= b * c`. */
  lemma CeilQuotientBounds(a: int, b: int)
    requires b > 0
    ensures var c := CeilQuotient(a, b); b * (c - 1) < a <= b * c
  {
    var q := (-a) / b;
    assert -a == b * q + (-a) % b;
  }

  /** `Math.ceil(totalItems / limit) || 1`; a zero quotient (or 0 / 0, which is NaN) gives 1. */
  function TotalPages(limit: int, totalItems: nat): int
    requires limit != 0 || totalItems == 0
  {
    if limit == 0 then 1
    else
      var c := CeilQuotient(totalItems, limit);
      if c == 0 then 1 else c
  }

  function BuildPaginationMeta(page: int, limit: int, totalItems: nat): (m: PaginationMeta)
    requires limit != 0 || totalItems == 0
    ensures m.page == page && m.limit == limit && m.totalItems == totalItems
    ensures totalItems == 0 ==> m.totalPages == 1
    ensures m.hasPreviousPage <==> page > 1
    ensures m.hasNextPage <==> page < m.totalPages
  {
    var totalPages := TotalPages(limit, totalItems);
    PaginationMeta(page, limit, totalItems, totalPages, page > 1, page < totalPages)
  }

  /** With a positive limit the page count is at least 1 and is the least count of pages covering the items. */
  lemma TotalPagesCover(page: int, limit: int, totalItems: nat)
    requires limit > 0
    ensures var t := BuildPaginationMeta(page, limit, totalItems).totalPages;
      && t >= 1
      && (totalItems > 0 ==> limit * (t - 1) < totalItems <= limit * t)
  {
    CeilQuotientBounds(totalItems, limit);
    var c := CeilQuotient(totalItems, limit);
    if totalItems > 0 {
      MultipleOutsideRange(limit, c);
    }
  }

  /** With a positive limit there is a next page exactly when items remain beyond this page. */
  lemma HasNextPageIffItemsRemain(page: int, limit: int, totalItems: nat)
    requires page >= 1 && limit > 0
    ensures BuildPaginationMeta(page, limit, totalItems).hasNextPage <==> page * limit < totalItems
  {
    TotalPagesCover(page, limit, totalItems);
    var t := BuildPaginationMeta(page, limit, totalItems).totalPages;
    if totalItems == 0 {
      MulMonotone(limit, 1, page);
    } else if page < t {
      MulMonotone(limit, page, t - 1);
    } else {
      MulMonotone(limit, t, page);
    }
  }

  /** `Number(x) || fallback`: an absent value and zero both fall back. */
  function OrDefault(x: Option<real>, fallback: int): real {
    if x.None? || x.value == 0.0 then fallback as real else x.value
  }

  function NormalizePaginationOptions(options: PaginationOptions): (n: NormalizedOptions)
    ensures n.page >= 1
    ensures 1 <= n.limit <= MAX_LIMIT
  {
    var page := Max(1, OrDefault(options.page, DEFAULT_PAGE).Floor);
    var limit := Max(1, Min(MAX_LIMIT, OrDefault(options.limit, DEFAULT_LIMIT).Floor));
    NormalizedOptions(page, limit)
  }

  /**
   * How each field is normalised: a missing or zero page is the first page, fractions are
   * floored, anything below 1 is raised to 1; a missing or zero limit is the default, and
   * any other limit is floored and clamped into [1, MAX_LIMIT].
   */
  lemma NormalizeCases(options: PaginationOptions)
    ensures var n := NormalizePaginationOptions(options);
      && (options.page.None? || options.page == Some(0.0) ==> n.page == DEFAULT_PAGE)
      && (options.page.Some? && options.page.value >= 1.0 ==> n.page == options.page.value.Floor)
      && (options.page.Some? && options.page.value < 1.0 ==> n.page == 1)
      && (options.limit.None? || options.limit == Some(0.0) ==> n.limit == DEFAULT_LIMIT)
      && (options.limit.Some? && options.limit.value != 0.0 ==>
            n.limit == Max(1, Min(MAX_LIMIT, options.limit.value.Floor)))
      && (options.limit.Some? && options.limit.value >= (MAX_LIMIT + 1) as real ==> n.limit == MAX_LIMIT)
      && (options.limit.Some? && options.limit.value < 0.0 ==> n.limit == 1)
  {
  }

  function AsOptions(n: NormalizedOptions): PaginationOptions {
    PaginationOptions(Some(n.page as real), Some(n.limit as real))
  }

  /** Normalising an already normalised request changes nothing. */
  lemma NormalizeIdempotent(options: PaginationOptions)
    ensures NormalizePaginationOptions(AsOptions(NormalizePaginationOptions(options)))
         == NormalizePaginationOptions(options)
  {
    var n := NormalizePaginationOptions(options);
    assert (n.page as real).Floor == n.page;
    assert (n.limit as real).Floor == n.limit;
  }

  /**
   * The offset of a page: `limit` items for each page before it. It is written as repeated
   * addition, one page at a time, and SkipIsProduct states it as `(page - 1) * limit`.
   */
  function CalculateSkip(page: int, limit: int): (skip: int)
    ensures page >= 1 && limit >= 0 ==> skip >= 0
    decreases if page >= 1 then page - 1 else 1 - page
  {
    if page == 1 then 0
    else if page > 1 then CalculateSkip(page - 1, limit) + limit
    else CalculateSkip(page + 1, limit) - limit
  }

  lemma {:induction false} SkipIsProduct(page: int, limit: int)
    ensures CalculateSkip(page, limit) == (page - 1) * limit
    decreases if page >= 1 then page - 1 else 1 - page
  {
    if page > 1 {
      SkipIsProduct(page - 1, limit);
    } else if page < 1 {
      SkipIsProduct(page + 1, limit);
    }
  }

  /** The documents `s` that satisfy `p`, in their stored order. */
  function Filter<T>(s: seq<T>, p: T -> bool): (r: seq<T>)
    ensures |r| <= |s|
    ensures forall i :: 0 <= i < |r| ==> p(r[i])
  {
    if s == [] then []
    else
      var rest := Filter(s[1..], p);
      if p(s[0]) then [s[0]] + rest else rest
  }

  /** The matches are drawn from `s`, and are exactly its members that satisfy `p`. */
  lemma FilterMembers<T>(s: seq<T>, p: T -> bool)
    ensures multiset(Filter(s, p)) <= multiset(s)
    ensures forall x :: x in Filter(s, p) <==> x in s && p(x)
  {
    FilterSubMultiset(s, p);
    FilterMembership(s, p);
  }

  lemma {:induction false} FilterSubMultiset<T>(s: seq<T>, p: T -> bool)
    ensures multiset(Filter(s, p)) <= multiset(s)
  {
    if s != [] {
      FilterSubMultiset(s[1..], p);
      assert multiset(s) == multiset([s[0]]) + multiset(s[1..]) by {
        assert s == [s[0]] + s[1..];
      }
    }
  }

  lemma {:induction false} FilterMembership<T>(s: seq<T>, p: T -> bool)
    ensures forall x :: x in Filter(s, p) <==> x in s && p(x)
  {
    if s != [] {
      FilterMembership(s[1..], p);
      assert s == [s[0]] + s[1..];
    }
  }

  /** When no document satisfies `p`, nothing matches. */
  lemma {:induction false} FilterNoMatch<T>(s: seq<T>, p: T -> bool)
    requires forall i :: 0 <= i < |s| ==> !p(s[i])
    ensures Filter(s, p) == []
  {
    if s != [] {
      assert forall i :: 0 <= i < |s[1..]| ==> s[1..][i] == s[i + 1];
      FilterNoMatch(s[1..], p);
    }
  }

  ghost predicate SortedDesc<T>(s: seq<T>, key: T -> int) {
    forall i, j :: 0 <= i < j < |s| ==> key(s[i]) >= key(s[j])
  }

  lemma ConsSorted<T>(h: T, t: seq<T>, key: T -> int)
    requires SortedDesc(t, key)
    requires t != [] ==> key(h) >= key(t[0])
    ensures SortedDesc([h] + t, key)
  {
    var r := [h] + t;
    forall i, j | 0 <= i < j < |r|
      ensures key(r[i]) >= key(r[j])
    {
      if i == 0 && j > 1 {
        assert key(t[0]) >= key(t[j - 1]);
      }
    }
  }

  /** Places `x` before the first element with a smaller key. */
  function InsertDesc<T>(x: T, s: seq<T>, key: T -> int): (r: seq<T>)
    requires SortedDesc(s, key)
    ensures SortedDesc(r, key)
    ensures multiset(r) == multiset(s) + multiset{x}
    ensures |r| == |s| + 1
    ensures r[0] == x || (s != [] && r[0] == s[0])
  {
    if s == [] || key(x) >= key(s[0]) then
      ConsSorted(x, s, key);
      [x] + s
    else
      SortedTail(s, key);
      var rest := InsertDesc(x, s[1..], key);
      InsertBehindHead(x, s, rest, key);
      [s[0]] + rest
  }

  lemma SortedTail<T>(s: seq<T>, key: T -> int)
    requires s != [] && SortedDesc(s, key)
    ensures SortedDesc(s[1..], key)
  {
    var tail := s[1..];
    forall i, j | 0 <= i < j < |tail| ensures key(tail[i]) >= key(tail[j]) {
      assert tail[i] == s[i + 1] && tail[j] == s[j + 1];
    }
  }

  /** Keeping the head in front of the tail with `x` inserted keeps the order and the contents. */
  lemma InsertBehindHead<T>(x: T, s: seq<T>, rest: seq<T>, key: T -> int)
    requires s != [] && SortedDesc(s, key) && key(x) < key(s[0])
    requires SortedDesc(rest, key) && |rest| == |s|
    requires multiset(rest) == multiset(s[1..]) + multiset{x}
    requires rest[0] == x || (|s| > 1 && rest[0] == s[1])
    ensures SortedDesc([s[0]] + rest, key)
    ensures multiset([s[0]] + rest) == multiset(s) + multiset{x}
  {
    assert s == [s[0]] + s[1..];
    assert key(s[0]) >= key(rest[0]) by {
      if rest[0] != x { assert key(s[0]) >= key(s[1]); }
    }
    ConsSorted(s[0], rest, key);
  }

  /** A `{ key: -1 }` sort: newest (largest key) first. */
  function SortDesc<T>(s: seq<T>, key: T -> int): (r: seq<T>)
    ensures SortedDesc(r, key)
    ensures multiset(r) == multiset(s)
    ensures |r| == |s|
  {
    if s == [] then []
    else
      assert s == [s[0]] + s[1..];
      InsertDesc(s[0], SortDesc(s[1..], key), key)
  }

  /** No document occurs twice in `s`. */
  ghost predicate Distinct<T>(s: seq<T>) {
    forall i, j :: 0 <= i < j < |s| ==> s[i] != s[j]
  }

  lemma {:induction false} DistinctAtMostOnce<T>(s: seq<T>)
    requires Distinct(s)
    ensures forall x :: multiset(s)[x] <= 1
  {
    if s != [] {
      assert Distinct(s[1..]) by {
        forall i, j | 0 <= i < j < |s[1..]| ensures s[1..][i] != s[1..][j] {
          assert s[1..][i] == s[i + 1] && s[1..][j] == s[j + 1];
        }
      }
      DistinctAtMostOnce(s[1..]);
      assert s == [s[0]] + s[1..];
      assert s[0] !in s[1..] by {
        forall k | 0 <= k < |s[1..]| ensures s[1..][k] != s[0] {
          assert s[1..][k] == s[k + 1];
        }
      }
    }
  }

  lemma AtMostOnceDistinct<T>(s: seq<T>)
    requires forall x :: multiset(s)[x] <= 1
    ensures Distinct(s)
  {
    forall i, j | 0 <= i < j < |s| ensures s[i] != s[j] {
      assert s == s[..j] + [s[j]] + s[j + 1..];
      assert s[..j][i] == s[i];
      assert multiset(s)[s[j]] == multiset(s[..j])[s[j]] + 1 + multiset(s[j + 1..])[s[j]];
    }
  }

  /** Sorting a sequence without repeats gives one without repeats. */
  lemma SortKeepsDistinct<T>(s: seq<T>, key: T -> int)
    requires Distinct(s)
    ensures Distinct(SortDesc(s, key))
  {
    DistinctAtMostOnce(s);
    AtMostOnceDistinct(SortDesc(s, key));
  }

  /** A window of a sequence without repeats has none. */
  lemma SliceKeepsDistinct<T>(s: seq<T>, skip: int, limit: int)
    requires Distinct(s) && skip >= 0 && limit >= 0
    ensures Distinct(Slice(s, skip, limit))
  {
    var r := Slice(s, skip, limit);
    forall i, j | 0 <= i < j < |r| ensures r[i] != r[j] {
      assert r[i] == s[skip + i] && r[j] == s[skip + j];
    }
  }

  /** A window holds only documents of the sequence it is cut from. */
  lemma SliceMembers<T>(s: seq<T>, skip: int, limit: int)
    requires skip >= 0 && limit >= 0
    ensures forall x :: x in Slice(s, skip, limit) ==> x in s
  {
    var r := Slice(s, skip, limit);
    forall x | x in r ensures x in s {
      var k :| 0 <= k < |r| && r[k] == x;
      assert s[skip + k] == x;
    }
  }

  /** The filter that keeps every document (the empty query `{}`). */
  function Everything<T>(): T -> bool {
    _ => true
  }

  lemma {:induction false} FilterEverything<T>(s: seq<T>)
    ensures Filter(s, Everything<T>()) == s
  {
    if s != [] {
      FilterEverything(s[1..]);
      assert s == [s[0]] + s[1..];
    }
  }

  /** Appending a document extends the matches by that document exactly when it matches. */
  lemma {:induction false} FilterAppend<T>(s: seq<T>, x: T, p: T -> bool)
    ensures Filter(s + [x], p) == Filter(s, p) + (if p(x) then [x] else [])
  {
    if s == [] {
      assert [x][1..] == [];
    } else {
      assert (s + [x])[1..] == s[1..] + [x];
      FilterAppend(s[1..], x, p);
    }
  }

  ghost predicate StrictlyIncreasing<T>(s: seq<T>, key: T -> int) {
    forall i, j :: 0 <= i < j < |s| ==> key(s[i]) < key(s[j])
  }

  lemma {:induction false} FilterKeysAbove<T>(s: seq<T>, p: T -> bool, key: T -> int, k: int)
    requires forall i :: 0 <= i < |s| ==> k < key(s[i])
    ensures forall i :: 0 <= i < |Filter(s, p)| ==> k < key(Filter(s, p)[i])
  {
    if s != [] {
      FilterKeysAbove(s[1..], p, key, k);
    }
  }

  lemma {:induction false} FilterKeepsIncreasing<T>(s: seq<T>, p: T -> bool, key: T -> int)
    requires StrictlyIncreasing(s, key)
    ensures StrictlyIncreasing(Filter(s, p), key)
  {
    if s != [] {
      var tail := s[1..];
      FilterKeepsIncreasing(tail, p, key);
      FilterKeysAbove(tail, p, key, key(s[0]));
      var rest := Filter(tail, p);
      if p(s[0]) {
        var r := [s[0]] + rest;
        assert Filter(s, p) == r;
        forall i, j | 0 <= i < j < |r| ensures key(r[i]) < key(r[j]) {
          assert r[j] == rest[j - 1];
          if i > 0 { assert r[i] == rest[i - 1]; }
        }
      }
    }
  }

  function Reverse<T>(s: seq<T>): (r: seq<T>)
    ensures |r| == |s|
    ensures forall i :: 0 <= i < |s| ==> r[i] == s[|s| - 1 - i]
  {
    if s == [] then [] else Reverse(s[1..]) + [s[0]]
  }

  lemma {:induction false} InsertBelowAll<T>(x: T, t: seq<T>, key: T -> int)
    requires SortedDesc(t, key)
    requires forall i :: 0 <= i < |t| ==> key(x) < key(t[i])
    ensures InsertDesc(x, t, key) == t + [x]
  {
    if t != [] {
      InsertBelowAll(x, t[1..], key);
      assert t == [t[0]] + t[1..];
    }
  }

  /** Sorting newest-first a sequence whose keys strictly increase reverses it. */
  lemma {:induction false} SortIncreasingIsReverse<T>(s: seq<T>, key: T -> int)
    requires StrictlyIncreasing(s, key)
    ensures SortDesc(s, key) == Reverse(s)
  {
    if s != [] {
      IncreasingTail(s, key);
      SortIncreasingIsReverse(s[1..], key);
      ReverseKeepsLowerBound(s[1..], key, key(s[0]));
      InsertBelowAll(s[0], Reverse(s[1..]), key);
    }
  }

  /** The tail of a strictly increasing sequence is strictly increasing and above its head. */
  lemma IncreasingTail<T>(s: seq<T>, key: T -> int)
    requires s != [] && StrictlyIncreasing(s, key)
    ensures StrictlyIncreasing(s[1..], key)
    ensures forall i :: 0 <= i < |s[1..]| ==> key(s[0]) < key(s[1..][i])
  {
    var tail := s[1..];
    forall i, j | 0 <= i < j < |tail| ensures key(tail[i]) < key(tail[j]) {
      assert tail[i] == s[i + 1] && tail[j] == s[j + 1];
    }
    forall i | 0 <= i < |tail| ensures key(s[0]) < key(tail[i]) {
      assert tail[i] == s[i + 1];
    }
  }

  lemma ReverseKeepsLowerBound<T>(t: seq<T>, key: T -> int, k: int)
    requires forall i :: 0 <= i < |t| ==> k < key(t[i])
    ensures forall i :: 0 <= i < |Reverse(t)| ==> k < key(Reverse(t)[i])
  {
    var rt := Reverse(t);
    forall i | 0 <= i < |rt| ensures k < key(rt[i]) {
      assert rt[i] == t[|t| - 1 - i];
    }
  }

  /** The window `[skip, skip + limit)` of `s`, cut at its end. */
  function Slice<T>(s: seq<T>, skip: int, limit: int): (r: seq<T>)
    requires skip >= 0 && limit >= 0
    ensures |r| == if skip >= |s| then 0 else Min(limit, |s| - skip)
    ensures forall i :: 0 <= i < |r| ==> r[i] == s[skip + i]
  {
    var lo := Min(skip, |s|);
    var hi := Min(skip + limit, |s|);
    s[lo..hi]
  }

  lemma NextPageOfSlice(page: int, limit: int, total: nat)
    requires page >= 1 && limit > 0
    ensures var skip := CalculateSkip(page, limit);
      var shown := if skip >= total then 0 else Min(limit, total - skip);
      BuildPaginationMeta(page, limit, total).hasNextPage <==> skip + shown < total
  {
    HasNextPageIffItemsRemain(page, limit, total);
    SkipIsProduct(page, limit);
  }

  lemma SliceOfMatches<T>(docs: seq<T>, filter: T -> bool, key: T -> int, skip: int, limit: int)
    requires skip >= 0 && limit >= 0
    ensures var items := Slice(SortDesc(Filter(docs, filter), key), skip, limit);
      && SortedDesc(items, key)
      && forall i :: 0 <= i < |items| ==> filter(items[i]) && items[i] in docs
  {
    var matching := SortDesc(Filter(docs, filter), key);
    var items := Slice(matching, skip, limit);
    forall i | 0 <= i < |items|
      ensures filter(items[i]) && items[i] in docs
    {
      assert items[i] == matching[skip + i];
      FilterMembers(docs, filter);
      assert items[i] in multiset(Filter(docs, filter));
    }
    forall i, j | 0 <= i < j < |items|
      ensures key(items[i]) >= key(items[j])
    {
      assert items[i] == matching[skip + i] && items[j] == matching[skip + j];
    }
  }

  /**
   * `find(filter).sort({ key: -1 }).skip(skip).limit(limit)` beside `countDocuments(filter)`,
   * with the options normalised first.
   */
  function PaginateQuery<T>(docs: seq<T>, filter: T -> bool, key: T -> int, options: PaginationOptions): (r: PaginatedData<T>)
    ensures r.meta.totalItems == |Filter(docs, filter)|
    ensures
      var n := NormalizePaginationOptions(options);
      r.meta == BuildPaginationMeta(n.page, n.limit, |Filter(docs, filter)|)
    ensures |r.items| <= r.meta.limit <= MAX_LIMIT
  {
    var n := NormalizePaginationOptions(options);
    var matching := SortDesc(Filter(docs, filter), key);
    var skip := CalculateSkip(n.page, n.limit);
    var items := Slice(matching, skip, n.limit);
    var meta := BuildPaginationMeta(n.page, n.limit, |matching|);
    PaginatedData(items, meta)
  }

  /**
   * A page holds matching documents drawn from the collection, newest first, and it has a
   * next page exactly when matches remain beyond it.
   */
  lemma PageOfMatches<T>(docs: seq<T>, filter: T -> bool, key: T -> int, options: PaginationOptions)
    ensures var r := PaginateQuery(docs, filter, key, options);
      && (r.meta.hasNextPage <==> CalculateSkip(r.meta.page, r.meta.limit) + |r.items| < r.meta.totalItems)
      && (forall i :: 0 <= i < |r.items| ==> filter(r.items[i]) && r.items[i] in docs)
      && SortedDesc(r.items, key)
  {
    var n := NormalizePaginationOptions(options);
    var skip := CalculateSkip(n.page, n.limit);
    PageIsWindow(docs, filter, key, options);
    NextPageOfSlice(n.page, n.limit, |Filter(docs, filter)|);
    SliceOfMatches(docs, filter, key, skip, n.limit);
  }

  /**
   * A window of the newest-first order of a sequence whose keys strictly increase is read
   * from its end, and its keys strictly decrease.
   */
  lemma WindowOfIncreasing<T>(s: seq<T>, key: T -> int, skip: int, limit: int)
    requires StrictlyIncreasing(s, key) && skip >= 0 && limit >= 0
    ensures var items := Slice(SortDesc(s, key), skip, limit);
      && (forall i :: 0 <= i < |items| ==> items[i] == s[|s| - 1 - (skip + i)])
      && (forall i, j :: 0 <= i < j < |items| ==> key(items[i]) > key(items[j]))
  {
    SortIncreasingIsReverse(s, key);
    var items := Slice(SortDesc(s, key), skip, limit);
    forall i, j | 0 <= i < j < |items| ensures key(items[i]) > key(items[j]) {
      assert items[i] == s[|s| - 1 - (skip + i)] && items[j] == s[|s| - 1 - (skip + j)];
    }
  }

  /**
   * When the documents are stored in strictly increasing key order, a page is a window of
   * the matches read from their end (the `skip`-th newest first), keys strictly decreasing.
   */
  lemma PaginateIncreasing<T>(docs: seq<T>, filter: T -> bool, key: T -> int, options: PaginationOptions)
    requires StrictlyIncreasing(docs, key)
    ensures var n := NormalizePaginationOptions(options);
      var page := PaginateQuery(docs, filter, key, options);
      && page.items == Slice(Reverse(Filter(docs, filter)), CalculateSkip(n.page, n.limit), n.limit)
      && (forall i, j :: 0 <= i < j < |page.items| ==> key(page.items[i]) > key(page.items[j]))
  {
    FilterKeepsIncreasing(docs, filter, key);
    SortIncreasingIsReverse(Filter(docs, filter), key);
    var n := NormalizePaginationOptions(options);
    PageIsWindow(docs, filter, key, options);
    WindowOfIncreasing(Filter(docs, filter), key, CalculateSkip(n.page, n.limit), n.limit);
  }

  /** A page's items are the window of the newest-first matches that its options select. */
  lemma PageIsWindow<T>(docs: seq<T>, filter: T -> bool, key: T -> int, options: PaginationOptions)
    ensures var n := NormalizePaginationOptions(options);
      PaginateQuery(docs, filter, key, options).items
        == Slice(SortDesc(Filter(docs, filter), key), CalculateSkip(n.page, n.limit), n.limit)
  {
  }

  /** A page that starts past the last match is empty and has no next page. */
  lemma PageBeyondEnd<T>(docs: seq<T>, filter: T -> bool, key: T -> int, options: PaginationOptions)
    requires
      var n := NormalizePaginationOptions(options);
      CalculateSkip(n.page, n.limit) >= |Filter(docs, filter)|
    ensures PaginateQuery(docs, filter, key, options).items == []
    ensures !PaginateQuery(docs, filter, key, options).meta.hasNextPage
  {
    PageIsWindow(docs, filter, key, options);
    PageOfMatches(docs, filter, key, options);
  }

  function EmptyPaginatedData<T>(page: Option<int>, limit: Option<int>): (r: PaginatedData<T>)
    ensures r.items == []
    ensures r.meta.totalItems == 0 && r.meta.totalPages == 1
    ensures r.meta.page == page.GetOr(DEFAULT_PAGE) && r.meta.limit == limit.GetOr(DEFAULT_LIMIT)
    ensures r.meta.hasNextPage <==> page.GetOr(DEFAULT_PAGE) < 1
    ensures r.meta.hasPreviousPage <==> page.GetOr(DEFAULT_PAGE) > 1
  {
    PaginatedData([], BuildPaginationMeta(page.GetOr(DEFAULT_PAGE), limit.GetOr(DEFAULT_LIMIT), 0))
  }
}
