/**
 * The points ledger: per-user balance rows and an append-only history of adjustments.
 * An adjustment reads the user's row (a missing row counts as balance 0 and is created),
 * moves the balance by the signed amount, writes the row back and appends one history
 * entry recording the balance before and after. The reads are pure projections of the
 * two stores.
 */
module PointLedger {

  import opened Wrappers
  import opened PointSchema
  import opened PointEntities
  import opened PointDto
  import opened Pagination

  /** How many of the newest entries a user summary carries. */
  const SUMMARY_HISTORY_LIMIT: nat := 10

  /** The history query `{ userId }`. */
  function OwnedBy(u: UserId): HistoryEntry -> bool {
    (e: HistoryEntry) => e.userId == u
  }

  function EntryCreatedAt(e: HistoryEntry): int {
    e.createdAt
  }

  function RowUpdatedAt(row: BalanceRow): int {
    row.updatedAt
  }

  /** One user's entries, in the order they were recorded. */
  function UserEntries(h: seq<HistoryEntry>, u: UserId): seq<HistoryEntry> {
    Filter(h, OwnedBy(u))
  }

  function SumAmounts(es: seq<HistoryEntry>): int {
    if es == [] then 0 else SumAmounts(es[..|es| - 1]) + es[|es| - 1].amount
  }

  /** The balance the store holds for `u`; a user without a row has balance 0. */
  function StoredBalance(balances: map<UserId, BalanceRow>, u: UserId): int {
    if u in balances then balances[u].balance else DEFAULT_BALANCE
  }

  /** Every entry starts from the sum of the amounts before it and adds its own amount. */
  ghost predicate PrefixSums(es: seq<HistoryEntry>) {
    es == [] ||
      var init := es[..|es| - 1];
      var last := es[|es| - 1];
      && PrefixSums(init)
      && last.balanceBefore == SumAmounts(init)
      && last.balanceAfter == last.balanceBefore + last.amount
  }

  /** The chain a user's history forms: starting at 0, each entry continuing from the previous one. */
  ghost predicate Chained(es: seq<HistoryEntry>) {
    && (es != [] ==> es[0].balanceBefore == 0)
    && (forall i :: 0 < i < |es| ==> es[i].balanceBefore == es[i - 1].balanceAfter)
    && (forall i :: 0 <= i < |es| ==> es[i].balanceAfter == es[i].balanceBefore + es[i].amount)
  }

  lemma LastAfterIsSum(es: seq<HistoryEntry>)
    requires PrefixSums(es) && es != []
    ensures es[|es| - 1].balanceAfter == SumAmounts(es)
  {
  }

  lemma {:induction false} ChainedIffPrefixSums(es: seq<HistoryEntry>)
    ensures Chained(es) <==> PrefixSums(es)
    decreases |es|
  {
    if es != [] {
      var init := es[..|es| - 1];
      assert Chained(es) ==> Chained(init) by {
        forall i | 0 <= i < |init| ensures init[i] == es[i] { }
      }
      ChainedIffPrefixSums(init);
      if init != [] && PrefixSums(init) {
        LastAfterIsSum(init);
      }
    }
  }

  lemma PrefixSumsAppend(es: seq<HistoryEntry>, e: HistoryEntry)
    requires PrefixSums(es)
    requires e.balanceBefore == SumAmounts(es) && e.balanceAfter == e.balanceBefore + e.amount
    ensures PrefixSums(es + [e])
    ensures SumAmounts(es + [e]) == SumAmounts(es) + e.amount
  {
    assert (es + [e])[..|es|] == es;
  }

  /** Every stored row holds the sum of its user's amounts. */
  ghost predicate RowsHoldSums(balances: map<UserId, BalanceRow>, history: seq<HistoryEntry>) {
    forall u {:trigger UserSum(history, u)} :: u in balances ==> balances[u].balance == UserSum(history, u)
  }

  /** The sum of one user's amounts. */
  ghost function UserSum(history: seq<HistoryEntry>, u: UserId): int {
    SumAmounts(UserEntries(history, u))
  }

  /** A user has a row exactly when they have history. */
  ghost predicate RowsMatchHistory(balances: map<UserId, BalanceRow>, history: seq<HistoryEntry>) {
    forall u {:trigger UserEntries(history, u)} :: u in balances <==> UserEntries(history, u) != []
  }

  /** Each row belongs to its key and was stamped before the current clock reading. */
  ghost predicate RowsWellFormed(balances: map<UserId, BalanceRow>, clock: nat) {
    forall u :: u in balances ==> balances[u].userId == u && balances[u].updatedAt < clock
  }

  /**
   * `rowIds` is the balance collection in creation order: one entry per stored row, and
   * each row's id is its position there.
   */
  ghost predicate RowOrder(balances: map<UserId, BalanceRow>, rowIds: seq<UserId>) {
    && |rowIds| == |balances|
    && (forall i :: 0 <= i < |rowIds| ==> rowIds[i] in balances && balances[rowIds[i]].id == i)
    && (forall u :: u in balances ==> balances[u].id < |rowIds| && rowIds[balances[u].id] == u)
  }

  /** Under the row order every stored row is listed, and none twice. */
  lemma RowIdsListEachRowOnce(balances: map<UserId, BalanceRow>, rowIds: seq<UserId>)
    requires RowOrder(balances, rowIds)
    ensures forall u :: u in balances ==> u in rowIds
    ensures forall i, j :: 0 <= i < j < |rowIds| ==> rowIds[i] != rowIds[j]
  {
    forall u | u in balances ensures u in rowIds {
      assert rowIds[balances[u].id] == u;
    }
  }

  /** Every user's entries chain; ids are positions; timestamps strictly increase below the clock. */
  ghost predicate HistoryWellFormed(history: seq<HistoryEntry>, clock: nat) {
    && (forall u :: PrefixSums(UserEntries(history, u)))
    && (forall i :: 0 <= i < |history| ==>
          history[i].id == i && history[i].createdAt < clock && HistorySchemaAccepts(history[i]))
    && StrictlyIncreasing(history, EntryCreatedAt)
  }

  /**
   * The state the ledger keeps between calls. Each stored row belongs to its key and holds
   * the sum of its user's amounts; a user has a row exactly when they have history; every
   * user's entries form prefix sums; history ids are positions and its timestamps strictly
   * increase below the clock; `rowIds` lists each row once, in creation order.
   */
  ghost predicate LedgerInvariant(
    balances: map<UserId, BalanceRow>, rowIds: seq<UserId>, history: seq<HistoryEntry>, clock: nat)
  {
    && RowsWellFormed(balances, clock)
    && RowsHoldSums(balances, history)
    && RowsMatchHistory(balances, history)
    && RowOrder(balances, rowIds)
    && HistoryWellFormed(history, clock)
  }

  /**
   * Under the ledger invariant each user's history chains from 0, and the stored balance
   * (0 without a row) is both the sum of the user's amounts and the last entry's
   * `balanceAfter`.
   */
  lemma UserHistoryChains(
    balances: map<UserId, BalanceRow>, rowIds: seq<UserId>, history: seq<HistoryEntry>, clock: nat, u: UserId)
    requires LedgerInvariant(balances, rowIds, history, clock)
    ensures var es := UserEntries(history, u);
      && Chained(es)
      && StoredBalance(balances, u) == SumAmounts(es)
      && (es != [] ==> StoredBalance(balances, u) == es[|es| - 1].balanceAfter)
      && (u in balances <==> es != [])
  {
    var es := UserEntries(history, u);
    assert u in balances ==> balances[u].balance == UserSum(history, u);
    ChainedIffPrefixSums(es);
    if es != [] {
      LastAfterIsSum(es);
    }
  }

  /** The row an adjustment writes: created at balance 0 when missing, moved by `amount`, and
      stamped with `now` when it is new or its balance changed. */
  function AdjustedRow(balances: map<UserId, BalanceRow>, newRowId: DocId, u: UserId, amount: int, now: Timestamp): BalanceRow {
    if u !in balances then NewBalanceRow(newRowId, u, now).(balance := DEFAULT_BALANCE + amount)
    else if amount == 0 then balances[u]
    else balances[u].(balance := balances[u].balance + amount, updatedAt := now)
  }

  /** The history entry an adjustment appends. */
  function AdjustEntry(balances: map<UserId, BalanceRow>, history: seq<HistoryEntry>, dto: AdjustPointDto, now: Timestamp): HistoryEntry {
    var before := StoredBalance(balances, dto.userId);
    HistoryEntry(|history|, dto.userId, dto.amount, before, before + dto.amount,
                 dto.description, dto.pointType, now, now)
  }

  /** The balance collection in its natural order. */
  function Rows(balances: map<UserId, BalanceRow>, ids: seq<UserId>): (rows: seq<BalanceRow>)
    requires forall i :: 0 <= i < |ids| ==> ids[i] in balances
    ensures |rows| == |ids|
    ensures forall i :: 0 <= i < |ids| ==> rows[i] == balances[ids[i]]
  {
    seq(|ids|, i requires 0 <= i < |ids| => balances[ids[i]])
  }

  lemma UserEntriesAppend(h: seq<HistoryEntry>, e: HistoryEntry)
    ensures forall v :: UserEntries(h + [e], v) == UserEntries(h, v) + (if v == e.userId then [e] else [])
  {
    forall v
      ensures UserEntries(h + [e], v) == UserEntries(h, v) + (if v == e.userId then [e] else [])
    {
      FilterAppend(h, e, OwnedBy(v));
    }
  }

  lemma IncreasingAppend(h: seq<HistoryEntry>, e: HistoryEntry)
    requires StrictlyIncreasing(h, EntryCreatedAt)
    requires forall i :: 0 <= i < |h| ==> h[i].createdAt < e.createdAt
    ensures StrictlyIncreasing(h + [e], EntryCreatedAt)
  {
    var t := h + [e];
    forall i, j | 0 <= i < j < |t|
      ensures EntryCreatedAt(t[i]) < EntryCreatedAt(t[j])
    {
      if j < |h| {
        assert t[i] == h[i] && t[j] == h[j];
      } else {
        assert t[i] == h[i];
      }
    }
  }

  /** Appending an entry that continues its user's chain keeps every user's chain. */
  lemma HistoryChainsAppend(history: seq<HistoryEntry>, e: HistoryEntry)
    requires forall v :: PrefixSums(UserEntries(history, v))
    requires e.balanceBefore == SumAmounts(UserEntries(history, e.userId))
    requires e.balanceAfter == e.balanceBefore + e.amount
    ensures forall v :: PrefixSums(UserEntries(history + [e], v))
  {
    UserEntriesAppend(history, e);
    forall v ensures PrefixSums(UserEntries(history + [e], v)) {
      if v == e.userId {
        PrefixSumsAppend(UserEntries(history, v), e);
      } else {
        assert UserEntries(history + [e], v) == UserEntries(history, v);
      }
    }
  }

  /** Appending an entry with the next id, stamped with the clock, keeps ids and timestamps in order. */
  lemma HistoryStampsAppend(history: seq<HistoryEntry>, clock: nat, e: HistoryEntry)
    requires forall i :: 0 <= i < |history| ==>
      history[i].id == i && history[i].createdAt < clock && HistorySchemaAccepts(history[i])
    requires StrictlyIncreasing(history, EntryCreatedAt)
    requires e.id == |history| && e.createdAt == clock && HistorySchemaAccepts(e)
    ensures var h := history + [e];
      && (forall i :: 0 <= i < |h| ==> h[i].id == i && h[i].createdAt < clock + 1 && HistorySchemaAccepts(h[i]))
      && StrictlyIncreasing(h, EntryCreatedAt)
  {
    IncreasingAppend(history, e);
    var h := history + [e];
    forall i | 0 <= i < |h|
      ensures h[i].id == i && h[i].createdAt < clock + 1 && HistorySchemaAccepts(h[i])
    {
      if i < |history| {
        assert h[i] == history[i];
      }
    }
  }

  /** The history half of the invariant survives appending the adjustment's entry. */
  lemma AdjustKeepsHistory(
    balances: map<UserId, BalanceRow>, rowIds: seq<UserId>, history: seq<HistoryEntry>, clock: nat, dto: AdjustPointDto)
    requires LedgerInvariant(balances, rowIds, history, clock) && IsValidDto(dto)
    ensures HistoryWellFormed(history + [AdjustEntry(balances, history, dto, clock)], clock + 1)
  {
    var e := AdjustEntry(balances, history, dto, clock);
    UserHistoryChains(balances, rowIds, history, clock, dto.userId);
    HistoryChainsAppend(history, e);
    HistoryStampsAppend(history, clock, e);
  }

  /** The adjusted row holds the sum of its user's amounts once the new entry is appended. */
  lemma AdjustedRowHoldsSum(
    balances: map<UserId, BalanceRow>, rowIds: seq<UserId>, history: seq<HistoryEntry>, clock: nat, dto: AdjustPointDto)
    requires LedgerInvariant(balances, rowIds, history, clock) && IsValidDto(dto)
    ensures var e := AdjustEntry(balances, history, dto, clock);
      && AdjustedRow(balances, |rowIds|, dto.userId, dto.amount, clock).balance == StoredBalance(balances, dto.userId) + dto.amount
      && SumAmounts(UserEntries(history + [e], dto.userId)) == StoredBalance(balances, dto.userId) + dto.amount
  {
    var e := AdjustEntry(balances, history, dto, clock);
    UserEntriesAppend(history, e);
    UserHistoryChains(balances, rowIds, history, clock, dto.userId);
    PrefixSumsAppend(UserEntries(history, dto.userId), e);
  }

  /** The stored rows keep agreeing with the history once the adjusted row is written. */
  lemma AdjustKeepsBalances(
    balances: map<UserId, BalanceRow>, rowIds: seq<UserId>, history: seq<HistoryEntry>, clock: nat, dto: AdjustPointDto)
    requires LedgerInvariant(balances, rowIds, history, clock) && IsValidDto(dto)
    ensures var u := dto.userId;
      var b := balances[u := AdjustedRow(balances, |rowIds|, u, dto.amount, clock)];
      var h := history + [AdjustEntry(balances, history, dto, clock)];
      && RowsWellFormed(b, clock + 1)
      && RowsHoldSums(b, h)
      && RowsMatchHistory(b, h)
  {
    var u := dto.userId;
    var e := AdjustEntry(balances, history, dto, clock);
    var row := AdjustedRow(balances, |rowIds|, u, dto.amount, clock);
    var b := balances[u := row];
    var h := history + [e];
    UserEntriesAppend(history, e);
    AdjustedRowHoldsSum(balances, rowIds, history, clock, dto);
    forall v | v in b
      ensures b[v].userId == v && b[v].updatedAt < clock + 1
      ensures b[v].balance == UserSum(h, v)
    {
      if v != u {
        assert b[v] == balances[v];
        assert UserEntries(h, v) == UserEntries(history, v);
        assert balances[v].balance == UserSum(history, v);
      }
    }
    forall v
      ensures v in b <==> UserEntries(h, v) != []
    {
      if v != u {
        assert UserEntries(h, v) == UserEntries(history, v);
      }
    }
  }

  /** Updating a row in place, or appending a new one at the next position, keeps the row order. */
  lemma AdjustKeepsRowOrder(balances: map<UserId, BalanceRow>, rowIds: seq<UserId>, u: UserId, row: BalanceRow)
    requires RowOrder(balances, rowIds)
    requires u in balances ==> row.id == balances[u].id
    requires u !in balances ==> row.id == |rowIds|
    ensures RowOrder(balances[u := row], if u in balances then rowIds else rowIds + [u])
  {
    var b := balances[u := row];
    var ids := if u in balances then rowIds else rowIds + [u];
    if u in balances {
      assert b.Keys == balances.Keys;
    } else {
      forall i | 0 <= i < |ids| ensures ids[i] in b && b[ids[i]].id == i {
        if i < |rowIds| {
          assert ids[i] == rowIds[i];
        }
      }
    }
  }

  lemma AdjustKeepsInvariant(
    balances: map<UserId, BalanceRow>, rowIds: seq<UserId>, history: seq<HistoryEntry>, clock: nat, dto: AdjustPointDto)
    requires LedgerInvariant(balances, rowIds, history, clock) && IsValidDto(dto)
    ensures var u := dto.userId;
      LedgerInvariant(
        balances[u := AdjustedRow(balances, |rowIds|, u, dto.amount, clock)],
        if u in balances then rowIds else rowIds + [u],
        history + [AdjustEntry(balances, history, dto, clock)],
        clock + 1)
  {
    AdjustKeepsHistory(balances, rowIds, history, clock, dto);
    AdjustKeepsBalances(balances, rowIds, history, clock, dto);
    AdjustKeepsRowOrder(balances, rowIds, dto.userId, AdjustedRow(balances, |rowIds|, dto.userId, dto.amount, clock));
  }

  /**
   * A user's page of history is a window of their entries read from the last recorded back
   * (the `skip`-th newest first): all of them the user's, `createdAt` strictly decreasing.
   */
  lemma HistoryPage(history: seq<HistoryEntry>, u: UserId, options: PaginationOptions)
    requires StrictlyIncreasing(history, EntryCreatedAt)
    ensures var n := NormalizePaginationOptions(options);
      var page := PaginateQuery(history, OwnedBy(u), EntryCreatedAt, options);
      && page.items == Slice(Reverse(UserEntries(history, u)), CalculateSkip(n.page, n.limit), n.limit)
      && (forall i :: 0 <= i < |page.items| ==> page.items[i].userId == u)
      && (forall i, j :: 0 <= i < j < |page.items| ==> page.items[i].createdAt > page.items[j].createdAt)
  {
    PaginateIncreasing(history, OwnedBy(u), EntryCreatedAt, options);
    var page := PaginateQuery(history, OwnedBy(u), EntryCreatedAt, options);
    forall i | 0 <= i < |page.items| ensures page.items[i].userId == u {
      assert OwnedBy(u)(page.items[i]);
    }
    forall i, j | 0 <= i < j < |page.items| ensures page.items[i].createdAt > page.items[j].createdAt {
      assert EntryCreatedAt(page.items[i]) > EntryCreatedAt(page.items[j]);
    }
  }

  /** The history page `getHistory` returns: the user's page of entries, as entities. */
  function UserHistoryPage(history: seq<HistoryEntry>, u: UserId, options: PaginationOptions): PaginatedData<PointHistoryEntity> {
    var page := PaginateQuery(history, OwnedBy(u), EntryCreatedAt, options);
    PaginatedData(HistoryEntities(page.items), page.meta)
  }

  /** The entities of a history page keep its order and its meta. */
  lemma UserHistoryPageIsNewestFirst(history: seq<HistoryEntry>, u: UserId, options: PaginationOptions)
    requires StrictlyIncreasing(history, EntryCreatedAt)
    ensures var r := UserHistoryPage(history, u, options);
      var es := UserEntries(history, u);
      var n := NormalizePaginationOptions(options);
      && r.meta == BuildPaginationMeta(n.page, n.limit, |es|)
      && r.items == HistoryEntities(Slice(Reverse(es), CalculateSkip(n.page, n.limit), n.limit))
      && (forall i :: 0 <= i < |r.items| ==> r.items[i].userId == u)
      && (forall i, j :: 0 <= i < j < |r.items| ==> r.items[i].createdAt > r.items[j].createdAt)
  {
    HistoryPage(history, u, options);
    var page := PaginateQuery(history, OwnedBy(u), EntryCreatedAt, options);
    var r := UserHistoryPage(history, u, options);
    forall i, j | 0 <= i < j < |r.items| ensures r.items[i].createdAt > r.items[j].createdAt {
      assert r.items[i] == ToHistoryEntity(page.items[i]) && r.items[j] == ToHistoryEntity(page.items[j]);
    }
  }

  /** Sorting a user's entries newest-first lists them from the last recorded back. */
  lemma NewestEntries(history: seq<HistoryEntry>, u: UserId)
    requires StrictlyIncreasing(history, EntryCreatedAt)
    ensures SortDesc(UserEntries(history, u), EntryCreatedAt) == Reverse(UserEntries(history, u))
  {
    FilterKeepsIncreasing(history, OwnedBy(u), EntryCreatedAt);
    SortIncreasingIsReverse(UserEntries(history, u), EntryCreatedAt);
  }

  /**
   * The balance collection sorted by `updatedAt` descending holds every stored row
   * exactly once, and nothing else.
   */
  lemma BalanceListingHoldsEachRowOnce(balances: map<UserId, BalanceRow>, rowIds: seq<UserId>)
    requires RowOrder(balances, rowIds)
    requires forall u :: u in balances ==> balances[u].userId == u
    ensures var listing := SortDesc(Rows(balances, rowIds), RowUpdatedAt);
      && |listing| == |balances|
      && (forall u :: u in balances ==> balances[u] in listing)
      && (forall x :: x in listing ==> x.userId in balances && x == balances[x.userId])
      && Distinct(listing)
  {
    ListingHoldsEveryRow(balances, rowIds);
    ListingHoldsOnlyRows(balances, rowIds);
    ListingDistinct(balances, rowIds);
  }

  lemma ListingHoldsEveryRow(balances: map<UserId, BalanceRow>, rowIds: seq<UserId>)
    requires RowOrder(balances, rowIds)
    ensures forall u :: u in balances ==> balances[u] in SortDesc(Rows(balances, rowIds), RowUpdatedAt)
  {
    var rows := Rows(balances, rowIds);
    var listing := SortDesc(rows, RowUpdatedAt);
    forall u | u in balances ensures balances[u] in listing {
      assert rows[balances[u].id] == balances[u];
      assert balances[u] in multiset(rows);
    }
  }

  lemma ListingHoldsOnlyRows(balances: map<UserId, BalanceRow>, rowIds: seq<UserId>)
    requires RowOrder(balances, rowIds)
    requires forall u :: u in balances ==> balances[u].userId == u
    ensures forall x :: x in SortDesc(Rows(balances, rowIds), RowUpdatedAt) ==>
      x.userId in balances && x == balances[x.userId]
  {
    var rows := Rows(balances, rowIds);
    forall x | x in SortDesc(rows, RowUpdatedAt) ensures x.userId in balances && x == balances[x.userId] {
      assert x in multiset(rows);
      var k :| 0 <= k < |rows| && rows[k] == x;
    }
  }

  lemma ListingDistinct(balances: map<UserId, BalanceRow>, rowIds: seq<UserId>)
    requires RowOrder(balances, rowIds)
    requires forall u :: u in balances ==> balances[u].userId == u
    ensures Distinct(SortDesc(Rows(balances, rowIds), RowUpdatedAt))
  {
    RowIdsListEachRowOnce(balances, rowIds);
    var rows := Rows(balances, rowIds);
    forall i, j | 0 <= i < j < |rows| ensures rows[i] != rows[j] {
      assert rows[i].userId == rowIds[i] && rows[j].userId == rowIds[j];
    }
    SortKeepsDistinct(rows, RowUpdatedAt);
  }

  /** No user appears twice in a window of the balance listing. */
  lemma WindowUsersDistinct(balances: map<UserId, BalanceRow>, rowIds: seq<UserId>, skip: int, limit: int)
    requires RowOrder(balances, rowIds)
    requires forall u :: u in balances ==> balances[u].userId == u
    requires skip >= 0 && limit >= 0
    ensures var items := Slice(SortDesc(Rows(balances, rowIds), RowUpdatedAt), skip, limit);
      forall i, j :: 0 <= i < j < |items| ==> items[i].userId != items[j].userId
  {
    ListingHoldsOnlyRows(balances, rowIds);
    ListingDistinct(balances, rowIds);
    var listing := SortDesc(Rows(balances, rowIds), RowUpdatedAt);
    SliceKeepsDistinct(listing, skip, limit);
    SliceMembers(listing, skip, limit);
    StoredRowsUsersDistinct(balances, Slice(listing, skip, limit));
  }

  /** Different stored rows belong to different users. */
  lemma StoredRowsUsersDistinct(balances: map<UserId, BalanceRow>, items: seq<BalanceRow>)
    requires Distinct(items)
    requires forall x :: x in items ==> x.userId in balances && x == balances[x.userId]
    ensures forall i, j :: 0 <= i < j < |items| ==> items[i].userId != items[j].userId
  {
    forall i, j | 0 <= i < j < |items| ensures items[i].userId != items[j].userId {
      assert items[i] in items && items[j] in items;
    }
  }

  /** The exposed forms of stored rows, in `updatedAt` order and one per user, keep those properties. */
  lemma ExposedListing(balances: map<UserId, BalanceRow>, items: seq<BalanceRow>)
    requires forall i :: 0 <= i < |items| ==> items[i].userId in balances && items[i] == balances[items[i].userId]
    requires forall i, j :: 0 <= i < j < |items| ==> items[i].updatedAt >= items[j].updatedAt
    requires forall i, j :: 0 <= i < j < |items| ==> items[i].userId != items[j].userId
    ensures var es := BalanceEntities(items);
      && (forall i :: 0 <= i < |es| ==> es[i].userId in balances && es[i] == ToBalanceEntity(balances[es[i].userId]))
      && (forall i, j :: 0 <= i < j < |es| ==>
            es[i].updatedAt.Some? && es[j].updatedAt.Some? && es[i].updatedAt.value >= es[j].updatedAt.value)
      && (forall i, j :: 0 <= i < j < |es| ==> es[i].userId != es[j].userId)
  {
  }

  /** A first window at least as long as the collection holds every stored row. */
  lemma FirstWindowListsEveryRow(balances: map<UserId, BalanceRow>, rowIds: seq<UserId>, limit: int)
    requires RowOrder(balances, rowIds)
    requires forall u :: u in balances ==> balances[u].userId == u
    requires limit >= |balances|
    ensures forall u :: u in balances ==>
      ToBalanceEntity(balances[u]) in BalanceEntities(Slice(SortDesc(Rows(balances, rowIds), RowUpdatedAt), 0, limit))
  {
    ListingHoldsEveryRow(balances, rowIds);
    var listing := SortDesc(Rows(balances, rowIds), RowUpdatedAt);
    assert Slice(listing, 0, limit) == listing;
    forall u | u in balances ensures ToBalanceEntity(balances[u]) in BalanceEntities(listing) {
      ExposedMember(listing, balances[u]);
    }
  }

  /** Documents drawn from the balance collection are stored rows. */
  lemma DrawnFromRows(balances: map<UserId, BalanceRow>, ids: seq<UserId>, items: seq<BalanceRow>)
    requires forall i :: 0 <= i < |ids| ==> ids[i] in balances
    requires forall u :: u in balances ==> balances[u].userId == u
    requires forall i :: 0 <= i < |items| ==> items[i] in Rows(balances, ids)
    ensures forall i :: 0 <= i < |items| ==> items[i].userId in balances && items[i] == balances[items[i].userId]
  {
    var rows := Rows(balances, ids);
    forall i | 0 <= i < |items|
      ensures items[i].userId in balances && items[i] == balances[items[i].userId]
    {
      assert items[i] in rows;
      var k :| 0 <= k < |rows| && rows[k] == items[i];
      assert ids[k] in balances && items[i] == balances[ids[k]];
    }
  }

  /**
   * A page of the balance listing is the requested window of the rows sorted most recently
   * updated first, and it holds stored rows only.
   */
  lemma BalancePage(balances: map<UserId, BalanceRow>, ids: seq<UserId>, options: PaginationOptions)
    requires forall i :: 0 <= i < |ids| ==> ids[i] in balances
    requires forall u :: u in balances ==> balances[u].userId == u
    ensures var page := PaginateQuery(Rows(balances, ids), Everything(), RowUpdatedAt, options);
      var n := NormalizePaginationOptions(options);
      && page.meta == BuildPaginationMeta(n.page, n.limit, |ids|)
      && page.items == Slice(SortDesc(Rows(balances, ids), RowUpdatedAt), CalculateSkip(n.page, n.limit), n.limit)
      && |page.items| <= page.meta.limit
      && (forall i :: 0 <= i < |page.items| ==>
            page.items[i].userId in balances && page.items[i] == balances[page.items[i].userId])
      && (forall i, j :: 0 <= i < j < |page.items| ==> page.items[i].updatedAt >= page.items[j].updatedAt)
  {
    var rows := Rows(balances, ids);
    FilterEverything(rows);
    PageIsWindow(rows, Everything(), RowUpdatedAt, options);
    PageOfMatches(rows, Everything(), RowUpdatedAt, options);
    var page := PaginateQuery(rows, Everything(), RowUpdatedAt, options);
    DrawnFromRows(balances, ids, page.items);
    forall i, j | 0 <= i < j < |page.items|
      ensures page.items[i].updatedAt >= page.items[j].updatedAt
    {
      assert RowUpdatedAt(page.items[i]) >= RowUpdatedAt(page.items[j]);
    }
  }

  class PointService {
    var balances: map<UserId, BalanceRow>
    /** The balance collection's natural order: the user of each row, in creation order. */
    var rowIds: seq<UserId>
    var history: seq<HistoryEntry>
    /** The logical clock that stamps `createdAt` and `updatedAt`. */
    var clock: nat

    ghost predicate Valid()
      reads this
    {
      LedgerInvariant(balances, rowIds, history, clock)
    }

    constructor ()
      ensures Valid()
      ensures balances == map[] && rowIds == [] && history == [] && clock == 0
    {
      balances, rowIds, history, clock := map[], [], [], 0;
    }

    method AdjustPoints(dto: AdjustPointDto) returns (r: PointHistoryEntity)
      requires Valid()
      requires IsValidDto(dto)
      modifies this
      ensures Valid()
      ensures var before := StoredBalance(old(balances), dto.userId);
        var entry := HistoryEntry(|old(history)|, dto.userId, dto.amount, before, before + dto.amount,
                                  dto.description, dto.pointType, old(clock), old(clock));
        && history == old(history) + [entry]
        && r == ToHistoryEntity(entry)
      ensures balances == old(balances)[dto.userId := AdjustedRow(old(balances), |old(rowIds)|, dto.userId, dto.amount, old(clock))]
      ensures balances[dto.userId].balance == StoredBalance(old(balances), dto.userId) + dto.amount
      ensures rowIds == if dto.userId in old(balances) then old(rowIds) else old(rowIds) + [dto.userId]
      ensures clock == old(clock) + 1
    {
      var userId := dto.userId;
      var now := clock;

      var isNew := userId !in balances;
      var pointBalance: BalanceRow;
      if isNew {
        pointBalance := NewBalanceRow(|rowIds|, userId, now);
      } else {
        pointBalance := balances[userId];
      }

      var balanceBefore := pointBalance.balance;
      var balanceAfter := balanceBefore + dto.amount;
      // the timestamps plugin stamps updatedAt only on a new or modified document
      var modified := isNew || balanceAfter != pointBalance.balance;
      pointBalance := pointBalance.(balance := balanceAfter);
      if modified {
        pointBalance := pointBalance.(updatedAt := now);
      }
      var entry := HistoryEntry(|history|, userId, dto.amount, balanceBefore, balanceAfter,
                                dto.description, dto.pointType, now, now);

      assert pointBalance == AdjustedRow(balances, |rowIds|, userId, dto.amount, now);
      assert entry == AdjustEntry(balances, history, dto, now);
      AdjustKeepsInvariant(balances, rowIds, history, clock, dto);

      SaveBalance(pointBalance);
      SaveHistory(entry);
      clock := clock + 1;
      r := ToHistoryEntity(entry);
    }

    /** `pointBalance.save()`: upserts the user's row; a row saved for the first time joins the natural order. */
    method SaveBalance(row: BalanceRow)
      modifies this
      ensures balances == old(balances)[row.userId := row]
      ensures rowIds == if row.userId in old(balances) then old(rowIds) else old(rowIds) + [row.userId]
      ensures history == old(history) && clock == old(clock)
    {
      if row.userId !in balances {
        rowIds := rowIds + [row.userId];
      }
      balances := balances[row.userId := row];
    }

    /** `history.save()`: appends the entry to the history collection. */
    method SaveHistory(entry: HistoryEntry)
      modifies this
      ensures history == old(history) + [entry]
      ensures balances == old(balances) && rowIds == old(rowIds) && clock == old(clock)
    {
      history := history + [entry];
    }

    function GetBalance(userId: UserId): (r: PointBalanceEntity)
      requires Valid()
      reads this
      ensures r.balance == SumAmounts(UserEntries(history, userId))
      ensures var es := UserEntries(history, userId); es != [] ==> r.balance == es[|es| - 1].balanceAfter
      ensures userId !in balances ==> r == ImplicitBalanceEntity(userId) && r.balance == 0
      ensures userId in balances ==> r == ToBalanceEntity(balances[userId])
    {
      UserHistoryChains(balances, rowIds, history, clock, userId);
      if userId in balances then ToBalanceEntity(balances[userId]) else ImplicitBalanceEntity(userId)
    }

    function GetHistory(userId: UserId, options: PaginationOptions): (r: PaginatedData<PointHistoryEntity>)
      requires Valid()
      reads this
      ensures var es := UserEntries(history, userId);
        var n := NormalizePaginationOptions(options);
        && r.meta == BuildPaginationMeta(n.page, n.limit, |es|)
        && r.items == HistoryEntities(Slice(Reverse(es), CalculateSkip(n.page, n.limit), n.limit))
      ensures forall i :: 0 <= i < |r.items| ==> r.items[i].userId == userId
      ensures forall i, j :: 0 <= i < j < |r.items| ==> r.items[i].createdAt > r.items[j].createdAt
    {
      UserHistoryPageIsNewestFirst(history, userId, options);
      UserHistoryPage(history, userId, options)
    }

    function GetUserPointSummary(userId: UserId): (r: UserPointSummaryEntity)
      requires Valid()
      reads this
      ensures r.balance == GetBalance(userId).balance
      ensures var es := UserEntries(history, userId);
        r.history == HistoryEntities(Reverse(es)[..Min(SUMMARY_HISTORY_LIMIT, |es|)])
    {
      NewestEntries(history, userId);
      var balanceDoc := GetBalance(userId);
      var docs := SortDesc(Filter(history, OwnedBy(userId)), EntryCreatedAt);
      var newest := docs[..Min(SUMMARY_HISTORY_LIMIT, |docs|)];
      UserPointSummaryEntity(balanceDoc.balance, HistoryEntities(newest))
    }

    function FindAllBalances(options: PaginationOptions): (r: PaginatedData<PointBalanceEntity>)
      requires Valid()
      reads this
      ensures var n := NormalizePaginationOptions(options);
        && r.meta == BuildPaginationMeta(n.page, n.limit, |balances|)
        && r.items == BalanceEntities(Slice(SortDesc(Rows(balances, rowIds), RowUpdatedAt),
                                            CalculateSkip(n.page, n.limit), n.limit))
      ensures |r.items| <= r.meta.limit
      ensures forall i :: 0 <= i < |r.items| ==>
        r.items[i].userId in balances && r.items[i] == ToBalanceEntity(balances[r.items[i].userId])
      ensures forall i, j :: 0 <= i < j < |r.items| ==>
        r.items[i].updatedAt.Some? && r.items[j].updatedAt.Some? &&
        r.items[i].updatedAt.value >= r.items[j].updatedAt.value
      ensures forall i, j :: 0 <= i < j < |r.items| ==> r.items[i].userId != r.items[j].userId
    {
      BalancePage(balances, rowIds, options);
      var page := PaginateQuery(Rows(balances, rowIds), Everything(), RowUpdatedAt, options);
      var n := NormalizePaginationOptions(options);
      WindowUsersDistinct(balances, rowIds, CalculateSkip(n.page, n.limit), n.limit);
      ExposedListing(balances, page.items);
      PaginatedData(BalanceEntities(page.items), page.meta)
    }

    /** A first page at least as long as the collection lists every stored row. */
    lemma FirstPageListsEveryRow(options: PaginationOptions)
      requires Valid()
      requires var n := NormalizePaginationOptions(options); n.page == 1 && n.limit >= |balances|
      ensures forall u :: u in balances ==> ToBalanceEntity(balances[u]) in FindAllBalances(options).items
    {
      var n := NormalizePaginationOptions(options);
      assert CalculateSkip(1, n.limit) == 0;
      FirstWindowListsEveryRow(balances, rowIds, n.limit);
    }

    /** The summary's history is the first page of ten of the user's history. */
    lemma SummaryIsFirstPage(userId: UserId)
      requires Valid()
      ensures GetUserPointSummary(userId).history == GetHistory(userId, FirstPageOfTen()).items
    {
      NormalizeCases(FirstPageOfTen());
      assert NormalizePaginationOptions(FirstPageOfTen()) == NormalizedOptions(1, 10);
      assert CalculateSkip(1, 10) == 0;
    }
  }

  function FirstPageOfTen(): PaginationOptions {
    PaginationOptions(Some(1.0), Some(SUMMARY_HISTORY_LIMIT as real))
  }

  /** Earning 100 and then spending 30 leaves 70, and the spend records 100 -> 70. */
  method EarnThenSpend() returns (balance: int, spend: PointHistoryEntity)
    ensures balance == 70
    ensures spend.amount == -30 && spend.action == Minus
    ensures spend.balanceBefore == 100 && spend.balanceAfter == 70
  {
    var service := new PointService();
    var earn := service.AdjustPoints(AdjustPointDto("user-1", 100, "Lucky wheel", Wheel));
    spend := service.AdjustPoints(AdjustPointDto("user-1", -30, "Voucher", Spend));
    balance := service.GetBalance("user-1").balance;
  }

  /** A deduction larger than the balance is applied: balances may go negative. */
  method OverdraftAllowed() returns (balance: int)
    ensures balance == -50
  {
    var service := new PointService();
    var entry := service.AdjustPoints(AdjustPointDto("user-1", -50, "Correction", AdminAdjust));
    balance := service.GetBalance("user-1").balance;
  }

  /** A zero adjustment is recorded in the history but leaves the row's `updatedAt` alone. */
  method ZeroAdjustmentKeepsUpdatedAt() returns (stampBefore: Timestamp, stampAfter: Timestamp, entries: nat)
    ensures stampBefore == stampAfter
    ensures entries == 2
  {
    var service := new PointService();
    var first := service.AdjustPoints(AdjustPointDto("user-1", 5, "Bonus", AdminBonus));
    stampBefore := service.balances["user-1"].updatedAt;
    var second := service.AdjustPoints(AdjustPointDto("user-1", 0, "No-op", AdminAdjust));
    stampAfter := service.balances["user-1"].updatedAt;
    entries := |service.history|;
  }

  /** A user who never had an adjustment reads as balance 0 without a row. */
  method UnknownUserBalance() returns (r: PointBalanceEntity)
    ensures r == ImplicitBalanceEntity("user-2") && r.balance == 0
  {
    var service := new PointService();
    var entry := service.AdjustPoints(AdjustPointDto("user-1", 10, "Lucky wheel", Wheel));
    r := service.GetBalance("user-2");
  }
}
