/** The response shapes of the points endpoints and how a stored document maps onto them. */
module PointEntities {

  import opened Wrappers
  import opened PointSchema

  /** The sign of an adjustment as shown to clients. */
  datatype Action = Plus | Minus

  function ActionOf(amount: int): (a: Action)
    ensures a == Plus <==> amount >= 0
    ensures a == Minus <==> amount < 0
  {
    if amount >= 0 then Plus else Minus
  }

  function ActionName(a: Action): string {
    match a
    case Plus => "plus"
    case Minus => "minus"
  }

  /** The exposed `_id`: `_id ?? id`, absent when the source object carries neither. */
  function ExposedId<T>(underscoreId: Option<T>, id: Option<T>): (r: Option<T>)
    ensures underscoreId.Some? ==> r == underscoreId
    ensures underscoreId.None? ==> r == id
    ensures r.None? <==> underscoreId.None? && id.None?
  {
    if underscoreId.Some? then underscoreId else id
  }

  datatype PointHistoryEntity = PointHistoryEntity(
    id: Option<DocId>,
    userId: UserId,
    amount: int,
    action: Action,
    balanceBefore: int,
    balanceAfter: int,
    description: string,
    pointType: string,
    createdAt: Timestamp)

  datatype PointBalanceEntity = PointBalanceEntity(
    id: Option<DocId>,
    userId: UserId,
    balance: int,
    updatedAt: Option<Timestamp>)

  /** A summary is exactly a balance and a list of history entities. */
  datatype UserPointSummaryEntity = UserPointSummaryEntity(
    balance: int,
    history: seq<PointHistoryEntity>)

  /**
   * A stored history document as exposed: the recorded fields unchanged, `action` derived
   * from the sign of `amount`, and `_id` from the document's own id (a plain stored object
   * has `_id` and no `id`).
   */
  function ToHistoryEntity(e: HistoryEntry): (r: PointHistoryEntity)
    ensures r.id == Some(e.id)
    ensures r.userId == e.userId && r.amount == e.amount
    ensures r.balanceBefore == e.balanceBefore && r.balanceAfter == e.balanceAfter
    ensures r.description == e.description && r.createdAt == e.createdAt
    ensures r.pointType == PointTypeName(e.pointType)
    ensures r.action == Plus <==> e.amount >= 0
  {
    PointHistoryEntity(
      ExposedId(Some(e.id), None), e.userId, e.amount, ActionOf(e.amount),
      e.balanceBefore, e.balanceAfter, e.description, PointTypeName(e.pointType), e.createdAt)
  }

  function ToBalanceEntity(row: BalanceRow): (r: PointBalanceEntity)
    ensures r.id == Some(row.id) && r.userId == row.userId
    ensures r.balance == row.balance && r.updatedAt == Some(row.updatedAt)
  {
    PointBalanceEntity(ExposedId(Some(row.id), None), row.userId, row.balance, Some(row.updatedAt))
  }

  /** The projection returned for a user without a row: `{ userId: { _id: userId }, balance: 0 }`. */
  function ImplicitBalanceEntity(userId: UserId): (r: PointBalanceEntity)
    ensures r.balance == 0 && r.userId == userId
    ensures r.id.None? && r.updatedAt.None?
  {
    PointBalanceEntity(ExposedId(None, None), userId, 0, None)
  }

  function HistoryEntities(es: seq<HistoryEntry>): (r: seq<PointHistoryEntity>)
    ensures |r| == |es|
    ensures forall i :: 0 <= i < |es| ==> r[i] == ToHistoryEntity(es[i])
  {
    seq(|es|, i requires 0 <= i < |es| => ToHistoryEntity(es[i]))
  }

  function BalanceEntities(rows: seq<BalanceRow>): (r: seq<PointBalanceEntity>)
    ensures |r| == |rows|
    ensures forall i :: 0 <= i < |rows| ==> r[i] == ToBalanceEntity(rows[i])
  {
    seq(|rows|, i requires 0 <= i < |rows| => ToBalanceEntity(rows[i]))
  }

  /** The exposed form of a listed row is listed among the exposed rows. */
  lemma ExposedMember(rows: seq<BalanceRow>, x: BalanceRow)
    requires x in rows
    ensures ToBalanceEntity(x) in BalanceEntities(rows)
  {
    var k :| 0 <= k < |rows| && rows[k] == x;
    assert BalanceEntities(rows)[k] == ToBalanceEntity(x);
  }

}
