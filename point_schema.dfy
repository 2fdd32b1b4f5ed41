/**
 * The two ledger collections: one balance row per user, and the history of adjustments.
 * Both carry `createdAt` / `updatedAt` timestamps; here timestamps are readings of a
 * logical clock and document ids are natural numbers.
 */
module PointSchema {

  import opened Wrappers

  type UserId = string
  type DocId = nat
  type Timestamp = nat

  /** The closed set of point categories. */
  datatype PointType = Wheel | Spend | AdminAdjust | AdminBonus

  /** The enum list the history schema declares for `type`. */
  const POINT_TYPE_NAMES: seq<string> := ["WHEEL", "SPEND", "ADMIN-ADJUST", "ADMIN-BONUS"]

  /** The string literal of each member of the `EnumPointType` alias. */
  function PointTypeName(t: PointType): string {
    match t
    case Wheel => "WHEEL"
    case Spend => "SPEND"
    case AdminAdjust => "ADMIN-ADJUST"
    case AdminBonus => "ADMIN-BONUS"
  }

  function ParsePointType(s: string): (r: Option<PointType>)
    ensures r.Some? <==> s in POINT_TYPE_NAMES
    ensures r.Some? ==> PointTypeName(r.value) == s
  {
    if s == "WHEEL" then Some(Wheel)
    else if s == "SPEND" then Some(Spend)
    else if s == "ADMIN-ADJUST" then Some(AdminAdjust)
    else if s == "ADMIN-BONUS" then Some(AdminBonus)
    else None
  }

  /** The type alias and the schema's enum list name the same four values, each once. */
  lemma PointTypeNamesAgree()
    ensures forall t: PointType :: PointTypeName(t) in POINT_TYPE_NAMES
    ensures forall s :: s in POINT_TYPE_NAMES ==> exists t: PointType :: PointTypeName(t) == s
    ensures |POINT_TYPE_NAMES| == 4
    ensures forall i, j :: 0 <= i < j < |POINT_TYPE_NAMES| ==> POINT_TYPE_NAMES[i] != POINT_TYPE_NAMES[j]
  {
    forall s | s in POINT_TYPE_NAMES
      ensures exists t: PointType :: PointTypeName(t) == s
    {
      assert PointTypeName(ParsePointType(s).value) == s;
    }
  }

  lemma PointTypeNameRoundTrip(t: PointType)
    ensures ParsePointType(PointTypeName(t)) == Some(t)
  {
  }

  /** The balance a row starts with. */
  const DEFAULT_BALANCE: int := 0

  /** A `balances` document: `userId` is unique across the collection. */
  datatype BalanceRow = BalanceRow(
    id: DocId,
    userId: UserId,
    balance: int,
    createdAt: Timestamp,
    updatedAt: Timestamp)

  /** A `point_history` document. */
  datatype HistoryEntry = HistoryEntry(
    id: DocId,
    userId: UserId,
    amount: int,
    balanceBefore: int,
    balanceAfter: int,
    description: string,
    pointType: PointType,
    createdAt: Timestamp,
    updatedAt: Timestamp)

  /** A balance row as created with only its user set: the schema default for `balance`. */
  function NewBalanceRow(id: DocId, userId: UserId, now: Timestamp): (row: BalanceRow)
    ensures row.balance == DEFAULT_BALANCE == 0
    ensures row.userId == userId && row.id == id
    ensures row.createdAt == row.updatedAt == now
  {
    BalanceRow(id, userId, DEFAULT_BALANCE, now, now)
  }

  /**
   * The schema's required-field rule for history documents: a required string must be
   * non-empty; the numeric fields and the enum `type` are present by construction.
   */
  predicate HistorySchemaAccepts(e: HistoryEntry) {
    e.userId != "" && e.description != ""
  }
}
