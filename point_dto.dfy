/**
 * The request body of a points adjustment and its validation rules: a non-empty string
 * `userId`, a number `amount` (any sign, zero included), a non-empty string `description`
 * and a `type` among the four point categories.
 */
module PointDto {

  import opened Wrappers
  import opened PointSchema

  /**
   * One field of the request body after class-transformer's conversion: absent, null,
   * a string, a finite number, NaN (a failed numeric conversion), or some other value.
   */
  datatype BodyValue = Absent | Null | Str(s: string) | Num(n: int) | NaN | OtherValue

  datatype AdjustPointRequest = AdjustPointRequest(
    userId: BodyValue,
    amount: BodyValue,
    description: BodyValue,
    pointType: BodyValue)

  /** A request that passed validation. */
  datatype AdjustPointDto = AdjustPointDto(
    userId: UserId,
    amount: int,
    description: string,
    pointType: PointType)

  datatype Violation =
    | UserIdEmpty | UserIdNotString
    | AmountEmpty | AmountNotNumber
    | DescriptionEmpty | DescriptionNotString
    | TypeEmpty | TypeNotInEnum

  /** `@IsNotEmpty()`: rejects '', null and undefined only. */
  predicate IsNotEmpty(v: BodyValue) {
    !(v.Absent? || v.Null? || v == Str(""))
  }

  function StringViolations(v: BodyValue, empty: Violation, notString: Violation): set<Violation> {
    (if IsNotEmpty(v) then {} else {empty}) + (if v.Str? then {} else {notString})
  }

  function AmountViolations(v: BodyValue): set<Violation> {
    (if IsNotEmpty(v) then {} else {AmountEmpty}) + (if v.Num? then {} else {AmountNotNumber})
  }

  function TypeViolations(v: BodyValue): set<Violation> {
    (if IsNotEmpty(v) then {} else {TypeEmpty})
    + (if v.Str? && v.s in POINT_TYPE_NAMES then {} else {TypeNotInEnum})
  }

  function AllViolations(req: AdjustPointRequest): set<Violation> {
    StringViolations(req.userId, UserIdEmpty, UserIdNotString)
    + AmountViolations(req.amount)
    + StringViolations(req.description, DescriptionEmpty, DescriptionNotString)
    + TypeViolations(req.pointType)
  }

  predicate IsValidDto(dto: AdjustPointDto) {
    dto.userId != "" && dto.description != ""
  }

  function ValidateAdjustPoint(req: AdjustPointRequest): (r: Result<AdjustPointDto, set<Violation>>)
    ensures r.Ok? <==>
      && req.userId.Str? && req.userId.s != ""
      && req.amount.Num?
      && req.description.Str? && req.description.s != ""
      && req.pointType.Str? && req.pointType.s in POINT_TYPE_NAMES
    ensures r.Ok? ==>
      && r.value.userId == req.userId.s
      && r.value.amount == req.amount.n
      && r.value.description == req.description.s
      && PointTypeName(r.value.pointType) == req.pointType.s
      && IsValidDto(r.value)
    ensures r.Err? ==> r.error != {}
  {
    var violations := AllViolations(req);
    if violations == {} then
      Ok(AdjustPointDto(req.userId.s, req.amount.n, req.description.s, ParsePointType(req.pointType.s).value))
    else
      Err(violations)
  }

  /** No sign or non-zero rule applies to `amount`: zero and negative amounts pass. */
  lemma AnyAmountAccepted(userId: string, amount: int, description: string, t: PointType)
    requires userId != "" && description != ""
    ensures ValidateAdjustPoint(AdjustPointRequest(Str(userId), Num(amount), Str(description), Str(PointTypeName(t))))
         == Ok(AdjustPointDto(userId, amount, description, t))
  {
    PointTypeNameRoundTrip(t);
  }

  /** A `type` string outside the four values is rejected, whatever the other fields are. */
  lemma UnknownTypeRejected(req: AdjustPointRequest)
    requires req.pointType.Str? && req.pointType.s !in POINT_TYPE_NAMES
    ensures ValidateAdjustPoint(req).Err?
    ensures TypeNotInEnum in ValidateAdjustPoint(req).error
  {
  }
}
