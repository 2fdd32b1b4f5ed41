/**
 * The query-string validator for `page` and `limit` on listing endpoints. Each field is
 * optional and defaults to the first page and the default limit; a supplied value must be
 * a whole number of at least 1, and a limit must not exceed MAX_LIMIT.
 */
module PaginationDto {

  import opened Wrappers
  import opened Pagination
  import Text

  /** The query after `@Type(() => Number)`: each field absent or a number. */
  datatype PaginationQuery = PaginationQuery(page: Option<real>, limit: Option<real>)

  datatype Violation = PageNotInteger | PageBelowMin | LimitNotInteger | LimitBelowMin | LimitAboveMax

  function ViolationMessage(v: Violation): string {
    match v
    case PageNotInteger => "Page must be an integer"
    case PageBelowMin => "Page must be at least 1"
    case LimitNotInteger => "Limit must be an integer"
    case LimitBelowMin => "Limit must be at least 1"
    case LimitAboveMax => "Limit must not exceed " + Text.NatToString(MAX_LIMIT)
  }

  predicate IsInteger(x: real) {
    x.Floor as real == x
  }

  function PageViolations(page: Option<real>): set<Violation> {
    match page
    case None => {}
    case Some(x) =>
      (if IsInteger(x) then {} else {PageNotInteger}) + (if x >= 1.0 then {} else {PageBelowMin})
  }

  function LimitViolations(limit: Option<real>): set<Violation> {
    match limit
    case None => {}
    case Some(x) =>
      (if IsInteger(x) then {} else {LimitNotInteger})
      + (if x >= 1.0 then {} else {LimitBelowMin})
      + (if x <= MAX_LIMIT as real then {} else {LimitAboveMax})
  }

  predicate AcceptablePage(x: real) { IsInteger(x) && x >= 1.0 }
  predicate AcceptableLimit(x: real) { IsInteger(x) && 1.0 <= x <= MAX_LIMIT as real }

  /**
   * Validation of a pagination query: every failed constraint is reported (as
   * class-validator reports all of them), and a query without failures yields the
   * values, with the declared defaults for absent fields.
   */
  function ValidatePaginationQuery(q: PaginationQuery): (r: Result<NormalizedOptions, set<Violation>>)
    ensures r.Ok? <==>
      (q.page.None? || AcceptablePage(q.page.value)) && (q.limit.None? || AcceptableLimit(q.limit.value))
    ensures r.Ok? ==> r.value.page == (if q.page.None? then DEFAULT_PAGE else q.page.value.Floor)
    ensures r.Ok? ==> r.value.limit == (if q.limit.None? then DEFAULT_LIMIT else q.limit.value.Floor)
    ensures r.Ok? ==> r.value.page >= 1 && 1 <= r.value.limit <= MAX_LIMIT
    ensures r.Err? ==> r.error != {}
    ensures r.Err? ==> (LimitAboveMax in r.error <==> q.limit.Some? && q.limit.value > MAX_LIMIT as real)
  {
    var violations := PageViolations(q.page) + LimitViolations(q.limit);
    if violations == {} then
      Ok(NormalizedOptions(
        if q.page.None? then DEFAULT_PAGE else q.page.value.Floor,
        if q.limit.None? then DEFAULT_LIMIT else q.limit.value.Floor))
    else
      Err(violations)
  }

  /** The service-side normaliser leaves a query the validator accepted as it is. */
  lemma NormalizerKeepsValidatedQuery(q: PaginationQuery)
    requires ValidatePaginationQuery(q).Ok?
    ensures var v := ValidatePaginationQuery(q).value;
      NormalizePaginationOptions(AsOptions(v)) == v
  {
    var v := ValidatePaginationQuery(q).value;
    assert (v.page as real).Floor == v.page;
    assert (v.limit as real).Floor == v.limit;
  }

  /** An over-large limit is rejected here, whereas the normaliser alone would clamp it. */
  lemma OverLargeLimitRejectedNotClamped(x: real)
    requires IsInteger(x) && x > MAX_LIMIT as real
    ensures ValidatePaginationQuery(PaginationQuery(None, Some(x))) == Err({LimitAboveMax})
    ensures NormalizePaginationOptions(PaginationOptions(None, Some(x))).limit == MAX_LIMIT
  {
    assert x.Floor > MAX_LIMIT;
    assert x >= 1.0 && !(x <= MAX_LIMIT as real);
    assert LimitViolations(Some(x)) == {} + {} + {LimitAboveMax};
    assert PageViolations(None) + LimitViolations(Some(x)) == {LimitAboveMax};
  }
}
