/**
 * The request-parameter rules of the analytics endpoints: which `hours`,
 * `limit` and `source` values a request may carry and what an omitted one
 * defaults to. A numeric parameter arrives already converted to a number
 * (or to NaN, for text that is not one); the model receives that number.
 * A rejected request reports the set of constraints it broke.
 */
module QueryParams {
  import opened Base

  datatype EventSource = Facebook | Tiktok | All {
    /** The enum's string value, as the queries receive it. */
    function Text(): string {
      match this
      case Facebook => "facebook"
      case Tiktok => "tiktok"
      case All => "all"
    }
  }

  /** A numeric query parameter after conversion: absent, a finite number, or NaN. */
  datatype NumberParam = Omitted | Finite(value: real) | NotANumber

  /** The constraint a rejected value broke. */
  datatype Violation = NotInt | BelowMin | AboveMax | NotInEnum

  predicate IsInteger(x: real) {
    x == x.Floor as real
  }

  /**
   * The `@IsInt() @Min(lo) @Max(hi)` checks of an optional number: nothing is
   * checked when it is absent; NaN fails all three comparisons.
   */
  function RangeViolations(p: NumberParam, lo: int, hi: int): (v: set<Violation>)
    ensures v <= {NotInt, BelowMin, AboveMax}
    ensures v == {} <==> p.Omitted? || (p.Finite? && IsInteger(p.value) && lo as real <= p.value <= hi as real)
  {
    match p
    case Omitted => {}
    case NotANumber => {NotInt, BelowMin, AboveMax}
    case Finite(x) =>
      (if IsInteger(x) then {} else {NotInt})
      + (if x >= lo as real then {} else {BelowMin})
      + (if x <= hi as real then {} else {AboveMax})
  }

  /** An optional integer parameter in `[lo, hi]` with a default. */
  function ValidateRange(p: NumberParam, lo: nat, hi: nat, default: nat): (r: Result<nat, set<Violation>>)
    requires lo <= default <= hi
    ensures r.Success? <==> RangeViolations(p, lo, hi) == {}
    ensures r.Failure? ==> r.error == RangeViolations(p, lo, hi)
    ensures r.Success? ==> lo <= r.value <= hi
    ensures r.Success? && p.Finite? ==> r.value as real == p.value
    ensures p.Omitted? ==> r == Success(default)
  {
    match p
    case Omitted => Success(default)
    case NotANumber => Failure(RangeViolations(p, lo, hi))
    case Finite(x) =>
      var v := RangeViolations(p, lo, hi);
      if v != {} then Failure(v) else Success(x.Floor)
  }

  const HoursMin: nat := 1
  const HoursMax: nat := 168
  const HoursDefault: nat := 24
  const LimitMin: nat := 1
  const LimitMax: nat := 100
  const LimitDefault: nat := 10

  /** `hours`: an integer from 1 to 168, 24 when omitted. */
  function ValidateHours(p: NumberParam): (r: Result<nat, set<Violation>>)
    ensures r.Success? <==> p.Omitted? || (p.Finite? && IsInteger(p.value) && 1.0 <= p.value <= 168.0)
    ensures r.Success? ==> 1 <= r.value <= 168
    ensures r.Success? && p.Finite? ==> r.value as real == p.value
    ensures p.Omitted? ==> r == Success(24)
  {
    ValidateRange(p, HoursMin, HoursMax, HoursDefault)
  }

  /** `limit`: an integer from 1 to 100, 10 when omitted. */
  function ValidateLimit(p: NumberParam): (r: Result<nat, set<Violation>>)
    ensures r.Success? <==> p.Omitted? || (p.Finite? && IsInteger(p.value) && 1.0 <= p.value <= 100.0)
    ensures r.Success? ==> 1 <= r.value <= 100
    ensures r.Success? && p.Finite? ==> r.value as real == p.value
    ensures p.Omitted? ==> r == Success(10)
  {
    ValidateRange(p, LimitMin, LimitMax, LimitDefault)
  }

  /** `@IsEnum(EventSource)`: one of the three enum strings. */
  function ParseEventSource(t: string): (r: Option<EventSource>)
    ensures r.Some? <==> t == "facebook" || t == "tiktok" || t == "all"
    ensures r.Some? ==> r.value.Text() == t
  {
    if t == "facebook" then Some(Facebook)
    else if t == "tiktok" then Some(Tiktok)
    else if t == "all" then Some(All)
    else None
  }

  /** The source of `TimeSeriesQueryDto`: optional, and an enum value when present. */
  function ValidateTimeSeriesSource(p: Option<string>): (r: Result<Option<EventSource>, set<Violation>>)
    ensures r.Success? <==> p.None? || ParseEventSource(p.value).Some?
    ensures r.Success? && p.Some? ==> r.value.Some? && r.value.value.Text() == p.value
    ensures p.None? ==> r == Success(None)
  {
    match p
    case None => Success(None)
    case Some(t) =>
      match ParseEventSource(t)
      case None => Failure({NotInEnum})
      case Some(s) => Success(Some(s))
  }

  /** The source of `CountryBreakdownQueryDto`: optional, "all" when omitted. */
  function ValidateCountrySource(p: Option<string>): (r: Result<EventSource, set<Violation>>)
    ensures r.Success? <==> p.None? || ParseEventSource(p.value).Some?
    ensures r.Success? && p.Some? ==> r.value.Text() == p.value
    ensures p.None? ==> r == Success(All)
  {
    match p
    case None => Success(All)
    case Some(t) =>
      match ParseEventSource(t)
      case None => Failure({NotInEnum})
      case Some(s) => Success(s)
  }

  /**
   * The source of `TopUsersQueryDto`: required, and checked against the whole
   * enum, so "all" passes as well as "facebook" and "tiktok".
   */
  function ValidateTopUsersSource(p: Option<string>): (r: Result<EventSource, set<Violation>>)
    ensures r.Success? <==> p.Some? && ParseEventSource(p.value).Some?
    ensures r.Success? ==> r.value.Text() == p.value
  {
    match p
    case None => Failure({NotInEnum})
    case Some(t) =>
      match ParseEventSource(t)
      case None => Failure({NotInEnum})
      case Some(s) => Success(s)
  }

  /**
   * The top-users source as its documentation, its message ("source must be
   * facebook or tiktok") and its declared type describe it: required, and
   * only "facebook" or "tiktok".
   */
  function ValidateUserSource(p: Option<string>): (r: Result<EventSource, set<Violation>>)
    ensures r.Success? <==> p == Some("facebook") || p == Some("tiktok")
    ensures r.Success? ==> r.value != All && r.value.Text() == p.value
  {
    match ValidateTopUsersSource(p)
    case Success(All) => Failure({NotInEnum})
    case other => other
  }

  /** The rule as written lets "all" through; the documented rule does not. */
  lemma AllPassesUserSourceRule()
    ensures ValidateTopUsersSource(Some("all")) == Success(All)
    ensures ValidateUserSource(Some("all")) == Failure({NotInEnum})
  {
  }

  datatype TimeSeriesQuery = TimeSeriesQuery(hours: nat, source: Option<EventSource>)
  datatype TopEntitiesQuery = TopEntitiesQuery(limit: nat)
  datatype CountryBreakdownQuery = CountryBreakdownQuery(source: EventSource)
  datatype TopUsersQuery = TopUsersQuery(limit: nat, source: EventSource)

  /** The violations a field's check reported, none when it passed. */
  function Violations<T>(r: Result<T, set<Violation>>): set<Violation> {
    match r
    case Success(_) => {}
    case Failure(v) => v
  }

  /** Both fields checked; a rejection reports the violations of both. */
  function ValidateTimeSeriesQuery(hours: NumberParam, source: Option<string>): (r: Result<TimeSeriesQuery, set<Violation>>)
    ensures r.Success? <==> ValidateHours(hours).Success? && ValidateTimeSeriesSource(source).Success?
    ensures r.Success? ==> r.value == TimeSeriesQuery(ValidateHours(hours).value, ValidateTimeSeriesSource(source).value)
  {
    var h, s := ValidateHours(hours), ValidateTimeSeriesSource(source);
    if h.Success? && s.Success? then Success(TimeSeriesQuery(h.value, s.value))
    else Failure(Violations(h) + Violations(s))
  }

  function ValidateTopEntitiesQuery(limit: NumberParam): (r: Result<TopEntitiesQuery, set<Violation>>)
    ensures r.Success? <==> ValidateLimit(limit).Success?
    ensures r.Success? ==> r.value.limit == ValidateLimit(limit).value
  {
    match ValidateLimit(limit)
    case Success(l) => Success(TopEntitiesQuery(l))
    case Failure(v) => Failure(v)
  }

  function ValidateCountryBreakdownQuery(source: Option<string>): (r: Result<CountryBreakdownQuery, set<Violation>>)
    ensures r.Success? <==> ValidateCountrySource(source).Success?
    ensures r.Success? ==> r.value.source == ValidateCountrySource(source).value
  {
    match ValidateCountrySource(source)
    case Success(s) => Success(CountryBreakdownQuery(s))
    case Failure(v) => Failure(v)
  }

  /** `TopUsersQueryDto`: the inherited `limit` rule plus the required source. */
  function ValidateTopUsersQuery(limit: NumberParam, source: Option<string>): (r: Result<TopUsersQuery, set<Violation>>)
    ensures r.Success? <==> ValidateTopEntitiesQuery(limit).Success? && ValidateTopUsersSource(source).Success?
    ensures r.Success? ==> r.value == TopUsersQuery(ValidateTopEntitiesQuery(limit).value.limit, ValidateTopUsersSource(source).value)
  {
    var q, s := ValidateTopEntitiesQuery(limit), ValidateTopUsersSource(source);
    if q.Success? && s.Success? then Success(TopUsersQuery(q.value.limit, s.value))
    else Failure(Violations(q) + Violations(s))
  }

  /**
   * A top-users request accepts exactly the limits a top-entities request
   * accepts, with the same default, whatever the source.
   */
  lemma TopUsersInheritsLimit(limit: NumberParam, source: string)
    requires source == "facebook" || source == "tiktok" || source == "all"
    ensures ValidateTopUsersQuery(limit, Some(source)).Success? <==> ValidateTopEntitiesQuery(limit).Success?
    ensures ValidateTopUsersQuery(limit, Some(source)).Success? ==>
      ValidateTopUsersQuery(limit, Some(source)).value.limit == ValidateTopEntitiesQuery(limit).value.limit
    ensures limit.Omitted? ==> ValidateTopUsersQuery(limit, Some(source)).value.limit == 10
  {
  }

  /** A fractional, out-of-range or NaN value is rejected with each constraint it breaks. */
  lemma RejectedNumbers()
    ensures ValidateHours(Finite(0.5)) == Failure({NotInt, BelowMin})
    ensures ValidateHours(Finite(169.0)) == Failure({AboveMax})
    ensures ValidateHours(NotANumber) == Failure({NotInt, BelowMin, AboveMax})
    ensures ValidateLimit(Finite(0.0)) == Failure({BelowMin})
    ensures ValidateLimit(Finite(100.0)) == Success(100)
  {
    assert 0.5.Floor == 0 && 169.0.Floor == 169 && 100.0.Floor == 100 && 0.0.Floor == 0;
    assert RangeViolations(Finite(0.5), 1, 168) == {NotInt, BelowMin};
    assert RangeViolations(Finite(169.0), 1, 168) == {AboveMax};
    assert RangeViolations(Finite(0.0), 1, 100) == {BelowMin};
  }
}
