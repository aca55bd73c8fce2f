/**
 * The response shapes of the analytics queries. Counts are `nat`; amounts
 * and rates are exact `real`s (the JavaScript float conversion that the
 * service applies last is not modelled). A SQL NULL that the service passes
 * through unchanged is an `Option`.
 */
module AnalyticsTypes {
  import opened Base

  /** One hour bucket: its start (seconds since the epoch, UTC) and its event count. */
  datatype TimeSeriesDataPoint = TimeSeriesDataPoint(date: int, count: nat)

  datatype CountryBreakdown = CountryBreakdown(
    country: string,
    eventCount: nat,
    uniqueUsers: nat,
    totalPurchases: nat,
    totalRevenue: real)

  datatype FunnelAnalysis = FunnelAnalysis(
    source: string,
    topEvents: nat,
    bottomEvents: nat,
    conversionRate: real)

  datatype EventTypeRanking = EventTypeRanking(source: string, eventType: string, count: nat)

  /** A ranked campaign or user; `metric` is absent where the query has none. */
  datatype TopEntity = TopEntity(id: Option<string>, name: Option<string>, count: nat, metric: Option<real>)

  datatype SourceCounts = SourceCounts(facebook: nat, tiktok: nat)

  datatype FunnelCounts = FunnelCounts(top: nat, bottom: nat)

  /**
   * The overview's conversion rate: the literal "0.00" when there are no
   * top-of-funnel events, otherwise bottom / top * 100 before it is printed
   * with two decimals.
   */
  datatype ConversionRate = NoTopEvents | Percent(value: real)

  datatype OverallStats = OverallStats(
    totalEvents: nat,
    eventsBySource: SourceCounts,
    eventsByFunnel: FunnelCounts,
    conversionRate: ConversionRate)

  datatype RevenueStats = RevenueStats(totalRevenue: real, purchaseCount: nat, averageOrderValue: real)

  datatype RevenueTotal = RevenueTotal(totalRevenue: real, purchaseCount: nat)

  datatype RevenueAnalysis = RevenueAnalysis(facebook: RevenueStats, tiktok: RevenueStats, total: RevenueTotal)

  /** `bottom / top * 100`, the conversion rate of both the overview and the funnel, before rounding. */
  function ConversionPercent(bottom: nat, top: nat): (r: real)
    requires top > 0
    ensures r * top as real == bottom as real * 100.0
    ensures r >= 0.0
    ensures r <= 100.0 <==> bottom <= top
  {
    var q := bottom as real / top as real;
    assert q * top as real == bottom as real;
    assert q <= 1.0 ==> q * top as real <= top as real;
    assert q > 1.0 ==> q * top as real > top as real;
    q * 100.0
  }

  /** The ranking keys of the `ORDER BY ... DESC` queries. */
  function RankingCount(r: EventTypeRanking): nat { r.count }
  function CountryEventCount(r: CountryBreakdown): nat { r.eventCount }
  function EntityCount(r: TopEntity): nat { r.count }
}
