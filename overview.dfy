/**
 * `getOverallStats`: five independent counts over the whole table and the
 * overall conversion rate. The counts run concurrently in the service; here
 * they are five pure counts over the same event sequence.
 */
module Overview {
  import opened Base
  import opened Events
  import opened AnalyticsTypes

  /** The overview as the service assembles it from the five counts. */
  function GetOverallStats(events: seq<Event>): (r: OverallStats)
    ensures r.totalEvents == |events|
    ensures r.eventsBySource.facebook == |Members(events, SourceOf, "facebook")|
    ensures r.eventsBySource.tiktok == |Members(events, SourceOf, "tiktok")|
    ensures r.eventsByFunnel.top == |Members(events, StageOf, "top")|
    ensures r.eventsByFunnel.bottom == |Members(events, StageOf, "bottom")|
    ensures r.conversionRate.NoTopEvents? <==> r.eventsByFunnel.top == 0
    ensures r.conversionRate.Percent? ==>
      r.conversionRate.value == ConversionPercent(r.eventsByFunnel.bottom, r.eventsByFunnel.top)
  {
    var top := |Members(events, StageOf, "top")|;
    var bottom := |Members(events, StageOf, "bottom")|;
    OverallStats(
      |events|,
      SourceCounts(|Members(events, SourceOf, "facebook")|, |Members(events, SourceOf, "tiktok")|),
      FunnelCounts(top, bottom),
      if top > 0 then Percent(ConversionPercent(bottom, top)) else NoTopEvents)
  }

  /**
   * The per-source and per-stage counts never exceed the total; each pair
   * adds up to the total exactly when no event carries another source
   * (resp. stage) value.
   */
  lemma OverviewSourcePartition(events: seq<Event>)
    ensures var r := GetOverallStats(events);
      && r.eventsBySource.facebook + r.eventsBySource.tiktok <= r.totalEvents
      && (r.eventsBySource.facebook + r.eventsBySource.tiktok == r.totalEvents
          <==> forall e :: e in events ==> e.source == "facebook" || e.source == "tiktok")
  {
    TwoGroupsCover(events, SourceOf, "facebook", "tiktok");
  }

  lemma OverviewFunnelPartition(events: seq<Event>)
    ensures var r := GetOverallStats(events);
      && r.eventsByFunnel.top + r.eventsByFunnel.bottom <= r.totalEvents
      && (r.eventsByFunnel.top + r.eventsByFunnel.bottom == r.totalEvents
          <==> forall e :: e in events ==> e.funnelStage == "top" || e.funnelStage == "bottom")
  {
    TwoGroupsCover(events, StageOf, "top", "bottom");
  }
}
