/**
 * What an accepted request means for the query it reaches: the request rules
 * bound the window and the row count, and the sources they let through behave
 * as the queries define them.
 */
module Requests {
  import opened Base
  import opened Events
  import opened QueryParams
  import opened TimeSeries
  import opened TopUsers
  import opened Campaigns
  import opened Ranking
  import opened AnalyticsTypes

  /**
   * An accepted time-series request asks for a window of one hour up to one
   * week before `now`.
   */
  lemma AcceptedWindow(hours: NumberParam, source: Option<string>, now: int)
    requires ValidateTimeSeriesQuery(hours, source).Success?
    ensures var q := ValidateTimeSeriesQuery(hours, source).value;
      now - 168 * 3600 <= Cutoff(now, q.hours) <= now - 3600
  {
  }

  /** An accepted time-series request for "all" filters on the window only. */
  lemma AcceptedAllSourceIsUnfiltered(hours: NumberParam, events: seq<Event>, now: int, e: Event)
    requires ValidateTimeSeriesQuery(hours, Some("all")).Success?
    ensures var q := ValidateTimeSeriesQuery(hours, Some("all")).value;
      q.source == Some(All)
      && (Selected(e, now, q.hours, Some(q.source.value.Text())) <==> e.timestamp >= Cutoff(now, q.hours))
  {
  }

  /**
   * "all" passes the top-users request rules, and the query then returns no
   * rows, whatever the events.
   */
  lemma AcceptedAllTopUsersIsEmpty(limit: NumberParam, events: seq<Event>)
    requires ValidateTopUsersQuery(limit, Some("all")).Success?
    ensures var q := ValidateTopUsersQuery(limit, Some("all")).value;
      q.source == All && GetTopUsers(events, q.source.Text(), q.limit) == []
  {
  }

  /** An accepted limit lets at most 100 campaign rows through. */
  lemma AcceptedLimitBoundsCampaigns(limit: NumberParam, events: seq<Event>)
    requires ValidateTopEntitiesQuery(limit).Success?
    ensures |GetTopCampaigns(events, ValidateTopEntitiesQuery(limit).value.limit)| <= 100
  {
  }

  /**
   * Under the documented source rule every accepted top-users request reaches
   * one of the two grouping statements, so no accepted request is answered
   * with the fixed empty list.
   */
  lemma DocumentedUserSourceIsRanked(p: Option<string>, events: seq<Event>, limit: nat)
    requires ValidateUserSource(p).Success?
    ensures var s := ValidateUserSource(p).value.Text();
      || (s == "facebook" && RankedBy(GetTopUsers(events, s, limit), FacebookUserGroups(events), limit, EntityCount))
      || (s == "tiktok" && RankedBy(GetTopUsers(events, s, limit), TiktokUserGroups(events), limit, EntityCount))
  {
  }
}
