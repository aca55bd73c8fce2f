/**
 * `getTopCampaigns`: Facebook events that name a campaign, grouped by the
 * campaign id, with the revenue of each campaign, largest groups first.
 */
module Campaigns {
  import opened Base
  import opened Events
  import opened AnalyticsTypes
  import opened Ranking
  import opened NumberText

  function FacebookEvents(events: seq<Event>): seq<Event> {
    Members(events, SourceOf, "facebook")
  }

  /** One campaign group; the id serves as both id and name. */
  function CampaignRow(fb: seq<Event>, c: string): TopEntity {
    var g := Members(fb, CampaignId, Some(c));
    TopEntity(Some(c), Some(c), |g|, Some(AmountTotal(g)))
  }

  function CampaignRows(fb: seq<Event>, cs: seq<string>): (r: seq<TopEntity>)
    ensures |r| == |cs|
    ensures forall i :: 0 <= i < |r| ==> r[i] == CampaignRow(fb, cs[i])
  {
    seq(|cs|, i requires 0 <= i < |cs| => CampaignRow(fb, cs[i]))
  }

  /** The rows of `GROUP BY campaignId` over the Facebook events with a campaign id. */
  function CampaignGroups(events: seq<Event>): seq<TopEntity> {
    var fb := FacebookEvents(events);
    CampaignRows(fb, Present(Keys(fb, CampaignId)))
  }

  function GetTopCampaigns(events: seq<Event>, limit: nat): (r: seq<TopEntity>)
    ensures RankedBy(r, CampaignGroups(events), limit, EntityCount)
  {
    TopN(CampaignGroups(events), limit, EntityCount)
  }

  /**
   * Each campaign row: id and name are the same present campaign id, the
   * count is the number of Facebook events naming it (at least one), and the
   * metric is the sum of their valid amounts, 0 when none is valid.
   */
  lemma CampaignGroupFacts(events: seq<Event>, i: nat)
    requires i < |CampaignGroups(events)|
    ensures var row := CampaignGroups(events)[i];
      && row.id.Some? && row.id == row.name
      && row.count >= 1
      && row.count == |Members(events, CampaignKey, (Some("facebook"), row.id))|
      && row.metric.Some? && row.metric.value >= 0.0
      && row.metric.value == AmountTotal(Members(FacebookEvents(events), CampaignId, row.id))
  {
    var fb := FacebookEvents(events);
    var cs := Present(Keys(fb, CampaignId));
    assert cs[i] in cs;
    FacebookCampaignMembers(events, cs[i]);
  }

  /** The source and the campaign id of an event, as one key. */
  function CampaignKey(e: Event): (Option<string>, Option<string>) {
    (Some(e.source), CampaignId(e))
  }

  /**
   * The Facebook events of campaign `c` are exactly the events whose source is
   * "facebook" and whose campaign id is `c`: other sources never take part.
   */
  lemma {:induction false} FacebookCampaignMembers(events: seq<Event>, c: string)
    ensures Members(FacebookEvents(events), CampaignId, Some(c)) == Members(events, CampaignKey, (Some("facebook"), Some(c)))
  {
    if events != [] {
      var prefix, last := events[..|events| - 1], events[|events| - 1];
      assert events == prefix + [last];
      var k := (Some("facebook"), Some(c));
      FacebookCampaignMembers(prefix, c);
      MembersAppend(prefix, last, SourceOf, "facebook");
      MembersAppend(prefix, last, CampaignKey, k);
      if last.source == "facebook" {
        assert FacebookEvents(events) == FacebookEvents(prefix) + [last];
        MembersAppend(FacebookEvents(prefix), last, CampaignId, Some(c));
        assert (CampaignKey(last) == k) == (CampaignId(last) == Some(c));
      } else {
        assert FacebookEvents(events) == FacebookEvents(prefix);
        assert Members(events, CampaignKey, k) == Members(prefix, CampaignKey, k);
      }
    }
  }

  /**
   * One campaign group as the statement sent to the database computes it: the
   * metric SUM aborts the whole statement when a stray text reaches the cast.
   */
  function CampaignRowAsSent(fb: seq<Event>, c: string): (r: Result<TopEntity, QueryError>)
    ensures r.Success? ==> r.value.id == Some(c) && r.value.metric.Some? && r.value.metric.value >= 0.0
  {
    var g := Members(fb, CampaignId, Some(c));
    match AmountTotalAsSent(g)
    case Failure(err) => Failure(err)
    case Success(total) => Success(TopEntity(Some(c), Some(c), |g|, Some(total)))
  }

  /** The groups of the statement as sent, or its failure when any group's SUM aborts. */
  function CampaignGroupsAsSent(events: seq<Event>): Result<seq<TopEntity>, QueryError> {
    var fb := FacebookEvents(events);
    var cs := Present(Keys(fb, CampaignId));
    Collect(seq(|cs|, i requires 0 <= i < |cs| => CampaignRowAsSent(fb, cs[i])))
  }

  /** The query as sent: the `limit` largest campaigns, unless the statement fails. */
  function GetTopCampaignsAsWritten(events: seq<Event>, limit: nat): (r: Result<seq<TopEntity>, QueryError>)
    ensures r.Success? ==>
      && CampaignGroupsAsSent(events).Success?
      && RankedBy(r.value, CampaignGroupsAsSent(events).value, limit, EntityCount)
  {
    match CampaignGroupsAsSent(events)
    case Failure(err) => Failure(err)
    case Success(groups) => Success(TopN(groups, limit, EntityCount))
  }

  /**
   * The query as sent fails exactly when some Facebook event that names a
   * campaign carries an amount text whose cast aborts.
   */
  lemma CampaignsAsWrittenFails(events: seq<Event>, limit: nat)
    ensures GetTopCampaignsAsWritten(events, limit).Failure?
      <==> exists e :: e in events && e.source == "facebook" && CampaignId(e).Some? && AmountAsSent(e).Failure?
  {
    FailureHasStrayCampaign(events, limit);
    StrayCampaignFails(events, limit);
  }

  lemma FailureHasStrayCampaign(events: seq<Event>, limit: nat)
    ensures GetTopCampaignsAsWritten(events, limit).Failure?
      ==> exists e :: e in events && e.source == "facebook" && CampaignId(e).Some? && AmountAsSent(e).Failure?
  {
    var fb := FacebookEvents(events);
    var cs := Present(Keys(fb, CampaignId));
    var rs := seq(|cs|, i requires 0 <= i < |cs| => CampaignRowAsSent(fb, cs[i]));
    assert GetTopCampaignsAsWritten(events, limit).Failure? ==> exists i :: 0 <= i < |rs| && rs[i].Failure?;
    if i :| 0 <= i < |rs| && rs[i].Failure? {
      MembersIn(events, SourceOf, "facebook");
      CampaignRowAsSentFails(fb, cs[i]);
    }
  }

  lemma StrayCampaignFails(events: seq<Event>, limit: nat)
    ensures (exists e :: e in events && e.source == "facebook" && CampaignId(e).Some? && AmountAsSent(e).Failure?)
      ==> GetTopCampaignsAsWritten(events, limit).Failure?
  {
    var fb := FacebookEvents(events);
    var cs := Present(Keys(fb, CampaignId));
    if e :| e in events && e.source == "facebook" && CampaignId(e).Some? && AmountAsSent(e).Failure? {
      var c := CampaignId(e).value;
      MembersIn(events, SourceOf, "facebook");
      CampaignRowAsSentFails(fb, c);
      SomeCampaignRowFails(fb, cs, c);
    }
  }

  /** One campaign aborts exactly when one of its events' casts aborts. */
  lemma CampaignRowAsSentFails(fb: seq<Event>, c: string)
    ensures CampaignRowAsSent(fb, c).Failure?
      <==> exists e :: e in fb && CampaignId(e) == Some(c) && AmountAsSent(e).Failure?
  {
    MembersIn(fb, CampaignId, Some(c));
    AmountTotalAsSentFails(Members(fb, CampaignId, Some(c)));
  }

  lemma SomeCampaignRowFails(fb: seq<Event>, cs: seq<string>, c: string)
    requires c in cs && CampaignRowAsSent(fb, c).Failure?
    ensures Collect(seq(|cs|, i requires 0 <= i < |cs| => CampaignRowAsSent(fb, cs[i]))).Failure?
  {
    var i := IndexOf(cs, c);
    var rs := seq(|cs|, i requires 0 <= i < |cs| => CampaignRowAsSent(fb, cs[i]));
    assert rs[i] == CampaignRowAsSent(fb, c);
  }

  /** Without stray texts among the events, the query as sent returns the intended rows. */
  lemma CampaignsAsWrittenAgrees(events: seq<Event>, limit: nat)
    requires forall e :: e in events ==> !StrayAmount(e)
    ensures GetTopCampaignsAsWritten(events, limit) == Success(GetTopCampaigns(events, limit))
  {
    CampaignGroupsAgree(events);
  }

  /** Without stray texts among the events, the groups as sent are the intended groups. */
  lemma CampaignGroupsAgree(events: seq<Event>)
    requires forall e :: e in events ==> !StrayAmount(e)
    ensures CampaignGroupsAsSent(events) == Success(CampaignGroups(events))
  {
    var fb := FacebookEvents(events);
    var cs := Present(Keys(fb, CampaignId));
    MembersIn(events, SourceOf, "facebook");
    CampaignRowsAgree(fb, cs);
    CollectAll(seq(|cs|, i requires 0 <= i < |cs| => CampaignRowAsSent(fb, cs[i])), CampaignRows(fb, cs));
  }

  /** Without stray texts every group as sent holds the intended row. */
  lemma CampaignRowsAgree(fb: seq<Event>, cs: seq<string>)
    requires forall e :: e in fb ==> !StrayAmount(e)
    ensures forall i :: 0 <= i < |cs| ==> CampaignRowAsSent(fb, cs[i]) == Success(CampaignRows(fb, cs)[i])
  {
    forall i | 0 <= i < |cs| ensures CampaignRowAsSent(fb, cs[i]) == Success(CampaignRow(fb, cs[i])) {
      MembersIn(fb, CampaignId, Some(cs[i]));
      AmountTotalAsSentAgrees(Members(fb, CampaignId, Some(cs[i])));
    }
  }
}
