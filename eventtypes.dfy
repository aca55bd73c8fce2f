/**
 * `getEventsByType`: one row per (source, eventType) pair with its event
 * count, the `limit` largest counts first.
 */
module EventTypes {
  import opened Base
  import opened Events
  import opened AnalyticsTypes
  import opened Ranking

  function TypeKey(e: Event): (string, string) {
    (e.source, e.eventType)
  }

  /** One row per key of `ks`, with the size of that key's group. */
  function TypeRows(events: seq<Event>, ks: seq<(string, string)>): (r: seq<EventTypeRanking>)
    ensures |r| == |ks|
    ensures forall i :: 0 <= i < |r| ==>
      r[i] == EventTypeRanking(ks[i].0, ks[i].1, |Members(events, TypeKey, ks[i])|)
  {
    seq(|ks|, i requires 0 <= i < |ks| => EventTypeRanking(ks[i].0, ks[i].1, |Members(events, TypeKey, ks[i])|))
  }

  /** The rows of `GROUP BY source, "eventType"`, before ordering. */
  function EventTypeGroups(events: seq<Event>): seq<EventTypeRanking> {
    TypeRows(events, Keys(events, TypeKey))
  }

  function SumCounts(rows: seq<EventTypeRanking>): nat {
    if rows == [] then 0 else rows[0].count + SumCounts(rows[1..])
  }

  /** The query: the groups ordered by count, largest first, cut at `limit`. */
  function GetEventsByType(events: seq<Event>, limit: nat): (r: seq<EventTypeRanking>)
    ensures RankedBy(r, EventTypeGroups(events), limit, RankingCount)
  {
    TopN(EventTypeGroups(events), limit, RankingCount)
  }

  lemma {:induction false} SumTypeRows(events: seq<Event>, ks: seq<(string, string)>)
    ensures SumCounts(TypeRows(events, ks)) == GroupSizes(events, TypeKey, ks)
  {
    if ks != [] {
      SumTypeRows(events, ks[1..]);
      assert TypeRows(events, ks)[1..] == TypeRows(events, ks[1..]);
    }
  }

  /**
   * Each group counts exactly the events of its (source, eventType) pair and
   * is non-empty, and no pair has two rows.
   */
  lemma EventTypeGroupsExact(events: seq<Event>)
    ensures var g := EventTypeGroups(events);
      && (forall i :: 0 <= i < |g| ==>
            g[i].count == |Members(events, TypeKey, (g[i].source, g[i].eventType))| && g[i].count >= 1)
      && (forall i, j :: 0 <= i < j < |g| ==> (g[i].source, g[i].eventType) != (g[j].source, g[j].eventType))
  {
    var ks := Keys(events, TypeKey);
    var g := EventTypeGroups(events);
    forall i | 0 <= i < |g|
      ensures g[i].count >= 1 && (g[i].source, g[i].eventType) == ks[i]
    {
      assert ks[i] in ks;
    }
  }

  /** Every event's (source, eventType) pair has a row. */
  lemma EventTypeGroupsComplete(events: seq<Event>, e: Event)
    requires e in events
    ensures var g := EventTypeGroups(events);
      exists i :: 0 <= i < |g| && g[i].source == e.source && g[i].eventType == e.eventType
  {
    var ks := Keys(events, TypeKey);
    var g := EventTypeGroups(events);
    assert TypeKey(e) in ks;
    var i :| 0 <= i < |ks| && ks[i] == TypeKey(e);
    assert g[i].source == e.source && g[i].eventType == e.eventType;
  }

  /** The group counts add up to the number of events. */
  lemma EventTypeGroupsSum(events: seq<Event>)
    ensures SumCounts(EventTypeGroups(events)) == |events|
  {
    SumTypeRows(events, Keys(events, TypeKey));
    GroupSizesPartition(events, TypeKey);
  }

  /**
   * Every row returned is one of the groups, at most `limit` rows come back,
   * and no pair of any event outranks the first row.
   */
  lemma EventsByTypeResult(events: seq<Event>, limit: nat)
    ensures var r := GetEventsByType(events, limit);
      && |r| <= limit
      && (forall i :: 0 <= i < |r| ==> r[i] in EventTypeGroups(events))
      && (|r| > 0 ==> forall e :: e in events ==> |Members(events, TypeKey, TypeKey(e))| <= r[0].count)
  {
    var g := EventTypeGroups(events);
    var r := GetEventsByType(events, limit);
    forall i | 0 <= i < |r| ensures r[i] in g {
      assert r[i] in multiset(r);
    }
    EventTypeGroupsExact(events);
    if |r| > 0 {
      forall e | e in events ensures |Members(events, TypeKey, TypeKey(e))| <= r[0].count {
        EventTypeGroupsComplete(events, e);
        var i :| 0 <= i < |g| && g[i].source == e.source && g[i].eventType == e.eventType;
        RankedHead(r, g, limit, RankingCount, g[i]);
      }
    }
  }
}
