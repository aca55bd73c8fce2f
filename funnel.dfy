/**
 * `getFunnelAnalysis`: the rows of `GROUP BY source, "funnelStage"` are
 * folded, in the order the database returns them, into a map from source to
 * its top and bottom counts; the map's entries (in insertion order) become
 * one funnel row per source.
 */
module Funnel {
  import opened Base
  import opened Events
  import opened AnalyticsTypes

  /** One row of the grouping statement. */
  datatype StageCount = StageCount(source: string, funnelStage: string, count: nat)

  function StageKey(e: Event): (string, string) {
    (e.source, e.funnelStage)
  }

  function StageRows(events: seq<Event>, ks: seq<(string, string)>): (r: seq<StageCount>)
    ensures |r| == |ks|
    ensures forall i :: 0 <= i < |r| ==> r[i] == StageCount(ks[i].0, ks[i].1, |Members(events, StageKey, ks[i])|)
  {
    seq(|ks|, i requires 0 <= i < |ks| => StageCount(ks[i].0, ks[i].1, |Members(events, StageKey, ks[i])|))
  }

  /** The statement's result in one admissible order (groups by first occurrence). */
  function StageCounts(events: seq<Event>): seq<StageCount> {
    StageRows(events, Keys(events, StageKey))
  }

  /**
   * The distinct sources of the first `n` rows in order of first appearance:
   * the key order of the `Map` the fold fills.
   */
  function SourcesUpTo(rows: seq<StageCount>, n: nat): seq<string>
    requires n <= |rows|
  {
    if n == 0 then []
    else
      var ks := SourcesUpTo(rows, n - 1);
      if rows[n - 1].source in ks then ks else ks + [rows[n - 1].source]
  }

  /**
   * The count that the last of the first `n` rows of source `s` whose stage
   * is (when `top`) or is not (otherwise) "top" writes into the map: a later
   * row overwrites an earlier one, and 0 stays when there is no such row.
   */
  function LastStage(rows: seq<StageCount>, n: nat, s: string, top: bool): nat
    requires n <= |rows|
  {
    if n == 0 then 0
    else if rows[n - 1].source == s && (rows[n - 1].funnelStage == "top") == top then rows[n - 1].count
    else LastStage(rows, n - 1, s, top)
  }

  /** The funnel row of one source; the rate is 0 without top-of-funnel events. */
  function FunnelRow(s: string, top: nat, bottom: nat): (r: FunnelAnalysis)
    ensures r.conversionRate == 0.0 <==> top == 0 || bottom == 0
    ensures top > 0 ==> r.conversionRate * top as real == bottom as real * 100.0
  {
    FunnelAnalysis(s, top, bottom, if top > 0 then ConversionPercent(bottom, top) else 0.0)
  }

  /** What the fold computes: one row per source, in order of first appearance. */
  function FunnelOf(rows: seq<StageCount>): (r: seq<FunnelAnalysis>)
    ensures |r| == |SourcesUpTo(rows, |rows|)|
  {
    var ks := SourcesUpTo(rows, |rows|);
    var n := |rows|;
    seq(|ks|, i requires 0 <= i < |ks| => FunnelRow(ks[i], LastStage(rows, n, ks[i], true), LastStage(rows, n, ks[i], false)))
  }

  /**
   * The `forEach` body for one row: creates the source's entry `{top: 0,
   * bottom: 0}` when it is missing, then overwrites its top (stage "top") or
   * its bottom (any other stage). No other entry changes.
   */
  method RecordRow(grouped: map<string, FunnelCounts>, r: StageCount) returns (next: map<string, FunnelCounts>)
    ensures next.Keys == grouped.Keys + {r.source}
    ensures forall s :: s in grouped && s != r.source ==> next[s] == grouped[s]
    ensures var old_ := if r.source in grouped then grouped[r.source] else FunnelCounts(0, 0);
      next[r.source] == if r.funnelStage == "top" then old_.(top := r.count) else old_.(bottom := r.count)
  {
    next := grouped;
    if r.source !in next {
      next := next[r.source := FunnelCounts(0, 0)];
    }
    var data := next[r.source];
    if r.funnelStage == "top" {
      next := next[r.source := data.(top := r.count)];
    } else {
      next := next[r.source := data.(bottom := r.count)];
    }
  }

  /** The service method, over the rows the statement returned. */
  method GetFunnelAnalysis(rows: seq<StageCount>) returns (out: seq<FunnelAnalysis>)
    ensures out == FunnelOf(rows)
  {
    var grouped: map<string, FunnelCounts> := map[];
    var order: seq<string> := [];
    for i := 0 to |rows|
      invariant order == SourcesUpTo(rows, i)
      invariant forall s :: s in grouped <==> s in order
      invariant forall s :: s in grouped ==>
        grouped[s] == FunnelCounts(LastStage(rows, i, s, true), LastStage(rows, i, s, false))
    {
      var r := rows[i];
      if r.source !in grouped {
        UnseenSource(rows, i, r.source);
        order := order + [r.source];
      }
      grouped := RecordRow(grouped, r);
    }
    out := seq(|order|, k requires 0 <= k < |order| =>
      FunnelRow(order[k], grouped[order[k]].top, grouped[order[k]].bottom));
  }

  /** The sources listed are distinct and are exactly those of the first `n` rows. */
  lemma {:induction false} SourcesUpToSeen(rows: seq<StageCount>, n: nat)
    requires n <= |rows|
    ensures Distinct(SourcesUpTo(rows, n))
    ensures forall s :: s in SourcesUpTo(rows, n) <==> exists j :: 0 <= j < n && rows[j].source == s
  {
    if n > 0 {
      SourcesUpToSeen(rows, n - 1);
    }
  }

  /** A source not yet seen has had nothing written for it. */
  lemma UnseenSource(rows: seq<StageCount>, n: nat, s: string)
    requires n <= |rows| && s !in SourcesUpTo(rows, n)
    ensures LastStage(rows, n, s, true) == 0 && LastStage(rows, n, s, false) == 0
  {
    SourcesUpToSeen(rows, n);
    LastStageNone(rows, n, s, true);
    LastStageNone(rows, n, s, false);
  }

  lemma {:induction false} LastStageUnique(rows: seq<StageCount>, n: nat, s: string, top: bool, i: nat)
    requires i < n <= |rows| && rows[i].source == s && (rows[i].funnelStage == "top") == top
    requires forall j :: 0 <= j < n && j != i ==> !(rows[j].source == s && (rows[j].funnelStage == "top") == top)
    ensures LastStage(rows, n, s, top) == rows[i].count
  {
    if i < n - 1 {
      LastStageUnique(rows, n - 1, s, top, i);
    }
  }

  lemma {:induction false} LastStageNone(rows: seq<StageCount>, n: nat, s: string, top: bool)
    requires n <= |rows|
    requires forall j :: 0 <= j < n ==> !(rows[j].source == s && (rows[j].funnelStage == "top") == top)
    ensures LastStage(rows, n, s, top) == 0
  {
    if n > 0 {
      LastStageNone(rows, n - 1, s, top);
    }
  }

  /** Over the grouped rows of the events there is one funnel row per source that occurs. */
  lemma FunnelSourcesFromEvents(events: seq<Event>, s: string)
    ensures var rows := StageCounts(events);
      s in SourcesUpTo(rows, |rows|) <==> exists e :: e in events && e.source == s
  {
    var rows := StageCounts(events);
    SourcesUpToSeen(rows, |rows|);
    if exists e :: e in events && e.source == s {
      var e :| e in events && e.source == s;
      EventHasRow(events, e);
    }
    if s in SourcesUpTo(rows, |rows|) {
      var j :| 0 <= j < |rows| && rows[j].source == s;
      RowHasEvent(events, j);
    }
  }

  lemma EventHasRow(events: seq<Event>, e: Event)
    requires e in events
    ensures exists j :: 0 <= j < |StageCounts(events)| && StageCounts(events)[j].source == e.source
  {
    var ks := Keys(events, StageKey);
    assert StageKey(e) in ks;
    var j :| 0 <= j < |ks| && ks[j] == StageKey(e);
    assert StageCounts(events)[j].source == e.source;
  }

  lemma RowHasEvent(events: seq<Event>, j: nat)
    requires j < |StageCounts(events)|
    ensures exists e :: e in events && e.source == StageCounts(events)[j].source
  {
    var ks := Keys(events, StageKey);
    assert ks[j] in ks;
    var m := Members(events, StageKey, ks[j]);
    assert m[0] in multiset(m);
  }

  /**
   * Over the grouped rows of events whose stages are all "top" or "bottom",
   * the counts the fold keeps for a source are its numbers of top and of
   * bottom events.
   */
  lemma FunnelCountsFromEvents(events: seq<Event>, s: string)
    requires forall e :: e in events ==> e.funnelStage == "top" || e.funnelStage == "bottom"
    ensures var rows := StageCounts(events);
      && LastStage(rows, |rows|, s, true) == |Members(events, StageKey, (s, "top"))|
      && LastStage(rows, |rows|, s, false) == |Members(events, StageKey, (s, "bottom"))|
  {
    StageCountFor(events, s, "top", true);
    StageCountFor(events, s, "bottom", false);
  }

  lemma StageCountFor(events: seq<Event>, s: string, stage: string, top: bool)
    requires forall e :: e in events ==> e.funnelStage == "top" || e.funnelStage == "bottom"
    requires stage == "top" || stage == "bottom"
    requires top <==> stage == "top"
    ensures var rows := StageCounts(events);
      LastStage(rows, |rows|, s, top) == |Members(events, StageKey, (s, stage))|
  {
    var ks := Keys(events, StageKey);
    if (s, stage) in ks {
      var i :| 0 <= i < |ks| && ks[i] == (s, stage);
      StageCountPresent(events, top, i);
    } else {
      StageCountAbsent(events, s, stage, top);
    }
  }

  lemma StageCountPresent(events: seq<Event>, top: bool, i: nat)
    requires forall e :: e in events ==> e.funnelStage == "top" || e.funnelStage == "bottom"
    requires i < |StageCounts(events)|
    requires (StageCounts(events)[i].funnelStage == "top") == top
    ensures var rows := StageCounts(events);
      LastStage(rows, |rows|, rows[i].source, top) == |Members(events, StageKey, (rows[i].source, rows[i].funnelStage))|
  {
    var rows := StageCounts(events);
    RowStages(events);
    RowKeysDistinct(events);
    OnlyRowOfPair(rows, i, top);
    LastStageUnique(rows, |rows|, rows[i].source, top, i);
  }

  lemma StageCountAbsent(events: seq<Event>, s: string, stage: string, top: bool)
    requires forall e :: e in events ==> e.funnelStage == "top" || e.funnelStage == "bottom"
    requires stage == "top" || stage == "bottom"
    requires top <==> stage == "top"
    requires (s, stage) !in Keys(events, StageKey)
    ensures var rows := StageCounts(events);
      LastStage(rows, |rows|, s, top) == 0 && |Members(events, StageKey, (s, stage))| == 0
  {
    var ks := Keys(events, StageKey);
    var rows := StageCounts(events);
    RowStages(events);
    forall j | 0 <= j < |rows| ensures !(rows[j].source == s && (rows[j].funnelStage == "top") == top) {
      assert (rows[j].source, rows[j].funnelStage) == ks[j];
      assert ks[j] in ks;
    }
    LastStageNone(rows, |rows|, s, top);
    MembersEmpty(events, StageKey, (s, stage));
  }

  /** The grouped rows carry distinct (source, stage) pairs. */
  lemma RowKeysDistinct(events: seq<Event>)
    ensures var rows := StageCounts(events);
      forall a, b :: 0 <= a < b < |rows| ==>
        (rows[a].source, rows[a].funnelStage) != (rows[b].source, rows[b].funnelStage)
  {
    var ks := Keys(events, StageKey);
    var rows := StageCounts(events);
    assert forall j :: 0 <= j < |rows| ==> (rows[j].source, rows[j].funnelStage) == ks[j];
  }

  /**
   * Among rows with distinct (source, stage) pairs and only the stages "top"
   * and "bottom", no other row writes into the slot that row `i` writes.
   */
  lemma OnlyRowOfPair(rows: seq<StageCount>, i: nat, top: bool)
    requires i < |rows|
    requires forall j :: 0 <= j < |rows| ==> rows[j].funnelStage == "top" || rows[j].funnelStage == "bottom"
    requires forall a, b :: 0 <= a < b < |rows| ==>
      (rows[a].source, rows[a].funnelStage) != (rows[b].source, rows[b].funnelStage)
    requires (rows[i].funnelStage == "top") == top
    ensures forall j :: 0 <= j < |rows| && j != i ==>
      !(rows[j].source == rows[i].source && (rows[j].funnelStage == "top") == top)
  {
    forall j | 0 <= j < |rows| && j != i
      ensures !(rows[j].source == rows[i].source && (rows[j].funnelStage == "top") == top)
    {
      if j < i {
        assert (rows[j].source, rows[j].funnelStage) != (rows[i].source, rows[i].funnelStage);
      } else {
        assert (rows[i].source, rows[i].funnelStage) != (rows[j].source, rows[j].funnelStage);
      }
    }
  }

  /** Every grouped row carries the stage of some event. */
  lemma RowStages(events: seq<Event>)
    requires forall e :: e in events ==> e.funnelStage == "top" || e.funnelStage == "bottom"
    ensures var rows := StageCounts(events);
      forall j :: 0 <= j < |rows| ==> rows[j].funnelStage == "top" || rows[j].funnelStage == "bottom"
  {
    var ks := Keys(events, StageKey);
    var rows := StageCounts(events);
    forall j | 0 <= j < |rows| ensures rows[j].funnelStage == "top" || rows[j].funnelStage == "bottom" {
      assert ks[j] in ks;
      var m := Members(events, StageKey, ks[j]);
      assert m[0] in multiset(m);
      assert rows[j].funnelStage == ks[j].1;
    }
  }

  /**
   * A later row with a stage other than "top" overwrites the bottom count:
   * the bottom of a source is the count of its last non-"top" row, whatever
   * that stage is called.
   */
  lemma OtherStageOverwritesBottom()
    ensures FunnelOf([StageCount("facebook", "bottom", 3), StageCount("facebook", "middle", 5)])
      == [FunnelAnalysis("facebook", 0, 5, 0.0)]
  {
    var rows := [StageCount("facebook", "bottom", 3), StageCount("facebook", "middle", 5)];
    assert SourcesUpTo(rows, 2) == ["facebook"];
  }
}
