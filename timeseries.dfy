/**
 * `getEventTimeSeries`: events of the last `hours` hours, optionally of one
 * source, counted per clock hour and listed in ascending hour order.
 * `now` is a parameter (the database clock); timestamps are whole seconds.
 */
module TimeSeries {
  import opened Base
  import opened Events
  import opened AnalyticsTypes

  /** `date_trunc('hour', t)`: the start of the hour containing `t` (rounding down, also before the epoch). */
  function HourStart(t: int): (h: int)
    ensures h <= t < h + 3600
    ensures h % 3600 == 0
  {
    (t / 3600) * 3600
  }

  function HourOf(e: Event): int {
    HourStart(e.timestamp)
  }

  /** `NOW() - make_interval(hours => hours)` */
  function Cutoff(now: int, hours: int): int {
    now - hours * 3600
  }

  /** The source filter is added only for a non-empty source other than "all". */
  predicate SourceFilterActive(source: Option<string>) {
    source.Some? && source.value != "" && source.value != "all"
  }

  /** The `WHERE` clause of the query. */
  predicate Selected(e: Event, now: int, hours: int, source: Option<string>) {
    && e.timestamp >= Cutoff(now, hours)
    && (SourceFilterActive(source) ==> e.source == source.value)
  }

  function SelectedEvents(events: seq<Event>, now: int, hours: int, source: Option<string>): (r: seq<Event>)
    ensures forall e :: multiset(r)[e] == if Selected(e, now, hours, source) then multiset(events)[e] else 0
  {
    if events == [] then []
    else
      var prefix, last := events[..|events| - 1], events[|events| - 1];
      assert events == prefix + [last];
      SelectedEvents(prefix, now, hours, source) + (if Selected(last, now, hours, source) then [last] else [])
  }

  predicate StrictlyAscending(ps: seq<TimeSeriesDataPoint>) {
    forall i, j :: 0 <= i < j < |ps| ==> ps[i].date < ps[j].date
  }

  /** The count of the bucket starting at `d`, 0 when there is none. */
  function CountAt(ps: seq<TimeSeriesDataPoint>, d: int): nat {
    if ps == [] then 0
    else (if ps[0].date == d then ps[0].count else 0) + CountAt(ps[1..], d)
  }

  function TotalCount(ps: seq<TimeSeriesDataPoint>): nat {
    if ps == [] then 0 else ps[0].count + TotalCount(ps[1..])
  }

  predicate AllPositive(ps: seq<TimeSeriesDataPoint>) {
    forall i :: 0 <= i < |ps| ==> ps[i].count >= 1
  }

  /** Adds one event of hour `h` to the ascending buckets `ps`. */
  function AddToBucket(ps: seq<TimeSeriesDataPoint>, h: int): (r: seq<TimeSeriesDataPoint>)
    requires StrictlyAscending(ps)
    ensures StrictlyAscending(r)
    ensures r != [] && r[0].date == (if ps == [] then h else Min(h, ps[0].date))
    ensures forall i :: 0 <= i < |r| ==> r[i].date == h || r[i] in ps
  {
    if ps == [] || h < ps[0].date then
      [TimeSeriesDataPoint(h, 1)] + ps
    else if h == ps[0].date then
      [TimeSeriesDataPoint(h, ps[0].count + 1)] + ps[1..]
    else
      [ps[0]] + AddToBucket(ps[1..], h)
  }

  /** Adding an event of hour `h` raises the count of `h` by one and leaves every other hour alone. */
  lemma AddToBucketCounts(ps: seq<TimeSeriesDataPoint>, h: int)
    requires StrictlyAscending(ps)
    ensures var r := AddToBucket(ps, h);
      && (forall d :: CountAt(r, d) == CountAt(ps, d) + (if d == h then 1 else 0))
      && TotalCount(r) == TotalCount(ps) + 1
      && (AllPositive(ps) ==> AllPositive(r))
  {
    forall d ensures CountAt(AddToBucket(ps, h), d) == CountAt(ps, d) + (if d == h then 1 else 0) {
      AddToBucketCountAt(ps, h, d);
    }
    AddToBucketTotal(ps, h);
    AddToBucketPositive(ps, h);
  }

  lemma {:induction false} AddToBucketCountAt(ps: seq<TimeSeriesDataPoint>, h: int, d: int)
    requires StrictlyAscending(ps)
    ensures CountAt(AddToBucket(ps, h), d) == CountAt(ps, d) + (if d == h then 1 else 0)
  {
    var r := AddToBucket(ps, h);
    if ps == [] || h < ps[0].date {
      assert r[1..] == ps;
    } else if h == ps[0].date {
      assert r[1..] == ps[1..];
    } else {
      AddToBucketCountAt(ps[1..], h, d);
      assert r[1..] == AddToBucket(ps[1..], h);
    }
  }

  lemma {:induction false} AddToBucketTotal(ps: seq<TimeSeriesDataPoint>, h: int)
    requires StrictlyAscending(ps)
    ensures TotalCount(AddToBucket(ps, h)) == TotalCount(ps) + 1
  {
    var r := AddToBucket(ps, h);
    if ps == [] || h < ps[0].date {
      assert r[1..] == ps;
    } else if h == ps[0].date {
      assert r[1..] == ps[1..];
    } else {
      AddToBucketTotal(ps[1..], h);
      assert r[1..] == AddToBucket(ps[1..], h);
    }
  }

  lemma AddToBucketPositive(ps: seq<TimeSeriesDataPoint>, h: int)
    requires StrictlyAscending(ps)
    ensures AllPositive(ps) ==> AllPositive(AddToBucket(ps, h))
  {
  }

  /** The `GROUP BY date_trunc('hour', timestamp) ORDER BY date ASC` of `es`. */
  function Buckets(es: seq<Event>): (r: seq<TimeSeriesDataPoint>)
    ensures StrictlyAscending(r)
    ensures AllPositive(r)
    ensures TotalCount(r) == |es|
    ensures forall d :: CountAt(r, d) == |Members(es, HourOf, d)|
    ensures forall i :: 0 <= i < |r| ==> exists e :: e in es && HourOf(e) == r[i].date
  {
    if es == [] then []
    else
      var prefix, last := es[..|es| - 1], es[|es| - 1];
      assert es == prefix + [last];
      var ps := Buckets(prefix);
      BucketsStep(prefix, last, ps);
      AddToBucket(ps, HourOf(last))
  }

  /** Adding the next event to the buckets of the events before it gives the buckets of all of them. */
  lemma BucketsStep(prefix: seq<Event>, last: Event, ps: seq<TimeSeriesDataPoint>)
    requires StrictlyAscending(ps) && AllPositive(ps) && TotalCount(ps) == |prefix|
    requires forall d :: CountAt(ps, d) == |Members(prefix, HourOf, d)|
    requires forall i :: 0 <= i < |ps| ==> exists e :: e in prefix && HourOf(e) == ps[i].date
    ensures var r, es := AddToBucket(ps, HourOf(last)), prefix + [last];
      && AllPositive(r)
      && TotalCount(r) == |es|
      && (forall d :: CountAt(r, d) == |Members(es, HourOf, d)|)
      && (forall i :: 0 <= i < |r| ==> exists e :: e in es && HourOf(e) == r[i].date)
  {
    BucketCountsStep(prefix, last, ps);
    BucketDatesStep(prefix, last, ps);
  }

  lemma BucketCountsStep(prefix: seq<Event>, last: Event, ps: seq<TimeSeriesDataPoint>)
    requires StrictlyAscending(ps) && AllPositive(ps) && TotalCount(ps) == |prefix|
    requires forall d :: CountAt(ps, d) == |Members(prefix, HourOf, d)|
    ensures var r := AddToBucket(ps, HourOf(last));
      && AllPositive(r)
      && TotalCount(r) == |prefix + [last]|
      && forall d :: CountAt(r, d) == |Members(prefix + [last], HourOf, d)|
  {
    var h := HourOf(last);
    AddToBucketTotal(ps, h);
    AddToBucketPositive(ps, h);
    forall d ensures CountAt(AddToBucket(ps, h), d) == |Members(prefix + [last], HourOf, d)| {
      AddToBucketCountAt(ps, h, d);
      MembersAppend(prefix, last, HourOf, d);
    }
  }

  lemma BucketDatesStep(prefix: seq<Event>, last: Event, ps: seq<TimeSeriesDataPoint>)
    requires StrictlyAscending(ps)
    requires forall i :: 0 <= i < |ps| ==> exists e :: e in prefix && HourOf(e) == ps[i].date
    ensures var r := AddToBucket(ps, HourOf(last));
      forall i :: 0 <= i < |r| ==> exists e :: e in prefix + [last] && HourOf(e) == r[i].date
  {
    var h, es := HourOf(last), prefix + [last];
    var r := AddToBucket(ps, h);
    forall i | 0 <= i < |r| ensures exists e :: e in es && HourOf(e) == r[i].date {
      if r[i].date == h {
        assert last in es;
      } else {
        var j :| 0 <= j < |ps| && ps[j] == r[i];
        var e :| e in prefix && HourOf(e) == ps[j].date;
        assert e in es;
      }
    }
  }

  /**
   * The series: one point per hour that has selected events, ascending,
   * each with the number of selected events of that hour.
   */
  function GetEventTimeSeries(events: seq<Event>, now: int, hours: int, source: Option<string>): (r: seq<TimeSeriesDataPoint>)
    ensures StrictlyAscending(r)
    ensures AllPositive(r)
    ensures TotalCount(r) == |SelectedEvents(events, now, hours, source)|
    ensures forall d :: CountAt(r, d) == |Members(SelectedEvents(events, now, hours, source), HourOf, d)|
  {
    Buckets(SelectedEvents(events, now, hours, source))
  }

  /** In ascending buckets the count found for a bucket's hour is that bucket's count. */
  lemma {:induction false} CountAtBucket(ps: seq<TimeSeriesDataPoint>, i: nat)
    requires StrictlyAscending(ps) && i < |ps|
    ensures CountAt(ps, ps[i].date) == ps[i].count
  {
    if i == 0 {
      CountAtAbsent(ps[1..], ps[0].date);
    } else {
      CountAtBucket(ps[1..], i - 1);
    }
  }

  lemma {:induction false} CountAtAbsent(ps: seq<TimeSeriesDataPoint>, d: int)
    requires forall i :: 0 <= i < |ps| ==> ps[i].date != d
    ensures CountAt(ps, d) == 0
  {
    if ps != [] {
      CountAtAbsent(ps[1..], d);
    }
  }

  /**
   * Every point of the series is an hour boundary no earlier than the hour of
   * the cutoff, and it counts exactly the selected events of that hour.
   */
  lemma SeriesPoint(events: seq<Event>, now: int, hours: int, source: Option<string>, i: nat)
    requires i < |GetEventTimeSeries(events, now, hours, source)|
    ensures var p := GetEventTimeSeries(events, now, hours, source)[i];
      && p.date % 3600 == 0
      && p.date >= HourStart(Cutoff(now, hours))
      && p.count == |Members(SelectedEvents(events, now, hours, source), HourOf, p.date)|
      && exists e :: e in events && Selected(e, now, hours, source) && HourOf(e) == p.date
  {
    var sel := SelectedEvents(events, now, hours, source);
    var r := GetEventTimeSeries(events, now, hours, source);
    var e :| e in sel && HourOf(e) == r[i].date;
    assert multiset(sel)[e] > 0;
    HourStartMonotone(Cutoff(now, hours), e.timestamp);
    CountAtBucket(r, i);
  }

  lemma HourStartMonotone(a: int, b: int)
    requires a <= b
    ensures HourStart(a) <= HourStart(b)
  {
    assert a / 3600 <= b / 3600;
  }

  /** Without an active source filter (no source, "" or "all") every source is counted. */
  lemma UnfilteredSource(e: Event, now: int, hours: int, source: Option<string>)
    requires source == None || source == Some("") || source == Some("all")
    ensures Selected(e, now, hours, source) <==> e.timestamp >= Cutoff(now, hours)
  {
  }
}
