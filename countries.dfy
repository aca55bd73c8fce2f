/**
 * `getCountryBreakdown`: events that have a country (Facebook path first,
 * TikTok path second), optionally of one source, grouped by that country,
 * the 20 largest groups first.
 */
module Countries {
  import opened Base
  import opened Events
  import opened AnalyticsTypes
  import opened Ranking
  import opened NumberText

  /** The fixed `LIMIT 20`. */
  const CountryLimit: nat := 20

  /** The `AND source = $1` filter, added unless the source is "all". */
  function Scoped(events: seq<Event>, source: string): seq<Event> {
    if source != "all" then Members(events, SourceOf, source) else events
  }

  /** The aggregates of one country group. */
  function CountryRow(scoped: seq<Event>, c: string): CountryBreakdown {
    var g := Members(scoped, Country, Some(c));
    CountryBreakdown(c, |g|, |UserIds(g)|, |Members(g, HasPurchase, true)|, AmountTotal(g))
  }

  function CountryRows(scoped: seq<Event>, cs: seq<string>): (r: seq<CountryBreakdown>)
    ensures |r| == |cs|
    ensures forall i :: 0 <= i < |r| ==> r[i] == CountryRow(scoped, cs[i])
  {
    seq(|cs|, i requires 0 <= i < |cs| => CountryRow(scoped, cs[i]))
  }

  /** The countries present in the scoped events: the NULL group is dropped by the `IS NOT NULL` filter. */
  function CountriesOf(scoped: seq<Event>): seq<string> {
    Present(Keys(scoped, Country))
  }

  /** The rows of the `GROUP BY country`, before ordering. */
  function CountryGroups(events: seq<Event>, source: string): seq<CountryBreakdown> {
    var scoped := Scoped(events, source);
    CountryRows(scoped, CountriesOf(scoped))
  }

  /** The query: the country groups by event count, largest first, at most 20. */
  function GetCountryBreakdown(events: seq<Event>, source: string): (r: seq<CountryBreakdown>)
    ensures RankedBy(r, CountryGroups(events, source), CountryLimit, CountryEventCount)
    ensures |r| <= 20
  {
    TopN(CountryGroups(events, source), CountryLimit, CountryEventCount)
  }

  /**
   * Within one country: distinct users and purchases never outnumber the
   * events, revenue is not negative and is 0 when no amount is valid, and
   * every event counted has that country and, unless the source is "all",
   * that source.
   */
  lemma CountryRowBounds(events: seq<Event>, source: string, c: string)
    ensures var row := CountryRow(Scoped(events, source), c);
      && row.uniqueUsers <= row.eventCount
      && row.totalPurchases <= row.eventCount
      && row.totalRevenue >= 0.0
      && (|Members(Members(Scoped(events, source), Country, Some(c)), HasAmount, true)| == 0 ==> row.totalRevenue == 0.0)
    ensures forall e :: e in Members(Scoped(events, source), Country, Some(c)) ==>
      && Country(e) == Some(c)
      && e in events
      && (source != "all" ==> e.source == source)
  {
    var scoped := Scoped(events, source);
    var g := Members(scoped, Country, Some(c));
    forall e | e in g
      ensures Country(e) == Some(c) && e in events && (source != "all" ==> e.source == source)
    {
      assert e in multiset(g);
      assert e in multiset(scoped);
      if source != "all" {
        assert e in multiset(Members(events, SourceOf, source));
      }
    }
  }

  /**
   * An event without a country (neither path present) is in no group, and
   * each group's country is that of some scoped event.
   */
  lemma CountryGroupsHaveCountries(events: seq<Event>, source: string)
    ensures var scoped := Scoped(events, source);
      forall c :: c in CountriesOf(scoped) <==> exists e :: e in scoped && Country(e) == Some(c)
  {
    var scoped := Scoped(events, source);
    var ks := Keys(scoped, Country);
    forall c | c in CountriesOf(scoped)
      ensures exists e :: e in scoped && Country(e) == Some(c)
    {
      var g := Members(scoped, Country, Some(c));
      assert g != [];
      assert g[0] in multiset(g);
    }
  }

  function SumEventCounts(rows: seq<CountryBreakdown>): nat {
    if rows == [] then 0 else rows[0].eventCount + SumEventCounts(rows[1..])
  }

  lemma {:induction false} SumCountryRows(scoped: seq<Event>, ks: seq<Option<string>>)
    requires Distinct(ks)
    ensures GroupSizes(scoped, Country, ks)
      == SumEventCounts(CountryRows(scoped, Present(ks))) + (if None in ks then |Members(scoped, Country, None)| else 0)
  {
    if ks != [] {
      SumCountryRows(scoped, ks[1..]);
      assert None in ks <==> ks[0] == None || None in ks[1..];
      var cs := Present(ks[1..]);
      if ks[0].Some? {
        assert Present(ks) == [ks[0].value] + cs;
        CountryRowsCons(scoped, ks[0].value, cs);
      } else {
        assert Present(ks) == cs;
      }
    }
  }

  lemma CountryRowsCons(scoped: seq<Event>, c: string, cs: seq<string>)
    ensures var r := CountryRows(scoped, [c] + cs);
      r != [] && r[0].eventCount == |Members(scoped, Country, Some(c))| && r[1..] == CountryRows(scoped, cs)
  {
    var r := CountryRows(scoped, [c] + cs);
    assert forall i :: 0 <= i < |cs| ==> ([c] + cs)[i + 1] == cs[i];
    assert r[1..] == CountryRows(scoped, cs);
  }

  /**
   * Before the limit, the groups count every scoped event that has a country
   * exactly once: their event counts add up to the scoped events minus those
   * without a country.
   */
  lemma CountryGroupsPartition(events: seq<Event>, source: string)
    ensures var scoped := Scoped(events, source);
      SumEventCounts(CountryGroups(events, source)) + |Members(scoped, Country, None)| == |scoped|
  {
    var scoped := Scoped(events, source);
    var ks := Keys(scoped, Country);
    GroupSizesPartition(scoped, Country);
    SumCountryRows(scoped, ks);
    if None !in ks {
      MembersEmpty(scoped, Country, None);
    }
  }

  /** A returned row is one of the groups, so the group facts hold for it. */
  lemma CountryBreakdownRows(events: seq<Event>, source: string, i: nat)
    requires i < |GetCountryBreakdown(events, source)|
    ensures var row := GetCountryBreakdown(events, source)[i];
      && row.eventCount >= 1
      && row.uniqueUsers <= row.eventCount
      && row.totalPurchases <= row.eventCount
      && row.totalRevenue >= 0.0
      && exists e :: e in events && Country(e) == Some(row.country) && (source != "all" ==> e.source == source)
  {
    var scoped := Scoped(events, source);
    var groups := CountryGroups(events, source);
    var row := GetCountryBreakdown(events, source)[i];
    assert row in multiset(GetCountryBreakdown(events, source));
    assert row in groups;
    var j :| 0 <= j < |groups| && groups[j] == row;
    var c := CountriesOf(scoped)[j];
    assert c in Present(Keys(scoped, Country));
    var g := Members(scoped, Country, Some(c));
    assert g != [];
    CountryRowBounds(events, source, c);
    assert g[0] in g;
  }

  /**
   * One country group as the statement sent to the database computes it: the
   * revenue SUM aborts the whole statement when a stray text reaches the cast.
   */
  function CountryRowAsSent(scoped: seq<Event>, c: string): (r: Result<CountryBreakdown, QueryError>)
    ensures r.Success? ==> r.value.country == c && r.value.totalRevenue >= 0.0
  {
    var g := Members(scoped, Country, Some(c));
    match AmountTotalAsSent(g)
    case Failure(err) => Failure(err)
    case Success(total) => Success(CountryBreakdown(c, |g|, |UserIds(g)|, |Members(g, HasPurchase, true)|, total))
  }

  /** The groups of the statement as sent, or its failure when any group's SUM aborts. */
  function CountryGroupsAsSent(events: seq<Event>, source: string): Result<seq<CountryBreakdown>, QueryError> {
    var scoped := Scoped(events, source);
    var cs := CountriesOf(scoped);
    Collect(seq(|cs|, i requires 0 <= i < |cs| => CountryRowAsSent(scoped, cs[i])))
  }

  /** The query as sent: the largest 20 groups, unless the statement fails. */
  function GetCountryBreakdownAsWritten(events: seq<Event>, source: string): (r: Result<seq<CountryBreakdown>, QueryError>)
    ensures r.Success? ==>
      && CountryGroupsAsSent(events, source).Success?
      && RankedBy(r.value, CountryGroupsAsSent(events, source).value, CountryLimit, CountryEventCount)
  {
    match CountryGroupsAsSent(events, source)
    case Failure(err) => Failure(err)
    case Success(groups) => Success(TopN(groups, CountryLimit, CountryEventCount))
  }

  /**
   * The query as sent fails exactly when some scoped event that has a country
   * carries an amount text whose cast aborts.
   */
  lemma CountryAsWrittenFails(events: seq<Event>, source: string)
    ensures GetCountryBreakdownAsWritten(events, source).Failure?
      <==> exists e :: e in Scoped(events, source) && Country(e).Some? && AmountAsSent(e).Failure?
  {
    FailureHasStrayCountry(events, source);
    StrayCountryFails(events, source);
  }

  lemma FailureHasStrayCountry(events: seq<Event>, source: string)
    ensures GetCountryBreakdownAsWritten(events, source).Failure?
      ==> exists e :: e in Scoped(events, source) && Country(e).Some? && AmountAsSent(e).Failure?
  {
    var scoped := Scoped(events, source);
    var cs := CountriesOf(scoped);
    var rs := seq(|cs|, i requires 0 <= i < |cs| => CountryRowAsSent(scoped, cs[i]));
    assert GetCountryBreakdownAsWritten(events, source).Failure? ==> exists i :: 0 <= i < |rs| && rs[i].Failure?;
    if i :| 0 <= i < |rs| && rs[i].Failure? {
      CountryRowAsSentFails(scoped, cs[i]);
    }
  }

  lemma StrayCountryFails(events: seq<Event>, source: string)
    ensures (exists e :: e in Scoped(events, source) && Country(e).Some? && AmountAsSent(e).Failure?)
      ==> GetCountryBreakdownAsWritten(events, source).Failure?
  {
    var scoped := Scoped(events, source);
    var cs := CountriesOf(scoped);
    if e :| e in scoped && Country(e).Some? && AmountAsSent(e).Failure? {
      var c := Country(e).value;
      CountryGroupsHaveCountries(events, source);
      CountryRowAsSentFails(scoped, c);
      SomeCountryRowFails(scoped, cs, c);
    }
  }

  lemma SomeCountryRowFails(scoped: seq<Event>, cs: seq<string>, c: string)
    requires c in cs && CountryRowAsSent(scoped, c).Failure?
    ensures Collect(seq(|cs|, i requires 0 <= i < |cs| => CountryRowAsSent(scoped, cs[i]))).Failure?
  {
    var i := IndexOf(cs, c);
    var rs := seq(|cs|, i requires 0 <= i < |cs| => CountryRowAsSent(scoped, cs[i]));
    assert rs[i] == CountryRowAsSent(scoped, c);
  }

  /** One group aborts exactly when one of its events' casts aborts. */
  lemma CountryRowAsSentFails(scoped: seq<Event>, c: string)
    ensures CountryRowAsSent(scoped, c).Failure?
      <==> exists e :: e in scoped && Country(e) == Some(c) && AmountAsSent(e).Failure?
  {
    MembersIn(scoped, Country, Some(c));
    AmountTotalAsSentFails(Members(scoped, Country, Some(c)));
  }

  /** Without stray texts among the events, the query as sent returns the intended rows. */
  lemma CountryAsWrittenAgrees(events: seq<Event>, source: string)
    requires forall e :: e in events ==> !StrayAmount(e)
    ensures GetCountryBreakdownAsWritten(events, source) == Success(GetCountryBreakdown(events, source))
  {
    CountryGroupsAgree(events, source);
  }

  /** Without stray texts among the events, the groups as sent are the intended groups. */
  lemma CountryGroupsAgree(events: seq<Event>, source: string)
    requires forall e :: e in events ==> !StrayAmount(e)
    ensures CountryGroupsAsSent(events, source) == Success(CountryGroups(events, source))
  {
    var scoped := Scoped(events, source);
    var cs := CountriesOf(scoped);
    ScopedIn(events, source);
    CountryRowsAgree(scoped, cs);
    CollectAll(seq(|cs|, i requires 0 <= i < |cs| => CountryRowAsSent(scoped, cs[i])), CountryRows(scoped, cs));
  }

  /** Without stray texts every group as sent holds the intended row. */
  lemma CountryRowsAgree(scoped: seq<Event>, cs: seq<string>)
    requires forall e :: e in scoped ==> !StrayAmount(e)
    ensures forall i :: 0 <= i < |cs| ==> CountryRowAsSent(scoped, cs[i]) == Success(CountryRows(scoped, cs)[i])
  {
    forall i | 0 <= i < |cs| ensures CountryRowAsSent(scoped, cs[i]) == Success(CountryRow(scoped, cs[i])) {
      MembersIn(scoped, Country, Some(cs[i]));
      AmountTotalAsSentAgrees(Members(scoped, Country, Some(cs[i])));
    }
  }

  /** Every scoped event is one of the events. */
  lemma ScopedIn(events: seq<Event>, source: string)
    ensures forall e :: e in Scoped(events, source) ==> e in events
  {
    if source != "all" {
      MembersIn(events, SourceOf, source);
    }
  }
}
