/**
 * `getRevenueAnalysis`: per-source revenue of Facebook and TikTok from one
 * `GROUP BY source` statement, each source found in its result (or all
 * zeros), and the two added up.
 */
module Revenue {
  import opened Base
  import opened Events
  import opened AnalyticsTypes
  import opened JsonPath
  import opened NumberText

  function IsAdSource(e: Event): bool {
    e.source == "facebook" || e.source == "tiktok"
  }

  /** `WHERE source IN ('facebook', 'tiktok')` */
  function AdEvents(events: seq<Event>): seq<Event> {
    Members(events, IsAdSource, true)
  }

  /** One result row; SUM and AVG of no valid amount are NULL. */
  datatype RevenueRow = RevenueRow(source: string, total: Option<real>, purchaseCount: nat, average: Option<real>)

  /** The number of valid amounts, the denominator of `AVG`. */
  function ValidCount(es: seq<Event>): nat {
    |Members(es, HasAmount, true)|
  }

  /** `AVG`: the sum divided by the number of values summed. */
  function Mean(total: real, n: nat): (m: real)
    requires n > 0
    ensures m * n as real == total
    ensures total >= 0.0 ==> m >= 0.0
  {
    total / n as real
  }

  /** The aggregates of the group of source `s`. */
  function RevenueRowOf(g: seq<Event>, s: string): RevenueRow {
    var n := ValidCount(g);
    RevenueRow(
      s,
      if n > 0 then Some(AmountTotal(g)) else None,
      |Members(g, HasPurchase, true)|,
      if n > 0 then Some(Mean(AmountTotal(g), n)) else None)
  }

  function RevenueRows(ad: seq<Event>, ks: seq<string>): (r: seq<RevenueRow>)
    ensures |r| == |ks|
    ensures forall i :: 0 <= i < |r| ==> r[i] == RevenueRowOf(Members(ad, SourceOf, ks[i]), ks[i])
  {
    seq(|ks|, i requires 0 <= i < |ks| => RevenueRowOf(Members(ad, SourceOf, ks[i]), ks[i]))
  }

  /** The statement's result: one row per source present among the ad events. */
  function RevenueQueryRows(events: seq<Event>): seq<RevenueRow> {
    var ad := AdEvents(events);
    RevenueRows(ad, Keys(ad, SourceOf))
  }

  /** `Array.prototype.find` on the source column. */
  function FindRow(rows: seq<RevenueRow>, s: string): (r: Option<RevenueRow>)
    ensures r.Some? ==> r.value in rows && r.value.source == s
    ensures r.None? <==> forall i :: 0 <= i < |rows| ==> rows[i].source != s
  {
    if rows == [] then None
    else if rows[0].source == s then Some(rows[0])
    else FindRow(rows[1..], s)
  }

  /** The found row with every NULL read as 0, or all zeros for a missing row. */
  function StatsOf(row: Option<RevenueRow>): RevenueStats {
    match row
    case None => RevenueStats(0.0, 0, 0.0)
    case Some(r) => RevenueStats(r.total.GetOr(0.0), r.purchaseCount, r.average.GetOr(0.0))
  }

  /** The response: both sources and their sum. */
  function GetRevenueAnalysis(events: seq<Event>): (r: RevenueAnalysis)
    ensures r.facebook == SourceRevenue(events, "facebook")
    ensures r.tiktok == SourceRevenue(events, "tiktok")
    ensures r.total.totalRevenue == r.facebook.totalRevenue + r.tiktok.totalRevenue
    ensures r.total.purchaseCount == r.facebook.purchaseCount + r.tiktok.purchaseCount
  {
    var rows := RevenueQueryRows(events);
    var fb := StatsOf(FindRow(rows, "facebook"));
    var tt := StatsOf(FindRow(rows, "tiktok"));
    FoundRowIsSourceRevenue(events, "facebook");
    FoundRowIsSourceRevenue(events, "tiktok");
    RevenueAnalysis(fb, tt, RevenueTotal(fb.totalRevenue + tt.totalRevenue, fb.purchaseCount + tt.purchaseCount))
  }

  /** The response assembled from the two sources' revenue, as `GetRevenueAnalysis` assembles it. */
  function Combine(fb: RevenueStats, tt: RevenueStats): (r: RevenueAnalysis)
    ensures r.facebook == fb && r.tiktok == tt
    ensures r.total.totalRevenue == fb.totalRevenue + tt.totalRevenue
    ensures r.total.purchaseCount == fb.purchaseCount + tt.purchaseCount
  {
    RevenueAnalysis(fb, tt, RevenueTotal(fb.totalRevenue + tt.totalRevenue, fb.purchaseCount + tt.purchaseCount))
  }

  /**
   * The revenue of one source stated directly over its events: the sum of its
   * valid amounts, the number of its non-NULL amounts, and the mean of the
   * valid amounts (0 when there is none).
   */
  function SourceRevenue(events: seq<Event>, s: string): (r: RevenueStats)
    ensures r.totalRevenue >= 0.0 && r.averageOrderValue >= 0.0
    ensures var n := ValidCount(Members(events, SourceOf, s));
      && (n == 0 ==> r.totalRevenue == 0.0 && r.averageOrderValue == 0.0)
      && (n > 0 ==> r.averageOrderValue == Mean(r.totalRevenue, n))
  {
    var g := Members(events, SourceOf, s);
    var n := ValidCount(g);
    var total := AmountTotal(g);
    if n == 0 then
      RevenueStats(total, |Members(g, HasPurchase, true)|, 0.0)
    else
      RevenueStats(total, |Members(g, HasPurchase, true)|, Mean(total, n))
  }

  lemma FindRevenueRow(ad: seq<Event>, ks: seq<string>, s: string)
    requires Distinct(ks)
    ensures FindRow(RevenueRows(ad, ks), s) == if s in ks then Some(RevenueRowOf(Members(ad, SourceOf, s), s)) else None
  {
    var rows := RevenueRows(ad, ks);
    assert forall j :: 0 <= j < |ks| ==> rows[j].source == ks[j];
    if s in ks {
      var i := IndexOf(ks, s);
      FindRowAt(rows, s, i);
    }
  }

  /** `find` returns the first row of the source. */
  lemma {:induction false} FindRowAt(rows: seq<RevenueRow>, s: string, i: nat)
    requires i < |rows| && rows[i].source == s
    requires forall j :: 0 <= j < i ==> rows[j].source != s
    ensures FindRow(rows, s) == Some(rows[i])
  {
    if i > 0 {
      FindRowAt(rows[1..], s, i - 1);
    }
  }

  /** For an ad source, the ad-source filter keeps exactly that source's events. */
  lemma {:induction false} AdSourceMembers(events: seq<Event>, s: string)
    requires s == "facebook" || s == "tiktok"
    ensures Members(AdEvents(events), SourceOf, s) == Members(events, SourceOf, s)
  {
    if events != [] {
      var prefix, last := events[..|events| - 1], events[|events| - 1];
      assert events == prefix + [last];
      AdSourceMembers(prefix, s);
      MembersAppend(prefix, last, IsAdSource, true);
      MembersAppend(prefix, last, SourceOf, s);
      if IsAdSource(last) {
        assert AdEvents(events) == AdEvents(prefix) + [last];
        MembersAppend(AdEvents(prefix), last, SourceOf, s);
      } else {
        assert AdEvents(events) == AdEvents(prefix);
        assert Members(events, SourceOf, s) == Members(prefix, SourceOf, s);
      }
    }
  }

  /** Reading the found row (or the zero default) gives the source's revenue. */
  lemma FoundRowIsSourceRevenue(events: seq<Event>, s: string)
    requires s == "facebook" || s == "tiktok"
    ensures StatsOf(FindRow(RevenueQueryRows(events), s)) == SourceRevenue(events, s)
  {
    var ad := AdEvents(events);
    var ks := Keys(ad, SourceOf);
    FindRevenueRow(ad, ks, s);
    AdSourceMembers(events, s);
    if s !in ks {
      MembersEmpty(ad, SourceOf, s);
    }
  }

  /** A source without events reports zero revenue, zero purchases and a zero average. */
  lemma NoEventsNoRevenue(events: seq<Event>, s: string)
    requires s == "facebook" || s == "tiktok"
    requires forall e :: e in events ==> e.source != s
    ensures s == "facebook" ==> GetRevenueAnalysis(events).facebook == RevenueStats(0.0, 0, 0.0)
    ensures s == "tiktok" ==> GetRevenueAnalysis(events).tiktok == RevenueStats(0.0, 0, 0.0)
  {
    MembersEmpty(events, SourceOf, s);
  }

  /** A Facebook event whose payload holds only a purchase amount text. */
  function PurchaseEvent(amount: string): Event {
    Event("facebook", "bottom", "checkout.complete", 0,
      JObject([("engagement", JObject([("purchaseAmount", JString(amount))]))]))
  }

  lemma PurchaseEventAmount(amount: string)
    ensures PurchaseText(PurchaseEvent(amount)) == Some(amount)
  {
    WalkTwo(PurchaseEvent(amount).data, "engagement", "purchaseAmount");
  }

  /**
   * A valid amount `n` and the invalid amount "abc": both are purchases, only
   * `n` is revenue, and the average divides by the one valid amount, not by
   * the purchase count.
   */
  lemma InvalidAmountCountsAsPurchaseOnly(n: nat)
    ensures SourceRevenue([PurchaseEvent(NatText(n)), PurchaseEvent("abc")], "facebook")
      == RevenueStats(n as real, 2, n as real)
  {
    var a, b := PurchaseEvent(NatText(n)), PurchaseEvent("abc");
    PurchaseEventAmount(NatText(n));
    PurchaseEventAmount("abc");
    IntegerRoundTrip(n);
    RejectedAmountTexts();
    OneValidOfTwo(a, b, n as real);
  }

  lemma OneValidOfTwo(a: Event, b: Event, x: real)
    requires a.source == "facebook" && b.source == "facebook"
    requires HasPurchase(a) && HasPurchase(b)
    requires Amount(a) == Some(x) && Amount(b) == None
    ensures SourceRevenue([a, b], "facebook") == RevenueStats(x, 2, x)
  {
    PairGroups(a, b, x);
    AmountTotalPair(a, b);
    var m := Mean(x, 1);
    assert m * 1.0 == x;
  }

  lemma PairGroups(a: Event, b: Event, x: real)
    requires a.source == "facebook" && b.source == "facebook"
    requires HasPurchase(a) && HasPurchase(b)
    requires Amount(a) == Some(x) && Amount(b) == None
    ensures Members([a, b], SourceOf, "facebook") == [a, b]
    ensures |Members([a, b], HasPurchase, true)| == 2
    ensures ValidCount([a, b]) == 1
  {
    MembersPair(a, b, SourceOf, "facebook");
    MembersPair(a, b, HasPurchase, true);
    MembersPair(a, b, HasAmount, true);
  }

  lemma AmountTotalPair(a: Event, b: Event)
    ensures AmountTotal([a, b]) == Amount(a).GetOr(0.0) + Amount(b).GetOr(0.0)
  {
    assert [a, b][..1] == [a] && [a][..0] == [];
  }

  lemma MembersPair<T(!new), K(!new)>(a: T, b: T, key: T -> K, k: K)
    ensures Members([a, b], key, k) == (if key(a) == k then [a] else []) + (if key(b) == k then [b] else [])
  {
    MembersAppend([], a, key, k);
    assert [] + [a] == [a] && [a] + [b] == [a, b];
    MembersAppend([a], b, key, k);
  }
  /**
   * The revenue of one source as the statement sent to the database computes
   * it: the sum aborts the statement when a stray text reaches the cast, and
   * the number of values averaged counts every text the sent pattern lets through.
   */
  function SourceRevenueAsSent(events: seq<Event>, s: string): (r: Result<RevenueStats, QueryError>)
    ensures r.Success? ==> r.value.totalRevenue >= 0.0
  {
    var g := Members(events, SourceOf, s);
    var n := |Members(g, HasAmountAsSent, true)|;
    match AmountTotalAsSent(g)
    case Failure(err) => Failure(err)
    case Success(total) =>
      Success(RevenueStats(total, |Members(g, HasPurchase, true)|, if n == 0 then 0.0 else Mean(total, n)))
  }

  /** The source's revenue aborts exactly when one of its events' casts aborts. */
  lemma SourceRevenueAsSentFails(events: seq<Event>, s: string)
    ensures SourceRevenueAsSent(events, s).Failure?
      <==> exists e :: e in events && e.source == s && AmountAsSent(e).Failure?
  {
    MembersIn(events, SourceOf, s);
    AmountTotalAsSentFails(Members(events, SourceOf, s));
  }

  /** Without stray texts among the source's events, the statement as sent gives `SourceRevenue`. */
  lemma SourceRevenueAsSentAgrees(events: seq<Event>, s: string)
    requires forall e :: e in events && e.source == s ==> !StrayAmount(e)
    ensures SourceRevenueAsSent(events, s) == Success(SourceRevenue(events, s))
  {
    var g := Members(events, SourceOf, s);
    MembersIn(events, SourceOf, s);
    AmountTotalAsSentAgrees(g);
    SentAmountRows(g);
  }

  /**
   * The response as the statement sent to the database produces it: the one
   * statement fails as a whole when any Facebook or TikTok row's cast fails.
   */
  function GetRevenueAnalysisAsWritten(events: seq<Event>): (r: Result<RevenueAnalysis, QueryError>)
    ensures r.Success? ==>
      && Success(r.value.facebook) == SourceRevenueAsSent(events, "facebook")
      && Success(r.value.tiktok) == SourceRevenueAsSent(events, "tiktok")
      && r.value.total.totalRevenue == r.value.facebook.totalRevenue + r.value.tiktok.totalRevenue
  {
    match SourceRevenueAsSent(events, "facebook")
    case Failure(err) => Failure(err)
    case Success(fb) =>
      match SourceRevenueAsSent(events, "tiktok")
      case Failure(err) => Failure(err)
      case Success(tt) => Success(Combine(fb, tt))
  }

  /** The response fails exactly when some Facebook or TikTok event's cast fails. */
  lemma RevenueAsWrittenFails(events: seq<Event>)
    ensures GetRevenueAnalysisAsWritten(events).Failure?
      <==> exists e :: e in events && IsAdSource(e) && AmountAsSent(e).Failure?
  {
    SourceRevenueAsSentFails(events, "facebook");
    SourceRevenueAsSentFails(events, "tiktok");
  }

  /** Without stray texts the response as sent is the intended `GetRevenueAnalysis`. */
  lemma RevenueAsWrittenAgrees(events: seq<Event>)
    requires forall e :: e in events ==> !StrayAmount(e)
    ensures GetRevenueAnalysisAsWritten(events) == Success(GetRevenueAnalysis(events))
  {
    SourceRevenueAsSentAgrees(events, "facebook");
    SourceRevenueAsSentAgrees(events, "tiktok");
    AsWrittenIsCombined(events, SourceRevenue(events, "facebook"), SourceRevenue(events, "tiktok"));
    IntendedIsCombined(events);
  }

  lemma AsWrittenIsCombined(events: seq<Event>, fb: RevenueStats, tt: RevenueStats)
    requires SourceRevenueAsSent(events, "facebook") == Success(fb)
    requires SourceRevenueAsSent(events, "tiktok") == Success(tt)
    ensures GetRevenueAnalysisAsWritten(events) == Success(Combine(fb, tt))
  {
  }

  lemma IntendedIsCombined(events: seq<Event>)
    ensures GetRevenueAnalysis(events) == Combine(SourceRevenue(events, "facebook"), SourceRevenue(events, "tiktok"))
  {
    FieldsMakeCombined(GetRevenueAnalysis(events), SourceRevenue(events, "facebook"), SourceRevenue(events, "tiktok"));
  }

  /** A response is the combination of its two sources when its totals are their sums. */
  lemma FieldsMakeCombined(r: RevenueAnalysis, fb: RevenueStats, tt: RevenueStats)
    requires r.facebook == fb && r.tiktok == tt
    requires r.total.totalRevenue == fb.totalRevenue + tt.totalRevenue
    requires r.total.purchaseCount == fb.purchaseCount + tt.purchaseCount
    ensures r == Combine(fb, tt)
  {
  }

  /**
   * One purchase of "1,50": the statement as sent fails as a whole (the
   * intended pattern would leave the text out, `RejectedTextSkipped`).
   */
  lemma CommaAmountFailsRevenue()
    ensures GetRevenueAnalysisAsWritten([PurchaseEvent("1,50")]).Failure?
  {
    var e := PurchaseEvent("1,50");
    assert AmountAsSent(e).Failure? by {
      PurchaseEventAmount("1,50");
      SentFails("1,50", 1);
    }
    RevenueAsWrittenFails([e]);
  }

  /**
   * One purchase of "1e5": the statement as sent counts it as 100000 (the
   * intended pattern would leave it out, `RejectedTextSkipped`).
   */
  lemma ExponentAmountCounted()
    ensures SourceRevenueAsSent([PurchaseEvent("1e5")], "facebook") == Success(RevenueStats(100000.0, 1, 100000.0))
  {
    var e := PurchaseEvent("1e5");
    assert AmountAsSent(e) == Success(Some(100000.0)) by {
      PurchaseEventAmount("1e5");
      ExponentOne();
    }
    SinglePurchaseAsSent(e, 100000.0);
  }

  /** One purchase whose amount reads as `x` as sent: revenue `x`, one purchase, average `x`. */
  lemma SinglePurchaseAsSent(e: Event, x: real)
    requires e.source == "facebook" && HasPurchase(e)
    requires AmountAsSent(e) == Success(Some(x))
    ensures SourceRevenueAsSent([e], "facebook") == Success(RevenueStats(x, 1, x))
  {
    assert AmountTotalAsSent([e]) == Success(x) by {
      SingleTotalAsSent(e);
    }
    assert Members([e], SourceOf, "facebook") == [e] && |Members([e], HasPurchase, true)| == 1
      && |Members([e], HasAmountAsSent, true)| == 1 by {
      SingleSource(e);
    }
    assert Mean(x, 1) == x by {
      var m := Mean(x, 1);
      assert m * 1.0 == x;
    }
  }

  /**
   * A purchase whose amount text the written pattern rejects is one purchase
   * with no revenue and a zero average.
   */
  lemma RejectedTextSkipped(t: string)
    requires !MatchesDecimal(t)
    ensures SourceRevenue([PurchaseEvent(t)], "facebook") == RevenueStats(0.0, 1, 0.0)
  {
    var e := PurchaseEvent(t);
    PurchaseEventAmount(t);
    SingleSource(e);
    SingleTotal(e);
  }

  lemma SingleSource(e: Event)
    requires e.source == "facebook" && HasPurchase(e)
    ensures Members([e], SourceOf, "facebook") == [e]
    ensures Members([e], HasPurchase, true) == [e]
    ensures Members([e], HasAmount, true) == (if HasAmount(e) then [e] else [])
    ensures Members([e], HasAmountAsSent, true) == (if HasAmountAsSent(e) then [e] else [])
  {
    MembersAppend([], e, SourceOf, "facebook");
    MembersAppend([], e, HasPurchase, true);
    MembersAppend([], e, HasAmount, true);
    MembersAppend([], e, HasAmountAsSent, true);
    assert [] + [e] == [e];
  }

  lemma SingleTotal(e: Event)
    ensures AmountTotal([e]) == Amount(e).GetOr(0.0)
  {
    assert [e][..0] == [];
  }

  lemma SingleTotalAsSent(e: Event)
    ensures AmountTotalAsSent([e]) == AddCell(Success(0.0), AmountAsSent(e))
  {
    assert [e][..0] == [] && [e][0] == e;
    assert SumCellsBy([e], AmountAsSent) == AddCell(SumCellsBy([], AmountAsSent), AmountAsSent(e));
  }
}
