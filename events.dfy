/**
 * A stored event and the payload fields the analytics queries read from it.
 * Every field is read with the JSON path the query text uses; a field that
 * is missing, JSON null or reached through a non-object node is NULL (None).
 */
module Events {
  import opened Base
  import opened JsonPath
  import opened NumberText

  /** One row of the `events` table: the columns the queries read. */
  datatype Event = Event(
    source: string,
    funnelStage: string,
    eventType: string,
    timestamp: int,   // seconds since the epoch, UTC
    data: Json)

  function SourceOf(e: Event): string { e.source }
  function StageOf(e: Event): string { e.funnelStage }

  /** `data->'user'->'location'->>'country'`: where Facebook payloads keep the country. */
  function FacebookCountry(e: Event): Option<string> {
    TextAt(e.data, ["user", "location", "country"])
  }

  /** `data->'engagement'->>'country'`: where the queries look for a TikTok country. */
  function TiktokCountry(e: Event): Option<string> {
    TextAt(e.data, ["engagement", "country"])
  }

  /**
   * The canonical country: the Facebook path, else the TikTok path, whatever
   * the event's source (a `COALESCE` of the two).
   */
  function Country(e: Event): (r: Option<string>)
    ensures r.None? <==> FacebookCountry(e).None? && TiktokCountry(e).None?
    ensures FacebookCountry(e).Some? ==> r == FacebookCountry(e)
    ensures FacebookCountry(e).None? ==> r == TiktokCountry(e)
  {
    Coalesce(FacebookCountry(e), TiktokCountry(e))
  }

  /** `data->'user'->>'userId'` */
  function UserId(e: Event): Option<string> {
    TextAt(e.data, ["user", "userId"])
  }

  /** `data->'user'->>'name'`: the Facebook display name. */
  function FacebookName(e: Event): Option<string> {
    TextAt(e.data, ["user", "name"])
  }

  /** `data->'user'->>'username'`: the TikTok display name. */
  function TiktokUsername(e: Event): Option<string> {
    TextAt(e.data, ["user", "username"])
  }

  /** `data->'engagement'->>'campaignId'` */
  function CampaignId(e: Event): Option<string> {
    TextAt(e.data, ["engagement", "campaignId"])
  }

  /** `data->'engagement'->>'purchaseAmount'`, whatever text it holds. */
  function PurchaseText(e: Event): Option<string> {
    TextAt(e.data, ["engagement", "purchaseAmount"])
  }

  /** A purchase is recorded when the amount is not NULL, valid number or not. */
  function HasPurchase(e: Event): bool {
    PurchaseText(e).Some?
  }

  /** The amount, when its text matches `^[0-9]+(\.[0-9]+)?$`. */
  function Amount(e: Event): (r: Option<real>)
    ensures r.Some? <==> PurchaseText(e).Some? && MatchesDecimal(PurchaseText(e).value)
    ensures r.Some? ==> r.value >= 0.0
  {
    match PurchaseText(e)
    case None => None
    case Some(t) => ParseDecimal(t)
  }

  function HasAmount(e: Event): bool {
    Amount(e).Some?
  }

  /**
   * An amount text on which the two forms of the amount pattern disagree:
   * the pattern the database receives admits it, the written one does not.
   */
  predicate StrayAmount(e: Event) {
    PurchaseText(e).Some? && MatchesSentAmount(PurchaseText(e).value) && !MatchesDecimal(PurchaseText(e).value)
  }

  /**
   * The amount as the statements actually read it: NULL, a value, or an
   * aborted statement. It differs from `Amount` only on stray texts.
   */
  function AmountAsSent(e: Event): (r: Result<Option<real>, QueryError>)
    ensures r.Success? && r.value.Some? ==> r.value.value >= 0.0
  {
    match PurchaseText(e)
    case None => Success(None)
    case Some(t) => CastAmountAsSent(t)
  }

  /** The two readings differ only on stray texts, and only a stray text can abort. */
  lemma StrayOnly(e: Event)
    ensures !StrayAmount(e) ==> AmountAsSent(e) == Success(Amount(e))
    ensures AmountAsSent(e).Failure? ==> StrayAmount(e)
  {
  }

  function HasAmountAsSent(e: Event): bool {
    AmountAsSent(e).Success? && AmountAsSent(e).value.Some?
  }

  /** SUM of the present values `f` gives the rows of `xs`; 0 for none. */
  function SumBy<T>(xs: seq<T>, f: T -> Option<real>): real {
    if xs == [] then 0.0 else SumBy(xs[..|xs| - 1], f) + f(xs[|xs| - 1]).GetOr(0.0)
  }

  /** One more row of a running SUM: an abort so far or in this row aborts; NULL adds nothing. */
  function AddCell(sum: Result<real, QueryError>, cell: Result<Option<real>, QueryError>): (r: Result<real, QueryError>)
    ensures r.Failure? <==> sum.Failure? || cell.Failure?
    ensures sum.Success? && cell.Success? ==> r.value == sum.value + cell.value.GetOr(0.0)
  {
    match sum
    case Failure(err) => Failure(err)
    case Success(t) =>
      match cell
      case Failure(err) => Failure(err)
      case Success(a) => Success(t + a.GetOr(0.0))
  }

  /** SUM over cells that may abort the statement, row by row in order. */
  function SumCellsBy<T>(xs: seq<T>, g: T -> Result<Option<real>, QueryError>): Result<real, QueryError> {
    if xs == [] then Success(0.0) else AddCell(SumCellsBy(xs[..|xs| - 1], g), g(xs[|xs| - 1]))
  }

  /** The sum aborts exactly when some row's cell aborts. */
  lemma {:induction false} SumCellsFails<T>(xs: seq<T>, g: T -> Result<Option<real>, QueryError>)
    ensures SumCellsBy(xs, g).Failure? <==> exists x :: x in xs && g(x).Failure?
  {
    if xs != [] {
      var prefix, last := xs[..|xs| - 1], xs[|xs| - 1];
      assert xs == prefix + [last];
      SumCellsFails(prefix, g);
    }
  }

  /** A sum of cells that are never negative is never negative. */
  lemma {:induction false} SumCellsNonnegative<T>(xs: seq<T>, g: T -> Result<Option<real>, QueryError>)
    requires forall x :: x in xs && g(x).Success? && g(x).value.Some? ==> g(x).value.value >= 0.0
    ensures SumCellsBy(xs, g).Success? ==> SumCellsBy(xs, g).value >= 0.0
  {
    if xs != [] {
      var prefix, last := xs[..|xs| - 1], xs[|xs| - 1];
      assert xs == prefix + [last];
      SumCellsNonnegative(prefix, g);
    }
  }

  /** Where every cell holds the value `f` gives, the sum of the cells is the sum of the values. */
  lemma {:induction false} SumCellsAgree<T>(xs: seq<T>, g: T -> Result<Option<real>, QueryError>, f: T -> Option<real>)
    requires forall x :: x in xs ==> g(x) == Success(f(x))
    ensures SumCellsBy(xs, g) == Success(SumBy(xs, f))
  {
    if xs != [] {
      var prefix, last := xs[..|xs| - 1], xs[|xs| - 1];
      assert xs == prefix + [last];
      SumCellsAgree(prefix, g, f);
    }
  }

  /** `AmountTotal` is the SUM of the amounts. */
  lemma {:induction false} AmountTotalIsSum(es: seq<Event>)
    ensures AmountTotal(es) == SumBy(es, Amount)
  {
    if es != [] {
      AmountTotalIsSum(es[..|es| - 1]);
    }
  }

  /**
   * SUM over the amounts as the statements read them: the statement aborts
   * when any row's cast aborts (`AmountTotalAsSentFails`); without stray
   * texts it is `AmountTotal` (`AmountTotalAsSentAgrees`).
   */
  function AmountTotalAsSent(es: seq<Event>): (r: Result<real, QueryError>)
    ensures r.Success? ==> r.value >= 0.0
  {
    SumCellsNonnegative(es, AmountAsSent);
    SumCellsBy(es, AmountAsSent)
  }

  /** The statement aborts exactly when one of the rows' casts aborts. */
  lemma AmountTotalAsSentFails(es: seq<Event>)
    ensures AmountTotalAsSent(es).Failure? <==> exists e :: e in es && AmountAsSent(e).Failure?
  {
    SumCellsFails(es, AmountAsSent);
  }

  /** Without stray texts the sum as sent is the sum of the valid amounts. */
  lemma AmountTotalAsSentAgrees(es: seq<Event>)
    requires forall e :: e in es ==> !StrayAmount(e)
    ensures AmountTotalAsSent(es) == Success(AmountTotal(es))
  {
    forall e | e in es ensures AmountAsSent(e) == Success(Amount(e)) {
      StrayOnly(e);
    }
    SumCellsAgree(es, AmountAsSent, Amount);
    AmountTotalIsSum(es);
  }

  /** Without stray texts the rows with a value are the same under both readings. */
  lemma SentAmountRows(es: seq<Event>)
    requires forall e :: e in es ==> !StrayAmount(e)
    ensures Members(es, HasAmountAsSent, true) == Members(es, HasAmount, true)
  {
    forall e | e in es ensures HasAmountAsSent(e) == HasAmount(e) {
      StrayOnly(e);
    }
    MembersSameKey(es, HasAmountAsSent, HasAmount, true);
  }

  /** `data->'user'->>'followers'` */
  function FollowersText(e: Event): Option<string> {
    TextAt(e.data, ["user", "followers"])
  }

  /** The follower count, when its text matches `^[0-9]+$`. */
  function Followers(e: Event): (r: Option<nat>)
    ensures r.Some? <==> FollowersText(e).Some? && MatchesInteger(FollowersText(e).value)
  {
    match FollowersText(e)
    case None => None
    case Some(t) => ParseInteger(t)
  }

  /** SUM over the valid amounts of `es`; 0 for none. */
  function AmountTotal(es: seq<Event>): (r: real)
    ensures r >= 0.0
    ensures |Members(es, HasAmount, true)| == 0 ==> r == 0.0
  {
    if es == [] then 0.0
    else
      var prefix, last := es[..|es| - 1], es[|es| - 1];
      assert es == prefix + [last];
      MembersAppend(prefix, last, HasAmount, true);
      AmountTotal(prefix) + Amount(last).GetOr(0.0)
  }

  /** The distinct non-NULL user ids of `es` (`COUNT(DISTINCT data->'user'->>'userId')` counts them). */
  function UserIds(es: seq<Event>): (r: set<string>)
    ensures |r| <= |es|
    ensures forall u :: u in r <==> exists e :: e in es && UserId(e) == Some(u)
  {
    if es == [] then {}
    else
      var prefix, last := es[..|es| - 1], es[|es| - 1];
      assert es == prefix + [last];
      var ids := UserIds(prefix);
      if UserId(last).Some? then ids + {UserId(last).value} else ids
  }
}
