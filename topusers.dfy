/**
 * `getTopUsers`: the most active users of one source. Facebook users are
 * grouped by (userId, name) and carry no metric; TikTok users are grouped by
 * (userId, username) and carry their largest follower count. Any other
 * source gives no rows. A NULL id or name is a group key like any other.
 */
module TopUsers {
  import opened Base
  import opened Events
  import opened AnalyticsTypes
  import opened Ranking
  import opened JsonPath
  import opened NumberText

  function FacebookUserKey(e: Event): (Option<string>, Option<string>) {
    (UserId(e), FacebookName(e))
  }

  function TiktokUserKey(e: Event): (Option<string>, Option<string>) {
    (UserId(e), TiktokUsername(e))
  }

  /** `MAX` over the follower counts that match `^[0-9]+$`, with a NULL maximum read as 0. */
  function MaxFollowers(es: seq<Event>): (r: nat)
    ensures forall e :: e in es && Followers(e).Some? ==> Followers(e).value <= r
    ensures r == 0 || exists e :: e in es && Followers(e) == Some(r)
  {
    if es == [] then 0
    else
      var prefix, last := es[..|es| - 1], es[|es| - 1];
      assert es == prefix + [last];
      var m := MaxFollowers(prefix);
      match Followers(last)
      case None => m
      case Some(f) => if f > m then f else m
  }

  function FacebookUserRows(fb: seq<Event>, ks: seq<(Option<string>, Option<string>)>): (r: seq<TopEntity>)
    ensures |r| == |ks|
    ensures forall i :: 0 <= i < |r| ==>
      r[i] == TopEntity(ks[i].0, ks[i].1, |Members(fb, FacebookUserKey, ks[i])|, None)
  {
    seq(|ks|, i requires 0 <= i < |ks| => TopEntity(ks[i].0, ks[i].1, |Members(fb, FacebookUserKey, ks[i])|, None))
  }

  function TiktokUserRows(tt: seq<Event>, ks: seq<(Option<string>, Option<string>)>): (r: seq<TopEntity>)
    ensures |r| == |ks|
    ensures forall i :: 0 <= i < |r| ==>
      var g := Members(tt, TiktokUserKey, ks[i]);
      r[i] == TopEntity(ks[i].0, ks[i].1, |g|, Some(MaxFollowers(g) as real))
  {
    seq(|ks|, i requires 0 <= i < |ks| =>
      var g := Members(tt, TiktokUserKey, ks[i]);
      TopEntity(ks[i].0, ks[i].1, |g|, Some(MaxFollowers(g) as real)))
  }

  function FacebookUserGroups(events: seq<Event>): seq<TopEntity> {
    var fb := Members(events, SourceOf, "facebook");
    FacebookUserRows(fb, Keys(fb, FacebookUserKey))
  }

  function TiktokUserGroups(events: seq<Event>): seq<TopEntity> {
    var tt := Members(events, SourceOf, "tiktok");
    TiktokUserRows(tt, Keys(tt, TiktokUserKey))
  }

  /** The query, with follower counts of any size. */
  function GetTopUsers(events: seq<Event>, source: string, limit: nat): (r: seq<TopEntity>)
    ensures source == "facebook" ==> RankedBy(r, FacebookUserGroups(events), limit, EntityCount)
    ensures source == "tiktok" ==> RankedBy(r, TiktokUserGroups(events), limit, EntityCount)
    ensures source != "facebook" && source != "tiktok" ==> r == []
  {
    if source == "facebook" then TopN(FacebookUserGroups(events), limit, EntityCount)
    else if source == "tiktok" then TopN(TiktokUserGroups(events), limit, EntityCount)
    else []
  }

  /**
   * A Facebook user row counts the Facebook events of its (userId, name)
   * pair, at least one, and has no metric.
   */
  lemma FacebookUserGroupFacts(events: seq<Event>, i: nat)
    requires i < |FacebookUserGroups(events)|
    ensures var row := FacebookUserGroups(events)[i];
      var fb := Members(events, SourceOf, "facebook");
      && row.metric.None?
      && row.count == |Members(fb, FacebookUserKey, (row.id, row.name))|
      && row.count >= 1
  {
    var fb := Members(events, SourceOf, "facebook");
    var ks := Keys(fb, FacebookUserKey);
    assert ks[i] in ks;
  }

  /**
   * A TikTok user row counts the TikTok events of its (userId, username)
   * pair, at least one, and its metric is the largest valid follower count
   * among them: no valid count exceeds it, and it is one of them or 0.
   */
  lemma TiktokUserGroupFacts(events: seq<Event>, i: nat)
    requires i < |TiktokUserGroups(events)|
    ensures var row := TiktokUserGroups(events)[i];
      var g := Members(Members(events, SourceOf, "tiktok"), TiktokUserKey, (row.id, row.name));
      && row.count == |g| && row.count >= 1
      && row.metric.Some?
      && (forall e :: e in g && Followers(e).Some? ==> Followers(e).value as real <= row.metric.value)
      && (row.metric.value == 0.0 || exists e :: e in g && Followers(e).Some? && Followers(e).value as real == row.metric.value)
  {
    var tt := Members(events, SourceOf, "tiktok");
    var ks := Keys(tt, TiktokUserKey);
    assert ks[i] in ks;
  }

  /** A top-users request for "all" (which the request rules let through) gets no rows. */
  lemma AllSourceGivesNoUsers(events: seq<Event>, limit: nat)
    ensures GetTopUsers(events, "all", limit) == []
  {
  }

  // ---- The query as written: the follower cast is to the 32-bit `int` type ----

  /** The largest value of PostgreSQL's `int` (int4). */
  const Int4Max: int := 2147483647

  /**
   * `CASE WHEN followers ~ '^[0-9]+$' THEN followers::int ELSE NULL END`
   * for one row: the pattern admits any number of digits, and the cast fails
   * above the int4 range.
   */
  function FollowersAsInt4(e: Event): (r: Result<Option<nat>, QueryError>)
    ensures r.Failure? <==> Followers(e).Some? && Followers(e).value > Int4Max
    ensures r.Success? ==> r.value == Followers(e)
  {
    match Followers(e)
    case None => Success(None)
    case Some(f) => if f > Int4Max then Failure(IntegerOutOfRange) else Success(Some(f))
  }

  /** The cast evaluated over every row of the scan; the first failure aborts the statement. */
  function CastAllFollowers(es: seq<Event>): (r: Result<seq<Option<nat>>, QueryError>)
    ensures r.Failure? <==> exists e :: e in es && FollowersAsInt4(e).Failure?
    ensures r.Success? ==> |r.value| == |es| && forall i :: 0 <= i < |es| ==> r.value[i] == Followers(es[i])
  {
    if es == [] then Success([])
    else
      match FollowersAsInt4(es[0])
      case Failure(err) => Failure(err)
      case Success(f) =>
        assert es == [es[0]] + es[1..];
        match CastAllFollowers(es[1..])
        case Failure(err) => Failure(err)
        case Success(fs) => Success([f] + fs)
  }

  /**
   * `getTopUsers` as written: for TikTok the statement fails as soon as one
   * TikTok event carries a follower count above the int4 range; otherwise the
   * rows are those of `GetTopUsers`.
   */
  function GetTopUsersAsWritten(events: seq<Event>, source: string, limit: nat): (r: Result<seq<TopEntity>, QueryError>)
    ensures r.Success? ==> r.value == GetTopUsers(events, source, limit)
  {
    if source == "tiktok" then
      match CastAllFollowers(Members(events, SourceOf, "tiktok"))
      case Failure(err) => Failure(err)
      case Success(_) => Success(GetTopUsers(events, source, limit))
    else
      Success(GetTopUsers(events, source, limit))
  }

  predicate FollowersOverflow(e: Event) {
    Followers(e).Some? && Followers(e).value > Int4Max
  }

  /**
   * The as-written query fails exactly when the source is "tiktok" and some
   * TikTok event's follower text is a valid integer above 2147483647.
   */
  lemma AsWrittenFailsOnLargeFollowers(events: seq<Event>, source: string, limit: nat)
    ensures GetTopUsersAsWritten(events, source, limit).Failure? <==>
      source == "tiktok" && exists e :: e in events && e.source == "tiktok" && FollowersOverflow(e)
  {
    if source == "tiktok" {
      TiktokOverflow(events);
    }
  }

  lemma TiktokOverflow(events: seq<Event>)
    ensures CastAllFollowers(Members(events, SourceOf, "tiktok")).Failure? <==>
      exists e :: e in events && e.source == "tiktok" && FollowersOverflow(e)
  {
    var tt := Members(events, SourceOf, "tiktok");
    if exists e :: e in events && e.source == "tiktok" && FollowersOverflow(e) {
      var e :| e in events && e.source == "tiktok" && FollowersOverflow(e);
      assert e in multiset(tt);
      assert FollowersAsInt4(e).Failure?;
    }
    if CastAllFollowers(tt).Failure? {
      var e :| e in tt && FollowersAsInt4(e).Failure?;
      assert e in multiset(tt);
    }
  }

  /** A TikTok event whose payload holds only a user id and a follower text. */
  function TiktokFollowerEvent(id: string, followers: string): Event {
    Event("tiktok", "top", "video.view", 0,
      JObject([("user", JObject([("userId", JString(id)), ("followers", JString(followers))]))]))
  }

  lemma TiktokFollowerEventFields(id: string, followers: string)
    ensures var e := TiktokFollowerEvent(id, followers);
      UserId(e) == Some(id) && TiktokUsername(e).None? && FollowersText(e) == Some(followers)
  {
    var e := TiktokFollowerEvent(id, followers);
    var user := JObject([("userId", JString(id)), ("followers", JString(followers))]);
    assert Get(e.data, "user") == Some(user);
    assert |"followers"| != |"userId"| && |"username"| != |"userId"| && |"username"| != |"followers"|;
    assert LastIndexOf(user.members, "userId", 2) == 0;
    assert Get(user, "userId") == Some(JString(id));
    assert Get(user, "followers") == Some(JString(followers));
    assert Get(user, "username") == None;
    WalkTwo(e.data, "user", "userId");
    WalkTwo(e.data, "user", "followers");
    WalkTwo(e.data, "user", "username");
  }

  /** A single TikTok user with `n` followers is one row whose metric is `n`. */
  lemma SingleTiktokUser(n: nat)
    ensures GetTopUsers([TiktokFollowerEvent("u1", NatText(n))], "tiktok", 10)
      == [TopEntity(Some("u1"), None, 1, Some(n as real))]
  {
    var e := TiktokFollowerEvent("u1", NatText(n));
    TiktokFollowerEventFields("u1", NatText(n));
    IntegerRoundTrip(n);
    assert Members([e], SourceOf, "tiktok") == [e];
    assert Keys([e], TiktokUserKey) == [(Some("u1"), None)];
    assert Members([e], TiktokUserKey, (Some("u1"), None)) == [e];
    assert MaxFollowers([e]) == n;
  }

  /** The same user with more followers than int4 holds makes the as-written statement fail. */
  lemma SingleTiktokUserOverflows(n: nat)
    requires n > Int4Max
    ensures GetTopUsersAsWritten([TiktokFollowerEvent("u1", NatText(n))], "tiktok", 10).Failure?
  {
    var e := TiktokFollowerEvent("u1", NatText(n));
    TiktokFollowerEventFields("u1", NatText(n));
    IntegerRoundTrip(n);
    assert FollowersOverflow(e);
    AsWrittenFailsOnLargeFollowers([e], "tiktok", 10);
  }

  /**
   * One TikTok event whose follower text is "3000000000": the pattern accepts
   * it, the int4 cast does not, and the as-written statement fails where the
   * intended query returns the user's row with 3000000000 as its metric.
   */
  lemma ThreeBillionFollowers()
    ensures var e := TiktokFollowerEvent("u1", NatText(3000000000));
      && GetTopUsersAsWritten([e], "tiktok", 10).Failure?
      && GetTopUsers([e], "tiktok", 10) == [TopEntity(Some("u1"), None, 1, Some(3000000000.0))]
  {
    SingleTiktokUser(3000000000);
    SingleTiktokUserOverflows(3000000000);
  }
}
