# Analytics aggregation engine of genesis-group, in Dafny

The analytics service of genesis-group answers eight read-only questions
about the stored marketing events. Each event has these columns:

- `source`: "facebook", "tiktok" or another text;
- `funnelStage`;
- `eventType`;
- `timestamp`;
- a JSON payload.

The eight questions are:

- overall counts and the conversion rate;
- an hourly time series;
- the most frequent event types;
- a breakdown by country;
- a per-source funnel;
- the top Facebook campaigns;
- the top users of one source;
- the revenue per source.

Each answer is a SQL statement over the payload, followed by a little
JavaScript that renames columns and replaces NULLs with zeros. The
request-parameter rules bound what a request may ask for: `hours`, `limit`
and `source`.

This project restates each question as a function over a sequence of
events. The one exception is the funnel pivot. It is a loop that updates a
`Map` in place, so it is a method whose loop invariant ties the map to a
specification function.

- `base.dfy` (`Base`): `Option`/`Result`, plus the grouping vocabulary:
  - `Members`: the events of one group key;
  - `Keys`: the group keys in order of first appearance;
  - group sizes add up.
- `json.dfy` (`JsonPath`): the `jsonb` value and the `->` / `->>` path operators.
- `numbers.dfy` (`NumberText`): the number patterns and the casts behind them:
  - `^[0-9]+(\.[0-9]+)?$` then `::decimal`, exact, so a `real`;
  - `^[0-9]+$` then `::int`;
  - the amount pattern as the database receives it. The SQL sits in
    JavaScript template literals, where `\.` becomes a bare `.`, so the
    pattern sent is `^[0-9]+(.[0-9]+)?$`. Any one character may stand
    between the digit runs, and the `::decimal` cast then reads a text such
    as "1e5" or fails on one such as "1,50".
- `ranking.dfy` (`Ranking`): `ORDER BY count DESC LIMIT n`.
  - The SQL has no tie-breaker, so `RankedBy` states what every admissible answer satisfies.
  - `TopN` is one such answer.
- `events.dfy` (`Events`): the event row and every payload field the queries read:
  - the country, `COALESCE` of the Facebook path and then the TikTok path;
  - user ids and names;
  - campaign ids;
  - purchase amounts;
  - follower counts.
- `interfaces.dfy` (`AnalyticsTypes`): the response shapes and the conversion percentage.
- `overview.dfy`, `timeseries.dfy`, `eventtypes.dfy`, `countries.dfy`,
  `funnel.dfy`, `campaigns.dfy`, `topusers.dfy`, `revenue.dfy`: the eight
  queries, one module each.
- `queryparams.dfy` (`QueryParams`): the request-parameter rules. A request
  is accepted with its defaults filled in, or rejected with the set of
  constraints it broke.
- `requests.dfy` (`Requests`): what an accepted request means for the query it reaches.

The database clock (`NOW()`) is a parameter `now`. Timestamps are whole
seconds since the epoch, in UTC. The database promises no order for grouped
rows. The model lists them in first-occurrence order, which is one
admissible order. Every ranked result is specified by `RankedBy`, which
holds for any order among ties.

The amount queries (countries, campaigns and revenue) are modelled twice:
- once with the pattern as written, which the rest of the model uses;
- once as sent to the database (`...AsWritten`). Each as-sent query is
  proved to fail exactly when a row's cast fails, and to agree with the
  written one when no stray amount text occurs.

## Model

| member | source | states |
|---|---|---|
| Base.Members | src/analytics/analytics.service.ts:26-29 | the rows of a `WHERE key = k` filter: each event appears as often as in the input when its key is `k`, and not at all otherwise |
| Base.Keys | src/analytics/analytics.service.ts:81 | the `GROUP BY` keys: distinct, and a key is listed exactly when some event has it |
| Base.GroupSizesPartition | src/analytics/analytics.service.ts:62 | the sizes of the groups of all keys add up to the number of events |
| Base.TwoGroupsCover | src/analytics/analytics.service.ts:26-29 | two filters on different values of one column count at most all rows, and exactly all rows iff every row has one of the two values |
| Base.Present | src/analytics/analytics.service.ts:118 | `IS NOT NULL` over distinct group keys: distinct, and exactly the present keys |
| Base.Collect | src/analytics/analytics.service.ts:104-122 | the rows of a statement whose rows may fail: fails iff some row fails; otherwise one value per row, in order |
| Base.CollectAll | src/analytics/analytics.service.ts:104-122 | when every row holds a value, the statement returns exactly those values |
| Base.MembersIn | src/analytics/analytics.service.ts:26-29 | an event is in a filter's result iff it is an input event with that key |
| JsonPath.Get | src/analytics/analytics.service.ts:106 | `j -> key`: present iff `j` is an object with a member `key`, and then it is the value of the last member with that key |
| JsonPath.AsText | src/analytics/analytics.service.ts:106 | `->>` on the node reached: NULL iff the node is JSON null; a string gives its contents, a number its text |
| JsonPath.TextAt | src/analytics/analytics.service.ts:106 | a path ending in `->>`: present iff every step finds its key and the value found is not JSON null |
| JsonPath.WalkThroughNonObject | src/analytics/analytics.service.ts:106 | a step through a node that is not an object gives NULL, whatever follows |
| JsonPath.WalkConcat | src/analytics/analytics.service.ts:106 | following `p + q` equals following `p`, then `q` from the node reached |
| JsonPath.WalkTwo | src/analytics/analytics.service.ts:216 | a two-key path is two member lookups |
| JsonPath.DuplicateKeyLastWins | src/analytics/analytics.service.ts:106 | a member appended with a key hides every earlier member with that key |
| NumberText.ParseInteger | src/analytics/analytics.service.ts:243-244 | accepts iff the text matches `^[0-9]+$`, and then yields the number the digits denote |
| NumberText.ParseDecimal | src/analytics/analytics.service.ts:112-113 | accepts iff the text matches `^[0-9]+(\.[0-9]+)?$`; the value is never negative; without a dot it is the number the digits denote, with one it is whole + fraction / 10^(digits of fraction) |
| NumberText.LeadingZeros | src/analytics/analytics.service.ts:112-113 | "007" reads as 7 and "0.50" as 0.5 |
| NumberText.NonDigitIndex | src/analytics/analytics.service.ts:112 | the position of the first non-digit: every character before it is a digit |
| NumberText.SentAmountSplit | src/analytics/analytics.service.ts:112 | a text matching the pattern as sent, without being all digits, splits at its first non-digit into two digit runs |
| NumberText.DecimalMatchesSent | src/analytics/analytics.service.ts:112 | every text the written pattern accepts also matches the pattern as sent |
| NumberText.CastNumeric | src/analytics/analytics.service.ts:113 | `::decimal` on a text the sent pattern admits: fails iff the character between the digit runs is not `.`, `e` or `E`; otherwise the digits, the decimal fraction, or the mantissa times 10 to the exponent |
| NumberText.IntendedGuardCastsCleanly | src/analytics/analytics.service.ts:112-113 | on every text the written pattern accepts, the cast succeeds with the value `ParseDecimal` gives |
| NumberText.CastAmountAsSent | src/analytics/analytics.service.ts:110-116 | the `CASE` as sent: NULL iff the sent pattern rejects the text; the written pattern's value whenever that pattern accepts; any failure is invalid numeric syntax |
| NumberText.SentPatternAdmitsMore | src/analytics/analytics.service.ts:112-113 | "1,50" and "1x5" make the cast fail; "1e5" reads as 100000 and "2E3" as 2000; the written pattern rejects all four |
| NumberText.IntegerRoundTrip | src/analytics/analytics.service.ts:243-244 | printing a count and reading it back with either pattern gives the count |
| NumberText.DecimalRoundTrip | src/analytics/analytics.service.ts:112-113 | `whole.fraction` is accepted and read as whole + fraction / 10^(digits of fraction) |
| NumberText.RejectedAmountTexts | src/analytics/analytics.service.ts:112 | "-5", "abc", ".5", "5." and "1.2.3" are no valid amounts |
| NumberText.NoDecimal | src/analytics/analytics.service.ts:112 | a text with a non-digit that splits at no dot into two digit runs fails the written amount pattern |
| NumberText.DecimalSplitAtFirstDot | src/analytics/analytics.service.ts:112 | a text matching the amount pattern with a dot splits at its first dot into two digit runs |
| Ranking.TopN | src/analytics/analytics.service.ts:82-83 | produces an admissible `ORDER BY count DESC LIMIT n` answer |
| Ranking.PrefixOfSortedIsRanked | src/analytics/analytics.service.ts:82-83 | the first `n` rows of any descending permutation of the groups are an admissible answer |
| Ranking.OmittedRankBelow | src/analytics/analytics.service.ts:194-196 | every group left out of such a prefix ranks no higher than the last row kept |
| Ranking.RankedHead | src/analytics/analytics.service.ts:82-83 | no group outranks the first row of an admissible answer |
| Ranking.LimitOne | src/analytics/analytics.service.ts:194-196 | with limit 1 over a non-empty set of groups, the single row is a group of maximal count |
| Events.Country | src/analytics/analytics.service.ts:106 | the Facebook location path when present, else the TikTok engagement path; NULL iff both are NULL |
| Events.Amount | src/analytics/analytics.service.ts:112-113 | present iff the purchase text exists and matches the amount pattern; never negative |
| Events.Followers | src/analytics/analytics.service.ts:243-244 | present iff the follower text exists and matches `^[0-9]+$` |
| Events.AmountTotal | src/analytics/analytics.service.ts:110-116 | the `SUM` of valid amounts, read as 0 when NULL: never negative, and 0 when no amount is valid |
| Events.StrayOnly | src/analytics/analytics.service.ts:110-116 | an amount read as sent differs from the written reading only on a stray text (one the sent pattern admits and the written one rejects), and only a stray text can fail |
| Events.AddCell | src/analytics/analytics.service.ts:110-116 | one more row of a `SUM`: fails iff the sum so far or the row fails; otherwise adds the row's value, NULL as nothing |
| Events.SumCellsFails | src/analytics/analytics.service.ts:110-116 | a `SUM` over cells that may fail fails iff some row's cell fails |
| Events.SumCellsNonnegative | src/analytics/analytics.service.ts:110-116 | a `SUM` of non-negative cells is non-negative |
| Events.SumCellsAgree | src/analytics/analytics.service.ts:110-116 | where every cell holds a value, the `SUM` of the cells is the sum of the values |
| Events.AmountTotalIsSum | src/analytics/analytics.service.ts:110-116 | `AmountTotal` is the sum of the amounts |
| Events.AmountTotalAsSent | src/analytics/analytics.service.ts:110-116 | the `SUM` as sent is never negative |
| Events.AmountTotalAsSentFails | src/analytics/analytics.service.ts:110-116 | the `SUM` as sent fails iff some row's cast fails |
| Events.AmountTotalAsSentAgrees | src/analytics/analytics.service.ts:110-116 | without stray texts, the `SUM` as sent is `AmountTotal` |
| Events.SentAmountRows | src/analytics/analytics.service.ts:280-286 | without stray texts, the rows with an amount are the same under both patterns |
| Events.UserIds | src/analytics/analytics.service.ts:108 | `COUNT(DISTINCT userId)`: exactly the non-NULL user ids of the group, at most one per event |
| AnalyticsTypes.ConversionPercent | src/analytics/analytics.service.ts:42 | `bottom / top * 100`: times `top` it gives `bottom * 100`; non-negative; at most 100 iff bottom ≤ top |
| Overview.GetOverallStats | src/analytics/analytics.service.ts:23-44 | the total and each source and stage count are the sizes of the matching filters; the rate is the "0.00" case iff there are no top events, else `ConversionPercent` |
| Overview.OverviewSourcePartition | src/analytics/analytics.service.ts:26-27 | facebook + tiktok ≤ total, with equality iff every event has one of the two sources |
| Overview.OverviewFunnelPartition | src/analytics/analytics.service.ts:28-29 | top + bottom ≤ total, with equality iff every event has one of the two stages |
| TimeSeries.HourStart | src/analytics/analytics.service.ts:57 | `date_trunc('hour')`: a multiple of 3600 at most `t`, less than an hour before it |
| TimeSeries.HourStartMonotone | src/analytics/analytics.service.ts:57-60 | truncation keeps the order of timestamps |
| TimeSeries.SelectedEvents | src/analytics/analytics.service.ts:50-61 | exactly the events at or after `now - hours` that pass the source filter, each as often as it occurs |
| TimeSeries.UnfilteredSource | src/analytics/analytics.service.ts:50-53 | with no source, "" or "all", only the time window selects |
| TimeSeries.AddToBucket | src/analytics/analytics.service.ts:62-63 | adding one event's hour keeps the dates strictly ascending; every other point was already there |
| TimeSeries.AddToBucketCounts | src/analytics/analytics.service.ts:62 | adding an hour raises that hour's count by one and nothing else, so the total grows by one and every count stays positive |
| TimeSeries.Buckets | src/analytics/analytics.service.ts:56-63 | dates strictly ascending; every count positive; counts add up to the number of events; each hour's count is its number of events; every date is some event's hour |
| TimeSeries.GetEventTimeSeries | src/analytics/analytics.service.ts:46-72 | the buckets of the selected events, with all the facts above |
| TimeSeries.SeriesPoint | src/analytics/analytics.service.ts:55-63 | each point is an hour boundary no earlier than the cutoff's hour, counts that hour's selected events, and has a selected event behind it |
| TimeSeries.CountAtBucket | src/analytics/analytics.service.ts:68-71 | in an ascending series the count read at a point's date is that point's count |
| TimeSeries.CountAtAbsent | src/analytics/analytics.service.ts:68-71 | an hour with no point has count 0 |
| EventTypes.GetEventsByType | src/analytics/analytics.service.ts:74-93 | an admissible ranking of the (source, eventType) groups under the limit |
| EventTypes.EventTypeGroupsExact | src/analytics/analytics.service.ts:79-81 | each group counts exactly the events of its pair, at least one; no pair has two rows |
| EventTypes.EventTypeGroupsComplete | src/analytics/analytics.service.ts:81 | every event's pair has a row |
| EventTypes.EventTypeGroupsSum | src/analytics/analytics.service.ts:79-81 | the group counts add up to the number of events |
| EventTypes.SumTypeRows | src/analytics/analytics.service.ts:79-81 | the counts of the rows for some keys add up to those keys' group sizes |
| EventTypes.EventsByTypeResult | src/analytics/analytics.service.ts:82-83 | at most `limit` rows, each a group, and no event's pair outranks the first row |
| Countries.GetCountryBreakdown | src/analytics/analytics.service.ts:95-142 | an admissible ranking of the country groups, at most 20 rows |
| Countries.CountryRowBounds | src/analytics/analytics.service.ts:106-116 | uniqueUsers ≤ eventCount and totalPurchases ≤ eventCount; revenue ≥ 0, and 0 without a valid amount; every counted event has the country and the requested source |
| Countries.CountryGroupsHaveCountries | src/analytics/analytics.service.ts:118-120 | a country has a group iff some event in scope has that country |
| Countries.CountryGroupsPartition | src/analytics/analytics.service.ts:118-120 | the group event counts plus the events without a country equal the events in scope |
| Countries.SumCountryRows | src/analytics/analytics.service.ts:118-120 | the row counts for some country keys plus the NULL group add up to those keys' group sizes |
| Countries.CountryBreakdownRows | src/analytics/analytics.service.ts:121-140 | each returned row has ≥ 1 event; user and purchase counts are within the event count; revenue ≥ 0; an event with that country and source stands behind it |
| Countries.CountryRowAsSent | src/analytics/analytics.service.ts:104-116 | a country group as sent: when its `SUM` succeeds, the row is for that country and its revenue is ≥ 0 |
| Countries.GetCountryBreakdownAsWritten | src/analytics/analytics.service.ts:95-122 | when the statement as sent succeeds, an admissible ranking of its groups, at most 20 |
| Countries.CountryAsWrittenFails | src/analytics/analytics.service.ts:104-122 | the statement as sent fails iff some scoped event with a country has an amount whose cast fails |
| Countries.FailureHasStrayCountry | src/analytics/analytics.service.ts:104-122 | a failing statement has a scoped event with a country whose cast fails |
| Countries.StrayCountryFails | src/analytics/analytics.service.ts:104-122 | such an event makes the statement fail |
| Countries.CountryRowAsSentFails | src/analytics/analytics.service.ts:110-116 | one country group fails iff one of its events' casts fails |
| Countries.SomeCountryRowFails | src/analytics/analytics.service.ts:104-122 | a failing group fails the whole statement |
| Countries.CountryAsWrittenAgrees | src/analytics/analytics.service.ts:95-122 | without stray texts, the query as sent returns exactly `GetCountryBreakdown` |
| Countries.CountryGroupsAgree | src/analytics/analytics.service.ts:104-120 | without stray texts, the groups as sent are the intended groups |
| Countries.CountryRowsAgree | src/analytics/analytics.service.ts:104-116 | without stray texts, each group as sent is the intended row |
| Countries.ScopedIn | src/analytics/analytics.service.ts:99-102 | the source filter keeps only events of the input |
| Funnel.RecordRow | src/analytics/analytics.service.ts:159-167 | one `forEach` step: the source's entry is created at {0, 0} if missing, then its top (stage "top") or its bottom (any other stage) becomes the row's count; no other entry changes |
| Funnel.GetFunnelAnalysis | src/analytics/analytics.service.ts:144-176 | the loop's output is `FunnelOf(rows)`; the invariant ties the map's keys to the sources seen, in insertion order, and each entry to the last top and last non-top row of its source |
| Funnel.FunnelRow | src/analytics/analytics.service.ts:170-175 | the rate is 0 iff top or bottom is 0; otherwise the rate times top is bottom × 100 |
| Funnel.SourcesUpToSeen | src/analytics/analytics.service.ts:156-160 | the map's key order lists distinct sources, exactly those of the rows read so far |
| Funnel.UnseenSource | src/analytics/analytics.service.ts:159-160 | a source not yet seen has nothing written for it, so its new entry starts at {0, 0} |
| Funnel.LastStageUnique | src/analytics/analytics.service.ts:163-167 | when one row alone carries a (source, stage) pair, the value kept is that row's count |
| Funnel.LastStageNone | src/analytics/analytics.service.ts:156-160 | without such a row the value kept is the default 0 |
| Funnel.FunnelSourcesFromEvents | src/analytics/analytics.service.ts:145-152 | over the grouped rows of a set of events, the funnel has a row for a source iff some event has that source |
| Funnel.EventHasRow | src/analytics/analytics.service.ts:145-152 | every event's source has a grouped row |
| Funnel.RowHasEvent | src/analytics/analytics.service.ts:145-152 | every grouped row's source is some event's source |
| Funnel.FunnelCountsFromEvents | src/analytics/analytics.service.ts:145-167 | when every stage is "top" or "bottom", a source's top and bottom are its numbers of top and bottom events |
| Funnel.StageCountFor | src/analytics/analytics.service.ts:145-167 | the same for one stage at a time |
| Funnel.OtherStageOverwritesBottom | src/analytics/analytics.service.ts:163-167 | a later "middle" row overwrites the bottom count written by a "bottom" row |
| Campaigns.GetTopCampaigns | src/analytics/analytics.service.ts:178-207 | an admissible ranking of the campaign groups under the limit |
| Campaigns.CampaignGroupFacts | src/analytics/analytics.service.ts:181-205 | id is present and equals name; count is the number of Facebook events of that campaign, at least 1; metric is the sum of their valid amounts, ≥ 0 |
| Campaigns.FacebookCampaignMembers | src/analytics/analytics.service.ts:192-194 | the Facebook events of a campaign are exactly the events with source "facebook" and that campaign id |
| Campaigns.CampaignRowAsSent | src/analytics/analytics.service.ts:180-190 | a campaign group as sent: when its `SUM` succeeds, the row has that id and a non-negative metric |
| Campaigns.GetTopCampaignsAsWritten | src/analytics/analytics.service.ts:178-199 | when the statement as sent succeeds, an admissible ranking of its groups under the limit |
| Campaigns.CampaignsAsWrittenFails | src/analytics/analytics.service.ts:180-199 | the statement as sent fails iff some Facebook event with a campaign id has an amount whose cast fails |
| Campaigns.FailureHasStrayCampaign | src/analytics/analytics.service.ts:180-199 | a failing statement has a Facebook event with a campaign whose cast fails |
| Campaigns.StrayCampaignFails | src/analytics/analytics.service.ts:180-199 | such an event makes the statement fail |
| Campaigns.CampaignRowAsSentFails | src/analytics/analytics.service.ts:184-190 | one campaign fails iff one of its events' casts fails |
| Campaigns.SomeCampaignRowFails | src/analytics/analytics.service.ts:180-199 | a failing campaign fails the whole statement |
| Campaigns.CampaignsAsWrittenAgrees | src/analytics/analytics.service.ts:178-199 | without stray texts, the query as sent returns exactly `GetTopCampaigns` |
| Campaigns.CampaignGroupsAgree | src/analytics/analytics.service.ts:180-196 | without stray texts, the groups as sent are the intended groups |
| Campaigns.CampaignRowsAgree | src/analytics/analytics.service.ts:180-190 | without stray texts, each campaign group as sent is the intended row |
| TopUsers.MaxFollowers | src/analytics/analytics.service.ts:241-247 | `MAX` of the valid follower counts read as 0 when NULL: no valid count exceeds it, and it is one of them or 0 |
| TopUsers.GetTopUsers | src/analytics/analytics.service.ts:209-266 | facebook and tiktok give admissible rankings of their user groups; any other source gives no rows |
| TopUsers.FacebookUserGroupFacts | src/analytics/analytics.service.ts:214-232 | a Facebook row counts the events of its (userId, name) pair, at least one, and has no metric |
| TopUsers.TiktokUserGroupFacts | src/analytics/analytics.service.ts:236-262 | a TikTok row counts the events of its (userId, username) pair, at least one; its metric is their largest valid follower count, or 0 |
| TopUsers.AllSourceGivesNoUsers | src/analytics/analytics.service.ts:265 | the source "all" gets an empty list |
| TopUsers.FollowersAsInt4 | src/analytics/analytics.service.ts:243-244 | the `::int` cast fails iff the valid follower count exceeds 2147483647 |
| TopUsers.CastAllFollowers | src/analytics/analytics.service.ts:241-248 | the statement fails iff some scanned row's cast fails |
| TopUsers.GetTopUsersAsWritten | src/analytics/analytics.service.ts:236-262 | when the statement succeeds, its rows are those of `GetTopUsers` |
| TopUsers.AsWrittenFailsOnLargeFollowers | src/analytics/analytics.service.ts:243-255 | the statement fails iff the source is "tiktok" and some TikTok event has a valid follower count above 2147483647 |
| TopUsers.TiktokOverflow | src/analytics/analytics.service.ts:243-249 | the cast over the TikTok events fails iff one of them overflows |
| TopUsers.TiktokFollowerEventFields | src/analytics/analytics.service.ts:238-243 | the example payload's user id, username and follower text read as built |
| TopUsers.SingleTiktokUser | src/analytics/analytics.service.ts:236-262 | one TikTok user with `n` followers gives one row with count 1 and metric `n` |
| TopUsers.SingleTiktokUserOverflows | src/analytics/analytics.service.ts:243-244 | the same user with more than 2147483647 followers makes the statement fail |
| TopUsers.ThreeBillionFollowers | src/analytics/analytics.service.ts:243-244 | the follower text "3000000000" passes the pattern and breaks the cast |
| Revenue.Mean | src/analytics/analytics.service.ts:280-286 | `AVG`: the mean times the number of values is the sum; non-negative for a non-negative sum |
| Revenue.FindRow | src/analytics/analytics.service.ts:294-303 | `find`: a row of that source when one exists, none otherwise |
| Revenue.SourceRevenue | src/analytics/analytics.service.ts:272-314 | a source's revenue over its own events: total and average ≥ 0; both 0 without a valid amount; otherwise the average is the mean over the valid amounts |
| Revenue.GetRevenueAnalysis | src/analytics/analytics.service.ts:268-321 | the facebook and tiktok stats are each source's revenue; the totals are their sums |
| Revenue.FindRevenueRow | src/analytics/analytics.service.ts:294-303 | over the grouped rows, `find` returns the group of the source iff the source has ad events |
| Revenue.FindRowAt | src/analytics/analytics.service.ts:294-296 | `find` returns the first row of the source |
| Revenue.AdSourceMembers | src/analytics/analytics.service.ts:288 | for facebook or tiktok, the `IN` filter keeps all of that source's events |
| Revenue.FoundRowIsSourceRevenue | src/analytics/analytics.service.ts:294-314 | reading the found row, or the zero default, gives the source's revenue |
| Revenue.NoEventsNoRevenue | src/analytics/analytics.service.ts:296-300 | a source without events reports zeros |
| Revenue.PurchaseEventAmount | src/analytics/analytics.service.ts:279 | the example payload's purchase text reads as built |
| Revenue.InvalidAmountCountsAsPurchaseOnly | src/analytics/analytics.service.ts:272-286 | amounts `n` and "abc": two purchases, revenue `n`, average `n` (not `n / 2`) |
| Revenue.OneValidOfTwo | src/analytics/analytics.service.ts:272-286 | two purchases of which one has a valid amount `x`: total `x`, count 2, average `x` |
| Revenue.Combine | src/analytics/analytics.service.ts:305-320 | the response from the two sources: each source as given, totals their sums |
| Revenue.SourceRevenueAsSent | src/analytics/analytics.service.ts:272-290 | a source's revenue as sent: when the statement succeeds, the total is ≥ 0 |
| Revenue.SourceRevenueAsSentFails | src/analytics/analytics.service.ts:272-290 | a source's revenue as sent fails iff one of its events' casts fails |
| Revenue.SourceRevenueAsSentAgrees | src/analytics/analytics.service.ts:272-290 | without stray texts among a source's events, its revenue as sent is `SourceRevenue` |
| Revenue.GetRevenueAnalysisAsWritten | src/analytics/analytics.service.ts:268-321 | when the statement as sent succeeds, each source's stats are its revenue as sent and the total revenue is their sum |
| Revenue.RevenueAsWrittenFails | src/analytics/analytics.service.ts:272-292 | the response as sent fails iff some Facebook or TikTok event's cast fails |
| Revenue.RevenueAsWrittenAgrees | src/analytics/analytics.service.ts:268-321 | without stray texts, the response as sent is `GetRevenueAnalysis` |
| Revenue.AsWrittenIsCombined | src/analytics/analytics.service.ts:268-321 | when both sources succeed as sent, the response is their combination |
| Revenue.IntendedIsCombined | src/analytics/analytics.service.ts:268-321 | the response is the combination of the two sources' revenue |
| Revenue.CommaAmountFailsRevenue | src/analytics/analytics.service.ts:274-276 | one purchase of "1,50" makes the whole revenue statement fail |
| Revenue.ExponentAmountCounted | src/analytics/analytics.service.ts:274-276 | one purchase of "1e5" is counted as revenue 100000, average 100000 |
| Revenue.SinglePurchaseAsSent | src/analytics/analytics.service.ts:272-290 | one purchase read as `x` as sent: revenue `x`, one purchase, average `x` |
| Revenue.RejectedTextSkipped | src/analytics/analytics.service.ts:272-286 | a purchase whose text the written pattern rejects is one purchase, no revenue, a zero average |
| QueryParams.RangeViolations | src/analytics/dto/analytics-query.dto.ts:20-24 | no violation iff the number is absent, or an integer within the bounds; NaN breaks all three checks |
| QueryParams.ValidateRange | src/analytics/dto/analytics-query.dto.ts:20-25 | accepted iff no violation; an accepted value is within the bounds and equals the input; absent gives the default |
| QueryParams.ValidateHours | src/analytics/dto/analytics-query.dto.ts:20-25 | accepted iff absent or an integer in [1, 168]; absent gives 24 |
| QueryParams.ValidateLimit | src/analytics/dto/analytics-query.dto.ts:47-52 | accepted iff absent or an integer in [1, 100]; absent gives 10 |
| QueryParams.RejectedNumbers | src/analytics/dto/analytics-query.dto.ts:22-24 | 0.5, 169, NaN and 0 are rejected with exactly the constraints they break; 100 is accepted as a limit |
| QueryParams.ParseEventSource | src/analytics/dto/analytics-query.dto.ts:5-9 | one of the enum values iff the text is "facebook", "tiktok" or "all", and then that value's text |
| QueryParams.ValidateTimeSeriesSource | src/analytics/dto/analytics-query.dto.ts:33-35 | absent is accepted as no filter; otherwise accepted iff an enum value |
| QueryParams.ValidateCountrySource | src/analytics/dto/analytics-query.dto.ts:63-65 | absent gives "all"; otherwise accepted iff an enum value |
| QueryParams.ValidateTopUsersSource | src/analytics/dto/analytics-query.dto.ts:75-76 | required, and accepted iff any enum value, "all" included |
| QueryParams.ValidateUserSource | src/analytics/dto/analytics-query.dto.ts:69-76 | the documented rule: accepted iff "facebook" or "tiktok" |
| QueryParams.AllPassesUserSourceRule | src/analytics/dto/analytics-query.dto.ts:71-76 | "all" passes the written rule and fails the documented one |
| QueryParams.ValidateTimeSeriesQuery | src/analytics/dto/analytics-query.dto.ts:11-36 | accepted iff both fields are; the fields are then those validated |
| QueryParams.ValidateTopEntitiesQuery | src/analytics/dto/analytics-query.dto.ts:38-53 | accepted iff the limit is, with that limit |
| QueryParams.ValidateCountryBreakdownQuery | src/analytics/dto/analytics-query.dto.ts:55-66 | accepted iff the source is, with that source |
| QueryParams.ValidateTopUsersQuery | src/analytics/dto/analytics-query.dto.ts:68-77 | accepted iff the inherited limit and the source both are |
| QueryParams.TopUsersInheritsLimit | src/analytics/dto/analytics-query.dto.ts:68 | for any valid source, the top-users limit rule accepts the same limits, with the same value and the default 10 |
| Requests.AcceptedWindow | src/analytics/dto/analytics-query.dto.ts:20-25 | an accepted window starts between one week and one hour before `now` |
| Requests.AcceptedAllSourceIsUnfiltered | src/analytics/dto/analytics-query.dto.ts:33-35 | an accepted "all" reaches the time series as "all", and the query then filters on time only |
| Requests.AcceptedAllTopUsersIsEmpty | src/analytics/dto/analytics-query.dto.ts:75-76 | an accepted top-users request for "all" gets no rows |
| Requests.AcceptedLimitBoundsCampaigns | src/analytics/dto/analytics-query.dto.ts:47-52 | an accepted limit returns at most 100 campaign rows |
| Requests.DocumentedUserSourceIsRanked | src/analytics/dto/analytics-query.dto.ts:69-76 | under the documented rule every accepted request is answered by one of the two user rankings |

## Left out

- Database access, the SQL text, the TypeORM repository and `NOW()`. The clock is the parameter `now`.
- The concurrency of `getOverallStats`. Its five `Promise.all` counts are five independent counts.
- Float conversion. Amounts, averages and rates are exact `real`s. `parseFloat`, `toFixed(2)` and JavaScript floating point are not modelled.
- Overview.GetOverallStats: the rate is the exact percentage, not the two-decimal string. The `NoTopEvents` tag stands for the guard's literal "0.00", taken when there are no top events. `toFixed(2)` also prints "0.00" when bottom is 0 or the rate is below 0.005%; the model gives those as the exact percentage.
- Funnel.FunnelRow: the rate is the exact percentage. It is not rounded to two decimals by `parseFloat(x.toFixed(2))`.
- Revenue.Mean: `AVG` on `decimal` rounds to a finite scale in the database. The model keeps the exact quotient.
- The 32-bit range of `COUNT(*)::int`. Counts are unbounded `nat`s, and overflow needs over two billion events in one group.
- Query limits are `nat`. The request rules keep them within 1..100, so the behaviour of `LIMIT` for a negative value is out.
- Timestamps are whole seconds in UTC. Session time zones and sub-second precision are not modelled.
- `date` is the hour start in seconds. It is not the driver's date string.
- Container-valued keys. When `->>` reaches an object or array, the database prints it as jsonb text: keys sorted and deduplicated, strings escaped. The model prints members in stored order without escaping. That text is a group key and a returned field (country, user id, name, campaign id), so groups and texts for container values are not modelled exactly. Strings, numbers, booleans and null are.
- The optional `source` and `eventType` fields of `TimeSeriesDataPoint`. The service never sets them.
- Funnel.GetFunnelAnalysis: the map entries are values, not shared objects. Aliasing of the `{top, bottom}` objects is not modelled. The service never keeps a second reference to an entry.
- Row order of the grouping statements. Each is modelled in first-occurrence order, which is one admissible order. Every ranked result is specified by `RankedBy`, whatever order ties take.
- The library machinery behind the request rules: number coercion of query strings and the error response format. A numeric parameter arrives as absent, a finite number or NaN.
- NumberText.NoDecimal: it states the written pattern's rejection only. The pattern as sent admits some of those texts ("1x5", "1,50"); `SentPatternAdmitsMore` and `CastNumeric` state what then happens.
- NumberText.CastNumeric: follows the numeric input rules common to all PostgreSQL releases. From release 16 on, `_` between digits and the `0x`/`0o`/`0b` prefixes are accepted too, so "1_000" would read as 1000 and "0x5" as 5; the model counts them as invalid syntax. The overflow of a huge exponent ("1e999999") is not modelled either; the model gives the exact value.
- The webhook, health and bootstrap code, the controller and the migration are not part of this model.

## Findings

| source | as written | input that shows it | evidently intended | confidence | as-written member | corrected member |
|---|---|---|---|---|---|---|
| src/analytics/analytics.service.ts:243-244 | the pattern `^[0-9]+$` admits any number of digits, and the value is then cast with `::int` (int4), which fails above 2147483647 and aborts the whole TikTok statement | one TikTok event whose `user.followers` is "3000000000" | the follower count of every matching text is read, as a `bigint` or `numeric` cast would | not executed | TopUsers.ThreeBillionFollowers | TopUsers.SingleTiktokUser |
| src/analytics/analytics.service.ts:112 (also 186, 274, 282) | the amount pattern sits in a JavaScript template literal, so `\.` reaches the database as `.` and the pattern admits any character between the digit runs; the `::decimal` cast then fails on "1,50", aborting the whole statement, and reads "1e5" as 100000 | one Facebook purchase whose `engagement.purchaseAmount` is "1,50" (or "1e5") | only plain decimals are cast, as `\\.` in the literal would send | not executed | Revenue.CommaAmountFailsRevenue | NumberText.IntendedGuardCastsCleanly |
| src/analytics/dto/analytics-query.dto.ts:75-76 | the top-users source is checked against the whole enum, so "all" is accepted, and the service then answers with an empty list | a top-users request with `source=all` | reject every source but "facebook" and "tiktok", as the declared type, the documented enum and the message "source must be facebook or tiktok" say | not executed | QueryParams.AllPassesUserSourceRule | Requests.DocumentedUserSourceIsRanked |
