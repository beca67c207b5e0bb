# usageflow: usage accounting and limit enforcement, modelled in Dafny

This project models the core of the UsageFlow SDK. The SDK records credit usage per
user and feature, answers "how much has this user used" questions, and decides
whether a user may perform an event under the limit of their plan.

The database behind the SDK becomes in-memory tables. The `Store` module keeps one
sequence of records per table name, and `Store.Store` is the one mutable object
that every component shares. A query is a filter over a table, with conditions
`Eq`, `AtLeast` and `AtMost` standing for `.eq`, `.gte` and `.lte`. An insert
appends to the table. Naming a table that does not exist is the store's error.

Timestamps are integer milliseconds, UTC. The wall clock `new Date()` becomes an
explicit parameter `now`. Records are JavaScript objects over the `JsValues.Value`
type. That type has JS truthiness, the destructuring default (it applies to
`undefined` only), and instants as a separate kind of value, so date comparisons
are exact.

Modules, one per source file:

- `Config`: `validateConfig`, which checks the required keys and merges the defaults.
- `Periods` and `Time`: `_getStartDate` and `_getPeriodKey`. `Time` computes the
  Gregorian calendar date and the ISO text of an instant.
- `Grouping`: `_groupEventsByPeriod` and `_calculateStats`. Both are imperative
  methods with loops, proved against the specification functions `Group` and
  `StatsOf`.
- `Calculator`: `getTotalUsage`, `getUsageStats` and `getBatchUsageStats`.
- `Adjustments`: `getActiveAdjustments` and `addAdjustment`.
- `Enforcer`: `authorize`.
- `Operations`: `incrementUsage` and `adjustUsage`.
- `Tracker`: `trackEvent`.
- `Facade`: the `UsageFlow` class's constructor, `addLimitAdjustment` and `fetchUsage`.

## Model

| member | source | states |
|---|---|---|
| Config.MissingKeys | src/utils/validate-config.js:9 | The missing keys are exactly the required keys that are falsy in the configuration. |
| Config.MissingKeysAppend | src/utils/validate-config.js:9 | Checking one more key appends it to the end of the missing keys exactly when it is falsy, so the missing keys keep the required-list order. |
| Config.MissingKeysInRequiredOrder | src/utils/validate-config.js:9-13 | With Stripe required, a configuration lacking `supabaseKey` and `stripeSecretKey` fails with exactly those two keys, in required-list order. |
| Config.ValidateConfig | src/utils/validate-config.js:1-23 | Fails iff some required key is falsy, with the missing keys as the error. On success, the result has the input's keys plus the default keys. Every input key keeps its input value, and every absent default key takes its default. |
| Config.StoreKeysAlwaysRequired | src/utils/validate-config.js:2 | A falsy `supabaseUrl` or `supabaseKey` always makes validation fail. |
| Config.StripeKeysRequiredUnlessManual | src/utils/validate-config.js:5-7 | `stripeSecretKey` and `stripeWebhookSecret` are required iff `manualStripeIntegration` is falsy. |
| Config.ValidateIdempotent | src/utils/validate-config.js:9-23 | Validating an already-validated configuration returns it unchanged. |
| Store.Rows | src/sdk/usage-calculator.js:15-16 | A table query yields the table's rows iff the table exists. |
| Store.Appended | src/utils/supabase.js:8-15 | A successful insert appends to the named table and leaves every other table unchanged. A failed insert changes nothing. |
| Store.WhereMembers | src/sdk/usage-calculator.js:15-20 | The selected rows are exactly the table's rows that pass every filter. |
| Store.WhereAppend | src/sdk/usage-calculator.js:15-20 | Filtering a table with one more row gives the old selection, plus the row if it passes. |
| Store.Fetch | src/utils/supabase.js:17-29 | `fetch` with the default limit 1 fails iff the table is missing. Otherwise it yields a row of the table whose column equals the truthy value. It yields none only when no such row exists, or when the value is falsy and the table is empty. |
| Store.FetchAfterAppend | src/utils/supabase.js:17-29 | A fetch that found a row finds the same row after any insert. |
| Store.SumConcat | src/sdk/usage-calculator.js:22 | The credit sum (a missing value counts 0) over a concatenation is the sum of the two sums. |
| Store.OrderByTimestamp | src/sdk/usage-calculator.js:50 | `.order('timestamp', ascending)` yields a timestamp-sorted permutation of the rows. |
| Store.InsertByTimestampSorted | src/sdk/usage-calculator.js:50 | Inserting into a sorted sequence keeps it sorted. |
| Store.OrderByTimestampSum | src/sdk/usage-calculator.js:44-50 | Ordering the rows does not change their credit sum. |
| Store.Store.Insert | src/utils/supabase.js:8-15 | Succeeds iff the table exists. The new tables are the old ones with the record appended. |
| Periods.ParseGroupBy | src/sdk/usage-calculator.js:37-39 | A granularity is accepted iff it is one of hour, day, week or month. |
| Periods.StartDate | src/sdk/usage-calculator.js:94-107 | Resolves exactly the four named periods and fails with InvalidPeriod for any other value. |
| Periods.StartDateWindow | src/sdk/usage-calculator.js:96-104 | Every start is at or before `now`. `last_30_days` and `last_28_days` go back exactly 30 and 28 days. `current_week` is the last Sunday at the same time of day, less than 7 days back. `current_month` is midnight of day 1 of the month. |
| Periods.StartDateNotAfterNow | src/sdk/usage-calculator.js:94-107 | Every named period starts no later than `now`. |
| Periods.WeekStartIsSunday | src/sdk/usage-calculator.js:103-104 | The week start is a Sunday, `DayOfWeek(now)` days back, at the same time of day. |
| Periods.MonthStartIsMidnightOfDayOne | src/sdk/usage-calculator.js:97-98 | The month start is a midnight, `day - 1` days before `now`. |
| Periods.PeriodKey | src/sdk/usage-calculator.js:126-139 | Day and week keys have 10 characters and month keys have 7. Hour keys have 20 characters and end in `:00:00Z`. |
| Periods.SamePeriodSameKey | src/sdk/usage-calculator.js:126-139 | Two instants in the same hour, day, week (Sunday-based) or calendar month get the same key. |
| Grouping.FirstKeys | src/sdk/usage-calculator.js:110-124 | The independent reference: the distinct keys of the events, each once, in order of first occurrence. |
| Grouping.WithKey | src/sdk/usage-calculator.js:117-120 | The events carrying a key. The result is empty iff the key never occurs. |
| Grouping.GroupIsPartition | src/sdk/usage-calculator.js:110-124 | The grouped object's keys are the first-occurrence keys. Each bucket holds exactly the events with its key, in their original order. |
| Grouping.GroupKeysAreDistinctAndNonEmpty | src/sdk/usage-calculator.js:110-124 | Keys are distinct, and buckets are non-empty and hold only events of their key. Every event lands in the bucket of its own key. |
| Grouping.GroupKeepsEveryEvent | src/sdk/usage-calculator.js:110-124 | The buckets together hold exactly the events, as a multiset. |
| Grouping.GroupAscending | src/sdk/usage-calculator.js:110-124 | For timestamp-sorted input, the buckets are ordered by the timestamp of their first event. |
| Grouping.MaxFromZero | src/sdk/usage-calculator.js:142-152 | `max` starts at 0, so it is never negative. |
| Grouping.MaxFromZeroIsMax | src/sdk/usage-calculator.js:142-152 | `max` is at least every period total and is 0 or one of them. |
| Grouping.Least | src/sdk/usage-calculator.js:145-158 | There is no `min` exactly when there are no periods. |
| Grouping.LeastIsMin | src/sdk/usage-calculator.js:145-158 | `min` is one of the period totals and at most every one of them. |
| Grouping.StatsOf | src/sdk/usage-calculator.js:141-161 | `byPeriod` lists each bucket's key with its credit sum. `total` is their sum and `average` is total over the number of periods. `max` is max(0, largest) and `min` is the smallest. |
| Grouping.GroupTotal | src/sdk/usage-calculator.js:149-151 | The sum of the period totals equals the sum over all grouped events. |
| Grouping.TotalsCoverKeys | src/sdk/usage-calculator.js:149-154 | The periods are distinct. Every event's key has a period total, and every period total belongs to some event. |
| Grouping.GroupEventsByPeriod | src/sdk/usage-calculator.js:110-124 | The loop that pushes each event under its key builds exactly `Group`, the first-occurrence partition. |
| Grouping.CalculateStats | src/sdk/usage-calculator.js:141-161 | The loop over the entries computes exactly `StatsOf`. |
| Calculator.Counted | src/sdk/usage-calculator.js:15-20 | Every counted event has the user, the feature and a timestamp at or after the start. |
| Calculator.TotalUsage | src/sdk/usage-calculator.js:7-30 | Fails with missing parameters iff `userId` or `feature_name` is falsy. Otherwise it fails iff the period is invalid. A missing table gives 0. |
| Calculator.TotalUsageAfterCountedInsert | src/sdk/usage-calculator.js:15-22 | Appending a row that has the user and the feature and is timestamped at or after the start raises the total by its credits. There is no event-type filter. |
| Calculator.TotalUsageAfterOtherInsert | src/sdk/usage-calculator.js:15-22 | Appending any other row, or appending to a missing table, leaves the total unchanged. |
| Calculator.UsageStats | src/sdk/usage-calculator.js:32-70 | Fails, in this order, on missing identifiers, then an invalid `groupBy`, then an invalid period. The result has no periods iff it is the all-zero empty result. |
| Calculator.StatsTotalIsTotalUsage | src/sdk/usage-calculator.js:44-63 | Whenever the stats succeed, the total usage succeeds too, and the stats' `total` equals it. |
| Calculator.StatsPeriodsAreTheEventKeys | src/sdk/usage-calculator.js:44-124 | `byPeriod` holds each period key of the counted events exactly once, and no other key. |
| Calculator.StatsMinAtMostMax | src/sdk/usage-calculator.js:141-161 | `min <= max` in every successful result. |
| Calculator.BatchStats | src/sdk/usage-calculator.js:72-75 | An empty user list or an empty feature list is rejected. |
| Calculator.BatchIsPointwise | src/sdk/usage-calculator.js:72-91 | The batch succeeds iff every pair succeeds. It then has exactly the listed users and, for each, exactly the listed features, each holding `getUsageStats` of that pair. Otherwise it fails with some pair's error. |
| Calculator.UserRowPointwise | src/sdk/usage-calculator.js:81-87 | One user's row succeeds iff every feature does, with each feature's statistics. |
| Calculator.AllRowsPointwise | src/sdk/usage-calculator.js:79-88 | The nested rows succeed iff every pair does, with each pair's statistics. |
| Calculator.UserRowFails | src/sdk/usage-calculator.js:81-87 | The first failing feature's error is the row's error. |
| Calculator.AllRowsFails | src/sdk/usage-calculator.js:79-88 | The first failing user's row error is the batch's error. |
| Calculator.UsageCalculator.GetUsageStats | src/sdk/usage-calculator.js:32-70 | The method equals `UsageStats` on the store's current tables. |
| Calculator.UsageCalculator.UserRowStats | src/sdk/usage-calculator.js:80-87 | The inner loop builds exactly one user's row, `UserRow`, stopping at the first error. |
| Calculator.UsageCalculator.GetBatchUsageStats | src/sdk/usage-calculator.js:72-91 | The outer loop, with the inner loop for each user, builds exactly `BatchStats`, stopping at the first error. |
| Adjustments.ActiveAdjustments | src/sdk/limit-adjustment.js:7-35 | Returns 0 when adjustments are disabled, 0 when the query fails (never an error), and 0 for an empty table. With `ActiveAfterInsert` this fixes the sum for every table. |
| Adjustments.ActiveAfterInsert | src/sdk/limit-adjustment.js:13-28 | Appending a row raises the sum by its amount iff adjustments are enabled, the table exists, and the row matches the customer and feature with `start_date <= now <= end_date`. Otherwise the sum is unchanged. |
| Adjustments.NewAdjustment | src/sdk/limit-adjustment.js:37-49 | The row has exactly the six columns. `customer_id`, `feature_name` and `amount` are the caller's `userId`, `featureName` and `amount`. `type` defaults to `one_time` only when undefined. Truthy start and end dates are kept. A falsy start date becomes `now`, and a falsy end date becomes `now` plus 30 days. |
| Adjustments.DefaultWindowIsThirtyDays | src/sdk/limit-adjustment.js:13-48 | With default dates, the row is active exactly from its creation to thirty days later. |
| Adjustments.LimitAdjustment.AddAdjustment | src/sdk/limit-adjustment.js:37-63 | When disabled, it refuses and the store is unchanged. Otherwise it appends the one row and returns that row, or rethrows the insert error. |
| Adjustments.AddedAdjustmentIsActive | src/sdk/limit-adjustment.js:13-48 | A default-window adjustment raises `getActiveAdjustments` by its amount at every instant of its thirty days. |
| Enforcer.WindowUsage | src/sdk/enforce-limits.js:27-34 | The usage query succeeds iff the usage table exists. An empty usage table gives 0. |
| Enforcer.WindowUsageAfterInsert | src/sdk/enforce-limits.js:27-34 | Appending a row raises the windowed usage by its credits iff the row has this user, this event type and a timestamp at or after `now` minus 30 days. Otherwise the usage is unchanged. |
| Enforcer.Authorization | src/sdk/enforce-limits.js:7-37 | Fails with UserNotFound iff the lookup finds no user or a user without a plan. Success implies a planned user and a successful limit lookup. A missing limit row allows. A refusal implies a limit row and a usage of at least `limit_value`. With a planned user and a limit row, the result is `usage < limit_value`, or a null dereference when the usage query fails. |
| Enforcer.GrantedUserExists | src/sdk/enforce-limits.js:9-16 | A successful decision implies a users table with a planned user of that id. |
| Enforcer.LimitIsExclusive | src/sdk/enforce-limits.js:36 | Usage equal to the limit is refused, and usage one below it is allowed. |
| Enforcer.PlanIsIrrelevant | src/sdk/enforce-limits.js:19-22 | Two stores that differ only in their users decide alike whenever both find a planned user. |
| Enforcer.InsertNeverUnblocks | src/sdk/enforce-limits.js:27-36 | After inserting any row with non-negative credits, a refusal stays a refusal. |
| Enforcer.LimitEnforcer.Authorize | src/sdk/enforce-limits.js:7-37 | The method equals `Authorization` on the store's tables. It has no `modifies` clause, so it writes nothing. |
| Operations.UsageRecord | src/sdk/usage-operations.js:7-19 | Fails iff an identifier is falsy or `creditsUsed` is not a number. The record has exactly its six columns, `event_type` `usage`, `credits_used = creditsUsed`, and metadata `{}` when undefined. |
| Operations.AdjustmentRecord | src/sdk/usage-operations.js:24-40 | The same validation on `amount`. Null metadata fails as a null dereference. The record has `event_type` `adjustment`, `credits_used = amount`, and metadata with a truthy reason. Succeeds iff the parameters are valid and the metadata (`{}` when undefined) is non-null with a truthy reason. The stored metadata is the caller's. |
| Operations.ReasonRequired | src/sdk/usage-operations.js:29-31 | Object metadata without a truthy reason fails with MissingReason. |
| Operations.StampedEventIsCounted | src/sdk/usage-operations.js:12-19 | An event written now for a user and feature raises that pair's total usage by its credits. |
| Operations.IncrementIsCounted | src/sdk/usage-operations.js:7-21 | A successful increment raises the matching total usage by exactly `creditsUsed`. |
| Operations.AdjustmentIsCounted | src/sdk/usage-operations.js:24-42 | A successful adjustment moves the matching total usage by exactly `amount`. |
| Operations.IncrementInvisibleToAuthorize | src/sdk/usage-operations.js:16 | Usage events (type `usage`) never change `authorize` for another event type. |
| Operations.UsageOperations.IncrementUsage | src/sdk/usage-operations.js:7-22 | A validation failure writes nothing. Otherwise exactly the one record is appended to the usage table. |
| Operations.UsageOperations.AdjustUsage | src/sdk/usage-operations.js:24-43 | A validation failure writes nothing. Otherwise exactly the one record is appended to the usage table. |
| Tracker.TrackedRecord | src/sdk/track-event.js:7-18 | Fails iff `userId` or `eventType` is falsy or `creditsUsed` is not a number. The record carries the given fields, metadata `{}` by default, and no `feature_name`. |
| Tracker.TrackedEventNotInTotalUsage | src/sdk/track-event.js:12-18 | A tracked event never changes any `getTotalUsage` result. |
| Tracker.TrackedEventInAuthorizeWindow | src/sdk/track-event.js:12-18 | A tracked event raises `authorize`'s windowed usage by its credits for thirty days. |
| Tracker.UsageTracker.TrackEvent | src/sdk/track-event.js:7-21 | A validation failure writes nothing. Otherwise exactly the one event is appended. |
| Facade.FetchUsageAsWritten | src/sdk/index.js:89-106 | Falsy identifiers fail with USAGE_INVALID_PARAMS. |
| Facade.FetchUsageAlwaysFails | src/sdk/index.js:96 | With the limit taken as an input, the usage half of `fetchUsage` as written always fails. Valid identifiers end in "Missing required parameters" from `getTotalUsage`. |
| Facade.FetchUsage | src/sdk/index.js:89-106 | Corrected key. Fails with USAGE_INVALID_PARAMS iff an identifier is falsy, and succeeds otherwise. `current` is the current-month total usage and `limit` passes through. `isUnlimited` iff there is no limit. `remaining` is null iff there is no limit, and otherwise `remaining + current == limit`. |
| Facade.AdjustmentFlagKept | src/sdk/index.js:32 | Reading `enableUserAdjustments` from the raw configuration agrees with the validated one. |
| Facade.UsageFlow.Create | src/sdk/index.js:12-35 | Construction fails iff validation does, with its error. Otherwise every component shares the store and the validated configuration. The adjustment component exists iff adjustments are enabled. Stripe is chosen iff the integration is manual. |
| Facade.UsageFlow.constructor | src/sdk/index.js:12-35 | Builds the components as `Create` states. The Stripe integration gets the secret key; otherwise the payment helper gets the raw configuration. |
| Facade.UsageFlow.AddLimitAdjustment | src/sdk/index.js:82-87 | When disabled, it refuses and writes nothing. Otherwise it is `addAdjustment`. |

## Left out

- The limit that `fetchUsage` reports is an input `Option<int>`. The methods `fetchFeatureLimitForUser` and `fetchFeatureLimit` that `src/sdk/index.js:51,55,97` call are not defined in `src/sdk/enforce-limits.js`. As written, the call at line 97 throws a TypeError. So the caller of `fetchUsage` as written sees that TypeError before the `getTotalUsage` error that Facade.FetchUsageAlwaysFails exhibits; the model states only what the usage half does.
- `Promise.all` in `fetchUsage` is modelled as one lookup after the other.
- Time zones and daylight saving time are not modelled. Every `Date` operation (`getMonth`, `getDay`, `setDate`) is taken in UTC, with 86 400 000 ms days.
- Caller-supplied `startDate`/`endDate` strings are stored as given. Range filters compare only instants, so a row whose date is not an instant fails them; string date parsing is not modelled.
- Floating point is not modelled: credits and amounts are integers, so there is no `NaN` or `Infinity`. A credit that is not a number counts as 0, which is what `|| 0` does for undefined and null. String concatenation in `+` is not modelled.
- Grouping.CalculateStats: requires at least one bucket. On no buckets the source computes `0 / 0 = NaN` for the average, but `getUsageStats` never calls it so.
- Grouping.StatsOf: requires at least one bucket, for the same reason.
- `average` is a real quotient. JavaScript's double division is not modelled.
- Errors are a datatype of error kinds. The message texts are not modelled.
- Logging is not modelled: `DebugLogger`, every `console.error` and the `config.debug` branches have no effect on results.
- `connectionCheck` and the one-line delegations of `UsageFlow` (`incrementUsage`, `authorize`, `getUsageStats`, ...) are not modelled separately; the delegates themselves are.
- The Stripe and payment-helper integrations are foreign libraries. The model records only which one the constructor builds, and with what argument.
- A store failure other than a missing table is not modelled: network errors, row-level errors and constraint violations.
- `getBatchUsageStats` takes the user and feature lists as sequences of strings, so `userIds?.length` on a non-array is not modelled.
- `UsageTracker` is not built by `UsageFlow`. It is modelled as a stand-alone component over the same store.

## Findings

| source | as written | input that shows it | evidently intended | confidence | as-written member | corrected member |
|---|---|---|---|---|---|---|
| src/sdk/index.js:96 | `fetchUsage` calls `getTotalUsage({ userId, featureName })`, but `getTotalUsage` reads `feature_name` (src/sdk/usage-calculator.js:7-9), so its check always fails | `fetchUsage({ userId: "u1", featureName: "api" })`: with the limit taken as an input, the usage half always ends in "Missing required parameters: userId, feature_name". As written, line 97's TypeError rejects first; see "## Left out". | pass `feature_name: featureName`, so `current` is the user's current-month usage of the feature | high; not executed | Facade.FetchUsageAlwaysFails | Facade.FetchUsage |
