/**
 * `UsageCalculator` (src/sdk/usage-calculator.js): a user's total usage of a
 * feature over a named period, the per-period statistics of that usage, and
 * the statistics for every pair of a list of users and features.
 */
module Calculator {
  import opened JsValues
  import opened Results
  import Store
  import opened Periods
  import opened Grouping

  /** The filters of both queries: this user, this feature, at or after `start`. */
  function UsageQuery(userId: Value, feature: Value, start: int): seq<Store.Cond> {
    [Store.Eq("user_id", userId), Store.Eq("feature_name", feature), Store.AtLeast("timestamp", start)]
  }

  /** The period a call asks for, `current_month` when left undefined. */
  function RequestedPeriod(params: Object): Value {
    WithDefault(params, "period", Str("current_month"))
  }

  /** The granularity a stats call asks for, `day` when left undefined. */
  function RequestedGroupBy(params: Object): Value {
    WithDefault(params, "groupBy", Str("day"))
  }

  /** Both identifiers of a call are present: `userId && feature_name`. */
  predicate HasIds(params: Object) {
    Truthy(Get(params, "userId")) && Truthy(Get(params, "feature_name"))
  }

  /**
   * The events a call adds up: the usage rows of the user and feature from
   * `start` on, in table order. A failed query yields no rows (its error is
   * not looked at).
   */
  function Counted(tables: Store.Tables, config: Object, params: Object, start: int): (events: seq<Store.Record>)
    ensures forall e <- events :: Store.Satisfies(e, UsageQuery(Get(params, "userId"), Get(params, "feature_name"), start))
  {
    match Store.Rows(tables, Get(config, "usageEventsTable"))
    case None => []
    case Some(rows) =>
      Store.WhereMembers(rows, UsageQuery(Get(params, "userId"), Get(params, "feature_name"), start));
      Store.Where(rows, UsageQuery(Get(params, "userId"), Get(params, "feature_name"), start))
  }

  /** A stored row counts toward the usage a call with `params` asks about at `now`. */
  predicate CountsToward(r: Store.Record, params: Object, now: int) {
    var start := StartDate(RequestedPeriod(params), now);
    start.Ok? && Store.Satisfies(r, UsageQuery(Get(params, "userId"), Get(params, "feature_name"), start.value))
  }

  /** `getTotalUsage({ userId, feature_name, period })`. */
  function TotalUsage(tables: Store.Tables, config: Object, params: Object, now: int): (r: Result<int>)
    ensures !HasIds(params) <==> r == Err(MissingParameters(["userId", "feature_name"]))
    ensures HasIds(params) ==> (r.Err? <==> StartDate(RequestedPeriod(params), now).Err?)
    ensures HasIds(params) && r.Err? ==> r.error == InvalidPeriod
    ensures r.Ok? && !Store.HasTable(tables, Get(config, "usageEventsTable")) ==> r.value == 0
  {
    if !HasIds(params) then Err(MissingParameters(["userId", "feature_name"]))
    else
      var start :- StartDate(RequestedPeriod(params), now);
      Ok(Store.Sum(Counted(tables, config, params, start), "credits_used"))
  }

  /**
   * Recording one more row that counts toward the call (it has the user and
   * the feature and is timestamped at or after the start; no event type is
   * looked at) raises the total by the row's credits.
   */
  lemma TotalUsageAfterCountedInsert(tables: Store.Tables, config: Object, params: Object, now: int, r: Store.Record)
    requires TotalUsage(tables, config, params, now).Ok?
    requires Store.HasTable(tables, Get(config, "usageEventsTable")) && CountsToward(r, params, now)
    ensures TotalUsage(Store.Appended(tables, Get(config, "usageEventsTable"), r), config, params, now)
         == Ok(TotalUsage(tables, config, params, now).value + Store.NumberIn(r, "credits_used"))
  {
    var start := StartDate(RequestedPeriod(params), now).value;
    CountedAfterInsert(tables, config, params, start, r);
    var before := Counted(tables, config, params, start);
    var after := Counted(Store.Appended(tables, Get(config, "usageEventsTable"), r), config, params, start);
    assert after == before + [r];
    assert after[..|after| - 1] == before;
  }

  /** Recording a row that does not count toward the call, or into a missing table, leaves the total as it was. */
  lemma TotalUsageAfterOtherInsert(tables: Store.Tables, config: Object, params: Object, now: int, r: Store.Record)
    requires TotalUsage(tables, config, params, now).Ok?
    requires !(Store.HasTable(tables, Get(config, "usageEventsTable")) && CountsToward(r, params, now))
    ensures TotalUsage(Store.Appended(tables, Get(config, "usageEventsTable"), r), config, params, now)
         == TotalUsage(tables, config, params, now)
  {
    var start := StartDate(RequestedPeriod(params), now).value;
    CountedAfterInsert(tables, config, params, start, r);
  }

  /** The rows counted after an insert: the earlier ones, then the new row when it matches. */
  lemma CountedAfterInsert(tables: Store.Tables, config: Object, params: Object, start: int, r: Store.Record)
    ensures var name := Get(config, "usageEventsTable");
      var q := UsageQuery(Get(params, "userId"), Get(params, "feature_name"), start);
      Counted(Store.Appended(tables, name, r), config, params, start)
      == Counted(tables, config, params, start) + if Store.HasTable(tables, name) && Store.Satisfies(r, q) then [r] else []
  {
    var name := Get(config, "usageEventsTable");
    if Store.HasTable(tables, name) {
      Store.WhereAppend(tables[name.s], UsageQuery(Get(params, "userId"), Get(params, "feature_name"), start), r);
    }
  }

  /** `getUsageStats({ userId, feature_name, period, groupBy })` as a value. */
  function UsageStats(tables: Store.Tables, config: Object, params: Object, now: int): (r: Result<Stats>)
    ensures !HasIds(params) <==> r == Err(MissingParameters(["userId", "feature_name"]))
    ensures HasIds(params) && ParseGroupBy(RequestedGroupBy(params)).None? ==> r == Err(InvalidGroupBy)
    ensures HasIds(params) && ParseGroupBy(RequestedGroupBy(params)).Some? ==>
      (r.Err? <==> StartDate(RequestedPeriod(params), now).Err?)
    ensures r.Err? ==> r.error in {MissingParameters(["userId", "feature_name"]), InvalidGroupBy, InvalidPeriod}
    ensures r.Ok? ==> (r.value.byPeriod == [] <==> r.value == EmptyStats)
  {
    if !HasIds(params) then Err(MissingParameters(["userId", "feature_name"]))
    else if ParseGroupBy(RequestedGroupBy(params)).None? then Err(InvalidGroupBy)
    else
      var g := ParseGroupBy(RequestedGroupBy(params)).value;
      var start :- StartDate(RequestedPeriod(params), now);
      var events := Store.OrderByTimestamp(Counted(tables, config, params, start));
      if |events| == 0 then Ok(EmptyStats)
      else
        GroupNonEmpty(events, PeriodKeyOf(g));
        Ok(StatsOf(Group(events, PeriodKeyOf(g))))
  }

  lemma GroupNonEmpty(events: seq<Store.Record>, keyOf: Store.Record -> string)
    requires events != []
    ensures |Group(events, keyOf)| > 0
  {
    GroupIsPartition(events, keyOf);
    assert keyOf(events[0]) in FirstKeys(events, keyOf);
  }

  /** The statistics' total is the total `getTotalUsage` reports for the same call. */
  lemma StatsTotalIsTotalUsage(tables: Store.Tables, config: Object, params: Object, now: int)
    requires UsageStats(tables, config, params, now).Ok?
    ensures TotalUsage(tables, config, params, now).Ok?
    ensures UsageStats(tables, config, params, now).value.total == TotalUsage(tables, config, params, now).value
  {
    var g := ParseGroupBy(RequestedGroupBy(params)).value;
    var start := StartDate(RequestedPeriod(params), now).value;
    var counted := Counted(tables, config, params, start);
    var events := Store.OrderByTimestamp(counted);
    Store.OrderByTimestampSum(counted, "credits_used");
    if |events| > 0 {
      GroupTotal(events, PeriodKeyOf(g));
    }
  }

  /**
   * The periods of the statistics are the period keys of the counted events,
   * each once (their order, by earliest event, is Grouping.GroupAscending).
   */
  lemma StatsPeriodsAreTheEventKeys(tables: Store.Tables, config: Object, params: Object, now: int)
    requires UsageStats(tables, config, params, now).Ok?
    ensures ParseGroupBy(RequestedGroupBy(params)).Some? && StartDate(RequestedPeriod(params), now).Ok?
    ensures var s := UsageStats(tables, config, params, now).value;
      var g := ParseGroupBy(RequestedGroupBy(params)).value;
      var events := Counted(tables, config, params, StartDate(RequestedPeriod(params), now).value);
      (forall i, j :: 0 <= i < j < |s.byPeriod| ==> s.byPeriod[i].date != s.byPeriod[j].date)
      && (forall e <- events :: exists p <- s.byPeriod :: p.date == PeriodKey(Store.Timestamp(e), g))
      && (forall p <- s.byPeriod :: exists e <- events :: p.date == PeriodKey(Store.Timestamp(e), g))
  {
    var g := ParseGroupBy(RequestedGroupBy(params)).value;
    var counted := Counted(tables, config, params, StartDate(RequestedPeriod(params), now).value);
    var events := Store.OrderByTimestamp(counted);
    OrderedPeriodsAreTheKeys(counted, g);
    if |events| > 0 {
      assert UsageStats(tables, config, params, now).value.byPeriod == Totals(Group(events, PeriodKeyOf(g)));
    } else {
      assert UsageStats(tables, config, params, now).value.byPeriod == [];
    }
  }

  /** The step of `StatsPeriodsAreTheEventKeys` for fixed counted events, where the period plays no part. */
  lemma OrderedPeriodsAreTheKeys(counted: seq<Store.Record>, g: GroupBy)
    ensures counted == [] <==> Store.OrderByTimestamp(counted) == []
    ensures var ts := Totals(Group(Store.OrderByTimestamp(counted), PeriodKeyOf(g)));
      (forall i, j :: 0 <= i < j < |ts| ==> ts[i].date != ts[j].date)
      && (forall e <- counted :: exists p <- ts :: p.date == PeriodKey(Store.Timestamp(e), g))
      && (forall p <- ts :: exists e <- counted :: p.date == PeriodKey(Store.Timestamp(e), g))
  {
    var events := Store.OrderByTimestamp(counted);
    SameMembers(counted, events);
    TotalsCoverKeys(events, PeriodKeyOf(g));
  }

  lemma SameMembers(a: seq<Store.Record>, b: seq<Store.Record>)
    requires multiset(a) == multiset(b)
    ensures forall e :: e in a <==> e in b
    ensures a == [] <==> b == []
  {
    assert forall e :: e in a <==> e in multiset(a);
    assert forall e :: e in b <==> e in multiset(b);
    assert |a| == |multiset(a)| && |b| == |multiset(b)|;
  }

  /** The smallest period total never exceeds the largest reported (which is at least 0). */
  lemma StatsMinAtMostMax(tables: Store.Tables, config: Object, params: Object, now: int)
    requires UsageStats(tables, config, params, now).Ok?
    ensures UsageStats(tables, config, params, now).value.min <= UsageStats(tables, config, params, now).value.max
  {
    var s := UsageStats(tables, config, params, now).value;
    if s != EmptyStats {
      var t :| t in s.byPeriod && t.total == s.min;
    }
  }

  // ---------------------------------------------------------------------------
  // getBatchUsageStats

  /** The parameters the batch passes to `getUsageStats` for one pair. */
  function PairParams(userId: string, feature: string, period: Value): Object {
    map["userId" := Str(userId), "feature_name" := Str(feature), "period" := period]
  }

  /** The period the batch passes on: `current_month` when left undefined. */
  function BatchPeriod(period: Value): Value {
    if period == Undefined then Str("current_month") else period
  }

  /** `getUsageStats` for one pair of the batch. */
  function PairStats(tables: Store.Tables, config: Object, period: Value, now: int): (string, string) -> Result<Stats> {
    (u, f) => UsageStats(tables, config, PairParams(u, f, period), now)
  }

  /** One user's row of the batch: the statistics per feature, or the first error. */
  function UserRow(stats: (string, string) -> Result<Stats>, u: string, fs: seq<string>): Result<map<string, Stats>> {
    if fs == [] then Ok(map[])
    else
      var f := fs[|fs| - 1];
      var row :- UserRow(stats, u, fs[..|fs| - 1]);
      var s :- stats(u, f);
      Ok(row[f := s])
  }

  /** The rows of the batch for `us`, or the first error in loop order. */
  function AllRows(stats: (string, string) -> Result<Stats>, us: seq<string>, fs: seq<string>)
    : Result<map<string, map<string, Stats>>>
  {
    if us == [] then Ok(map[])
    else
      var u := us[|us| - 1];
      var rows :- AllRows(stats, us[..|us| - 1], fs);
      var row :- UserRow(stats, u, fs);
      Ok(rows[u := row])
  }

  /** `getBatchUsageStats({ userIds, feature_names, period })` as a value. */
  function BatchStats(tables: Store.Tables, config: Object, userIds: seq<string>, features: seq<string>, period: Value, now: int)
    : (r: Result<map<string, map<string, Stats>>>)
    ensures (userIds == [] || features == []) ==> r == Err(MissingParameters(["userIds", "feature_names"]))
  {
    if userIds == [] || features == [] then Err(MissingParameters(["userIds", "feature_names"]))
    else AllRows(PairStats(tables, config, BatchPeriod(period), now), userIds, features)
  }

  lemma {:induction false} UserRowPointwise(stats: (string, string) -> Result<Stats>, u: string, fs: seq<string>)
    ensures var r := UserRow(stats, u, fs);
      (r.Ok? <==> forall f <- fs :: stats(u, f).Ok?)
      && (r.Ok? ==> r.value.Keys == (set f <- fs) && forall f <- fs :: r.value[f] == stats(u, f).value)
      && (r.Err? ==> exists f <- fs :: stats(u, f) == Err(r.error))
  {
    if fs != [] {
      var init := fs[..|fs| - 1];
      var f := fs[|fs| - 1];
      assert fs == init + [f];
      UserRowPointwise(stats, u, init);
    }
  }

  lemma {:induction false} AllRowsPointwise(stats: (string, string) -> Result<Stats>, us: seq<string>, fs: seq<string>)
    ensures var r := AllRows(stats, us, fs);
      (r.Ok? <==> forall u <- us, f <- fs :: stats(u, f).Ok?)
      && (r.Ok? ==>
            r.value.Keys == (set u <- us)
            && (forall u <- us :: r.value[u].Keys == (set f <- fs))
            && forall u <- us, f <- fs :: r.value[u][f] == stats(u, f).value)
      && (r.Err? ==> exists u <- us, f <- fs :: stats(u, f) == Err(r.error))
  {
    if us != [] {
      var init := us[..|us| - 1];
      var u := us[|us| - 1];
      assert us == init + [u];
      AllRowsPointwise(stats, init, fs);
      UserRowPointwise(stats, u, fs);
    }
  }

  /**
   * The batch holds, for every listed user and feature, exactly the statistics
   * `getUsageStats` gives that pair (with the batch's period), and fails with
   * the error of some pair when any pair fails.
   */
  lemma BatchIsPointwise(tables: Store.Tables, config: Object, us: seq<string>, fs: seq<string>, period: Value, now: int)
    requires us != [] && fs != []
    ensures var pair := PairStats(tables, config, BatchPeriod(period), now);
      var r := BatchStats(tables, config, us, fs, period, now);
      (r.Ok? <==> forall u <- us, f <- fs :: pair(u, f).Ok?)
      && (r.Ok? ==>
            r.value.Keys == (set u <- us)
            && (forall u <- us :: r.value[u].Keys == (set f <- fs))
            && forall u <- us, f <- fs :: r.value[u][f] == pair(u, f).value)
      && (r.Err? ==> exists u <- us, f <- fs :: pair(u, f) == Err(r.error))
  {
    AllRowsPointwise(PairStats(tables, config, BatchPeriod(period), now), us, fs);
  }

  /** A failing pair fails the row with that pair's error when every earlier feature succeeds. */
  lemma {:induction false} UserRowFails(stats: (string, string) -> Result<Stats>, u: string, fs: seq<string>, j: nat)
    requires j < |fs| && UserRow(stats, u, fs[..j]).Ok? && stats(u, fs[j]).Err?
    ensures UserRow(stats, u, fs) == Err(stats(u, fs[j]).error)
    decreases |fs|
  {
    if j + 1 < |fs| {
      var init := fs[..|fs| - 1];
      assert init[..j] == fs[..j] && init[j] == fs[j];
      UserRowFails(stats, u, init, j);
    } else {
      assert fs[..|fs| - 1] == fs[..j];
    }
  }

  /** A failing row fails the batch with that row's error when every earlier user succeeds. */
  lemma {:induction false} AllRowsFails(stats: (string, string) -> Result<Stats>, us: seq<string>, fs: seq<string>, i: nat)
    requires i < |us| && AllRows(stats, us[..i], fs).Ok? && UserRow(stats, us[i], fs).Err?
    ensures AllRows(stats, us, fs) == Err(UserRow(stats, us[i], fs).error)
    decreases |us|
  {
    if i + 1 < |us| {
      var init := us[..|us| - 1];
      assert init[..i] == us[..i] && init[i] == us[i];
      AllRowsFails(stats, init, fs, i);
    } else {
      assert us[..|us| - 1] == us[..i];
    }
  }

  /** `UsageCalculator`: reads the usage table of a shared store under a validated configuration. */
  class UsageCalculator {
    const store: Store.Store
    const config: Object

    constructor(store: Store.Store, config: Object)
      ensures this.store == store && this.config == config
    {
      this.store := store;
      this.config := config;
    }

    /** `getUsageStats`: the query, then `_groupEventsByPeriod` and `_calculateStats`. */
    method GetUsageStats(params: Object, now: int) returns (r: Result<Stats>)
      ensures r == UsageStats(store.tables, config, params, now)
    {
      if !HasIds(params) {
        return Err(MissingParameters(["userId", "feature_name"]));
      }
      var g := ParseGroupBy(RequestedGroupBy(params));
      if g.None? {
        return Err(InvalidGroupBy);
      }
      var start := StartDate(RequestedPeriod(params), now);
      if start.Err? {
        return Err(start.error);
      }
      var events := Store.OrderByTimestamp(Counted(store.tables, config, params, start.value));
      if |events| == 0 {
        return Ok(EmptyStats);
      }
      var grouped := GroupEventsByPeriod(events, g.value);
      GroupNonEmpty(events, PeriodKeyOf(g.value));
      var stats := CalculateStats(grouped);
      return Ok(stats);
    }

    /** The inner loop of `getBatchUsageStats`: one `getUsageStats` call per feature for user `u`. */
    method UserRowStats(u: string, features: seq<string>, p: Value, now: int) returns (row: Result<map<string, Stats>>)
      ensures row == UserRow(PairStats(store.tables, config, p, now), u, features)
    {
      ghost var stats := PairStats(store.tables, config, p, now);
      var acc: map<string, Stats> := map[];
      for j := 0 to |features|
        invariant UserRow(stats, u, features[..j]) == Ok(acc)
      {
        var f := features[j];
        assert features[..j + 1][..j] == features[..j];
        var s := GetUsageStats(PairParams(u, f, p), now);
        assert s == stats(u, f);
        if s.Err? {
          UserRowFails(stats, u, features, j);
          return Err(s.error);
        }
        acc := acc[f := s.value];
      }
      assert features[..|features|] == features;
      return Ok(acc);
    }

    /** `getBatchUsageStats`: one `getUsageStats` call per user and feature, in list order. */
    method GetBatchUsageStats(userIds: seq<string>, features: seq<string>, period: Value, now: int)
      returns (r: Result<map<string, map<string, Stats>>>)
      ensures r == BatchStats(store.tables, config, userIds, features, period, now)
    {
      if userIds == [] || features == [] {
        return Err(MissingParameters(["userIds", "feature_names"]));
      }
      var p := BatchPeriod(period);
      ghost var stats := PairStats(store.tables, config, p, now);
      var results: map<string, map<string, Stats>> := map[];
      for i := 0 to |userIds|
        invariant AllRows(stats, userIds[..i], features) == Ok(results)
      {
        var u := userIds[i];
        assert userIds[..i + 1][..i] == userIds[..i];
        var row := UserRowStats(u, features, p, now);
        if row.Err? {
          AllRowsFails(stats, userIds, features, i);
          return Err(row.error);
        }
        results := results[u := row.value];
      }
      assert userIds[..|userIds|] == userIds;
      return Ok(results);
    }
  }
}
