/**
 * `UsageOperations` (src/sdk/usage-operations.js): validate a usage or
 * adjustment call, build its event, and append it to the usage table.
 */
module Operations {
  import opened JsValues
  import opened Results
  import Store
  import Periods
  import Calculator
  import Enforcer

  /** The usage table named by the configuration. */
  function EventsTable(config: Object): Value {
    Get(config, "usageEventsTable")
  }

  /** `incrementUsage`'s checks: both identifiers truthy and `typeof creditsUsed === 'number'`. */
  predicate ValidUsage(params: Object) {
    Truthy(Get(params, "userId")) && Truthy(Get(params, "featureName")) && Get(params, "creditsUsed").Num?
  }

  /** `adjustUsage`'s first checks, on `amount` instead of `creditsUsed`. */
  predicate ValidAdjustment(params: Object) {
    Truthy(Get(params, "userId")) && Truthy(Get(params, "featureName")) && Get(params, "amount").Num?
  }

  /** The event `incrementUsage({ userId, featureName, creditsUsed, metadata })` writes at `now`. */
  function UsageRecord(params: Object, now: int): (r: Result<Store.Record>)
    ensures r.Err? <==> !ValidUsage(params)
    ensures r.Err? ==> r.error == MissingParameters(["userId", "featureName", "creditsUsed"])
    ensures r.Ok? ==>
      && r.value.Keys == {"user_id", "feature_name", "credits_used", "event_type", "metadata", "timestamp"}
      && r.value["user_id"] == Get(params, "userId") && r.value["feature_name"] == Get(params, "featureName")
      && r.value["credits_used"] == Get(params, "creditsUsed") && r.value["event_type"] == Str("usage")
      && r.value["timestamp"] == Instant(now)
      && r.value["metadata"] == if Get(params, "metadata") == Undefined then Obj(map[]) else Get(params, "metadata")
  {
    if !ValidUsage(params) then Err(MissingParameters(["userId", "featureName", "creditsUsed"]))
    else
      Ok(map[
        "user_id" := Get(params, "userId"),
        "feature_name" := Get(params, "featureName"),
        "credits_used" := Get(params, "creditsUsed"),
        "event_type" := Str("usage"),
        "metadata" := WithDefault(params, "metadata", Obj(map[])),
        "timestamp" := Instant(now)
      ])
  }

  /**
   * The event `adjustUsage({ userId, featureName, amount, metadata })` writes
   * at `now`. Its metadata must carry a truthy `reason`; a null metadata makes
   * the reason check itself fail.
   */
  function AdjustmentRecord(params: Object, now: int): (r: Result<Store.Record>)
    ensures !ValidAdjustment(params) <==> r == Err(MissingParameters(["userId", "featureName", "amount"]))
    ensures ValidAdjustment(params) && Get(params, "metadata") == Null ==> r == Err(NullDereference)
    ensures r.Ok? ==> ValidAdjustment(params)
    ensures r.Ok? ==>
      && r.value.Keys == {"user_id", "feature_name", "credits_used", "event_type", "metadata", "timestamp"}
      && r.value["user_id"] == Get(params, "userId") && r.value["feature_name"] == Get(params, "featureName")
      && r.value["credits_used"] == Get(params, "amount") && r.value["event_type"] == Str("adjustment")
      && r.value["timestamp"] == Instant(now)
      && r.value["metadata"] != Null && r.value["metadata"] != Undefined
      && Truthy(Property(r.value["metadata"], "reason"))
    ensures var m := WithDefault(params, "metadata", Obj(map[]));
      && (r.Ok? <==> ValidAdjustment(params) && m != Null && Truthy(Property(m, "reason")))
      && (r.Ok? ==> r.value["metadata"] == m)
  {
    if !ValidAdjustment(params) then Err(MissingParameters(["userId", "featureName", "amount"]))
    else
      var metadata := WithDefault(params, "metadata", Obj(map[]));
      if metadata == Null then Err(NullDereference)
      else if !Truthy(Property(metadata, "reason")) then Err(MissingReason)
      else
        Ok(map[
          "user_id" := Get(params, "userId"),
          "feature_name" := Get(params, "featureName"),
          "credits_used" := Get(params, "amount"),
          "event_type" := Str("adjustment"),
          "metadata" := metadata,
          "timestamp" := Instant(now)
        ])
  }

  /** Without a reason in an object metadata, `adjustUsage` fails with `MissingReason`. */
  lemma ReasonRequired(params: Object, now: int)
    requires ValidAdjustment(params)
    requires Get(params, "metadata").Obj? && !Truthy(Get(Get(params, "metadata").fields, "reason"))
    ensures AdjustmentRecord(params, now) == Err(MissingReason)
  {
  }

  /** An event stamped `now` for a user and feature, as both operations write it. */
  predicate StampedNow(r: Store.Record, params: Object, now: int) {
    && Get(r, "user_id") == Get(params, "userId")
    && Get(r, "feature_name") == Get(params, "featureName")
    && Get(r, "timestamp") == Instant(now)
  }

  /**
   * An event written now for a user and feature counts toward that user's
   * total usage of that feature over any named period: the total grows by the
   * event's credits.
   */
  lemma StampedEventIsCounted(tables: Store.Tables, config: Object, q: Object, now: int, r: Store.Record, params: Object)
    requires StampedNow(r, params, now)
    requires Calculator.TotalUsage(tables, config, q, now).Ok?
    requires Get(q, "userId") == Get(params, "userId") && Get(q, "feature_name") == Get(params, "featureName")
    requires Store.HasTable(tables, EventsTable(config))
    ensures Calculator.TotalUsage(Store.Appended(tables, EventsTable(config), r), config, q, now)
         == Ok(Calculator.TotalUsage(tables, config, q, now).value + Store.NumberIn(r, "credits_used"))
  {
    var period := Calculator.RequestedPeriod(q);
    Periods.StartDateNotAfterNow(period, now);
    var start := Periods.StartDate(period, now).value;
    StampedMatches(r, params, q, now, start);
    assert Calculator.CountsToward(r, q, now);
    Calculator.TotalUsageAfterCountedInsert(tables, config, q, now, r);
  }

  /** An event stamped `now` passes the usage query of its own user and feature from any earlier start. */
  lemma StampedMatches(r: Store.Record, params: Object, q: Object, now: int, start: int)
    requires StampedNow(r, params, now) && start <= now
    requires Calculator.HasIds(q)
    requires Get(q, "userId") == Get(params, "userId") && Get(q, "feature_name") == Get(params, "featureName")
    ensures Store.Satisfies(r, Calculator.UsageQuery(Get(q, "userId"), Get(q, "feature_name"), start))
  {
    var query := Calculator.UsageQuery(Get(q, "userId"), Get(q, "feature_name"), start);
    assert forall c <- query :: Store.Holds(r, c);
  }

  /** A successful `incrementUsage` raises the matching total usage by exactly `creditsUsed`. */
  lemma IncrementIsCounted(tables: Store.Tables, config: Object, q: Object, params: Object, now: int)
    requires UsageRecord(params, now).Ok?
    requires Calculator.TotalUsage(tables, config, q, now).Ok?
    requires Get(q, "userId") == Get(params, "userId") && Get(q, "feature_name") == Get(params, "featureName")
    requires Store.HasTable(tables, EventsTable(config))
    ensures Calculator.TotalUsage(Store.Appended(tables, EventsTable(config), UsageRecord(params, now).value), config, q, now)
         == Ok(Calculator.TotalUsage(tables, config, q, now).value + Get(params, "creditsUsed").n)
  {
    UsageStamped(params, now);
    StampedEventIsCounted(tables, config, q, now, UsageRecord(params, now).value, params);
  }

  /** The event `incrementUsage` writes is stamped now and carries `creditsUsed`. */
  lemma UsageStamped(params: Object, now: int)
    requires UsageRecord(params, now).Ok?
    ensures StampedNow(UsageRecord(params, now).value, params, now)
    ensures Store.NumberIn(UsageRecord(params, now).value, "credits_used") == Get(params, "creditsUsed").n
  {
  }

  /** A successful `adjustUsage` moves the matching total usage by exactly `amount`. */
  lemma AdjustmentIsCounted(tables: Store.Tables, config: Object, q: Object, params: Object, now: int)
    requires ValidAdjustment(params) && AdjustmentRecord(params, now).Ok?
    requires Calculator.TotalUsage(tables, config, q, now).Ok?
    requires Get(q, "userId") == Get(params, "userId") && Get(q, "feature_name") == Get(params, "featureName")
    requires Store.HasTable(tables, EventsTable(config))
    ensures Calculator.TotalUsage(Store.Appended(tables, EventsTable(config), AdjustmentRecord(params, now).value), config, q, now)
         == Ok(Calculator.TotalUsage(tables, config, q, now).value + Get(params, "amount").n)
  {
    AdjustmentStamped(params, now);
    StampedEventIsCounted(tables, config, q, now, AdjustmentRecord(params, now).value, params);
  }

  /** The event `adjustUsage` writes is stamped now and carries `amount`. */
  lemma AdjustmentStamped(params: Object, now: int)
    requires AdjustmentRecord(params, now).Ok?
    ensures StampedNow(AdjustmentRecord(params, now).value, params, now)
    ensures Store.NumberIn(AdjustmentRecord(params, now).value, "credits_used") == Get(params, "amount").n
  {
  }

  /**
   * `authorize` filters usage by `event_type`, so the events `incrementUsage`
   * writes (type `usage`) never change its decision for any other event type.
   */
  lemma IncrementInvisibleToAuthorize(tables: Store.Tables, config: Object, params: Object, a: Object, now: int)
    requires UsageRecord(params, now).Ok?
    requires Get(a, "eventType") != Str("usage")
    requires EventsTable(config) != Enforcer.UsersTable && EventsTable(config) != Get(config, "usageFeatureLimitsTable")
    ensures Enforcer.Authorization(Store.Appended(tables, EventsTable(config), UsageRecord(params, now).value), config, a, now)
         == Enforcer.Authorization(tables, config, a, now)
  {
    var r := UsageRecord(params, now).value;
    var after := Store.Appended(tables, EventsTable(config), r);
    assert Enforcer.UserOf(after, a) == Enforcer.UserOf(tables, a);
    assert Enforcer.LimitOf(after, config, a) == Enforcer.LimitOf(tables, config, a);
    if Store.HasTable(tables, EventsTable(config)) {
      var q := Enforcer.WindowQuery(Get(a, "userId"), Get(a, "eventType"), now);
      Store.WhereAppend(tables[EventsTable(config).s], q, r);
      assert !Store.Holds(r, q[1]);
    }
    assert Enforcer.WindowUsage(after, config, a, now) == Enforcer.WindowUsage(tables, config, a, now);
  }

  /** `UsageOperations`: appends usage and adjustment events to the usage table of a shared store. */
  class UsageOperations {
    const store: Store.Store
    const config: Object

    constructor(store: Store.Store, config: Object)
      ensures this.store == store && this.config == config
    {
      this.store := store;
      this.config := config;
    }

    /** `incrementUsage(params)`: nothing is written when validation fails; otherwise exactly the one event. */
    method IncrementUsage(params: Object, now: int) returns (r: Result<()>)
      modifies store
      ensures UsageRecord(params, now).Err? ==>
        r == Err(UsageRecord(params, now).error) && store.tables == old(store.tables)
      ensures UsageRecord(params, now).Ok? ==>
        && store.tables == Store.Appended(old(store.tables), EventsTable(config), UsageRecord(params, now).value)
        && (r.Ok? <==> Store.HasTable(old(store.tables), EventsTable(config)))
        && (r.Err? ==> r.error == QueryFailed(EventsTable(config)))
    {
      var event := UsageRecord(params, now);
      if event.Err? {
        return Err(event.error);
      }
      r := store.Insert(EventsTable(config), event.value);
    }

    /** `adjustUsage(params)`: nothing is written when validation fails; otherwise exactly the one event. */
    method AdjustUsage(params: Object, now: int) returns (r: Result<()>)
      modifies store
      ensures AdjustmentRecord(params, now).Err? ==>
        r == Err(AdjustmentRecord(params, now).error) && store.tables == old(store.tables)
      ensures AdjustmentRecord(params, now).Ok? ==>
        && store.tables == Store.Appended(old(store.tables), EventsTable(config), AdjustmentRecord(params, now).value)
        && (r.Ok? <==> Store.HasTable(old(store.tables), EventsTable(config)))
        && (r.Err? ==> r.error == QueryFailed(EventsTable(config)))
    {
      var event := AdjustmentRecord(params, now);
      if event.Err? {
        return Err(event.error);
      }
      r := store.Insert(EventsTable(config), event.value);
    }
  }
}
