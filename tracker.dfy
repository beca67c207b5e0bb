/**
 * `UsageTracker.trackEvent` (src/sdk/track-event.js): validate a typed event
 * and append it to the usage table. The event names no feature.
 */
module Tracker {
  import opened JsValues
  import opened Results
  import Store
  import Calculator
  import Enforcer
  import Periods

  /** `trackEvent`'s checks: `userId` and `eventType` truthy and `typeof creditsUsed === 'number'`. */
  predicate ValidEvent(params: Object) {
    Truthy(Get(params, "userId")) && Truthy(Get(params, "eventType")) && Get(params, "creditsUsed").Num?
  }

  /** The event `trackEvent({ userId, eventType, creditsUsed, metadata })` writes at `now`. */
  function TrackedRecord(params: Object, now: int): (r: Result<Store.Record>)
    ensures r.Err? <==> !ValidEvent(params)
    ensures r.Err? ==> r.error == MissingParameters(["userId", "eventType", "creditsUsed"])
    ensures r.Ok? ==>
      && r.value.Keys == {"user_id", "event_type", "credits_used", "metadata", "timestamp"}
      && "feature_name" !in r.value
    ensures r.Ok? ==>
      && r.value["user_id"] == Get(params, "userId") && r.value["event_type"] == Get(params, "eventType")
      && r.value["credits_used"] == Get(params, "creditsUsed") && r.value["timestamp"] == Instant(now)
      && r.value["metadata"] == if Get(params, "metadata") == Undefined then Obj(map[]) else Get(params, "metadata")
  {
    if !ValidEvent(params) then Err(MissingParameters(["userId", "eventType", "creditsUsed"]))
    else
      Ok(map[
        "user_id" := Get(params, "userId"),
        "event_type" := Get(params, "eventType"),
        "credits_used" := Get(params, "creditsUsed"),
        "metadata" := WithDefault(params, "metadata", Obj(map[])),
        "timestamp" := Instant(now)
      ])
  }

  /**
   * A tracked event names no feature, so it never counts toward
   * `getTotalUsage`: the total stays the same after it is appended.
   */
  lemma TrackedEventNotInTotalUsage(tables: Store.Tables, config: Object, q: Object, params: Object, now: int, t: int)
    requires TrackedRecord(params, now).Ok?
    requires Calculator.TotalUsage(tables, config, q, t).Ok?
    ensures Calculator.TotalUsage(Store.Appended(tables, Get(config, "usageEventsTable"), TrackedRecord(params, now).value), config, q, t)
         == Calculator.TotalUsage(tables, config, q, t)
  {
    var r := TrackedRecord(params, now).value;
    assert !Calculator.CountsToward(r, q, t) by {
      var start := Periods.StartDate(Calculator.RequestedPeriod(q), t);
      if start.Ok? {
        var query := Calculator.UsageQuery(Get(q, "userId"), Get(q, "feature_name"), start.value);
        assert !Store.Holds(r, query[1]);
      }
    }
    Calculator.TotalUsageAfterOtherInsert(tables, config, q, t, r);
  }

  /**
   * A tracked event does count toward `authorize` for its own user and event
   * type: over the next thirty days the windowed usage includes its credits.
   */
  lemma TrackedEventInAuthorizeWindow(tables: Store.Tables, config: Object, params: Object, now: int, t: int)
    requires TrackedRecord(params, now).Ok?
    requires Store.HasTable(tables, Get(config, "usageEventsTable"))
    requires now <= t <= now + 30 * 86400000
    ensures var after := Store.Appended(tables, Get(config, "usageEventsTable"), TrackedRecord(params, now).value);
      Enforcer.WindowUsage(after, config, params, t).value
      == Enforcer.WindowUsage(tables, config, params, t).value + Get(params, "creditsUsed").n
  {
    var r := TrackedRecord(params, now).value;
    TrackedInWindow(params, now, t);
    Enforcer.WindowUsageAfterInsert(tables, config, params, t, r);
  }

  lemma TrackedInWindow(params: Object, now: int, t: int)
    requires TrackedRecord(params, now).Ok?
    requires now <= t <= now + 30 * 86400000
    ensures Store.Satisfies(TrackedRecord(params, now).value, Enforcer.WindowQuery(Get(params, "userId"), Get(params, "eventType"), t))
    ensures Store.NumberIn(TrackedRecord(params, now).value, "credits_used") == Get(params, "creditsUsed").n
  {
    var r := TrackedRecord(params, now).value;
    var q := Enforcer.WindowQuery(Get(params, "userId"), Get(params, "eventType"), t);
    assert forall c <- q :: Store.Holds(r, c);
  }

  /** `UsageTracker`: appends typed events to the usage table of a shared store. */
  class UsageTracker {
    const store: Store.Store
    const config: Object

    constructor(store: Store.Store, config: Object)
      ensures this.store == store && this.config == config
    {
      this.store := store;
      this.config := config;
    }

    /** `trackEvent(params)`: nothing is written when validation fails; otherwise exactly the one event. */
    method TrackEvent(params: Object, now: int) returns (r: Result<()>)
      modifies store
      ensures TrackedRecord(params, now).Err? ==>
        r == Err(TrackedRecord(params, now).error) && store.tables == old(store.tables)
      ensures TrackedRecord(params, now).Ok? ==>
        && store.tables == Store.Appended(old(store.tables), Get(config, "usageEventsTable"), TrackedRecord(params, now).value)
        && (r.Ok? <==> Store.HasTable(old(store.tables), Get(config, "usageEventsTable")))
        && (r.Err? ==> r.error == QueryFailed(Get(config, "usageEventsTable")))
    {
      var event := TrackedRecord(params, now);
      if event.Err? {
        return Err(event.error);
      }
      r := store.Insert(Get(config, "usageEventsTable"), event.value);
    }
  }
}
