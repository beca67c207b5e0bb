/**
 * `LimitAdjustment` (src/sdk/limit-adjustment.js): per-user credit grants,
 * each valid over a window of time, summed for the instant they are asked
 * about and appended to the adjustments table.
 */
module Adjustments {
  import opened JsValues
  import opened Results
  import Store
  import opened Time

  /** Adjustments are switched on in the configuration. */
  predicate Enabled(config: Object) {
    Truthy(Get(config, "enableUserAdjustments"))
  }

  /** The adjustments table named by the configuration (validation gives it no default). */
  function TableName(config: Object): Value {
    Get(config, "userLimitAdjustmentsTable")
  }

  /** The filters: this customer, this feature, `start_date <= now <= end_date`. */
  function ActiveQuery(userId: Value, featureName: Value, now: int): seq<Store.Cond> {
    [Store.Eq("customer_id", userId), Store.Eq("feature_name", featureName),
     Store.AtLeast("end_date", now), Store.AtMost("start_date", now)]
  }

  /** An adjustment row applies to the user and feature of `params` at `now`. */
  predicate Active(r: Store.Record, params: Object, now: int) {
    Store.Satisfies(r, ActiveQuery(Get(params, "userId"), Get(params, "featureName"), now))
  }

  /**
   * `getActiveAdjustments({ userId, featureName })` at `now`: the summed
   * amounts of the rows active at `now`; 0 when adjustments are disabled,
   * and 0 (never an error) when the query fails.
   */
  function ActiveAdjustments(tables: Store.Tables, config: Object, params: Object, now: int): (total: int)
    ensures !Enabled(config) ==> total == 0
    ensures !Store.HasTable(tables, TableName(config)) ==> total == 0
    ensures Store.HasTable(tables, TableName(config)) && tables[TableName(config).s] == [] ==> total == 0
  {
    if !Enabled(config) then 0
    else
      match Store.Rows(tables, TableName(config))
      case None => 0
      case Some(rows) => Store.Sum(Store.Where(rows, ActiveQuery(Get(params, "userId"), Get(params, "featureName"), now)), "amount")
  }

  /**
   * Appending a row to the adjustments table raises the sum by the row's
   * amount exactly when adjustments are enabled, the table exists and the row
   * is active for the user and feature at `now`; otherwise nothing changes.
   */
  lemma ActiveAfterInsert(tables: Store.Tables, config: Object, params: Object, now: int, r: Store.Record)
    ensures ActiveAdjustments(Store.Appended(tables, TableName(config), r), config, params, now)
         == ActiveAdjustments(tables, config, params, now)
            + if Enabled(config) && Store.HasTable(tables, TableName(config)) && Active(r, params, now)
              then Store.NumberIn(r, "amount") else 0
  {
    var name := TableName(config);
    if Enabled(config) && Store.HasTable(tables, name) {
      var rows := tables[name.s];
      var q := ActiveQuery(Get(params, "userId"), Get(params, "featureName"), now);
      Store.WhereAppend(rows, q, r);
      var before := Store.Where(rows, q);
      if Store.Satisfies(r, q) {
        assert (before + [r])[..|before|] == before;
      } else {
        assert before + [] == before;
      }
    }
  }

  /** The row `addAdjustment` writes. */
  function NewAdjustment(params: Object, now: int): (r: Store.Record)
    ensures r.Keys == {"customer_id", "feature_name", "amount", "type", "start_date", "end_date"}
    ensures r["customer_id"] == Get(params, "userId") && r["feature_name"] == Get(params, "featureName")
    ensures r["amount"] == Get(params, "amount")
    ensures r["type"] == if Get(params, "type") == Undefined then Str("one_time") else Get(params, "type")
    ensures Truthy(Get(params, "startDate")) ==> r["start_date"] == Get(params, "startDate")
    ensures Truthy(Get(params, "endDate")) ==> r["end_date"] == Get(params, "endDate")
    ensures !Truthy(Get(params, "startDate")) ==> r["start_date"] == Instant(now)
    ensures !Truthy(Get(params, "endDate")) ==> r["end_date"] == Instant(now + 30 * 86400000)
  {
    map[
      "customer_id" := Get(params, "userId"),
      "feature_name" := Get(params, "featureName"),
      "amount" := Get(params, "amount"),
      "type" := WithDefault(params, "type", Str("one_time")),
      "start_date" := if Truthy(Get(params, "startDate")) then Get(params, "startDate") else Instant(now),
      "end_date" := if Truthy(Get(params, "endDate")) then Get(params, "endDate") else Instant(now + 30 * DAY_MS)
    ]
  }

  /**
   * An adjustment written with the default window, asked about with the same
   * user and feature, is active at exactly the instants from its creation to
   * thirty days after.
   */
  lemma DefaultWindowIsThirtyDays(params: Object, created: int, t: int)
    requires !Truthy(Get(params, "startDate")) && !Truthy(Get(params, "endDate"))
    requires Get(params, "userId") != Null && Get(params, "userId") != Undefined
    requires Get(params, "featureName") != Null && Get(params, "featureName") != Undefined
    ensures Active(NewAdjustment(params, created), params, t) <==> created <= t <= created + 30 * 86400000
  {
    var r := NewAdjustment(params, created);
    var q := ActiveQuery(Get(params, "userId"), Get(params, "featureName"), t);
    if created <= t <= created + 30 * DAY_MS {
      assert forall c <- q :: Store.Holds(r, c);
    } else if t < created {
      assert !Store.Holds(r, q[3]);
    } else {
      assert !Store.Holds(r, q[2]);
    }
  }

  /** `LimitAdjustment`: reads and extends the adjustments table of a shared store. */
  class LimitAdjustment {
    const store: Store.Store
    const config: Object

    constructor(store: Store.Store, config: Object)
      ensures this.store == store && this.config == config
    {
      this.store := store;
      this.config := config;
    }

    /**
     * `addAdjustment(params)`: refuses when adjustments are disabled;
     * otherwise inserts the new row and returns it, passing on the store's
     * error when the insert fails.
     */
    method AddAdjustment(params: Object, now: int) returns (r: Result<Store.Record>)
      modifies store
      ensures !Enabled(config) ==> r == Err(AdjustmentsDisabled) && store.tables == old(store.tables)
      ensures Enabled(config) ==>
        && store.tables == Store.Appended(old(store.tables), TableName(config), NewAdjustment(params, now))
        && (r.Ok? <==> Store.HasTable(old(store.tables), TableName(config)))
        && (r.Ok? ==> r.value == NewAdjustment(params, now))
        && (r.Err? ==> r.error == QueryFailed(TableName(config)))
    {
      if !Enabled(config) {
        return Err(AdjustmentsDisabled);
      }
      var adjustment := NewAdjustment(params, now);
      var inserted := store.Insert(TableName(config), adjustment);
      if inserted.Err? {
        return Err(inserted.error);
      }
      return Ok(adjustment);
    }
  }

  /**
   * Once `addAdjustment` succeeds with the default window, the new row counts
   * toward `getActiveAdjustments` for that user and feature at every instant
   * of its thirty days.
   */
  lemma AddedAdjustmentIsActive(tables: Store.Tables, config: Object, params: Object, created: int, t: int)
    requires Enabled(config) && Store.HasTable(tables, TableName(config))
    requires !Truthy(Get(params, "startDate")) && !Truthy(Get(params, "endDate"))
    requires Get(params, "userId") != Null && Get(params, "userId") != Undefined
    requires Get(params, "featureName") != Null && Get(params, "featureName") != Undefined
    requires created <= t <= created + 30 * 86400000
    ensures ActiveAdjustments(Store.Appended(tables, TableName(config), NewAdjustment(params, created)), config, params, t)
         == ActiveAdjustments(tables, config, params, t) + Store.NumberIn(NewAdjustment(params, created), "amount")
  {
    DefaultWindowIsThirtyDays(params, created, t);
    ActiveAfterInsert(tables, config, params, t, NewAdjustment(params, created));
  }
}
