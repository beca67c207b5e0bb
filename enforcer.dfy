/**
 * `LimitEnforcer.authorize` (src/sdk/enforce-limits.js): allow an event when
 * the user exists with a plan and the usage of the last thirty days is below
 * the limit recorded for the event type.
 */
module Enforcer {
  import opened JsValues
  import opened Results
  import Store
  import opened Time

  /** The table `authorize` looks users up in; its name is fixed, not configured. */
  const UsersTable: Value := Str("users")

  /** `fetch('users', { column: 'id', value: userId })`: the first matching user. */
  function UserOf(tables: Store.Tables, params: Object): Result<Option<Store.Record>> {
    Store.Fetch(tables, UsersTable, "id", Get(params, "userId"))
  }

  /** The first row of the limits table for `feature_name = eventType` (the plan plays no part). */
  function LimitOf(tables: Store.Tables, config: Object, params: Object): Result<Option<Store.Record>> {
    Store.Fetch(tables, Get(config, "usageFeatureLimitsTable"), "feature_name", Get(params, "eventType"))
  }

  /** The user lookup succeeded and found a user with a truthy plan. */
  predicate HasPlannedUser(tables: Store.Tables, params: Object) {
    var user := UserOf(tables, params);
    user.Ok? && user.value.Some? && Truthy(Get(user.value.value, "plan"))
  }

  /** The filters of the usage query: this user, this event type, the last thirty days. */
  function WindowQuery(userId: Value, eventType: Value, now: int): seq<Store.Cond> {
    [Store.Eq("user_id", userId), Store.Eq("event_type", eventType), Store.AtLeast("timestamp", now - 30 * DAY_MS)]
  }

  /** The credits of the user's events of this type over the last thirty days; None when the query fails. */
  function WindowUsage(tables: Store.Tables, config: Object, params: Object, now: int): (u: Option<int>)
    ensures u.Some? <==> Store.HasTable(tables, Get(config, "usageEventsTable"))
    ensures Store.HasTable(tables, Get(config, "usageEventsTable")) && tables[Get(config, "usageEventsTable").s] == [] ==> u == Some(0)
  {
    match Store.Rows(tables, Get(config, "usageEventsTable"))
    case None => None
    case Some(rows) =>
      Some(Store.Sum(Store.Where(rows, WindowQuery(Get(params, "userId"), Get(params, "eventType"), now)), "credits_used"))
  }

  /**
   * `authorize({ userId, eventType })` at `now`. A failing user or limit
   * lookup passes its error on; a failing usage query ends in a property read
   * on null.
   */
  function Authorization(tables: Store.Tables, config: Object, params: Object, now: int): (r: Result<bool>)
    ensures r == Err(UserNotFound) <==> UserOf(tables, params).Ok? && !HasPlannedUser(tables, params)
    ensures r.Ok? ==> HasPlannedUser(tables, params) && LimitOf(tables, config, params).Ok?
    ensures HasPlannedUser(tables, params) && LimitOf(tables, config, params) == Ok(None) ==> r == Ok(true)
    ensures r == Ok(false) ==>
      && LimitOf(tables, config, params).value.Some?
      && WindowUsage(tables, config, params, now).Some?
      && WindowUsage(tables, config, params, now).value >= Store.NumberIn(LimitOf(tables, config, params).value.value, "limit_value")
    ensures HasPlannedUser(tables, params) && LimitOf(tables, config, params).Ok? && LimitOf(tables, config, params).value.Some? ==>
      var limit := Store.NumberIn(LimitOf(tables, config, params).value.value, "limit_value");
      match WindowUsage(tables, config, params, now)
      case None => r == Err(NullDereference)
      case Some(used) => r == Ok(used < limit)
  {
    var user :- UserOf(tables, params);
    if user.None? || !Truthy(Get(user.value, "plan")) then Err(UserNotFound)
    else
      var limit :- LimitOf(tables, config, params);
      if limit.None? then Ok(true)
      else
        match WindowUsage(tables, config, params, now)
        case None => Err(NullDereference)
        case Some(used) => Ok(used < Store.NumberIn(limit.value, "limit_value"))
  }

  /**
   * Recording one more row in the usage table raises the windowed usage by
   * the row's credits exactly when the row has this user, this event type and
   * a timestamp within the last thirty days; any other row leaves it alone.
   */
  lemma WindowUsageAfterInsert(tables: Store.Tables, config: Object, params: Object, now: int, r: Store.Record)
    requires Store.HasTable(tables, Get(config, "usageEventsTable"))
    ensures var after := Store.Appended(tables, Get(config, "usageEventsTable"), r);
      WindowUsage(after, config, params, now).value
      == WindowUsage(tables, config, params, now).value
         + if Store.Satisfies(r, WindowQuery(Get(params, "userId"), Get(params, "eventType"), now))
           then Store.NumberIn(r, "credits_used") else 0
  {
    var q := WindowQuery(Get(params, "userId"), Get(params, "eventType"), now);
    var rows := tables[Get(config, "usageEventsTable").s];
    Store.WhereAppend(rows, q, r);
    var sel := Store.Where(rows, q);
    if Store.Satisfies(r, q) {
      assert (sel + [r])[..|sel|] == sel;
    } else {
      assert sel + [] == sel;
    }
  }

  /** A granted request names a user row that carries a plan. */
  lemma GrantedUserExists(tables: Store.Tables, config: Object, params: Object, now: int)
    requires Authorization(tables, config, params, now).Ok?
    ensures UsersTable.s in tables
    ensures exists u <- tables[UsersTable.s] ::
      Truthy(Get(u, "plan")) && (Truthy(Get(params, "userId")) ==> Get(u, "id") == Get(params, "userId"))
  {
    var u := UserOf(tables, params).value.value;
    assert u in tables[UsersTable.s];
  }

  /**
   * The comparison is strict: usage equal to the limit is refused and usage
   * one below it is allowed.
   */
  lemma LimitIsExclusive(tables: Store.Tables, config: Object, params: Object, now: int)
    requires HasPlannedUser(tables, params)
    requires LimitOf(tables, config, params).Ok? && LimitOf(tables, config, params).value.Some?
    requires WindowUsage(tables, config, params, now).Some?
    ensures var limit := Store.NumberIn(LimitOf(tables, config, params).value.value, "limit_value");
      var used := WindowUsage(tables, config, params, now).value;
      && (used == limit ==> Authorization(tables, config, params, now) == Ok(false))
      && (used == limit - 1 ==> Authorization(tables, config, params, now) == Ok(true))
  {
  }

  /**
   * Only `eventType` selects the limit: two stores that differ in their users
   * table decide alike as long as both find a user with a plan.
   */
  lemma PlanIsIrrelevant(t1: Store.Tables, t2: Store.Tables, config: Object, params: Object, now: int)
    requires HasPlannedUser(t1, params) && HasPlannedUser(t2, params)
    requires t1.Keys == t2.Keys && forall n <- t1 :: n != UsersTable.s ==> t1[n] == t2[n]
    requires Get(config, "usageFeatureLimitsTable") != UsersTable && Get(config, "usageEventsTable") != UsersTable
    ensures Authorization(t1, config, params, now) == Authorization(t2, config, params, now)
  {
    assert LimitOf(t1, config, params) == LimitOf(t2, config, params);
    assert WindowUsage(t1, config, params, now) == WindowUsage(t2, config, params, now);
  }

  /**
   * Recording more usage never turns a refusal into a grant: after any insert
   * of a row with non-negative credits, a refused request is still refused.
   */
  lemma InsertNeverUnblocks(tables: Store.Tables, config: Object, params: Object, now: int, target: Value, x: Store.Record)
    requires Authorization(tables, config, params, now) == Ok(false)
    requires Store.NumberIn(x, "credits_used") >= 0
    ensures Authorization(Store.Appended(tables, target, x), config, params, now) == Ok(false)
  {
    var after := Store.Appended(tables, target, x);
    Store.FetchAfterAppend(tables, target, x, UsersTable, "id", Get(params, "userId"));
    Store.FetchAfterAppend(tables, target, x, Get(config, "usageFeatureLimitsTable"), "feature_name", Get(params, "eventType"));
    var name := Get(config, "usageEventsTable");
    var rows := tables[name.s];
    var q := WindowQuery(Get(params, "userId"), Get(params, "eventType"), now);
    if Store.HasTable(tables, target) && target.s == name.s {
      Store.WhereAppend(rows, q, x);
      var sel := Store.Where(rows, q);
      if Store.Satisfies(x, q) {
        assert (sel + [x])[..|sel|] == sel;
      } else {
        assert sel + [] == sel;
      }
    }
    assert WindowUsage(after, config, params, now).value >= WindowUsage(tables, config, params, now).value;
  }

  /** `LimitEnforcer`: decides requests against the tables of a shared store. */
  class LimitEnforcer {
    const store: Store.Store
    const config: Object

    constructor(store: Store.Store, config: Object)
      ensures this.store == store && this.config == config
    {
      this.store := store;
      this.config := config;
    }

    /** `authorize(params)`: reads the store and writes nothing (it has no `modifies` clause). */
    method Authorize(params: Object, now: int) returns (r: Result<bool>)
      ensures r == Authorization(store.tables, config, params, now)
    {
      var user := UserOf(store.tables, params);
      if user.Err? {
        return Err(user.error);
      }
      if user.value.None? || !Truthy(Get(user.value.value, "plan")) {
        return Err(UserNotFound);
      }
      var limit := LimitOf(store.tables, config, params);
      if limit.Err? {
        return Err(limit.error);
      }
      if limit.value.None? {
        return Ok(true);
      }
      var usage := WindowUsage(store.tables, config, params, now);
      if usage.None? {
        return Err(NullDereference);
      }
      return Ok(usage.value < Store.NumberIn(limit.value.value, "limit_value"));
    }
  }
}
