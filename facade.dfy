/**
 * The `UsageFlow` facade (src/sdk/index.js): the components its constructor
 * builds over one store and one validated configuration, the guard in front
 * of `addLimitAdjustment`, and the result of `fetchUsage`.
 */
module Facade {
  import opened JsValues
  import opened Results
  import Store
  import Config
  import Calculator
  import Enforcer
  import Operations
  import Adjustments

  /** The payment integration: exactly one of the two is built. */
  datatype Payments =
    | StripeIntegration(secretKey: Value)
    | PaymentHelper(config: Object)

  /** `fetchUsage`'s result; a missing limit (`null`) stands for unlimited usage. */
  datatype UsageSummary = UsageSummary(current: int, limit: Option<int>, remaining: Option<int>, isUnlimited: bool)

  /** `{ current, limit, remaining: limit === null ? null : limit - current, isUnlimited: limit === null }`. */
  function Summary(current: int, limit: Option<int>): UsageSummary {
    UsageSummary(current, limit, if limit.None? then None else Some(limit.value - current), limit.None?)
  }

  /** `fetchUsage`'s own check: `userId && featureName`. */
  predicate HasUsageIds(params: Object) {
    Truthy(Get(params, "userId")) && Truthy(Get(params, "featureName"))
  }

  /**
   * `fetchUsage({ userId, featureName })` as written, with the limit as an
   * input: it asks `getTotalUsage` with the key `featureName`, which that
   * method does not read.
   */
  function FetchUsageAsWritten(tables: Store.Tables, config: Object, params: Object, limit: Option<int>, now: int)
    : (r: Result<UsageSummary>)
    ensures !HasUsageIds(params) ==> r == Err(UsageInvalidParams)
  {
    if !HasUsageIds(params) then Err(UsageInvalidParams)
    else
      var q := map["userId" := Get(params, "userId"), "featureName" := Get(params, "featureName")];
      var current :- Calculator.TotalUsage(tables, config, q, now);
      Ok(Summary(current, limit))
  }

  /** As written, `fetchUsage` never returns: valid identifiers still end in "Missing required parameters". */
  lemma FetchUsageAlwaysFails(tables: Store.Tables, config: Object, params: Object, limit: Option<int>, now: int)
    ensures FetchUsageAsWritten(tables, config, params, limit, now).Err?
    ensures HasUsageIds(params) ==>
      FetchUsageAsWritten(tables, config, params, limit, now) == Err(MissingParameters(["userId", "feature_name"]))
  {
    if HasUsageIds(params) {
      var q := map["userId" := Get(params, "userId"), "featureName" := Get(params, "featureName")];
      assert Get(q, "feature_name") == Undefined;
    }
  }

  /** The parameters `fetchUsage` evidently means to pass to `getTotalUsage`. */
  function TotalUsageParams(params: Object): Object {
    map["userId" := Get(params, "userId"), "feature_name" := Get(params, "featureName")]
  }

  /**
   * `fetchUsage` with the key corrected to `feature_name`: the current-month
   * total, the limit passed through, what remains of it, and whether usage is
   * unlimited.
   */
  function FetchUsage(tables: Store.Tables, config: Object, params: Object, limit: Option<int>, now: int)
    : (r: Result<UsageSummary>)
    ensures !HasUsageIds(params) <==> r == Err(UsageInvalidParams)
    ensures HasUsageIds(params) ==> r.Ok?
    ensures r.Ok? ==>
      && Calculator.TotalUsage(tables, config, TotalUsageParams(params), now).Ok?
      && r.value.current == Calculator.TotalUsage(tables, config, TotalUsageParams(params), now).value
      && r.value.limit == limit
      && (r.value.isUnlimited <==> limit.None?)
      && (r.value.remaining.None? <==> limit.None?)
      && (limit.Some? ==> r.value.remaining.value + r.value.current == limit.value)
  {
    if !HasUsageIds(params) then Err(UsageInvalidParams)
    else
      var q := TotalUsageParams(params);
      assert Calculator.RequestedPeriod(q) == Str("current_month");
      match Calculator.TotalUsage(tables, config, q, now)
      case Ok(current) => Ok(Summary(current, limit))
      case Err(e) => Err(e)
  }

  /** The adjustments flag reaches the validated configuration unchanged (it has no default). */
  lemma AdjustmentFlagKept(raw: Object)
    requires Config.ValidateConfig(raw).Ok?
    ensures Get(Config.ValidateConfig(raw).value, "enableUserAdjustments") == Get(raw, "enableUserAdjustments")
  {
    assert "enableUserAdjustments" !in Config.Defaults;
  }

  /** `UsageFlow`: one store and one validated configuration shared by every component. */
  class UsageFlow {
    const config: Object
    const store: Store.Store
    const operations: Operations.UsageOperations
    const enforcer: Enforcer.LimitEnforcer
    const calculator: Calculator.UsageCalculator
    const payments: Payments
    const adjustment: Adjustments.LimitAdjustment?

    /**
     * Every component works on this store and this configuration; the
     * adjustment component exists exactly when adjustments are enabled, and
     * the Stripe integration is built exactly when it is manual.
     */
    predicate Valid() {
      && operations.store == store && operations.config == config
      && enforcer.store == store && enforcer.config == config
      && calculator.store == store && calculator.config == config
      && (adjustment != null <==> Adjustments.Enabled(config))
      && (adjustment != null ==> adjustment.store == store && adjustment.config == config)
      && (payments.StripeIntegration? <==> Truthy(Get(config, "manualStripeIntegration")))
    }

    /** The constructor after `validateConfig` has accepted `raw`. */
    constructor(raw: Object, store: Store.Store)
      requires Config.ValidateConfig(raw).Ok?
      ensures this.config == Config.ValidateConfig(raw).value && this.store == store
      ensures Valid()
      ensures payments == if Truthy(Get(config, "manualStripeIntegration"))
        then StripeIntegration(Get(raw, "stripeSecretKey")) else PaymentHelper(raw)
      ensures fresh(operations) && fresh(enforcer) && fresh(calculator)
      ensures adjustment != null ==> fresh(adjustment)
    {
      var validated := Config.ValidateConfig(raw).value;
      this.config := validated;
      this.store := store;
      this.operations := new Operations.UsageOperations(store, validated);
      this.enforcer := new Enforcer.LimitEnforcer(store, validated);
      this.calculator := new Calculator.UsageCalculator(store, validated);
      this.payments := if Truthy(Get(validated, "manualStripeIntegration"))
        then StripeIntegration(Get(raw, "stripeSecretKey")) else PaymentHelper(raw);
      AdjustmentFlagKept(raw);
      if Truthy(Get(raw, "enableUserAdjustments")) {
        this.adjustment := new Adjustments.LimitAdjustment(store, validated);
      } else {
        this.adjustment := null;
      }
    }

    /** `new UsageFlow(raw)`: throws what `validateConfig` throws, otherwise builds the components. */
    static method Create(raw: Object, store: Store.Store) returns (r: Result<UsageFlow>)
      ensures r.Err? <==> Config.ValidateConfig(raw).Err?
      ensures r.Err? ==> r.error == Config.ValidateConfig(raw).error
      ensures r.Ok? ==>
        && fresh(r.value) && r.value.Valid()
        && r.value.config == Config.ValidateConfig(raw).value && r.value.store == store
    {
      var validated := Config.ValidateConfig(raw);
      if validated.Err? {
        return Err(validated.error);
      }
      var flow := new UsageFlow(raw, store);
      return Ok(flow);
    }

    /**
     * `addLimitAdjustment(params)`: refuses, writing nothing, when adjustments
     * are disabled; otherwise it is the adjustment component's `addAdjustment`.
     */
    method AddLimitAdjustment(params: Object, now: int) returns (r: Result<Store.Record>)
      requires Valid()
      modifies store
      ensures !Adjustments.Enabled(config) ==> r == Err(AdjustmentsDisabled) && store.tables == old(store.tables)
      ensures Adjustments.Enabled(config) ==>
        && store.tables == Store.Appended(old(store.tables), Adjustments.TableName(config), Adjustments.NewAdjustment(params, now))
        && (r.Ok? <==> Store.HasTable(old(store.tables), Adjustments.TableName(config)))
        && (r.Ok? ==> r.value == Adjustments.NewAdjustment(params, now))
    {
      if !Adjustments.Enabled(config) {
        return Err(AdjustmentsDisabled);
      }
      r := adjustment.AddAdjustment(params, now);
    }
  }
}
