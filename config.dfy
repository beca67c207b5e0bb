/** `validateConfig` (src/utils/validate-config.js): required keys and defaults. */
module Config {
  import opened JsValues
  import opened Results

  /** The keys that must be truthy: the store's, plus Stripe's unless the integration is manual. */
  function RequiredKeys(config: Object): seq<string> {
    ["supabaseUrl", "supabaseKey"]
    + (if !Truthy(Get(config, "manualStripeIntegration")) then ["stripeSecretKey", "stripeWebhookSecret"] else [])
  }

  /** `keys.filter(key => !config[key])`: the falsy keys, in the order given. */
  function MissingKeys(config: Object, keys: seq<string>): (missing: seq<string>)
    ensures forall k :: k in missing <==> k in keys && !Truthy(Get(config, k))
    ensures |missing| <= |keys|
  {
    if keys == [] then []
    else
      var init := MissingKeys(config, keys[..|keys| - 1]);
      var k := keys[|keys| - 1];
      assert keys == keys[..|keys| - 1] + [k];
      if !Truthy(Get(config, k)) then init + [k] else init
  }

  /** Checking one more key adds it at the end of the missing keys exactly when it is falsy. */
  lemma MissingKeysAppend(config: Object, keys: seq<string>, k: string)
    ensures MissingKeys(config, keys + [k]) == MissingKeys(config, keys) + if !Truthy(Get(config, k)) then [k] else []
  {
    assert (keys + [k])[..|keys|] == keys;
  }

  /** The missing Stripe-mode keys, listed in the order of the required list. */
  lemma MissingKeysInRequiredOrder(config: Object)
    requires !Truthy(Get(config, "manualStripeIntegration"))
    requires !Truthy(Get(config, "supabaseKey")) && !Truthy(Get(config, "stripeSecretKey"))
    requires Truthy(Get(config, "supabaseUrl")) && Truthy(Get(config, "stripeWebhookSecret"))
    ensures ValidateConfig(config) == Err(MissingConfig(["supabaseKey", "stripeSecretKey"]))
  {
    var k1, k2, k3, k4 := "supabaseUrl", "supabaseKey", "stripeSecretKey", "stripeWebhookSecret";
    assert [k1] == [] + [k1];
    MissingKeysAppend(config, [], k1);
    assert MissingKeys(config, [k1]) == [];
    assert [k1, k2] == [k1] + [k2];
    MissingKeysAppend(config, [k1], k2);
    assert MissingKeys(config, [k1, k2]) == [k2];
    assert [k1, k2, k3] == [k1, k2] + [k3];
    MissingKeysAppend(config, [k1, k2], k3);
    assert MissingKeys(config, [k1, k2, k3]) == [k2, k3];
    assert [k1, k2, k3, k4] == [k1, k2, k3] + [k4];
    MissingKeysAppend(config, [k1, k2, k3], k4);
    assert RequiredKeys(config) == [k1, k2, k3, k4];
  }

  /** The defaults filled in for keys the caller leaves out. */
  const Defaults: Object := map[
    "debug" := Bool(false),
    "manualStripeIntegration" := Bool(false),
    "userPlansTable" := Str("user_plans"),
    "usageEventsTable" := Str("usage_events"),
    "usageFeatureLimitsTable" := Str("usage_feature_limits")
  ]

  /** Throws when a required key is falsy; otherwise `{ ...defaults, ...config }`. */
  function ValidateConfig(config: Object): (r: Result<Object>)
    ensures r.Err? <==> exists k <- RequiredKeys(config) :: !Truthy(Get(config, k))
    ensures r.Err? ==> r.error == MissingConfig(MissingKeys(config, RequiredKeys(config)))
    ensures r.Ok? ==> r.value.Keys == config.Keys + Defaults.Keys
    ensures r.Ok? ==> forall k <- config :: r.value[k] == config[k]
    ensures r.Ok? ==> forall k <- Defaults :: k !in config ==> r.value[k] == Defaults[k]
  {
    var missing := MissingKeys(config, RequiredKeys(config));
    if |missing| > 0 then
      assert missing[0] in missing;
      Err(MissingConfig(missing))
    else
      Ok(Defaults + config)
  }

  /** `supabaseUrl` and `supabaseKey` are required whatever else the configuration says. */
  lemma StoreKeysAlwaysRequired(config: Object)
    ensures !Truthy(Get(config, "supabaseUrl")) ==> ValidateConfig(config).Err?
    ensures !Truthy(Get(config, "supabaseKey")) ==> ValidateConfig(config).Err?
  {
    assert RequiredKeys(config)[0] == "supabaseUrl";
    assert RequiredKeys(config)[1] == "supabaseKey";
  }

  /** The Stripe keys are required exactly when the integration is not manual. */
  lemma StripeKeysRequiredUnlessManual(config: Object)
    ensures "stripeSecretKey" in RequiredKeys(config) <==> !Truthy(Get(config, "manualStripeIntegration"))
    ensures "stripeWebhookSecret" in RequiredKeys(config) <==> !Truthy(Get(config, "manualStripeIntegration"))
  {
    if !Truthy(Get(config, "manualStripeIntegration")) {
      assert RequiredKeys(config)[2] == "stripeSecretKey";
      assert RequiredKeys(config)[3] == "stripeWebhookSecret";
    }
  }

  /** Validating a validated configuration gives it back unchanged. */
  lemma ValidateIdempotent(config: Object)
    requires ValidateConfig(config).Ok?
    ensures ValidateConfig(ValidateConfig(config).value) == ValidateConfig(config)
  {
    var v := ValidateConfig(config).value;
    assert Truthy(Get(v, "manualStripeIntegration")) == Truthy(Get(config, "manualStripeIntegration"));
    assert RequiredKeys(v) == RequiredKeys(config);
    forall k <- RequiredKeys(v) ensures Truthy(Get(v, k)) {
      assert Get(v, k) == Get(config, k);
    }
    assert Defaults + v == v;
  }
}
