/**
 * hooks/useZamaRelayerInstance.ts: the query that builds the relayer session, and its retry
 * predicate.
 *
 * `window` is `None` when there is none (server rendering) and otherwise the global object,
 * on which `relayerSDK` is read. The SDK's `initSDK()` and `createInstance(config)` are outside
 * the model: their outcomes are parameters. The module-level `sdkInitialized` flag is a field
 * of `Session`, which also counts the calls made to `initSDK`.
 */
module RelayerInstance {
  import opened Wrappers
  import opened Js

  const SdkMissing := "Relayer SDK not loaded on window object"
  const InitMissing := "initSDK is not available on window.relayerSDK"
  const CreateMissing := "createInstance is not available on window.relayerSDK"
  const ConfigMissing := "ZamaEthereumConfig is not available on window.relayerSDK after initialization"
  const ConfigNotObject := "Config is not an object, got: "
  const ConfigIncomplete := "Config is missing required property: verifyingContractAddressDecryption"

  /** The attempts after which the query stops retrying. */
  const MaxRetries := 10

  /** `typeof v`. */
  function TypeOf(v: Value): (t: string)
    ensures t == "object" <==> v.Obj? || v.Null?
    ensures t == "function" <==> v.Fn?
  {
    match v
    case Undefined => "undefined"
    case Null => "object"
    case Bool(_) => "boolean"
    case Num(_) => "number"
    case Str(_) => "string"
    case Fn => "function"
    case Obj(_) => "object"
  }

  /** `window.relayerSDK`. */
  function Sdk(window: Value): Value {
    Get(window, "relayerSDK")
  }

  /** `window.relayerSDK.SepoliaConfig || window.relayerSDK.ZamaEthereumConfig`. */
  function ConfigOf(sdk: Value): (c: Value)
    ensures Truthy(Get(sdk, "SepoliaConfig")) ==> c == Get(sdk, "SepoliaConfig")
    ensures !Truthy(Get(sdk, "SepoliaConfig")) ==> c == Get(sdk, "ZamaEthereumConfig")
  {
    if Truthy(Get(sdk, "SepoliaConfig")) then Get(sdk, "SepoliaConfig") else Get(sdk, "ZamaEthereumConfig")
  }

  /** The SDK exposes `initSDK` and `createInstance` as functions. */
  predicate Usable(sdk: Value) {
    Truthy(sdk) && Get(sdk, "initSDK").Fn? && Get(sdk, "createInstance").Fn?
  }

  /** The config can be handed to `createInstance`. */
  predicate ConfigUsable(config: Value) {
    Truthy(config) && TypeOf(config) == "object" && HasKey(config, "verifyingContractAddressDecryption")
  }

  /** What one run of the query does: its result, whether it calls `initSDK`, and the flag after it. */
  datatype Query = Query(result: Result<Option<Value>, Failure>, calledInit: bool, initialized: bool, calledCreate: bool)

  /** The configuration checks and `createInstance`, once the SDK is initialised. */
  function Created(sdk: Value, create: Value -> Result<Value, Failure>): (r: Result<Option<Value>, Failure>)
    ensures !Truthy(ConfigOf(sdk)) ==> r == Err(Raise(ConfigMissing))
    ensures Truthy(ConfigOf(sdk)) && TypeOf(ConfigOf(sdk)) != "object" ==>
      r == Err(Raise(ConfigNotObject + TypeOf(ConfigOf(sdk))))
    ensures Truthy(ConfigOf(sdk)) && TypeOf(ConfigOf(sdk)) == "object" && !HasKey(ConfigOf(sdk), "verifyingContractAddressDecryption") ==>
      r == Err(Raise(ConfigIncomplete))
    ensures ConfigUsable(ConfigOf(sdk)) ==>
      (create(ConfigOf(sdk)).Ok? ==> r == Ok(Some(create(ConfigOf(sdk)).value))) &&
      (create(ConfigOf(sdk)).Err? ==> r == Err(create(ConfigOf(sdk)).error))
  {
    var config := ConfigOf(sdk);
    if !Truthy(config) then Err(Raise(ConfigMissing))
    else if TypeOf(config) != "object" then Err(Raise(ConfigNotObject + TypeOf(config)))
    else if "verifyingContractAddressDecryption" !in config.fields then Err(Raise(ConfigIncomplete))
    else match create(config)
      case Ok(instance) => Ok(Some(instance))
      case Err(e) => Err(e)
  }

  /**
   * `queryFn()` from the flag `initialized`: no window gives `null`; the SDK and its two
   * functions are checked; `initSDK` runs only while the flag is down and a failure is
   * rethrown; then the config is checked and `createInstance` called.
   */
  function Queried(initialized: bool, window: Option<Value>, init: Result<(), Failure>,
                   create: Value -> Result<Value, Failure>): (q: Query)
    ensures window.None? ==> q == Query(Ok(None), false, initialized, false)
    ensures q.calledInit ==> !initialized && window.Some? && Usable(Sdk(window.value))
    ensures q.initialized <==> initialized || (q.calledInit && init.Ok?)
    ensures q.calledInit && init.Err? ==> q.result == Err(init.error)
    ensures q.calledCreate ==>
      window.Some? && Usable(Sdk(window.value)) && q.initialized && ConfigUsable(ConfigOf(Sdk(window.value)))
    ensures q.result.Ok? && q.result.value.Some? ==> q.calledCreate
    ensures window.Some? && !Truthy(Sdk(window.value)) ==> q == Query(Err(Raise(SdkMissing)), false, initialized, false)
  {
    match window
    case None => Query(Ok(None), false, initialized, false)
    case Some(w) =>
      var sdk := Sdk(w);
      if !Truthy(sdk) then Query(Err(Raise(SdkMissing)), false, initialized, false)
      else if !Get(sdk, "initSDK").Fn? then Query(Err(Raise(InitMissing)), false, initialized, false)
      else if !Get(sdk, "createInstance").Fn? then Query(Err(Raise(CreateMissing)), false, initialized, false)
      else if !initialized && init.Err? then Query(Err(init.error), true, false, false)
      else Query(Created(sdk, create), !initialized, true, ConfigUsable(ConfigOf(sdk)))
  }

  /** Once `initSDK` has succeeded, no later query calls it again. */
  lemma InitOnce(window: Option<Value>, init: Result<(), Failure>, create: Value -> Result<Value, Failure>,
                 window2: Option<Value>, init2: Result<(), Failure>, create2: Value -> Result<Value, Failure>)
    requires Queried(false, window, init, create).calledInit && init.Ok?
    ensures !Queried(Queried(false, window, init, create).initialized, window2, init2, create2).calledInit
  {
  }

  /** A failed `initSDK` leaves the flag down, so the next query tries it again. */
  lemma FailedInitRetried(window: Option<Value>, init: Result<(), Failure>, create: Value -> Result<Value, Failure>,
                          init2: Result<(), Failure>, create2: Value -> Result<Value, Failure>)
    requires window.Some? && Usable(Sdk(window.value)) && init.Err?
    ensures !Queried(false, window, init, create).initialized
    ensures Queried(Queried(false, window, init, create).initialized, window, init2, create2).calledInit
  {
  }

  /** A query whose SDK checks fail calls neither `initSDK` nor `createInstance` and changes nothing. */
  lemma UnusableSdkTouchesNothing(initialized: bool, window: Value, init: Result<(), Failure>, create: Value -> Result<Value, Failure>)
    requires !Usable(Sdk(window))
    ensures var q := Queried(initialized, Some(window), init, create);
      q.result.Err? && !q.calledInit && !q.calledCreate && q.initialized == initialized &&
      q.result.error.message in {SdkMissing, InitMissing, CreateMissing}
  {
  }

  /** `retry(failureCount)`: only while there is a window without an SDK, and fewer than ten failures. */
  predicate Retry(window: Option<Value>, failureCount: int) {
    window.Some? && !Truthy(Sdk(window.value)) && failureCount < MaxRetries
  }

  /** A retry is granted only for the failure that reports a missing SDK. */
  lemma RetryOnlyForMissingSdk(window: Option<Value>, failureCount: int, initialized: bool,
                               init: Result<(), Failure>, create: Value -> Result<Value, Failure>)
    requires Retry(window, failureCount)
    ensures Queried(initialized, window, init, create).result == Err(Raise(SdkMissing))
  {
  }

  /**
   * The retries granted one after another from failure count `from`, while the SDK stays
   * missing: `window` is the global object the retry predicate sees at each count.
   */
  function Retries(window: nat -> Option<Value>, from: nat): (n: nat)
    ensures n <= if from < MaxRetries then MaxRetries - from else 0
    decreases if from < MaxRetries then MaxRetries - from else 0
  {
    if Retry(window(from), from) then 1 + Retries(window, from + 1) else 0
  }

  /** There are at most ten retries, and exactly ten while the SDK never loads in a window. */
  lemma {:induction false} AtMostTenRetries(window: nat -> Option<Value>, from: nat)
    requires from <= MaxRetries
    requires forall k: nat | from <= k < MaxRetries :: window(k).Some? && !Truthy(Sdk(window(k).value))
    ensures Retries(window, from) == MaxRetries - from
    decreases MaxRetries - from
  {
    if from < MaxRetries {
      AtMostTenRetries(window, from + 1);
    }
  }

  /** The module-level flag of the hook and the calls made to the SDK. */
  class Session {
    /** `sdkInitialized` */
    var sdkInitialized: bool
    /** How many times `initSDK` has been called. */
    var initCalls: nat

    constructor()
      ensures !sdkInitialized && initCalls == 0
    {
      sdkInitialized := false;
      initCalls := 0;
    }

    /** `queryFn()`, in place: the flag and the call count move as `Queried` says. */
    method QueryFn(window: Option<Value>, init: Result<(), Failure>, create: Value -> Result<Value, Failure>)
      returns (r: Result<Option<Value>, Failure>)
      modifies this
      ensures var q := Queried(old(sdkInitialized), window, init, create);
        r == q.result && sdkInitialized == q.initialized &&
        initCalls == old(initCalls) + (if q.calledInit then 1 else 0)
    {
      if window.None? {
        return Ok(None);
      }
      var sdk := Sdk(window.value);
      if !Truthy(sdk) {
        return Err(Raise(SdkMissing));
      }
      var initSDK := Get(sdk, "initSDK");
      var createInstance := Get(sdk, "createInstance");
      if !initSDK.Fn? {
        return Err(Raise(InitMissing));
      }
      if !createInstance.Fn? {
        return Err(Raise(CreateMissing));
      }
      if !sdkInitialized {
        initCalls := initCalls + 1;
        if init.Err? {
          return Err(init.error);
        }
        sdkInitialized := true;
      }
      var config := ConfigOf(sdk);
      if !Truthy(config) {
        return Err(Raise(ConfigMissing));
      }
      if TypeOf(config) != "object" {
        return Err(Raise(ConfigNotObject + TypeOf(config)));
      }
      if "verifyingContractAddressDecryption" !in config.fields {
        return Err(Raise(ConfigIncomplete));
      }
      var instance := create(config);
      if instance.Err? {
        return Err(instance.error);
      }
      return Ok(Some(instance.value));
    }
  }
}
