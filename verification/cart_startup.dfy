/** The cart service's startup decisions.

    `ConfigureServices` picks the cart store from `REDIS_ADDR`, blocks on the
    store's initialization, and only then registers the store as the
    container's singleton and hands `ConfigureOpenTelemetry` to the tracing
    builder. `ConfigureOpenTelemetry` derives the export type, the service
    name, the instance id and the exporter from the environment, and attaches
    Redis instrumentation exactly when the store is a Redis store.

    The environment is a `map<string, string>`; a key that is not in the map
    reads as `null`. The fresh GUID and the outcome of the store's
    asynchronous initialization are parameters.
 */
module CartStartup {
  import opened Wrappers

  type Env = map<string, string>

  const RedisAddrKey := "REDIS_ADDR"
  const ExportTypeKey := "EXPORT_TYPE"
  const OtlpSpanEndpointKey := "OTEL_EXPORTER_OTLP_SPAN_ENDPOINT"
  const OtlpEndpointKey := "OTEL_EXPORTER_OTLP_ENDPOINT"

  const BaseServiceName := "CartService"
  /** Used when `EXPORT_TYPE` is not set at all */
  const DefaultExportType := "jaeger"
  /** The one export type whose service name carries no suffix */
  const NoSuffixExportType := "newrelic"
  /** The one export type that selects the OTLP exporter */
  const OtlpExportType := "otlp"

  /** Reading a key: `null` when it is not set */
  function Lookup(env: Env, key: string): Option<string> {
    if key in env then Some(env[key]) else None
  }

  /** `string.IsNullOrEmpty` */
  predicate IsNullOrEmpty(s: Option<string>) {
    s.None? || s.value == ""
  }

  // ---------------------------------------------------------------------
  // Store selection
  // ---------------------------------------------------------------------

  datatype CartStore = RedisCartStore(address: string) | LocalCartStore

  /** The store chosen from `REDIS_ADDR`: a Redis store on exactly that
      address when it is set and non-empty, the local store otherwise. */
  function SelectStore(env: Env): (store: CartStore)
    ensures store.RedisCartStore? <==> RedisAddrKey in env && env[RedisAddrKey] != ""
    ensures store.LocalCartStore? <==> RedisAddrKey !in env || env[RedisAddrKey] == ""
    ensures store.RedisCartStore? ==> store.address == env[RedisAddrKey]
  {
    var redisAddress := Lookup(env, RedisAddrKey);
    if !IsNullOrEmpty(redisAddress) then RedisCartStore(redisAddress.value)
    else LocalCartStore
  }

  /** Setting `REDIS_ADDR` decides the store alone, whatever else the
      environment holds; removing it always gives the local store. */
  lemma SelectStoreByAddress(env: Env, addr: string)
    ensures SelectStore(env[RedisAddrKey := addr])
            == (if addr == "" then LocalCartStore else RedisCartStore(addr))
    ensures SelectStore(env - {RedisAddrKey}) == LocalCartStore
  {
  }

  // ---------------------------------------------------------------------
  // Resource descriptor: export type, service name, instance id
  // ---------------------------------------------------------------------

  /** `EXPORT_TYPE ?? "jaeger"`: only a missing key falls back to the
      default; an empty value is kept as it is. */
  function ExportType(env: Env): (t: string)
    ensures ExportTypeKey !in env ==> t == DefaultExportType
    ensures ExportTypeKey in env ==> t == env[ExportTypeKey]
  {
    Lookup(env, ExportTypeKey).GetOr(DefaultExportType)
  }

  /** The base name, suffixed with `-` and the export type unless the
      export type is the no-suffix one. */
  function ServiceName(exportType: string): (name: string)
    ensures name == BaseServiceName <==> exportType == NoSuffixExportType
    ensures |name| >= |BaseServiceName|
    ensures name[..|BaseServiceName|] == BaseServiceName
  {
    BaseServiceName + (if exportType == NoSuffixExportType then "" else "-" + exportType)
  }

  /** A suffixed service name gives back the export type it was built from. */
  lemma ServiceNameRecoversExportType(exportType: string)
    requires exportType != NoSuffixExportType
    ensures |ServiceName(exportType)| == |BaseServiceName| + 1 + |exportType|
    ensures ServiceName(exportType)[|BaseServiceName|] == '-'
    ensures ServiceName(exportType)[|BaseServiceName| + 1..] == exportType
  {
  }

  /** Distinct export types yield distinct service names; "newrelic" is the
      only one that collides with the bare base name, and it collides with
      no other. */
  lemma ServiceNameInjective(t1: string, t2: string)
    requires t1 != t2
    ensures ServiceName(t1) != ServiceName(t2)
  {
    if t1 != NoSuffixExportType && t2 != NoSuffixExportType {
      ServiceNameRecoversExportType(t1);
      ServiceNameRecoversExportType(t2);
    }
  }

  /** `$"{exportType}-{guid}"`: the export type, a dash, then the GUID. */
  function InstanceId(exportType: string, guid: string): (id: string)
    ensures |id| == |exportType| + 1 + |guid|
    ensures id[..|exportType|] == exportType
    ensures id[|exportType|] == '-'
    ensures id[|exportType| + 1..] == guid
  {
    var id := exportType + "-" + guid;
    assert id[|exportType| + 1..] == guid;
    id
  }

  /** Two startups with the same export type and different GUIDs get
      different instance ids. */
  lemma InstanceIdFresh(exportType: string, guid1: string, guid2: string)
    requires guid1 != guid2
    ensures InstanceId(exportType, guid1) != InstanceId(exportType, guid2)
  {
  }

  datatype ResourceDescriptor = ResourceDescriptor(serviceName: string, instanceId: string)

  // ---------------------------------------------------------------------
  // Exporter selection
  // ---------------------------------------------------------------------

  /** The OTLP exporter carries the endpoint it read (possibly `null`); the
      Jaeger exporter is built with the library's defaults. */
  datatype Exporter = Otlp(endpoint: Option<string>) | Jaeger

  /** The OTLP endpoint: the span-specific key when it is set (even to the
      empty string), otherwise the generic key, otherwise `null`. */
  function OtlpEndpoint(env: Env): (endpoint: Option<string>)
    ensures OtlpSpanEndpointKey in env ==> endpoint == Some(env[OtlpSpanEndpointKey])
    ensures OtlpSpanEndpointKey !in env && OtlpEndpointKey in env ==> endpoint == Some(env[OtlpEndpointKey])
    ensures endpoint.None? <==> OtlpSpanEndpointKey !in env && OtlpEndpointKey !in env
  {
    Lookup(env, OtlpSpanEndpointKey).OrElse(Lookup(env, OtlpEndpointKey))
  }

  /** The switch on the export type: "otlp" picks OTLP, every other value
      (the "jaeger" case and the default arm alike) picks Jaeger. */
  function SelectExporter(exportType: string, env: Env): (e: Exporter)
    ensures e.Otlp? <==> exportType == OtlpExportType
    ensures e.Jaeger? <==> exportType != OtlpExportType
    ensures e.Otlp? ==> e.endpoint == OtlpEndpoint(env)
  {
    if exportType == OtlpExportType then Otlp(OtlpEndpoint(env)) else Jaeger
  }

  /** The exporter depends on nothing but `EXPORT_TYPE` and the two OTLP
      endpoint keys. */
  lemma SelectExporterDependsOnlyOnItsKeys(env1: Env, env2: Env)
    requires Lookup(env1, ExportTypeKey) == Lookup(env2, ExportTypeKey)
    requires Lookup(env1, OtlpSpanEndpointKey) == Lookup(env2, OtlpSpanEndpointKey)
    requires Lookup(env1, OtlpEndpointKey) == Lookup(env2, OtlpEndpointKey)
    ensures SelectExporter(ExportType(env1), env1) == SelectExporter(ExportType(env2), env2)
  {
  }

  /** Any export type other than "otlp", unknown ones included, gives the
      same exporter as leaving `EXPORT_TYPE` unset. */
  lemma UnknownExportTypeIsDefault(env: Env, t: string)
    requires t != OtlpExportType
    ensures SelectExporter(ExportType(env[ExportTypeKey := t]), env)
            == SelectExporter(ExportType(env - {ExportTypeKey}), env)
  {
  }

  // ---------------------------------------------------------------------
  // Tracing configuration
  // ---------------------------------------------------------------------

  /** What `ConfigureOpenTelemetry` adds to the tracing builder. The Jaeger
      branch calls `AddAspNetCoreInstrumentation` a second time, so the count
      of ASP.NET Core instrumentation registrations is kept. */
  datatype TracingConfig = TracingConfig(
    aspNetCoreInstrumentations: nat,
    redisInstrumented: bool,
    resource: ResourceDescriptor,
    exporter: Exporter)

  function ConfigureOpenTelemetry(store: CartStore, env: Env, guid: string): (cfg: TracingConfig)
    ensures cfg.aspNetCoreInstrumentations >= 1
    ensures cfg.aspNetCoreInstrumentations == 2 <==> cfg.exporter.Jaeger?
    ensures cfg.redisInstrumented <==> store.RedisCartStore?
    ensures cfg.resource.serviceName == ServiceName(ExportType(env))
    ensures cfg.resource.instanceId == InstanceId(ExportType(env), guid)
    ensures cfg.exporter == SelectExporter(ExportType(env), env)
  {
    var redis := store.RedisCartStore?;
    var exportType := ExportType(env);
    var resource := ResourceDescriptor(ServiceName(exportType), InstanceId(exportType, guid));
    match SelectExporter(exportType, env)
    case Otlp(endpoint) => TracingConfig(1, redis, resource, Otlp(endpoint))
    case Jaeger => TracingConfig(2, redis, resource, Jaeger)
  }

  /** The store reaches the tracing configuration only through whether it is
      a Redis store: the address does not matter. */
  lemma TracingIgnoresStoreAddress(a1: string, a2: string, env: Env, guid: string)
    ensures ConfigureOpenTelemetry(RedisCartStore(a1), env, guid)
            == ConfigureOpenTelemetry(RedisCartStore(a2), env, guid)
    ensures ConfigureOpenTelemetry(RedisCartStore(a1), env, guid)
            != ConfigureOpenTelemetry(LocalCartStore, env, guid)
  {
  }

  /** Everything startup decides, before any of it is carried out. */
  datatype BootstrapPlan = BootstrapPlan(store: CartStore, tracing: TracingConfig)

  function Plan(env: Env, guid: string): (p: BootstrapPlan)
    ensures p.store == SelectStore(env)
    ensures p.tracing.redisInstrumented <==> RedisAddrKey in env && env[RedisAddrKey] != ""
    ensures p.tracing.resource.serviceName == ServiceName(ExportType(env))
    ensures p.tracing.resource.instanceId == InstanceId(ExportType(env), guid)
    ensures p.tracing.exporter == SelectExporter(ExportType(env), env)
  {
    var store := SelectStore(env);
    BootstrapPlan(store, ConfigureOpenTelemetry(store, env, guid))
  }

  // ---------------------------------------------------------------------
  // Configuration corner cases
  // ---------------------------------------------------------------------

  /** An empty `EXPORT_TYPE` is not replaced by the default: the service
      name ends in a bare dash and the default arm picks Jaeger. */
  lemma EmptyExportType(env: Env, guid: string)
    requires ExportTypeKey in env && env[ExportTypeKey] == ""
    ensures Plan(env, guid).tracing.resource.serviceName == "CartService-"
    ensures Plan(env, guid).tracing.resource.instanceId == "-" + guid
    ensures Plan(env, guid).tracing.exporter == Jaeger
  {
  }

  /** "newrelic" drops the suffix but still exports through Jaeger. */
  lemma NewRelicExportType(env: Env, guid: string)
    requires ExportTypeKey in env && env[ExportTypeKey] == NoSuffixExportType
    ensures Plan(env, guid).tracing.resource.serviceName == BaseServiceName
    ensures Plan(env, guid).tracing.exporter == Jaeger
  {
  }

  /** An empty span-specific endpoint still shadows the generic one. */
  lemma EmptySpanEndpointWins(env: Env, guid: string)
    requires ExportTypeKey in env && env[ExportTypeKey] == OtlpExportType
    requires OtlpSpanEndpointKey in env && env[OtlpSpanEndpointKey] == ""
    ensures Plan(env, guid).tracing.exporter == Otlp(Some(""))
  {
  }

  /** An environment with an empty Redis address and the Jaeger export type
      gives the local store, the Jaeger exporter and a `-jaeger` suffix. */
  lemma LocalJaegerEndToEnd(guid: string)
    ensures var p := Plan(map[RedisAddrKey := "", ExportTypeKey := "jaeger"], guid);
            && p.store == LocalCartStore
            && p.tracing.exporter == Jaeger
            && p.tracing.resource.serviceName == "CartService-jaeger"
            && !p.tracing.redisInstrumented
  {
  }

  /** A Redis address with the OTLP export type and both endpoint keys gives
      the Redis store on that address, the span-specific OTLP endpoint and
      Redis instrumentation. */
  lemma RedisOtlpEndToEnd(guid: string)
    ensures var p := Plan(map[RedisAddrKey := "cache:6379", ExportTypeKey := "otlp",
                              OtlpSpanEndpointKey := "collector:4317",
                              OtlpEndpointKey := "other:4317"], guid);
            && p.store == RedisCartStore("cache:6379")
            && p.tracing.exporter == Otlp(Some("collector:4317"))
            && p.tracing.resource.serviceName == "CartService-otlp"
            && p.tracing.redisInstrumented
  {
  }

  // ---------------------------------------------------------------------
  // Startup ordering
  // ---------------------------------------------------------------------

  datatype Phase = Selected | Initialized | Registered | Failed

  /** The observable steps of `ConfigureServices`, in the order they happen. */
  datatype StartupStep =
    | StoreChosen
    | StoreInitialized
    | ControllersAdded
    | GrpcAdded
    | StoreRegistered
    | TracingRegistered

  /** The outcome of `InitializeAsync().GetAwaiter().GetResult()`: a failure
      is rethrown and ends `ConfigureServices`. */
  datatype InitOutcome = InitOk | InitFail

  datatype Startup = Startup(
    phase: Phase,
    store: CartStore,
    singleton: Option<CartStore>,
    tracing: Option<TracingConfig>,
    steps: seq<StartupStep>)

  /** `a` happens in `steps` strictly before `b` */
  predicate Before(steps: seq<StartupStep>, a: StartupStep, b: StartupStep) {
    exists i, j :: 0 <= i < j < |steps| && steps[i] == a && steps[j] == b
  }

  /** What each phase implies about what has been registered so far. */
  predicate Consistent(s: Startup) {
    match s.phase
    case Selected =>
      s.steps == [StoreChosen] && s.singleton.None? && s.tracing.None?
    case Initialized =>
      s.steps == [StoreChosen, StoreInitialized] && s.singleton.None? && s.tracing.None?
    case Failed =>
      && StoreInitialized !in s.steps
      && StoreRegistered !in s.steps
      && TracingRegistered !in s.steps
      && s.singleton.None? && s.tracing.None?
    case Registered =>
      && s.singleton == Some(s.store)
      && s.tracing.Some?
      && (s.tracing.value.redisInstrumented <==> s.store.RedisCartStore?)
      && Before(s.steps, StoreInitialized, StoreRegistered)
      && Before(s.steps, StoreInitialized, TracingRegistered)
      && Before(s.steps, StoreRegistered, TracingRegistered)
  }

  /** Store selection: the first step, nothing registered yet. */
  function Select(env: Env): (s: Startup)
    ensures s.phase == Selected && Consistent(s)
    ensures s.store == SelectStore(env)
  {
    Startup(Selected, SelectStore(env), None, None, [StoreChosen])
  }

  /** Blocking on the store's initialization. */
  function Initialize(s: Startup, outcome: InitOutcome): (r: Startup)
    requires s.phase == Selected && Consistent(s)
    ensures Consistent(r)
    ensures r.store == s.store
    ensures r.phase == Initialized <==> outcome == InitOk
    ensures r.phase == Failed <==> outcome == InitFail
  {
    match outcome
    case InitOk => s.(phase := Initialized, steps := s.steps + [StoreInitialized])
    case InitFail => s.(phase := Failed)
  }

  /** Controllers, gRPC, the store singleton, then tracing. */
  function Register(s: Startup, env: Env, guid: string): (r: Startup)
    requires s.phase == Initialized && Consistent(s)
    ensures r.phase == Registered && Consistent(r)
    ensures r.store == s.store
    ensures r.tracing == Some(ConfigureOpenTelemetry(s.store, env, guid))
  {
    var steps := s.steps + [ControllersAdded, GrpcAdded, StoreRegistered, TracingRegistered];
    assert steps[1] == StoreInitialized && steps[4] == StoreRegistered && steps[5] == TracingRegistered;
    Startup(Registered, s.store, Some(s.store), Some(ConfigureOpenTelemetry(s.store, env, guid)), steps)
  }

  /** The whole of `ConfigureServices`: registration happens exactly when
      initialization succeeds, and always after it. */
  function ConfigureServices(env: Env, guid: string, outcome: InitOutcome): (s: Startup)
    ensures Consistent(s)
    ensures s.store == SelectStore(env)
    ensures s.phase == Registered <==> outcome == InitOk
    ensures s.phase == Failed <==> outcome == InitFail
    ensures outcome == InitOk ==> s.tracing == Some(Plan(env, guid).tracing)
  {
    var initialized := Initialize(Select(env), outcome);
    if initialized.phase == Initialized then Register(initialized, env, guid) else initialized
  }

  /** A failed initialization leaves neither the store nor tracing
      registered, and the store is never silently replaced. */
  lemma FailedInitRegistersNothing(env: Env, guid: string)
    ensures var s := ConfigureServices(env, guid, InitFail);
            && s.store == SelectStore(env)
            && s.singleton.None? && s.tracing.None?
            && StoreRegistered !in s.steps && TracingRegistered !in s.steps
  {
  }

  /** A successful initialization registers the chosen store and the
      planned tracing configuration, both after initialization completed. */
  lemma SuccessfulInitRegistersPlan(env: Env, guid: string)
    ensures var s := ConfigureServices(env, guid, InitOk);
            && s.singleton == Some(Plan(env, guid).store)
            && s.tracing == Some(Plan(env, guid).tracing)
            && Before(s.steps, StoreInitialized, StoreRegistered)
            && Before(s.steps, StoreInitialized, TracingRegistered)
  {
  }
}
