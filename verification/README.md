# Startup decisions of the cart and recommendation services

This project models the two pieces of real decision logic in the shop's
service startup and request code, as pure Dafny functions and small methods.

**Cart service startup** (`cartservice/Startup.cs`, module `CartStartup`).
`ConfigureServices` picks the cart store from `REDIS_ADDR`: a `RedisCartStore`
on that address when it is set and non-empty, a `LocalCartStore` otherwise.
It then blocks on the store's initialization. Only after that succeeds does it
register the store as the container's singleton and install the tracing
configuration. `ConfigureOpenTelemetry` does the rest:

- it reads `EXPORT_TYPE` (defaulting to `jaeger` only when the key is absent);
- it builds the service name `CartService`, with a `-<exportType>` suffix for
  every export type except `newrelic`;
- it builds the instance id `<exportType>-<guid>`;
- it chooses the OTLP exporter for `otlp` and the Jaeger exporter for every
  other value;
- it attaches Redis instrumentation exactly when the store is a Redis store.

The environment is a `map<string, string>`; a missing key plays the part of
C#'s `null`. The fresh GUID and the outcome of `InitializeAsync` (`InitOk` or
`InitFail`) are parameters. Startup is a state machine
`Selected → Initialized → Registered`, with `Failed` reached when
initialization fails. Each state records the steps taken so far, so the
contracts can state ordering: initialization comes before both registrations,
and a failure registers nothing.

**Recommendation handler** (`recommendationservice/recommendation_server.py`,
module `Recommendation`). `ListRecommendations` takes the catalog's product
ids and the requested ids. It forms their set difference and turns it into a
list through `list(set(...))`, so the list has no fixed order. It then returns
`min(5, n)` entries at indices drawn by `random.sample`. Both the list order
and the sample are nondeterministic methods (`SetToList`, `Sample`) that
promise only their postconditions. What is proved about `ListRecommendations`
therefore holds for every order and every sample. `Check` and `Watch` return
fixed statuses.

Some details of the code are easy to misread:

- The code uses `??`, which tests only for `null`. So an empty `EXPORT_TYPE`
  is kept as it is: the service name is `CartService-` and the Jaeger arm is
  taken.
- `??` also governs the OTLP endpoint, so an empty
  `OTEL_EXPORTER_OTLP_SPAN_ENDPOINT` still takes precedence over
  `OTEL_EXPORTER_OTLP_ENDPOINT`.
- The code reads no service-name override and no Jaeger host, port or
  credential keys. The Jaeger exporter is built from library defaults, so
  `Jaeger` carries no parameters.
- The Jaeger arm calls `AddAspNetCoreInstrumentation` a second time. The model
  counts these registrations: 2 in the Jaeger arm, 1 in the OTLP arm.

## Model

| member | source | states |
|---|---|---|
| CartStartup.SelectStore | cartservice/Startup.cs:29-40 | A non-null, non-empty `REDIS_ADDR` selects a Redis store on exactly that address. A null or empty one selects the local store. |
| CartStartup.SelectStoreByAddress | cartservice/Startup.cs:29-40 | Whatever else the environment holds, setting `REDIS_ADDR` alone decides the store. Removing the key always gives the local store. |
| CartStartup.ExportType | cartservice/Startup.cs:62 | The export type falls back to `jaeger` only when `EXPORT_TYPE` is absent. Otherwise it is the raw value, the empty string included. |
| CartStartup.ServiceName | cartservice/Startup.cs:63 | The service name is exactly `CartService` if and only if the export type is `newrelic`. It always starts with `CartService`. |
| CartStartup.ServiceNameRecoversExportType | cartservice/Startup.cs:63 | For any export type other than `newrelic`, the name is `CartService`, a dash, then that export type, which can be read back from the name. |
| CartStartup.ServiceNameInjective | cartservice/Startup.cs:63 | Different export types never share a service name. |
| CartStartup.InstanceId | cartservice/Startup.cs:65 | The instance id splits into the export type, a `-`, and the GUID. |
| CartStartup.InstanceIdFresh | cartservice/Startup.cs:65 | With the same export type, different GUIDs give different instance ids. |
| CartStartup.OtlpEndpoint | cartservice/Startup.cs:70-71 | The span-specific endpoint key wins whenever it is present, even if empty. Otherwise the generic key is used. The endpoint is null exactly when both keys are absent. |
| CartStartup.SelectExporter | cartservice/Startup.cs:67-81 | The OTLP exporter is chosen if and only if the export type is `otlp`, and it carries the resolved endpoint. Every other value, known or unknown, gives Jaeger. |
| CartStartup.SelectExporterDependsOnlyOnItsKeys | cartservice/Startup.cs:62-81 | Two environments that agree on `EXPORT_TYPE` and both OTLP endpoint keys select the same exporter. |
| CartStartup.UnknownExportTypeIsDefault | cartservice/Startup.cs:62-81 | Any export type other than `otlp` selects the same exporter as an unset `EXPORT_TYPE`. |
| CartStartup.ConfigureOpenTelemetry | cartservice/Startup.cs:53-82 | ASP.NET Core instrumentation is always attached, twice exactly in the Jaeger arm. Redis instrumentation is attached if and only if the store is a Redis store. The resource and exporter come from the export type and the GUID. |
| CartStartup.TracingIgnoresStoreAddress | cartservice/Startup.cs:57-60 | The tracing configuration depends on the store only through whether it is a Redis store. |
| CartStartup.Plan | cartservice/Startup.cs:27-82 | The plan's store is the selected store. Redis instrumentation is planned exactly when `REDIS_ADDR` is set and non-empty. The service name and instance id are built from the export type (and the GUID), and the exporter is the one the export-type switch selects. |
| CartStartup.EmptyExportType | cartservice/Startup.cs:62-81 | An empty `EXPORT_TYPE` gives the service name `CartService-`, an instance id starting with `-`, and the Jaeger exporter. |
| CartStartup.NewRelicExportType | cartservice/Startup.cs:62-81 | `newrelic` gives the unsuffixed service name and still the Jaeger exporter. |
| CartStartup.EmptySpanEndpointWins | cartservice/Startup.cs:62-74 | With `otlp` and an empty span-specific endpoint, the OTLP endpoint is the empty string. |
| CartStartup.LocalJaegerEndToEnd | cartservice/Startup.cs:29-81 | An empty address with `jaeger` gives the local store, the Jaeger exporter, service `CartService-jaeger`, and no Redis instrumentation. |
| CartStartup.RedisOtlpEndToEnd | cartservice/Startup.cs:29-81 | `cache:6379` with `otlp` and both endpoint keys gives a Redis store on `cache:6379` and OTLP to the span-specific endpoint, with Redis instrumentation attached. |
| CartStartup.Select | cartservice/Startup.cs:29-40 | Selection is the first step, and nothing is registered yet. |
| CartStartup.Initialize | cartservice/Startup.cs:42-44 | From `Selected`, success leads to `Initialized` and failure leads to `Failed`. The store is kept either way, and the state invariant is preserved. |
| CartStartup.Register | cartservice/Startup.cs:46-49 | From `Initialized`, this registers the same store as the singleton and installs the tracing configuration. Initialization comes before both registrations, and the store comes before tracing. |
| CartStartup.ConfigureServices | cartservice/Startup.cs:27-52 | Startup ends `Registered` if and only if initialization succeeds, and `Failed` if and only if it fails. The store is always the selected one. On success, tracing is the planned configuration. |
| CartStartup.FailedInitRegistersNothing | cartservice/Startup.cs:43-49 | After a failed initialization, no singleton and no tracing are registered. The store is still the selected one, with no fallback. |
| CartStartup.SuccessfulInitRegistersPlan | cartservice/Startup.cs:43-49 | After a successful initialization, the planned store and tracing are registered, both after initialization completed. |
| Recommendation.SetToList | recommendationservice/recommendation_server.py:61 | The `list(set(...))` step returns a duplicate-free list holding exactly the set's elements, as many as the set has. |
| Recommendation.Sample | recommendationservice/recommendation_server.py:65 | `random.sample(range(n), k)` with `k <= n` returns `k` distinct indices, each below `n`. |
| Recommendation.Candidates | recommendationservice/recommendation_server.py:61 | An id is a candidate exactly when it occurs in the catalog listing and does not occur among the requested ids; duplicates on either side do not matter. |
| Recommendation.Pick | recommendationservice/recommendation_server.py:67 | The list holds one entry per index, and entry `j` is the filtered product at index `j` of the sample. |
| Recommendation.PickDistinct | recommendationservice/recommendation_server.py:67 | Picking a duplicate-free list at distinct indices gives distinct elements of that list. |
| Recommendation.ListRecommendations | recommendationservice/recommendation_server.py:56-72 | Every returned id is in the catalog and not among the requested ids. The ids are distinct. There are exactly `min(5, |catalog ids \ requested ids|)` of them. |
| Recommendation.RecommendationsAreCandidates | recommendationservice/recommendation_server.py:60-67 | The set of returned ids is contained in the set difference. |
| Recommendation.SmallCandidateSetReturnedWhole | recommendationservice/recommendation_server.py:57-67 | With at most five candidates, the response holds exactly all of them. |
| Recommendation.AllRequestedGivesNothing | recommendationservice/recommendation_server.py:61-65 | When every catalog id was requested, or the catalog is empty, the response is empty. |
| Recommendation.Check | recommendationservice/recommendation_server.py:73-75 | `Check` reports `SERVING`. |
| Recommendation.Watch | recommendationservice/recommendation_server.py:76-78 | `Watch` reports `UNIMPLEMENTED`. |
| Recommendation.HealthIgnoresRequest | recommendationservice/recommendation_server.py:73-78 | Neither health handler depends on its request, and the two statuses differ. |

## Left out

- The cart stores' internals and `InitializeAsync`: the network and the store implementations are not part of this model. Initialization is the abstract outcome `InitOk`/`InitFail`, for either store.
- `REDIS_ADDR` is read through ASP.NET's `IConfiguration`, which matches keys without regard to case and merges settings files and command-line arguments. `EXPORT_TYPE` and the OTLP keys are read from the process environment, case-sensitively on Linux. The model uses one case-sensitive map whose entries stand for the values those two lookups return; it does not model the configuration sources or case folding, so a key spelled `redis_addr` selects the local store in the model.
- OpenTelemetry builders, exporter construction, span processors and propagators are library calls. The model records only which exporter is chosen, with its endpoint, and which instrumentations are attached.
- `Guid.NewGuid()` and `random.sample`'s randomness. The GUID is a parameter. The sample and the `list(set(...))` order are nondeterministic choices, constrained only by their postconditions.
- The container calls `AddControllers` and `AddGrpc`, which are recorded only as ordered steps.
- `Configure`, which maps gRPC endpoints and routes, and all console output.
- The recommendation server's module-level Jaeger/tracer setup, the gRPC server and channel, and the product-catalog stub call. The catalog response is an input sequence of product ids.
- `Watch` is a streaming RPC, and the grpc health protocol's serving-status enumeration has no `UNIMPLEMENTED` member. The model takes the status name as the code writes it and does not model how the Python runtime would treat it.
- The frontend's `main.go` and the currency and payment services' `tracing.js` files are excluded. They are logging, dialing and library configuration, with only a trivial `DISABLE_TRACING` branch and an unused currency whitelist.
