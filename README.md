# Monitoring registry and stream counter forwarding

This project models the metrics core of a live media server (the `mon`
namespace under `src/projects/monitoring`). The core has two parts.

- **The registry, `Monitoring`.** It maps host identities to host metrics. A
  host holds application metrics, and an application holds stream metrics.
  - Creating a host is idempotent.
  - Deleting a host that is not registered fails.
  - Application and stream lifecycle calls go down the host → application
    chain and fail when an ancestor is missing.
  - The lookups go down the same chain. The stream lookup creates a missing
    stream as a side effect.
- **Stream counter forwarding, `StreamMetrics`.**
  - Every counter event is first applied to the stream's own block:
    bytes in, bytes out per publisher type, session connect and session
    disconnect.
  - If the stream has an origin, the event is passed to the origin stream.
    The origin is resolved by identity through the owning application, and a
    stale origin absorbs the event.
  - If the stream has no origin, the event is passed to the application's
    aggregate block.
  - So an application counts each event at most once: exactly once when the
    origin chain ends at a root, and not at all when a stale origin absorbs
    it.

## Files

- `info.dfy`, module `Info`: identities, descriptors and `Option`.
- `counters.dfy`, module `Counters`: the counter block.
  - Every event moves each counter by exactly one delta (`Apply`).
  - `Touch` stands for `UpdateDate`.
- `forwarding.dfy`, module `Forwarding`: the origin relation as a map from
  stream identity to origin identity, and the route an event takes along it.
  - The route is `Route`, and whether it ends at the application is
    `ReachesApp`.
  - `Acyclic` is the condition under which forwarding terminates.
  - This module holds the lemmas about routes: each stream is reached at most
    once, the route has a footprint, and a stale origin absorbs the event.
- `metrics.dfy`, module `Metrics`: the classes `StreamMetrics` (from
  `stream_metrics.cpp`) and the `ApplicationMetrics` and `HostMetrics`
  containers that it and the registry call. The three classes refer to one
  another, so they share one module.
  - Counters and stream maps are mutable fields.
  - The forwarding methods change them in place and recurse through the
    origin stream object.
  - Each forwarding method is proved against `ApplyAt`: the application's
    stream counters change exactly at the streams in `Reached()`, and the
    aggregate changes exactly when `ReachesApp` holds.
- `monitoring.dfy`, module `Registry`: the class `Monitoring`.
  - Its state is the map `hosts`.
  - The lifecycle methods update the map in place.
  - Host creation and deletion are specified against `hosts`.
  - The application and stream methods are specified against `Content()`,
    the whole registry as nested maps of identities. The application
    methods also pin which `ApplicationMetrics` object each host holds, and
    the stream lookups pin which `StreamMetrics` object each application
    holds.
- `scenarios.dfy`, module `Scenarios`: concrete runs, each proved from the
  contracts alone.
  - A relayed stream is counted once.
  - A stale origin absorbs the event.
  - The lazy lookup returns absent.
  - Two lookups of a registered stream return the same object.
  - Calls below a missing host fail.

The getters `GetOriginRequestTimeMSec` and `GetOriginResponseTimeMSec`
(`stream_metrics.cpp:29-36`) are functions that read the stored latency.
The setters' rows state their contracts through these getters.

The four counter operations differ only in the event they carry, so they
share one method, `Forward`. `IncreaseBytesIn`, `IncreaseBytesOut`,
`OnSessionConnected` and `OnSessionDisconnected` call it with their own
event.

`HostMetrics`, `ApplicationMetrics` and `CommonMetrics` are not part of this
model. The classes here stand in for the parts of them the core uses:
- key lookup;
- creation that is idempotent and succeeds;
- deletion that fails on a missing key;
- an aggregate counter block.

The registry's specification says that the self-healing stream lookup returns
the stream it creates. The code returns its earlier lookup, so the call that
creates the stream returns absent. The model follows the code
(`Registry.Monitoring.GetStreamMetrics`) and adds the corrected lookup as a
separate member (see Findings).

## Model

| member | source | states |
|---|---|---|
| Counters.CounterBlock.Touch | src/projects/monitoring/stream_metrics.cpp:39-48 | UpdateDate marks the block as updated and changes no counter |
| Counters.Apply | src/projects/monitoring/stream_metrics.cpp:52 | one event on one block: bytes-in, each bytes-out bucket, each per-type connection count and the total each move by exactly that event's delta, and the block is marked updated |
| Counters.BytesOutTouchesOneBucket | src/projects/monitoring/stream_metrics.cpp:71-73 | a bytes-out event adds its value to the bucket of its own publisher type only; other buckets, bytes-in and connection counts keep their values |
| Counters.ApplyCommutes | src/projects/monitoring/stream_metrics.cpp:92-140 | two events applied to one block give the same block in either order, so final counts do not depend on the order in which sessions report |
| Forwarding.RouteStep | src/projects/monitoring/stream_metrics.cpp:55-61 | a registered origin is the first stream on the route, and its own route is the rest; the route reaches the application exactly when the origin's route does |
| Forwarding.UnresolvedOriginAbsorbs | src/projects/monitoring/stream_metrics.cpp:58-63 | an origin identity that is not registered ends the route: no stream after it is reached and the application is not |
| Forwarding.RootForwardsToApp | src/projects/monitoring/stream_metrics.cpp:64-68 | a stream without an origin reaches no other stream and reaches the application |
| Forwarding.DerivedOfRootReachesAppOnce | src/projects/monitoring/stream_metrics.cpp:55-67 | a stream whose origin is a registered root reaches exactly that origin, then the application |
| Forwarding.NotOnOwnRoute | src/projects/monitoring/stream_metrics.cpp:55-61 | on an acyclic chain a registered stream is not on its own origin route, so it is never counted twice |
| Forwarding.RouteDistinctWithin | src/projects/monitoring/stream_metrics.cpp:55-61 | no stream appears twice on an origin route |
| Forwarding.DistinctCard | src/projects/monitoring/stream_metrics.cpp:55-61 | a route without repetitions reaches as many streams as its length |
| Forwarding.ReachesAppAtRoot | src/projects/monitoring/stream_metrics.cpp:64-68 | the application is reached if and only if the route is empty and the stream has no origin, or the last stream on the route is registered without an origin |
| Forwarding.ForwardingFootprint | src/projects/monitoring/stream_metrics.cpp:55-68 | an event on a registered stream at chain depth k touches exactly k+1 registered streams |
| Metrics.StreamMetrics.SetOriginRequestTimeMSec | src/projects/monitoring/stream_metrics.cpp:29-43 | the request-time getter returns the stored value, the response time is unchanged, and the block is marked updated with no counter changed |
| Metrics.StreamMetrics.SetOriginResponseTimeMSec | src/projects/monitoring/stream_metrics.cpp:33-48 | the response-time getter returns the stored value, the request time is unchanged, and the block is marked updated with no counter changed |
| Metrics.StreamMetrics.Forward | src/projects/monitoring/stream_metrics.cpp:50-69 | the local block takes the event; the application's stream blocks change by the event exactly at the reached streams and nowhere else; the aggregate takes the event exactly when the route reaches the application |
| Metrics.StreamMetrics.ForwardRoot | src/projects/monitoring/stream_metrics.cpp:64-68 | for a stream without an origin, only the local block and the aggregate take the event |
| Metrics.StreamMetrics.ForwardDerived | src/projects/monitoring/stream_metrics.cpp:52-63 | for a derived stream, the local block and each stream on the origin route take the event once; the aggregate takes it only through the root |
| Metrics.StreamMetrics.ForwardToOrigin | src/projects/monitoring/stream_metrics.cpp:55-63 | a resolved origin handles the event recursively; an unresolved one absorbs it; this stream's block does not change |
| Metrics.StreamMetrics.ApplyLocal | src/projects/monitoring/stream_metrics.cpp:52 | only this stream's block takes the event |
| Metrics.StreamMetrics.IncreaseBytesIn | src/projects/monitoring/stream_metrics.cpp:50-69 | the bytes-in event reaches this stream, its origin route, and the aggregate only at a root |
| Metrics.StreamMetrics.IncreaseBytesOut | src/projects/monitoring/stream_metrics.cpp:71-90 | the same forwarding rule for one publisher type's bytes-out bucket |
| Metrics.StreamMetrics.OnSessionConnected | src/projects/monitoring/stream_metrics.cpp:92-115 | the connect is counted on this stream and its origin route, and once on the application only through the root |
| Metrics.StreamMetrics.OnSessionDisconnected | src/projects/monitoring/stream_metrics.cpp:117-140 | the mirror image of connect: one decrement per reached stream, and one on the application only through the root |
| Metrics.ApplicationMetrics.GetStreamMetrics | src/projects/monitoring/stream_metrics.cpp:58 | found if and only if the identity is registered, and then it is the registered object |
| Metrics.ApplicationMetrics.OnStreamCreated | src/projects/monitoring/monitoring.cpp:69 | idempotent: a registered identity keeps its metrics; a new one gets fresh, zeroed metrics with its origin; nothing else changes |
| Metrics.ApplicationMetrics.OnStreamDeleted | src/projects/monitoring/monitoring.cpp:79 | fails exactly when the identity is absent, and removes exactly that identity |
| Metrics.ApplicationMetrics.Aggregate | src/projects/monitoring/stream_metrics.cpp:67 | the aggregate takes the event and no stream block changes |
| Metrics.HostMetrics.GetApplicationMetrics | src/projects/monitoring/monitoring.cpp:100 | found if and only if the application is registered on this host |
| Metrics.HostMetrics.OnApplicationCreated | src/projects/monitoring/monitoring.cpp:49 | idempotent: a registered application keeps its metrics; a new one gets fresh metrics with no streams and a zero aggregate; other applications are unchanged |
| Metrics.HostMetrics.OnApplicationDeleted | src/projects/monitoring/monitoring.cpp:59 | fails exactly when the application is absent, and removes exactly that application |
| Registry.Monitoring.OnHostCreated | src/projects/monitoring/monitoring.cpp:10-28 | always succeeds; a known host leaves the map unchanged; a new one gets fresh, empty metrics and all other entries are unchanged |
| Registry.Monitoring.OnHostDeleted | src/projects/monitoring/monitoring.cpp:29-40 | fails with no change for an absent host; otherwise removes exactly that host |
| Registry.Monitoring.OnApplicationCreated | src/projects/monitoring/monitoring.cpp:41-50 | fails with no change when the host is missing; every other host keeps the same application objects; a registered application keeps its object and streams; a new one is fresh, with no streams and a zero aggregate |
| Registry.Monitoring.OnApplicationDeleted | src/projects/monitoring/monitoring.cpp:51-60 | fails when the host or the application is missing; every other host keeps the same application objects, and the host removes exactly that application |
| Registry.Monitoring.OnStreamCreated | src/projects/monitoring/monitoring.cpp:61-70 | fails with no change when the host or application is missing; otherwise only that application's stream map changes, idempotently |
| Registry.Monitoring.OnStreamDeleted | src/projects/monitoring/monitoring.cpp:71-80 | fails when an ancestor or the stream is missing; it removes exactly that stream |
| Registry.Monitoring.GetHostMetrics | src/projects/monitoring/monitoring.cpp:82-90 | a read-only lookup: absent if and only if the host is not registered |
| Registry.Monitoring.GetApplicationMetrics | src/projects/monitoring/monitoring.cpp:92-107 | a read-only lookup: absent if and only if the host or the application is missing |
| Registry.Monitoring.GetStreamMetrics | src/projects/monitoring/monitoring.cpp:109-128 | as written: returns the lookup made before any creation; an already-registered stream is left as it was; otherwise, with a registered application, a fresh stream carrying the descriptor's origin and zero counters is registered; hosts and applications are never created |
| Registry.Monitoring.GetOrCreateStreamMetrics | src/projects/monitoring/monitoring.cpp:109-128 | corrected: present if and only if the application is registered, and then it is the registered stream; an existing stream is returned and left as it was, and a missing one is created fresh with the descriptor's origin and zero counters |
| Scenarios.RelayReaches | src/projects/monitoring/stream_metrics.cpp:55-61 | a stream relayed from a registered root reaches itself and that root |
| Scenarios.DerivedStreamCountsBytesOnce | src/projects/monitoring/stream_metrics.cpp:50-69 | bytes-in of 100 on a relayed stream gives 100 on it, 100 on its origin and 100, not 200, in the aggregate |
| Scenarios.DerivedStreamCountsSessionOnce | src/projects/monitoring/stream_metrics.cpp:92-115 | one connect on a relayed stream gives one connection on it, on its origin and on the application |
| Scenarios.StaleOriginIsAbsorbed | src/projects/monitoring/stream_metrics.cpp:58-63 | with an unregistered origin only the local block changes, and the aggregate stays zero |
| Scenarios.LazyCreationReturnsAbsent | src/projects/monitoring/monitoring.cpp:117-127 | the lookup that creates a stream returns absent, and the next lookup finds it |
| Scenarios.RepeatedLookupKeepsInstance | src/projects/monitoring/monitoring.cpp:117-127 | two lookups of a registered stream return the same registered object, and its counters are left as they were |
| Scenarios.LazyCreationCorrected | src/projects/monitoring/monitoring.cpp:117-127 | the corrected lookup returns the created stream, and the next call returns the same object |
| Scenarios.MissingAncestorFails | src/projects/monitoring/monitoring.cpp:41-70 | application and stream creation below a missing host fail; creating a host twice leaves one entry |

## Left out

- Locking (`_map_guard`) and concurrency: the model is sequential, and the specification's linearizability claims are not modelled.
- Logging and `ShowInfo` formatting have no effect on state.
- The `make_shared` failure path of OnHostCreated is not modelled. Allocation cannot fail in the model.
- The latency fields are `double` in the source. They are stored `real` values with no arithmetic.
- The `UpdateDate` timestamp is a boolean "updated" marker. There is no clock.
- Counters.Apply: the counters are unbounded integers, so the 64-bit wrap-around of the real counters is not modelled. CommonMetrics' field widths are not part of this model.
- Counters.Apply: a disconnect on a publisher type with no recorded connections lets the count go negative (to -1 from zero). CommonMetrics is not part of this model, so neither the unsigned wrap of the real counter nor a clamp at zero is modelled.
- The invariant that an application's total equals the sum of its per-type connections is not stated. It depends on CommonMetrics internals that are not part of this model.
- Metrics.StreamMetrics.Forward: requires the origin chain to be acyclic. The source recurses forever on a cycle, and the model proves the forwarding only for acyclic chains.
- Metrics.StreamMetrics.IncreaseBytesIn, Metrics.StreamMetrics.IncreaseBytesOut, Metrics.StreamMetrics.OnSessionConnected and Metrics.StreamMetrics.OnSessionDisconnected: these carry the same acyclicity precondition as Forward.
- Metrics.HostMetrics.OnApplicationCreated: requires the application's host to be this host. The registry always passes an application found under that host identity. The HostMetrics source is not part of this model.
- `src/projects/transcoder/codec/codec_utilities.h` is not part of this model. It marshals FFmpeg frames and packets through foreign calls.
- Stream, application and host descriptors keep only their identities and the origin identity. Names, source type and the other descriptor fields only serve logging.

## Findings

| source | as written | input that shows it | evidently intended | confidence | as-written member | corrected member |
|---|---|---|---|---|---|---|
| src/projects/monitoring/monitoring.cpp:117-127 | when the stream is missing, `OnStreamCreated` registers it, but the function returns the null pointer from the lookup before the creation | a registered host and application and a stream identity not yet registered: the first call returns absent, though the stream is registered afterwards | return the stream metrics now registered, so that the call that materializes a stream already returns it | not executed | Registry.Monitoring.GetStreamMetrics (shown by Scenarios.LazyCreationReturnsAbsent) | Registry.Monitoring.GetOrCreateStreamMetrics (proved by Scenarios.LazyCreationCorrected) |
