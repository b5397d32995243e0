# Event broadcaster and PostgREST client bookkeeping, in Dafny

This project models two small, sequential pieces of the supabase-swift SDK and
proves what they promise.

**The event broadcaster** (`EventEmitter<Event>` and `ObservationToken` in
`Sources/_Helpers/EventEmitter.swift`). An emitter keeps the last emitted event,
a map from subscription token to listener, and a replay-on-attach flag fixed at
construction.

- `attach` registers a listener under a fresh token. When the flag is set, it
  replays the last event to that listener.
- `emit` retains the new event. It then calls every registered listener, or
  only the one registered under a given token.
- A token's `remove` runs its removal action at most once. The action deletes
  the token's entry from the map.
- `stream` attaches a forwarding listener. The stream's termination handler
  removes that listener's token.

The model has three layers:

- `EmitterSpec` (`emitter_spec.dfy`) is a pure state machine. It has one
  function per operation and a `Run` over sequences of operations. The lemmas
  about fan-out, replay, removal and silence after removal are proved here.
- `EventEmitter` (`event_emitter.dfy`) has the classes `ObservationToken`,
  `Emitter` and `EventStream`. They update their fields in place, and each
  method is proved against the `EmitterSpec` step functions.
- `EmitterScenarios` (`emitter_scenarios.dfy`) holds client methods. They drive
  the classes through the broadcaster's usage scenarios using only the
  methods' contracts.

In the model, the listener map is keyed by the token object itself, which is
the identity `ObjectIdentifier(token)` denotes. A freshly allocated token is
therefore a key that was never in the map. A token from another emitter misses
in the lookup, exactly as it does in the source. A listener closure becomes an
opaque `ListenerId`. A call of a listener becomes a `Delivery(key, listener,
event)` record returned by `Attach` and `Emit`.

**The PostgREST client** (`Sources/PostgREST/PostgrestClient.swift`), in module
`Postgrest` (`postgrest_client.dfy`).

- Construction merges the package's default headers into the user's headers,
  and the user's value wins on conflict.
- `setAuth` sets or removes the `Authorization` header in place and returns the
  same client.
- `schema` returns a new client built from a copy of the configuration with
  the schema replaced.
- `from` and `rpc` build a request from the configuration as it currently
  stands.

The client is a class, because its headers are updated in place. The request
builders are functions of the configuration, because they only read it.
`Configuration.defaultHeaders` is not part of this model. It is a parameter of
the constructor, and the client keeps it in a constant field so that `schema`
can run construction again.

Two details of the code that the model follows closely:

- `stream()` attaches as soon as the stream is created, because the
  `AsyncStream` build closure runs at once. It does not wait until a consumer
  starts reading.
- `emit` iterates over a snapshot of the listener map taken after `lastEvent`
  is set. Listeners added or removed during the fan-out therefore only affect
  later emissions.

## Model

| member | source | states |
|---|---|---|
| `EventEmitter.ObservationToken.constructor` | Sources/_Helpers/EventEmitter.swift:11-12 | a new token holds no removal action and the action has run zero times |
| `EventEmitter.ObservationToken.Remove` | Sources/_Helpers/EventEmitter.swift:14-23 | the stored action runs only if present, then is cleared, so it runs at most once over the token's life; when it runs, the emitter's state becomes `RemoveStep` of its old state, so exactly this token's key leaves the map and `lastEvent` is untouched; a second call changes nothing |
| `EventEmitter.Emitter.constructor` | Sources/_Helpers/EventEmitter.swift:38-44 | a new emitter retains the initial event, has no listeners, and keeps the given replay flag, which is on when the caller does not pass one |
| `EventEmitter.Emitter.Attach` | Sources/_Helpers/EventEmitter.swift:46-67 | the returned token is fresh, so not already a key; its removal action targets this emitter; the map gains exactly that entry; the listener receives exactly the current last event when the flag is set and nothing otherwise |
| `EventEmitter.FanOut` | Sources/_Helpers/EventEmitter.swift:71-78 | the loop over the snapshot calls every listener of the snapshot once with the event, and no one else: the calls are pairwise distinct, one per map entry, and each is in the broadcast set |
| `EventEmitter.Emitter.Emit` | Sources/_Helpers/EventEmitter.swift:69-80 | `lastEvent` becomes the event, the map is unchanged, and the calls made are exactly the broadcast to all listeners, or the directed call to the token's listener if it is still registered, with no duplicates |
| `EventEmitter.Emitter.Stream` | Sources/_Helpers/EventEmitter.swift:82-87 | creating the stream attaches its forwarding listener under a fresh token whose removal targets this emitter, with the same replay behaviour as `attach` |
| `EventEmitter.EventStream.Terminate` | Sources/_Helpers/EventEmitter.swift:88-90 | terminating the stream applies `RemoveStep` for its token to the emitter's state on the first call and leaves that state unchanged afterwards; the removal action runs at most once |
| `EmitterSpec.AttachRegistersFresh` | Sources/_Helpers/EventEmitter.swift:53-64 | attaching under a key not in the map adds exactly that key with the listener, keeps every other entry, grows the map by one and leaves the last event and flag alone |
| `EmitterSpec.AttachReplay` | Sources/_Helpers/EventEmitter.swift:47-51 | attach delivers exactly one call, carrying the current last event to the new listener, when the flag is set, and none when it is not |
| `EmitterSpec.RemoveDeletesOnlyKey` | Sources/_Helpers/EventEmitter.swift:56-60 | the removal action deletes exactly the token's key and keeps every other entry and the last event |
| `EmitterSpec.RemoveIdempotent` | Sources/_Helpers/EventEmitter.swift:56-60 | removing an absent key leaves the state as it is, so removing twice equals removing once |
| `EmitterSpec.BroadcastReachesExactlyListeners` | Sources/_Helpers/EventEmitter.swift:76-78 | a delivery is in the broadcast if and only if its key is registered, its listener is the one registered there, and its event is the emitted one |
| `EmitterSpec.BroadcastExactlyOnce` | Sources/_Helpers/EventEmitter.swift:76-78 | the broadcast has exactly one call per map entry |
| `EmitterSpec.DirectedOnlyToKey` | Sources/_Helpers/EventEmitter.swift:73-74 | a directed emit calls only the listener under the token's key, at most once, and nobody when the key is gone |
| `EmitterSpec.EmitRetainsEvent` | Sources/_Helpers/EventEmitter.swift:69-80 | after emit the last event is the emitted one, the map and flag are unchanged, and every call carries that event to a registered key |
| `EmitterSpec.RunKeepsReplay` | Sources/_Helpers/EventEmitter.swift:36-43 | no sequence of operations changes the replay flag |
| `EmitterSpec.AbsentKeyStaysSilent` | Sources/_Helpers/EventEmitter.swift:46-80 | a key that is not registered, and that no later attach reuses, stays unregistered and receives no call in any later run |
| `EmitterSpec.RemovedKeyIsSilent` | Sources/_Helpers/EventEmitter.swift:56-78 | after a token's key is removed, no later emit or attach in the run delivers to it |
| `EmitterSpec.LastEventReplayed` | Sources/_Helpers/EventEmitter.swift:46-70 | after any run ending in `emit(e)`, a listener attached next is replayed `e` if the flag is set and receives nothing otherwise |
| `EmitterScenarios.ReplayThenBroadcast` | Sources/_Helpers/EventEmitter.swift:46-80 | the first listener is replayed "idle", receives "running", a late listener is replayed "running", and "done" reaches both listeners once each |
| `EmitterScenarios.NoReplay` | Sources/_Helpers/EventEmitter.swift:47-51 | with replay off, attaching delivers nothing and the next emit reaches the listener |
| `EmitterScenarios.DetachThenEmit` | Sources/_Helpers/EventEmitter.swift:14-23 | a listener whose token was removed twice receives nothing from the next emit, and the removal action ran once |
| `EmitterScenarios.DirectedEmit` | Sources/_Helpers/EventEmitter.swift:73-74 | with two listeners attached, an emit addressed to the first token reaches only the first listener |
| `EmitterScenarios.StreamThenTerminate` | Sources/_Helpers/EventEmitter.swift:82-92 | a stream's listener receives the emit made before termination and nothing from the emit made after it |
| `Postgrest.MergeDefaults` | Sources/PostgREST/PostgrestClient.swift:61-65 | the merged map has every user key with the user's value and every default key the user left out with the default value, and no other key |
| `Postgrest.MergeIdempotent` | Sources/PostgREST/PostgrestClient.swift:61-65 | merging the defaults into an already merged map changes nothing |
| `Postgrest.MergeUnchangedIff` | Sources/PostgREST/PostgrestClient.swift:61-65 | the merge leaves a header map unchanged if and only if the map already has every default key |
| `Postgrest.PostgrestClient.constructor` | Sources/PostgREST/PostgrestClient.swift:61-66 | the client's configuration is the given one with the defaults merged into its headers, so every default key is present |
| `Postgrest.AuthHeaders` | Sources/PostgREST/PostgrestClient.swift:103-108 | with a token, `Authorization` is `Bearer <token>`; without one, `Authorization` is absent; every other header is unchanged |
| `Postgrest.AuthLastWins` | Sources/PostgREST/PostgrestClient.swift:103-108 | two successive `setAuth` calls leave the headers as the second alone would, so repeating a call is idempotent |
| `Postgrest.AuthClearAbsent` | Sources/PostgREST/PostgrestClient.swift:106-107 | clearing the credential when there is none leaves the headers as they are |
| `Postgrest.PostgrestClient.SetAuth` | Sources/PostgREST/PostgrestClient.swift:103-110 | the same client is returned; only its headers change, as the auth update above says; the default keys stay present unless a default `Authorization` is cleared |
| `Postgrest.SchemaChangesOnlySchema` | Sources/PostgREST/PostgrestClient.swift:159-163 | running construction again on a copy whose headers already hold the defaults yields the original configuration with only the schema replaced |
| `Postgrest.PostgrestClient.Schema` | Sources/PostgREST/PostgrestClient.swift:159-163 | the result is a new client whose configuration is this one's with the schema replaced and the defaults merged again, which equals this one's with only the schema replaced while the defaults are present; this client is not modified |
| `Postgrest.From` | Sources/PostgREST/PostgrestClient.swift:115-120 | `from(table)` builds a query builder holding the configuration, whose request is a GET on exactly the table name and carries the client's headers as they currently stand; which headers those are is stated by `RequestHeadersFollowClient` and `AuthReachesRequests` |
| `Postgrest.Rpc` | Sources/PostgREST/PostgrestClient.swift:130-139 | `rpc(fn)` builds a function-call builder holding the configuration, whose request is a POST carrying the client's current headers, on a `/rpc/` path from which the function name `fn` is read back |
| `Postgrest.RequestHeadersFollowClient` | Sources/PostgREST/PostgrestClient.swift:61-137 | for a client built from a configuration and then given any `setAuth`, `from` and `rpc` send the same headers: apart from `Authorization`, every user header with the user's value and every other default header with its default value, and no other key |
| `Postgrest.AuthReachesRequests` | Sources/PostgREST/PostgrestClient.swift:103-137 | after `setAuth`, requests built by `from` and `rpc` carry `Bearer <token>` under `Authorization`, or no `Authorization` header after clearing it |

## Left out

- Locking (`LockIsolated`) and `Sendable`. Every operation is modelled as atomic and single-threaded, so races between `attach`, `emit` and `remove` are not modelled.
- Removal from `deinit`, and the emitter's `[weak self]` lifetime. A token's removal action always reaches its emitter. A removal against an emitter that has been released is not modelled.
- Listener closures and their side effects. A listener is an opaque id, and its calls are returned as delivery records. A throwing or re-entrant listener is not modelled.
- `AsyncStream` buffering and suspension in `stream()`. Only "attach on creation, remove once on termination" is modelled. The forwarding closure is the opaque `sink` listener.
- The order in which `emit` calls its listeners. The model leaves it open, because dictionary order is unspecified.
- `URL`, the fetch handler, `JSONEncoder`/`JSONDecoder` and the logger of `Configuration`. These are network and library plumbing. The URL is kept as opaque text.
- The convenience initialiser and `Configuration.init`. They only copy their arguments into a `Configuration`, which is the datatype's own constructor followed by `PostgrestClient.constructor`.
- `Postgrest.Rpc`: does not model the parameter encoding and count option of `PostgrestRpcBuilder.rpc(params:count:)`, or the error it may throw. That builder, `PostgrestQueryBuilder` and `Configuration.defaultHeaders` are not part of this model.
- Swift string comparison. Swift compares `String` header keys by Unicode canonical equivalence. The model compares them code point by code point, so two keys that are canonically equivalent but spelled differently count as distinct here.
- `Tests/AuthTests/MockHelpers.swift`. It only reads JSON fixtures from the bundle.
