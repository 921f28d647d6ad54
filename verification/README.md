# Verified models of the millie-cli protocol, schema and analytics core

The Rust workspace under `codex-rs` talks to an app server over JSON-RPC, generates the
JSON and TypeScript schemas of that protocol, and reduces session facts to analytics events.
This project models the parts of it where an invariant spans many steps, and proves those
invariants for every input and every run:

* **Remote connection** (`RemoteWorker`, `RemoteHistory`, `RemoteProtocol`, `RemoteReuse`, `RemoteEvents`): the worker that
  multiplexes requests and events over one socket, together with the two wires and the server,
  and the handshake in front of it.
* **In-process event forwarding** (`Forwarder`, `ForwarderMoves`): the bounded consumer channel with its
  lossless and best-effort tiers, lag markers and overload rejections.
* **Schema export** (`SchemaRefs`, `Reachability`, `FlatSchema`, `StripVariants`,
  `PruneMethods`, `SchemaBundle`, `MixedBundle`, `MixedOrder`, `BundleRefs`, `BundleOps`): reference rewriting, flattening,
  pruning and bundling of JSON schemas.
* **TypeScript filtering** (`Scanner`, `TsFilters`, `FieldFilter`, `Layouts`, `TsProperties`): splitting
  generated TypeScript at top-level delimiters despite strings, comments and brackets, and removing the arms
  and fields that are experimental.
* **Schema fixtures** (`Json`, `JsonPrint`, `JsonText`, `Sorting`, `Canonical`): the canonical form in which
  fixtures are compared.
* **Analytics** (`Reducer`, `ReducerThreads`, `ReducerTurns`, `ReducerHistory`, `ReducerSources`,
  `ReducerReviews`, `ReducerObject`, `AcceptedLines`, `DiffPrint`, `AnalyticsQueue`): the fact
  reducer, the unified-diff line counter, the dedupe gates and the request batches.

`Text`, `Words` and `Sequences` hold the pieces of the Rust string and iterator libraries the
rest relies on. `dafny verify dfyconfig.toml` checks everything.

Environment choices are inputs of the models: whether a write succeeds, whether the consumer
still listens, when it receives, when a timer fires, which pending request the server answers
next, and in which order a hash map is walked. Code that updates state step by step is a class
or a loop proved against a specification function; the theorems are about those functions. What
such a function computes is in turn stated without it, on the inputs alone: on the commands and
frames a worker took (`RemoteHistory`), on the facts a reducer was given (`ReducerHistory`,
`ReducerSources`, `ReducerReviews`), on the JSON tree that went in, or on the text that was printed.

Some properties turned out to hold only under a condition, and are stated with it:

* Splitting, filtering and re-joining TypeScript text gives back the kept parts if and only if
  no kept part other than the last ends inside a `//` comment
  (`Scanner.ResplitSelection`, `TsFilters.FilterPartsExact`; failing family
  `Scanner.LineCommentMerges`, concrete failure `Scanner.LineCommentMergesExample`). Slashes inside
  strings and block comments do no harm (`Scanner.QuotedUncommented`, `Scanner.BlockUncommented`).
  For the fields of a type body the last field counts too, since the closing brace follows it, and
  it must not leave a brace open (`FieldFilter.TypeFieldsFiltered`, concrete failure
  `FieldFilter.LeavesOpenExample`).
* The method of a union arm is read only from a property without a comment in front of it, so an
  arm whose `method` property is commented always stays (`TsProperties.UnionFiltered`,
  `TsProperties.CommentedMethodStays`, concrete arm `TsProperties.CommentedMethodExample`), while
  the field filter looks behind comments (`TsProperties.TypeFiltered`, concrete doc-commented type
  `TsProperties.DocCommentExample`).
* A client gets only answers to its own requests, whatever the server does, if and only if it
  never uses a request id twice (`RemoteReuse.OwnAnswersExactly`; failing family
  `RemoteReuse.ReusedIdMisled`). With a server that answers each request once, ids may be reused
  freely (`RemoteProtocol.RepliesReachTheirWaiters`).
* Stripping method variants from a closed schema leaves it closed if and only if every name used
  only where the search does not look, under a nested definition map or as a definition map's own
  `$ref`, is reachable in another way
  (`StripVariants.StripDanglingExactly`; failing family `StripVariants.HiddenReferenceDangles`,
  concrete failure `StripVariants.HiddenReferenceExample`).
* Flattening a closed bundle preserves the meaning of every kept reference if and only if a name
  that exists both at the root and in the namespace, and is referred to by a kept definition,
  carries the same rewritten schema on both sides (`FlatSchema.FlatMeaningExactly`, concrete
  failure `FlatSchema.ClashExample`).
* Every order of the schemas builds a bundle with the same namespaces if and only if the namespaced
  insertions are consistent and whatever a schema leaves at the root under a namespace's name is an
  object that has all definitions of the namespace already, always the same one
  (`MixedOrder.OrderIndependentExactly`; failing family `MixedOrder.RootNameBreaksOrder`, concrete
  failures `MixedOrder.RootValueExample` and `MixedOrder.RootObjectExample`). A single order builds
  if and only if each insertion agrees with everything it meets that no root value has wiped since
  (`MixedOrder.OrderBuildsExactly`), so contradicting schemas may build in some orders
  (`MixedOrder.WipedBetweenExample`).
* One pruning pass reaches its fixpoint if and only if it exposes no new variant
  (`PruneMethods.PruneFixpointExactly`, concrete failure `PruneMethods.OnePassNotEnough`);
  `method` enums made of strings expose nothing.

## Model

| member | source | states |
|---|---|---|
| `RemoteWorker.ExactlyOneReply` | codex-rs/app-server-client/src/remote.rs:208-468 | over every run and exit path, each request command the worker takes has exactly one reply once the loop is left and the map drained, in any drain order |
| `RemoteWorker.AccountedRun` | codex-rs/app-server-client/src/remote.rs:209-325 | at every point of every run a taken request is either waiting under exactly one id or has exactly one reply |
| `RemoteWorker.AccountedStep` | codex-rs/app-server-client/src/remote.rs:213-456 | one turn of the select loop keeps that account, for every command, frame and failure |
| `RemoteWorker.DrainAccounted` | codex-rs/app-server-client/src/remote.rs:459-467 | failing what is pending on exit answers every remaining waiter once |
| `RemoteWorker.WaiterStays` | codex-rs/app-server-client/src/remote.rs:213-456 | a waiter leaves the map only together with a reply to it |
| `RemoteHistory.RunIsHistory` | codex-rs/app-server-client/src/remote.rs:208-456 | over every run, the waiters, the reason of the exit, the lines written, the acknowledgements, the events and the replies are each what the commands and frames taken so far say: a resolve writes a response, a reject an error, a notify a notification, an undecodable server request the -32601 answer and a request under a free id itself, each only while the loop runs and the write succeeds |
| `RemoteHistory.LeftoverFails` | codex-rs/app-server-client/src/remote.rs:458-468 | after the loop every waiter left is failed, in drain order, with the error of the input that ended it: invalid data, aborted connection, unexpected end, or a broken pipe when a write failed or nothing did |
| `RemoteWorker.Worker.Turn` | codex-rs/app-server-client/src/remote.rs:212-457 | the object's turn has the whole effect of the step function |
| `RemoteWorker.Worker.HandleCommand` | codex-rs/app-server-client/src/remote.rs:214-311 | command arm: insert, write, undo on failure, acknowledge, shut down, as the step function; what each command writes and answers over every run is stated by RemoteHistory.RunIsHistory |
| `RemoteWorker.Worker.HandleFrame` | codex-rs/app-server-client/src/remote.rs:312-455 | frame arm: every disconnect reason with its error kind |
| `RemoteWorker.Worker.HandleMessage` | codex-rs/app-server-client/src/remote.rs:315-401 | the four message kinds, including the -32601 answer to unsupported requests |
| `RemoteWorker.Worker.DeliverEvent` | codex-rs/app-server-client/src/remote.rs:942-952 | an event reaches the channel exactly while the consumer listens |
| `RemoteWorker.Worker.SendReply` | codex-rs/app-server-client/src/remote.rs:316-325 | a response or error answers and removes the waiter under its id, or is ignored |
| `RemoteWorker.Worker.RunLoop` | codex-rs/app-server-client/src/remote.rs:209-468 | loop and drain together end in the drained state of the run, with exactly one reply for each request taken and none for any other |
| `RemoteWorker.Worker.DrainPending` | codex-rs/app-server-client/src/remote.rs:459-467 | every pending id is failed once with the exit error, and the map is empty afterwards |
| `RemoteProtocol.RepliesReachTheirWaiters` | codex-rs/app-server-client/src/remote.rs:212-325 | with client, both wires and server interleaved freely and no request answered twice, every server reply went to the waiter whose request was answered with it, in order, and none is dropped while the worker runs, although ids are reused |
| `RemoteProtocol.InFlightEqualsPending` | codex-rs/app-server-client/src/remote.rs:220-229 | then ids in flight on the wires and held by the server are duplicate-free and are exactly the pending entries, waiter by waiter |
| `RemoteProtocol.NoWaiterAnsweredTwice` | codex-rs/app-server-client/src/remote.rs:316-325 | no waiter gets two replies in any run of the whole system, even against a server that answers again |
| `RemoteProtocol.SystemGood` | codex-rs/app-server-client/src/remote.rs:212-457 | the system invariant holds in every state reached without a second answer |
| `RemoteProtocol.WireKeepsOrder` | codex-rs/app-server-client/src/remote.rs:312-325 | in every run of the whole system the frames the server sent are, in order, those the worker took and those still on the wire, and the worker is where the inputs it took lead |
| `RemoteReuse.OwnAnswersExactly` | codex-rs/app-server-client/src/remote.rs:220-229 | for every sequence of ids a client asks under: all runs with it, whatever the server answers and answers again, deliver only own answers if and only if the ids are all different |
| `RemoteReuse.RunTraced` | codex-rs/app-server-client/src/remote.rs:212-325 | when no id is asked under twice, every request and answer under way carries the waiter its id was asked with |
| `RemoteReuse.ReusedIdMisled` | codex-rs/app-server-client/src/remote.rs:316-320 | for every sequence of ids with a repetition some server run hands a stale answer to the later waiter |
| `RemoteEvents.InitializeRemoteConnection` | codex-rs/app-server-client/src/remote.rs:798-933 | the outcome is fixed by the first deciding frame, the end of the wire or the timer, whichever is first: connected with every earlier event buffered in wire order exactly on the initialize response, otherwise refused with that cause |
| `RemoteEvents.JudgeMeans` | codex-rs/app-server-client/src/remote.rs:824-921 | which frames decide the handshake, each way: the response and the error under the initialize id, an unanswerable server request, undecodable text, a close, a transport failure and the end; all others are passed over |
| `RemoteEvents.NextEventFollowsWire` | codex-rs/app-server-client/src/remote.rs:326-453 | what `next_event` returned is, in every run, a prefix of the wire's decodable events followed by at most one `Disconnected`; seen, buffered and queued together are all of them while the consumer lives |
| `RemoteEvents.NextEventReturns` | codex-rs/app-server-client/src/remote.rs:603-608 | in every run asking for an event while the consumer lives returns the next one the wire has said, and changes nothing if there is none |
| `RemoteEvents.MoveFeedsWorker` | codex-rs/app-server-client/src/remote.rs:312-455 | a move takes at most one frame off the wire and the worker takes exactly one step for it; a wire without frames left tells the worker that it ended |
| `RemoteEvents.DrainedConsumerSawEverything` | codex-rs/app-server-client/src/remote.rs:603-608 | a consumer with nothing left to read has seen every event of the frames consumed so far |
| `RemoteEvents.FrameTurnEvents` | codex-rs/app-server-client/src/remote.rs:312-455 | a frame adds exactly its own event, and a disconnect marker exactly when it ends the worker with an error |
| `RemoteEvents.RemoteAppServerClient.NextEvent` | codex-rs/app-server-client/src/remote.rs:603-608 | the handshake buffer is drained before the channel, nothing is skipped, and the end is reported only when both are empty and the worker is gone |
| `Forwarder.RunGood` | codex-rs/app-server-client/src/lib.rs:207-273 | for any capacity and any interleaving, with the consumer acting between any two sends, the consumer's stream is the input position by position with each gap replaced by one marker of its size (saturating at the counter's maximum), and no lossless event is in a gap |
| `Forwarder.LosslessDelivered` | codex-rs/app-server-client/src/lib.rs:151-185 | lossless events are delivered once each and in order; while the consumer listens only the one being sent is missing |
| `Forwarder.EveryRequestAnswered` | codex-rs/app-server-client/src/lib.rs:551-598 | every pulled server request is enqueued, rejected once, the one event still being tried, or the single event that met a closed channel |
| `Forwarder.RunRejects` | codex-rs/app-server-client/src/lib.rs:555-593 | overload rejections are exactly the dropped requests and unsupported rejections exactly the token refreshes, in order |
| `ForwarderMoves.RunMoves` | codex-rs/app-server-client/src/lib.rs:207-273 | in every run each move does to the stream what its reader is promised: with room what is due goes out, the marker before the event; on a full queue an event that must arrive waits and any other is dropped, counted and, if a request, rejected; a closed channel ends the stream |
| `ForwarderMoves.TierMeans` | codex-rs/app-server-client/src/lib.rs:151-185 | the lossless tier is exactly the seven transcript notifications |
| `ForwarderMoves.CallIsRun` | codex-rs/app-server-client/src/lib.rs:207-273 | what the forwarding object does in a call is a run of those moves that leaves nothing in hand |
| `Forwarder.CompletesAfterDebt` | codex-rs/app-server-client/src/lib.rs:217-259 | a waiting call completes after exactly as many receives as it lacks places, never more than two, and two exactly when a marker is due on a full queue |
| `Forwarder.TwoReceivesSuffice` | codex-rs/app-server-client/src/lib.rs:207-273 | two receives always complete a call, and a closed channel completes it at once |
| `Forwarder.FinishGood` | codex-rs/app-server-client/src/lib.rs:207-273 | a call ends and keeps the stream accurate whatever the consumer does before each of its two sends |
| `Forwarder.EventForwarder.Send` | codex-rs/app-server-client/src/lib.rs:220-228 | a blocking send appends after making room, or fails when the consumer is gone |
| `Forwarder.EventForwarder.TrySend` | codex-rs/app-server-client/src/lib.rs:233-262 | a non-blocking send sees whatever the consumer did since the last one, and appends, finds the queue full or the channel closed |
| `Forwarder.EventForwarder.ForwardMarker` | codex-rs/app-server-client/src/lib.rs:216-250 | the marker that is due goes out by the send of the event's tier, or the call ends with a drop, a rejection or a disabled stream |
| `Forwarder.EventForwarder.ForwardEvent` | codex-rs/app-server-client/src/lib.rs:252-272 | the event itself, blocking or tried, with its drop and rejection when the queue is full |
| `Forwarder.EventForwarder.Forward` | codex-rs/app-server-client/src/lib.rs:207-273 | the whole call as two sends with consumer activity before each, and when it disables the stream |
| `Forwarder.EventForwarder.Take` | codex-rs/app-server-client/src/lib.rs:551-598 | the worker loop's event branch keeps the stream accurate |
| `SchemaRefs.RefsMapped` | codex-rs/app-server-protocol/src/export.rs:1173-1190 | the references after a rewrite are exactly the images of the references before |
| `SchemaRefs.MapRefsCompose` | codex-rs/app-server-protocol/src/export.rs:1173-1190 | two rewrites in a row are one rewrite by the composition |
| `FlatSchema.CollectDefinitionDependencies` | codex-rs/app-server-protocol/src/export.rs:1151-1171 | the worklist ends on cyclic definitions and returns the least set closed under dependencies |
| `FlatSchema.BuildFlatV2Schema` | codex-rs/app-server-protocol/src/export.rs:1073-1121 | which of the three malformed bundles fails with which error; any other is assembled, with the title extended, the flat definitions, and the rest kept, and fails exactly on a check. A closed bundle always builds, and every reference of a kept definition then denotes the rewritten image of what it denoted before if and only if clashing names agree |
| `FlatSchema.FlatMeaningExactly` | codex-rs/app-server-protocol/src/export.rs:1073-1121 | on closed bundles resolving after flattening commutes with rewriting if and only if each displaced schema a kept definition refers to equals, once rewritten, the one that displaces it |
| `FlatSchema.TargetKept` | codex-rs/app-server-protocol/src/export.rs:1091-1113 | the name a kept reference points to afterwards holds the definition it pointed to, or the one that displaced it |
| `FlatSchema.FlatChecksPass` | codex-rs/app-server-protocol/src/export.rs:1192-1263 | neither final check can fail on a closed bundle |
| `FlatSchema.ClosedBundleExample` | codex-rs/app-server-protocol/src/export.rs:1073-1121 | a concrete bundle is closed and has no clash |
| `FlatSchema.ClashExample` | codex-rs/app-server-protocol/src/export.rs:1095-1113 | a concrete closed bundle whose clashing name changes the meaning of a shared definition's reference |
| `FlatSchema.AddDependencies` | codex-rs/app-server-protocol/src/export.rs:1104-1111 | which root definitions join the flat map, and that namespace definitions win |
| `FlatSchema.CollectShared` | codex-rs/app-server-protocol/src/export.rs:1095-1102 | the names the shared definitions bring in |
| `FlatSchema.AddShared` | codex-rs/app-server-protocol/src/export.rs:1095-1113 | shared root definitions override |
| `FlatSchema.FinishFlat` | codex-rs/app-server-protocol/src/export.rs:1113-1121 | rewriting and both checks on the assembled root |
| `StripVariants.ReachableLocalDefinitions` | codex-rs/app-server-protocol/src/export.rs:1415-1430 | the search ends on cycles and returns the least set reachable from references outside the maps |
| `StripVariants.CollectRefs` | codex-rs/app-server-protocol/src/export.rs:1457-1477 | queue and set grow by exactly the names referenced anywhere in the value |
| `StripVariants.CollectRefsExcludingMaps` | codex-rs/app-server-protocol/src/export.rs:1432-1455 | the same, skipping values under definition map keys |
| `StripVariants.DrainQueue` | codex-rs/app-server-protocol/src/export.rs:1415-1430 | the breadth of the search: every queued name is visited and its references queued once |
| `StripVariants.StripMethodVariants` | codex-rs/app-server-protocol/src/export.rs:1379-1397 | exactly the unlisted variants and exactly the reachable definitions remain |
| `StripVariants.VariantExactly` | codex-rs/app-server-protocol/src/export.rs:1399-1413 | on the JSON tree: a variant is dropped exactly if it is an object whose `properties.method` has a listed string as `const`, or no string `const` and a listed string first in its `enum` |
| `StripVariants.StrippedExactly` | codex-rs/app-server-protocol/src/export.rs:1379-1397 | the result holds the unlisted variants in order, the reachable definitions in order, and everything else as it was |
| `StripVariants.StripDanglingExactly` | codex-rs/app-server-protocol/src/export.rs:1379-1397 | for the schema passed in: without dangling references before, there are none after stripping if and only if the names used where the search does not look are reachable all the same |
| `StripVariants.StripKeepsSchemaClosed` | codex-rs/app-server-protocol/src/export.rs:1379-1499 | end to end: a closed schema whose other objects use no definition map key stays closed |
| `StripVariants.HiddenReferenceDangles` | codex-rs/app-server-protocol/src/export.rs:1432-1455 | in any closed schema, a name used under a nested definition map and not also reachable ends up dangling |
| `StripVariants.HiddenReferenceExample` | codex-rs/app-server-protocol/src/export.rs:1432-1455 | for every set of methods, a concrete valid schema with variants that is closed and whose stripping result is not |
| `PruneMethods.PruneExperimentalMethods` | codex-rs/app-server-protocol/src/export.rs:500-515 | the retain-then-descend loops compute the pruned tree |
| `PruneMethods.PruneFixpointExactly` | codex-rs/app-server-protocol/src/export.rs:500-540 | after one pass no array at any depth holds a variant if and only if the pass exposed none |
| `PruneMethods.OnePassNotEnough` | codex-rs/app-server-protocol/src/export.rs:500-540 | a concrete input, for every experimental method, on which one pass leaves a variant behind |
| `PruneMethods.PruneOnceSuffices` | codex-rs/app-server-protocol/src/export.rs:491-540 | with string enums one pass is enough and a second changes nothing |
| `PruneMethods.PruneDeletesExactly` | codex-rs/app-server-protocol/src/export.rs:500-515 | the result is the input with exactly the variant elements deleted, at every depth |
| `PruneMethods.IsVariantExactly` | codex-rs/app-server-protocol/src/export.rs:517-540 | on the JSON tree: a variant is an object whose `properties.method` pins an experimental method by a string `const`, or by an `enum` with that one string |
| `PruneMethods.PruneExposes` | codex-rs/app-server-protocol/src/export.rs:517-540 | when pruning below an element turns it into a variant |
| `MixedOrder.OrderIndependentExactly` | codex-rs/app-server-protocol/src/export.rs:978-1059 | over all orders of the schemas: all build with the same namespaces if and only if the insertions are consistent and the root values under namespace names fit; with consistent insertions the outcome is independent of the order exactly when they fit |
| `MixedOrder.OneHomeExactly` | codex-rs/app-server-protocol/src/export.rs:978-1059 | when no type name is claimed by two namespaces, that condition is about the one set of values the schemas leave at the root |
| `MixedOrder.TypesStableExactly` | codex-rs/app-server-protocol/src/export.rs:1601-1621 | the table of claimed type names is the same in every order if and only if no name is claimed by two namespaces |
| `MixedOrder.PlaceComes` | codex-rs/app-server-protocol/src/export.rs:1001-1044 | with fitting root values an order never fails, and each namespace ends as the last root value left in its place or else as exactly its insertions |
| `MixedBundle.MixedOrderIndependent` | codex-rs/app-server-protocol/src/export.rs:978-1059 | in particular, with any repetition of the schemas, when no root definition takes the name of a namespace |
| `MixedOrder.OrderBuildsExactly` | codex-rs/app-server-protocol/src/export.rs:1001-1044 | for any schemas, consistent or not: an order builds if and only if each insertion agrees with every earlier one of the same name, and with every earlier root value in its namespace's place, that no later root value has wiped |
| `MixedOrder.WipedBetweenExample` | codex-rs/app-server-protocol/src/export.rs:1039-1043 | two concrete schemas that contradict each other build with a root object between them and not with it after them |
| `MixedOrder.RootNameBreaksOrder` | codex-rs/app-server-protocol/src/export.rs:1265-1308 | for any schemas, a value left under the name of an inhabited namespace that is no object or lacks one of its definitions makes the outcome depend on the order |
| `MixedOrder.RootValueExample` | codex-rs/app-server-protocol/src/export.rs:1270-1280 | two concrete schemas that fail in one order and build in the other |
| `MixedOrder.RootObjectExample` | codex-rs/app-server-protocol/src/export.rs:1039-1043 | two concrete schemas that build in both orders, one of which wipes the namespace |
| `MixedBundle.RunMirrors` | codex-rs/app-server-protocol/src/export.rs:1265-1308 | as long as no root name is a namespace name, root insertions neither fail nor disturb a namespace: the table succeeds and holds, per namespace, what the namespaced insertions alone give |
| `MixedBundle.BuildSchemaBundle` | codex-rs/app-server-protocol/src/export.rs:978-1059 | the loop over schemas of both kinds reaches the table that all insertions in turn build, or stops at the first refusal |
| `MixedBundle.InsertSchema` | codex-rs/app-server-protocol/src/export.rs:1001-1044 | one schema's definitions and remainder go in turn to their namespace or to the root |
| `BundleRefs.ContributionsExactly` | codex-rs/app-server-protocol/src/export.rs:984-1044 | a namespaced schema inserts each of its definitions but the placeholder and the four unions, in order, and then itself without its definitions |
| `BundleOps.RootOpsExactly` | codex-rs/app-server-protocol/src/export.rs:984-1044 | a schema without a namespace puts at the root each such definition that belongs to no namespace, in order, and then itself without its definitions and with the references to the others moved |
| `BundleOps.TypesExactly` | codex-rs/app-server-protocol/src/export.rs:1601-1621 | a type name belongs to the namespace of the first schema that has it as its name or among its definitions, and to none if no schema does |
| `BundleOps.AsMapExactly` | codex-rs/app-server-protocol/src/export.rs:1265-1308 | a root object taken for the map of a namespace holds its members under their keys |
| `BundleRefs.ContributionsMoved` | codex-rs/app-server-protocol/src/export.rs:994-1022 | every local reference in what a namespaced schema inserts points into its namespace |
| `BundleRefs.ReferenceMoved` | codex-rs/app-server-protocol/src/export.rs:1540-1562 | a local reference turns up under the same name in the namespace, and its old form is gone |
| `BundleRefs.OwnReferenceFollowed` | codex-rs/app-server-protocol/src/export.rs:978-1044 | in a bundle that builds and whose root takes no name of a namespace, a reference to one of the schema's own definitions resolves to what was inserted for it |
| `BundleRefs.KnownReferenceMoved` | codex-rs/app-server-protocol/src/export.rs:1574-1600 | in a schema without a namespace a reference to a name that belongs to a namespace moves there, with what follows the name, and one to any other name stays |
| `BundleRefs.KnownReferenceFollowed` | codex-rs/app-server-protocol/src/export.rs:1574-1600 | and resolves in the bundle to what the namespace holds under that name |
| `BundleRefs.HomeMeans` | codex-rs/app-server-protocol/src/export.rs:1623-1635 | a name belongs where it was claimed or else where it was claimed without its final digits |
| `BundleRefs.NamedRefMoves` | codex-rs/app-server-protocol/src/export.rs:1893-1918 | a forced rewrite moves the references to one name and below it |
| `BundleRefs.NamedRefKeeps` | codex-rs/app-server-protocol/src/export.rs:1893-1918 | and no others |
| `SchemaBundle.BundleOrderIndependent` | codex-rs/app-server-protocol/src/export.rs:1265-1308 | for namespaced schemas alone, success and the resulting maps depend only on which schemas there are |
| `SchemaBundle.InsertAllExactly` | codex-rs/app-server-protocol/src/export.rs:1265-1308 | collision-checked insertion succeeds exactly when equal names carry equal schemas, and then holds exactly those |
| `SchemaBundle.RewriteTwice` | codex-rs/app-server-protocol/src/export.rs:1540-1562 | rewriting references into a namespace twice is rewriting them once |
| `SchemaBundle.ExtractedRewrittenOnce` | codex-rs/app-server-protocol/src/export.rs:994-1022 | the second rewrite of an extracted definition does nothing |
| `Scanner.ResplitSelection` | codex-rs/app-server-protocol/src/export.rs:754-777 | any subsequence of the parts, joined with a spaced delimiter, splits back to itself if and only if no part but the last ends in a line comment |
| `Scanner.ResplitUncommented` | codex-rs/app-server-protocol/src/export.rs:754-777 | for text on which the scanner never enters a line comment it always does, whatever slashes its strings and block comments hold |
| `Scanner.SplitFromGood` | codex-rs/app-server-protocol/src/export.rs:758-777 | every part is trimmed, contains no top-level delimiter and scans on its own as in place |
| `Scanner.BracketMeans` | codex-rs/app-server-protocol/src/export.rs:940-957 | outside strings and comments each of the four openers hides delimiters until its own closer, a closer too many is ignored, the quotes start a string and nothing else matters |
| `Scanner.LineCommentMerges` | codex-rs/app-server-protocol/src/export.rs:880-976 | a kept part ending in a line comment swallows its successor |
| `Scanner.LineCommentMergesExample` | codex-rs/app-server-protocol/src/export.rs:880-976 | two concrete parts that split apart in the text and no longer after joining |
| `Scanner.QuotedUncommented` | codex-rs/app-server-protocol/src/export.rs:910-926 | in a double-quoted string without escapes no slashes start a line comment |
| `Scanner.BlockUncommented` | codex-rs/app-server-protocol/src/export.rs:900-908 | nor in a block comment, from its opening until its end is read |
| `TsFilters.FilterPartsExact` | codex-rs/app-server-protocol/src/export.rs:305-328 | filtering any text keeps the survivors intact and in order if and only if none but the last of them ends in a line comment, and then filtering again changes nothing |
| `TsFilters.FilterPartsUncommented` | codex-rs/app-server-protocol/src/export.rs:305-328 | that condition holds for every text without line comments |
| `TsFilters.FilterAliasExact` | codex-rs/app-server-protocol/src/export.rs:305-328 | the rewritten declaration always has the same prefix and suffix, and exactly the kept union arms if and only if none but the last of them ends in a line comment |
| `TsFilters.SplitTypeAliasReplaced` | codex-rs/app-server-protocol/src/export.rs:706-716 | replacing the body leaves the declaration splitting at the same two places, whatever the new body |
| `FieldFilter.TypeFieldsFiltered` | codex-rs/app-server-protocol/src/export.rs:370-395 | after the fields are replaced the brace span starts at the same brace, ends right after the new inner text and holds exactly the kept fields, if and only if no kept field ends in a line comment and the last one leaves no brace open, which text with matching braces never does |
| `FieldFilter.FieldFilterExact` | codex-rs/app-server-protocol/src/export.rs:735-752 | the same for the text after the type's head |
| `FieldFilter.FindTopLevelBraceSpan` | codex-rs/app-server-protocol/src/export.rs:735-752 | the one-pass search finds the specified span |
| `FieldFilter.LeavesOpenExample` | codex-rs/app-server-protocol/src/export.rs:735-752 | a concrete type in which dropping one field leaves the brace of the next open |
| `Layouts.LayoutSplits` | codex-rs/app-server-protocol/src/export.rs:758-777 | items with any white space around them and any delimiters between, in front or behind split back into exactly the items |
| `TsProperties.UnionFiltered` | codex-rs/app-server-protocol/src/export.rs:305-328 | filtering a declaration, whatever white space its arms and fields have, leaves exactly the arms whose first uncommented `method` property is not an experimental literal, each as it stood, joined by bars between the same prefix and suffix |
| `TsProperties.ArmMethodExact` | codex-rs/app-server-protocol/src/export.rs:779-794 | for every printed arm the extracted method is the literal of that property |
| `TsProperties.CommentedMethodStays` | codex-rs/app-server-protocol/src/export.rs:779-794 | for an arm whose `method` properties all follow a comment the extractor finds no method, and no experimental set removes it |
| `TsProperties.CommentedMethodExample` | codex-rs/app-server-protocol/src/export.rs:779-794 | a concrete arm with a commented method that is always kept |
| `TsProperties.TypeFiltered` | codex-rs/app-server-protocol/src/export.rs:370-395 | filtering an alias or interface, whatever white space stands around fields, comments, names and separators, leaves exactly the fields without an experimental name, each with its comments, joined by commas between the same braces |
| `TsProperties.DocCommentExample` | codex-rs/app-server-protocol/src/export.rs:2744-2770 | a concrete doc-commented type in the generator's layout before and after one field is dropped |
| `TsProperties.BodySplits` | codex-rs/app-server-protocol/src/export.rs:370-378 | the text between the braces scans as closed and splits into its fields in every such layout |
| `TsProperties.LiteralReadExactly` | codex-rs/app-server-protocol/src/export.rs:851-874 | a string literal is read exactly where a printed one stands, escapes included |
| `TsProperties.FieldNameRead` | codex-rs/app-server-protocol/src/export.rs:802-849 | behind any block comments, each followed by any white space, the name read is the printed one, except that a quoted optional name is not read |
| `TsProperties.ExtractMethodFromArm` | codex-rs/app-server-protocol/src/export.rs:779-794 | the loop over the fields: the first `method` property decides |
| `TsProperties.StringLiteral` | codex-rs/app-server-protocol/src/export.rs:851-874 | the character loop finds the closing quote |
| `TsProperties.PropertyName` | codex-rs/app-server-protocol/src/export.rs:815-849 | literal or identifier, then an optional mark and a colon |
| `TsProperties.IdentCharMeans` | codex-rs/app-server-protocol/src/export.rs:876-878 | identifier characters by code point |
| `TsProperties.StripLeadingBlockComments` | codex-rs/app-server-protocol/src/export.rs:802-813 | the loop drops comment after comment |
| `TsFilters.ScanState.Observe` | codex-rs/app-server-protocol/src/export.rs:891-957 | one character moves the scanner object as the automaton says |
| `TsFilters.SplitTopLevelMulti` | codex-rs/app-server-protocol/src/export.rs:758-777 | the one-pass loop computes the split |
| `JsonPrint.PrintInjective` | codex-rs/app-server-protocol/src/schema_fixtures.rs:180-193 | two valid values with the same compact serialization are equal, so the tie-break is total |
| `JsonText.PrintDenotes` | codex-rs/app-server-protocol/src/schema_fixtures.rs:180-193 | the compact serialization of a value is JSON text that, by the grammar of RFC 8259, stands for that value |
| `JsonText.EscapeCharSpells` | codex-rs/app-server-protocol/src/schema_fixtures.rs:180-193 | a character is escaped only if it must be, by a letter if there is one and else by its code point in lower case |
| `Canonical.CanonDecidesEquiv` | codex-rs/app-server-protocol/src/schema_fixtures.rs:152-227 | two values have the same canonical form if and only if they are equal up to key order and, at any depth, the order of arrays whose every element is a scalar or an object with a string under `$ref` or under `title` |
| `Canonical.CanonUnique` | codex-rs/app-server-protocol/src/schema_fixtures.rs:152-227 | the canonical form is the one equivalent value that is in ascending order throughout |
| `Canonical.CanonAscending` | codex-rs/app-server-protocol/src/schema_fixtures.rs:152-208 | in the canonical form the keys of every object and the elements of every reorderable array ascend |
| `Canonical.ItemLeMeans` | codex-rs/app-server-protocol/src/schema_fixtures.rs:160-193 | what that order is: booleans, numbers, null, references, strings, titles; then by their text; then by the compact serialization |
| `Canonical.SortKeyExactly` | codex-rs/app-server-protocol/src/schema_fixtures.rs:210-227 | exactly the elements that are reorderable on the JSON tree have a sort key |
| `Canonical.CanonEquiv` | codex-rs/app-server-protocol/src/schema_fixtures.rs:152-208 | the canonical form is equivalent to its input |
| `Canonical.EquivSameCanon` | codex-rs/app-server-protocol/src/schema_fixtures.rs:152-208 | equivalent values have the same canonical form |
| `Canonical.SameCanonEquiv` | codex-rs/app-server-protocol/src/schema_fixtures.rs:152-208 | values with the same canonical form are equivalent |
| `Canonical.CanonIdempotent` | codex-rs/app-server-protocol/src/schema_fixtures.rs:152-208 | canonicalizing twice is canonicalizing once |
| `Canonical.EquivIsEquivalence` | codex-rs/app-server-protocol/src/schema_fixtures.rs:152-227 | equality up to those orders is reflexive, symmetric and transitive |
| `Canonical.CanonSortKey` | codex-rs/app-server-protocol/src/schema_fixtures.rs:210-227 | canonicalizing does not change an element's sort key |
| `Canonical.CanonicalizeJson` | codex-rs/app-server-protocol/src/schema_fixtures.rs:152-208 | the recursive code computes the canonical form, which is equivalent to the input and ascends |
| `Canonical.CanonicalizeArray` | codex-rs/app-server-protocol/src/schema_fixtures.rs:154-196 | array arm: sorted only if every item has a key, which Canonical.SortKeyExactly tells |
| `Canonical.CanonicalizeObject` | codex-rs/app-server-protocol/src/schema_fixtures.rs:197-205 | object arm: sorting before or after canonicalizing the values is the same |
| `ReducerThreads.ContextNeverDangles` | codex-rs/analytics/src/reducer.rs:1527-1563 | in every reachable state a thread's stored connection is initialized and its metadata present, so two of the three missing-context branches are dead |
| `ReducerThreads.ContextStaysFound` | codex-rs/analytics/src/reducer.rs:1527-1563 | a context once found is found for ever after |
| `ReducerThreads.ConnectionProvenance` | codex-rs/analytics/src/reducer.rs:514-543 | every stored connection id is one on which the thread, or an ancestor along a chain of spawned subagents, was registered |
| `ReducerThreads.RunRemembers` | codex-rs/analytics/src/reducer.rs:489-543 | connections, thread connections and metadata never revert to absent |
| `ReducerHistory.ThreadsAsSaid` | codex-rs/analytics/src/reducer.rs:489-543 | in every run a thread holds the connection and metadata of its last registration on an announced connection or, lacking one, those of its parent and its spawning |
| `ReducerHistory.ContextAsSaid` | codex-rs/analytics/src/reducer.rs:1527-1563 | and its context is the client last announced on that connection |
| `ReducerHistory.ThreadsTold` | codex-rs/analytics/src/reducer.rs:1230-1297 | which thread facts announce a thread, and for which client compactions and guardian reviews are reported |
| `ReducerHistory.RequestsAsSaid` | codex-rs/analytics/src/reducer.rs:568-597 | the pending turn requests are those made and not yet responded to in any way |
| `ReducerTurns.TurnReportedOnceAtLast` | codex-rs/analytics/src/reducer.rs:1474-1525 | one matched start, one resolved config and one completion, in any order and with anything in between, report the turn exactly once and exactly from the last of the three on |
| `ReducerTurns.TurnEventsBounded` | codex-rs/analytics/src/reducer.rs:786-812 | in every run a turn id is reported at most as often as it was started, configured or completed |
| `ReducerTurns.TurnFactEffect` | codex-rs/analytics/src/reducer.rs:599-646 | a joining fact reports the turn exactly when it completes it, and then the turn is forgotten |
| `ReducerTurns.OtherFactsKeepTurn` | codex-rs/analytics/src/reducer.rs:1097-1147 | no other fact reports a turn or changes what decides its report |
| `ReducerSources.TurnEventsTellFacts` | codex-rs/analytics/src/reducer.rs:2420-2518 | in every run a turn fact reports exactly when it completes what is needed, and each value of the event is the last one stated about that turn since it was last reported, a start request speaking only for the response that answers it; steer responses and failures report as their request says |
| `ReducerSources.TurnsAsSaid` | codex-rs/analytics/src/reducer.rs:568-812 | in every run a turn is held from the first statement about it to its report, and is exactly what the last statements say |
| `ReducerSources.LastMeans` | codex-rs/analytics/src/reducer.rs:568-812 | the last statement under a heading is one made and not contradicted afterwards |
| `ReducerReviews.SummaryDescribesReviews` | codex-rs/analytics/src/reducer.rs:1455-1472 | in every run an item's summary is the tally, latest outcome and combined flags of the verdicts for it not yet used up: answers to command questions without a network context and to file questions, and guardian verdicts on commands, patches and MCP calls; permission and network reviews count for no item |
| `ReducerReviews.SummaryAfter` | codex-rs/analytics/src/reducer.rs:1407-1472 | one fact adds its one verdict to the summary of its item, or uses the summary up, or changes no summary |
| `ReducerReviews.PendingAsAsked` | codex-rs/analytics/src/reducer.rs:823-1022 | the pending reviews are the questions asked with a usable start time and not answered or withdrawn since |
| `ReducerReviews.AnswersTold` | codex-rs/analytics/src/reducer.rs:939-1022 | an answer to such a question is reported with what was asked and how it was answered, for the client of its thread |
| `ReducerReviews.GuardianTold` | codex-rs/analytics/src/reducer.rs:1299-1339 | a guardian verdict is reported unless it is open or its times are unusable |
| `ReducerReviews.ToolEventsCarryTheirReviews` | codex-rs/analytics/src/reducer.rs:1097-1147 | in every run a tool is reported exactly when it completes done, tracked, started, with a usable time, a known turn and a client, and the event carries its two times and the summary of its verdicts |
| `ReducerReviews.CompletionUsesVerdicts` | codex-rs/analytics/src/reducer.rs:1120-1147 | such a completion uses the verdicts up even if it reports nothing |
| `ReducerReviews.OnlyCompletionsReportTools` | codex-rs/analytics/src/reducer.rs:1131-1146 | no other fact reports a tool |
| `ReducerReviews.FailedCompletionKeepsReviews` | codex-rs/analytics/src/reducer.rs:1097-1130 | a completion that fails a check leaves the verdicts and the summary for later |
| `ReducerObject.AnalyticsReducer.IngestFact` | codex-rs/analytics/src/reducer.rs:377-487 | one fact changes all seven maps and emits as the step function says |
| `ReducerObject.AnalyticsReducer.IngestAll` | codex-rs/analytics/src/client.rs:62-68 | ingesting facts one by one emits the run's events and reaches its state; from a fresh reducer contexts never dangle, turn events stay within their starts, configs and completions, turns are what was said and summaries tally their reviews |
| `ReducerObject.AnalyticsReducer.ThreadContext` | codex-rs/analytics/src/reducer.rs:1527-1563 | the lookup with its three failure branches |
| `ReducerObject.AnalyticsReducer.IngestSubagentThreadStarted` | codex-rs/analytics/src/reducer.rs:514-543 | metadata and connection are filled in only where absent, the connection from the parent |
| `ReducerObject.AnalyticsReducer.IngestThreadFact` | codex-rs/analytics/src/reducer.rs:1230-1256 | connections and thread registrations, the latter only on a known connection |
| `ReducerObject.AnalyticsReducer.MaybeEmitTurnEvent` | codex-rs/analytics/src/reducer.rs:1474-1525 | the guarded emission and the removal of the turn |
| `ReducerObject.AnalyticsReducer.IngestTurnStartResponse` | codex-rs/analytics/src/reducer.rs:786-812 | the pending request is consumed even when it is of the wrong kind |
| `ReducerObject.AnalyticsReducer.IngestTurnSteerResponse` | codex-rs/analytics/src/reducer.rs:1341-1364 | steering counts only on a known turn |
| `ReducerObject.AnalyticsReducer.IngestErrorResponse` | codex-rs/analytics/src/reducer.rs:1024-1072 | a failed steer is reported, a failed start is not |
| `ReducerObject.AnalyticsReducer.EmitTurnSteerEvent` | codex-rs/analytics/src/reducer.rs:1366-1405 | a steer is reported exactly with a known connection and thread metadata |
| `ReducerObject.AnalyticsReducer.IngestTurnFact` | codex-rs/analytics/src/reducer.rs:568-646 | every turn fact updates its fields of the turn and tries the report where the code does |
| `ReducerObject.AnalyticsReducer.RecordItemReviewSummary` | codex-rs/analytics/src/reducer.rs:1455-1472 | the in-place update adds one review to the summary |
| `ReducerObject.AnalyticsReducer.EmitReviewEvent` | codex-rs/analytics/src/reducer.rs:1407-1453 | the summary is recorded whether or not the event can be emitted |
| `ReducerObject.AnalyticsReducer.IngestReviewFact` | codex-rs/analytics/src/reducer.rs:823-1022 | opening, answering, aborting and guardian completion of reviews |
| `ReducerObject.AnalyticsReducer.IngestItemCompleted` | codex-rs/analytics/src/reducer.rs:1097-1147 | the checks in their order, each leaving what came before it done |
| `AcceptedLines.AcceptedLineFingerprints` | codex-rs/analytics/src/accepted_lines.rs:30-83 | the line loop computes the specified counts and pairs |
| `AcceptedLines.ParseDistributes` | codex-rs/analytics/src/accepted_lines.rs:39-44 | any text ending a line, followed by text starting with a file header, parses as the sum of the two |
| `AcceptedLines.NormalizedLineStable` | codex-rs/analytics/src/accepted_lines.rs:157-169 | normalizing is idempotent and identifies exactly the lines with the same words |
| `AcceptedLines.EffectiveMeans` | codex-rs/analytics/src/accepted_lines.rs:157-169 | which lines are dropped: those whose words, singly spaced, take at most three bytes or hold neither a letter, a digit nor an underscore |
| `AcceptedLines.DiffPathMeans` | codex-rs/analytics/src/accepted_lines.rs:143-155 | a path is trimmed, is none if it is the null device, and otherwise loses one leading `b/` or `a/` |
| `DiffPrint.PrintThenParse` | codex-rs/analytics/src/accepted_lines.rs:30-83 | for every list of file patches, printing and parsing gives back the counts and the pairs to fingerprint that the patches contain |
| `DiffPrint.HunkLineRead` | codex-rs/analytics/src/accepted_lines.rs:46-74 | inside a hunk each line is read for what it is, even if it looks like a file name header |
| `DiffPrint.NamesRead` | codex-rs/analytics/src/accepted_lines.rs:51-58 | outside a hunk the name headers set the path and count nothing |
| `DiffPrint.ReturnIgnored` | codex-rs/analytics/src/accepted_lines.rs:143-169 | a carriage return at the end of a line changes neither the path, the counts nor the pairs |
| `AnalyticsQueue.AdmissionsBounded` | codex-rs/analytics/src/client.rs:84-115 | over calls of which n carry a key, a key is admitted at most 1 + (n - 1) / 4096 times and the gate holds at most 4096 keys |
| `AnalyticsQueue.BoundAttained` | codex-rs/analytics/src/client.rs:96-100 | for every m some run of 4096 m + 1 keyed calls attains that bound |
| `AnalyticsQueue.ClearsArePaidFor` | codex-rs/analytics/src/client.rs:96-98 | the k-th wipe cannot come before 4096 k keyed calls |
| `AnalyticsQueue.RepeatRefusedUntilFull` | codex-rs/analytics/src/client.rs:84-100 | until the next wipe a key that has passed is refused |
| `AnalyticsQueue.PassesExactly` | codex-rs/analytics/src/client.rs:84-100 | a call passes exactly if it has no key, or the gate is full, or the key did not come up since the gate was last wiped |
| `AnalyticsQueue.AnalyticsEventsQueue.ShouldEnqueueAppUsed` | codex-rs/analytics/src/client.rs:84-100 | the app gate, which always admits calls without a connector |
| `AnalyticsQueue.AnalyticsEventsQueue.ShouldEnqueuePluginUsed` | codex-rs/analytics/src/client.rs:102-115 | the plugin gate |
| `AnalyticsQueue.TrackEventRequestBatches` | codex-rs/analytics/src/client.rs:415-436 | batches are the events in order, none empty, isolated events alone and shared batches as long as possible |
| `AnalyticsQueue.BatchesUnique` | codex-rs/analytics/src/client.rs:415-436 | those conditions determine the batches |

## Left out

- WebSocket, Unix socket and TLS set-up, authentication headers and timeouts other than the moment the handshake timer fires.
- serde decoding: frames arrive already classified into the four message kinds, undecodable text and transport events.
- The server version taken from the initialize response, error message texts, and payloads other than an opaque value.
- The in-process client's command branch, which passes each command to the runtime without shared state.
- Forwarder.RunGood: counts a gap exactly only up to the largest counter value, because the code saturates there.
- FlatSchema.BuildFlatV2Schema: meaning is stated for closed bundles only; for others only the shape of a built result is stated. That generated bundles are closed is not shown here.
- MixedOrder.OrderIndependentExactly: speaks of namespaces; which root definition of several with one name stays does depend on the order.
- MixedBundle.BuildSchemaBundle: yields the `definitions` table; the fixed `$schema`, `title` and `type` entries around it are not modelled.
- SchemaRefs.RefsMapped: the in-place reference rewriters are modelled as functions from the old tree to the new one, so sharing of subtrees is not captured.
- `annotate_schema` titles and `is_namespace_map`: naming only; they change no reference and no definition name.
- TsProperties.UnionFiltered: arms are objects in braces with nothing but white space between them; for any other arms TsFilters.FilterAliasExact says what remains.
- TsProperties.TypeFiltered: comments are block comments in front of a field, or part of its value; a comment between a name and its colon, a line comment in front of a field, and a block comment whose text begins with a slash, which scanner and parser end at different places, are covered by FieldFilter.TypeFieldsFiltered only.
- The import pruning that follows each TypeScript filter.
- Filtering of experimental fields in JSON schemas: it removes the named properties of matching definitions.
- File walking, header and index generation, `schema_for!` and the TypeScript generator.
- Canonical.CanonDecidesEquiv: numbers are compared by their printed text, as the serialization is.
- Analytics facts that pass straight through to an event (skills, apps, plugins, hooks) and the per-kind tool counts of a turn.
- ReducerTurns.TurnReportedOnceAtLast: the number of input images is that of whichever of start and config came last, so the event's contents are stated by ReducerSources.TurnEventsTellFacts instead.
- AcceptedLines.AcceptedLineFingerprints: keeps the pair of path and normalized line instead of its SHA-1 hashes, and takes the Unicode alphanumeric class as a parameter.
- DiffPrint.PrintThenParse: extended header lines are those the parser ignores, as git prints them, and no printed text contains a newline.
- Machine integer widths other than the forwarder's skip counter: the other counters are unbounded integers.
- The accepted-line event that follows a turn event, its repository hash, and HTTP sending of batches.
