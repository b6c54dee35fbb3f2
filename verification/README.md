# Gateway core in Dafny

This project models the decision logic of the fusion-app gateway. The
gateway is a Kubernetes controller that watches the resources selected by a
`ResourceMonitor`. It turns their add, update and delete events into
messages for a sink, and it enriches those messages with metrics polled from
Prometheus. Every piece is modelled as immutable data with pure transitions.
A transition returns the next state together with the messages it hands to
the sink, in order.

| module | file | models |
|---|---|---|
| `Base` | base.dfy | Go `nil` as `Option`, byte slices, the `a/b` string keys and when they can be split back |
| `Utils` | utils.dfy | label-selector matching (pkg/utils/utils.go) and the JSON-schema identifier |
| `MsgTypes` | msg_types.dfy | the wire message, the `extras` byte splice of `MarshalJSON`, and `Equal` (pkg/msg/types.go) |
| `MsgStore` | msg_store.dfy | the deduplicating, metric-merging message store and its four entry points (pkg/msg/msg_store.go) |
| `Prom` | prom.dfy | the metric query set and one polling cycle, `doMetric` (pkg/prom/metric_extractor.go) |
| `MessageHandler` | message_handler.dfy | the sink registry keyed by the serialised backend spec (pkg/message/handler.go), and the older message shape |
| `Job` | job.dfy | one monitor job: `isRelated`, the gating of the informer callbacks, VirtualMachineInstance query upkeep, and `NewMonitorJob` (pkg/job/job.go) |
| `JobManager` | job_manager.dfy | create, reuse or replace of jobs keyed by `namespace/name`, and cleanup (pkg/job/job_manager.go) |

Foreign calls enter the model as parameters:

- `json.Marshal` of an object, `jsonschema` reflection and the registration
  publish are explicit `Option` or `bool` inputs.
- The JSON diff and the encoding of a metric field map are the two functions
  of a `Json` record.
- A Prometheus query is an `eval` function from query text to outcome.
- The metric value is a type parameter.
- Go's map iteration order is an input: a sequence that lists the map's keys
  once each.

There are two publishing paths. `MsgStore` publishes through the newer
message store. `Job` publishes `pkg/message` messages straight to its sink.
The two are modelled independently, as they are in the code.

## Model

| member | source | states |
|---|---|---|
| `Utils.MatchesLabelSelector` | pkg/utils/utils.go:12-22 | The loop returns true exactly when the label map is non-empty and carries every selector key with the selector's value. |
| `Utils.EmptyLabelsNeverMatch` | pkg/utils/utils.go:13-15 | An object with no labels never matches, even the empty selector. |
| `Utils.EmptySelectorMatchesAnyLabels` | pkg/utils/utils.go:16-21 | The empty selector matches every non-empty label map. |
| `Utils.MatchIsMonotonic` | pkg/utils/utils.go:16-21 | Adding labels to a matching object never unselects it. |
| `Utils.SchemaIdIdentifiesKind` | pkg/utils/utils.go:33-35 | `apiVersion/kind` is never empty. Two identifiers are equal iff their apiVersion and kind are equal, for kinds without a slash. |
| `MsgTypes.ExtrasObject` | pkg/msg/types.go:35-37 | The encoded extras wrapper is `{"extras":` + fields + `}`. Its length is fixed by the fields' encoding, and it starts with `{` and ends with `}`. |
| `MsgTypes.Merge` | pkg/msg/types.go:41-46 | A two-byte payload is replaced by the extras object. Any other payload keeps all but its last byte, which becomes a comma, and gains the extras minus their first byte, for a length of `|data| + |extras| - 1`. |
| `MsgTypes.MarshalJSONAsWritten` | pkg/msg/types.go:31-54 | The splice as written. It is defined only when extras are empty or the payload is non-empty. Op and meta pass through, and empty extras leave the message byte-identical. |
| `MsgTypes.MarshalJSON` | pkg/msg/types.go:31-54 | The corrected codec. Op and meta pass through, and empty extras leave the message unchanged. It fails exactly when the extras fail to encode. A payload of 0 or 2 bytes becomes the extras object; any other payload is spliced with the length above. |
| `MsgTypes.MarshalJSONAgreesWithAsWritten` | pkg/msg/types.go:34-46 | Wherever the code as written is defined, the corrected codec emits the same message. |
| `MsgTypes.BodylessMetricMessageOutsideSpliceDomain` | pkg/msg/types.go:41-45 | A bodyless message with at least one extra field is outside the as-written splice's domain. |
| `MsgTypes.MergeRoundTrip` | pkg/msg/types.go:43-46 | Splicing extras into a brace-delimited payload only appends. The result is still brace-delimited, and stripping the extras recovers the payload byte for byte. |
| `MsgTypes.EqualCharacterised` | pkg/msg/types.go:56-63 | `Equal` is false on any op or meta difference or any empty payload. Past those guards it is exactly the JSON diff's verdict. |
| `MsgTypes.BodylessNeverEqual` | pkg/msg/types.go:57-59 | A message with an empty payload is not equal even to itself. |
| `MsgTypes.EqualSymmetric` | pkg/msg/types.go:56-63 | With a symmetric JSON diff, `Equal` is symmetric. |
| `Prom.QueryKeyIdentifiesQuery` | pkg/prom/metric_extractor.go:26-28 | The rendered query text `metric{namespace="ns",name="n"}` is equal for two queries iff their namespace, name and metric are equal. This holds for metrics without `{` and namespaces without `"`. |
| `Prom.AddQuery` | pkg/prom/metric_extractor.go:74-89 | The key is present afterwards. An absent key gains exactly the new query, and the store grows by one. A present key leaves the store unchanged, so the first field wins. No other key changes, and keys stay consistent with their queries. |
| `Prom.DeleteQuery` | pkg/prom/metric_extractor.go:91-96 | The key is absent afterwards, whatever field it had. No other key changes, and deleting an absent key is a no-op. |
| `Prom.AddQueryIdempotent` | pkg/prom/metric_extractor.go:74-89 | Adding the same query text twice leaves one entry, holding the first registration's field. |
| `Prom.DeleteUndoesAdd` | pkg/prom/metric_extractor.go:74-96 | Deleting a query just added to a store without it restores the store. |
| `Prom.Latest` | pkg/prom/metric_extractor.go:168-169 | The position in iteration order whose reading a field ends up with is the last query that contributed that field of that entity. |
| `Prom.Record` | pkg/prom/metric_extractor.go:167-178 | Recording a reading creates the entity's result on first sight. Otherwise it sets exactly one field of that entity, and no other entity changes. |
| `Prom.Fold` | pkg/prom/metric_extractor.go:148-179 | After the loop, results are keyed by `namespace/name`. There is one result per entity with a contributing query, and each field holds the reading of the last query that provided it. |
| `Prom.DoMetric` | pkg/prom/metric_extractor.go:143-184 | There is one non-empty result per entity that has a query which did not error and did not return an empty vector. A field is present iff such a query provides it, and its value is that query's reading: the first sample, or zero for a non-vector result. |
| `MsgStore.CacheKeyIdentifiesObject` | pkg/msg/msg_store.go:215-217 | Two `schemaID/namespace/name` keys are equal iff schema, namespace and name are equal, when namespaces and names carry no slash. |
| `MsgStore.OnResourceAdd` | pkg/msg/msg_store.go:44-115 | The schema is registered once: schemaID is set only from empty and only after an accepted publish. A failed schema encoding publishes nothing; a refused registration publishes only the registration. Then an equal cached message suppresses the add. Otherwise the entry is overwritten with empty metrics and exactly one New is published. |
| `MsgStore.OnResourceUpdateAsWritten` | pkg/msg/msg_store.go:117-156 | As written: a cached key leaves the store untouched. It publishes nothing when the message is equal, and otherwise the message merged with the cached metrics. A missing key caches the message with no metrics and publishes it. The merge uses the corrected splice, which agrees with the code here because a `json.Marshal` payload is never empty. |
| `MsgStore.OnResourceUpdate` | pkg/msg/msg_store.go:117-156 | The corrected update. It behaves as written except that a changed message also replaces the cached one, keeping the cached metrics. |
| `MsgStore.OnMetricUpdate` | pkg/msg/msg_store.go:158-192 | Unchanged fields do nothing. Changed fields replace only the metrics and republish the cached message merged with them. An unseen object caches and publishes a bodyless Update carrying the fields, merged by the corrected splice of the first finding below (as written, msg_store.go:186 panics there). |
| `MsgStore.OnResourceDel` | pkg/msg/msg_store.go:194-213 | The cache is never touched, and exactly one Delete is published when the metadata encodes. |
| `MsgStore.SchemaIdNeverReassigned` | pkg/msg/msg_store.go:45-82 | Once the schema identifier is set, no sequence of events changes it. |
| `MsgStore.ApplyPreservesWellFormed` | pkg/msg/msg_store.go:100-190 | Every entry point keeps each cache entry a New or Update message whose meta renders to its key. |
| `MsgStore.RunPreservesWellFormed` | pkg/msg/msg_store.go:44-213 | The same holds over any sequence of events. |
| `MsgStore.RepeatedAddIsSuppressed` | pkg/msg/msg_store.go:100-114 | The same add twice publishes one New; the second leaves the store as the first left it. |
| `MsgStore.MetricTickKeepsBasePayload` | pkg/msg/msg_store.go:161-172 | A metric tick republishes the cached op and meta, and the cached payload is recovered byte for byte from the merged one. The identical tick again publishes nothing. |
| `MsgStore.RepeatedDeletePublishesTwice` | pkg/msg/msg_store.go:194-213 | Deletes are never deduplicated: the same delete twice publishes twice and leaves the store alone. |
| `MsgStore.LostUpdateAsWritten` | pkg/msg/msg_store.go:134-155 | As written, updates A, B, A of an object first seen through an update publish nothing on the third. |
| `MsgStore.NoLostUpdate` | pkg/msg/msg_store.go:134-155 | With the cache refreshed, the three updates publish three times and the cache ends holding A. |
| `MsgStore.StaleBodyOnMetricTickAsWritten` | pkg/msg/msg_store.go:135-172 | As written, after add A and update B a metric tick republishes the stale New A. |
| `MsgStore.FreshBodyOnMetricTick` | pkg/msg/msg_store.go:161-172 | With the cache refreshed, that tick carries Update B. |
| `MsgStore.FirstMetricsOutsideSpliceDomainAsWritten` | pkg/msg/msg_store.go:173-190 | Every polling-cycle result has a field, so the first metrics of an unseen object always reach the as-written splice outside its domain. |
| `MsgStore.FirstMetricsPublishExtrasObject` | pkg/msg/msg_store.go:173-190 | With the corrected splice, those first metrics publish a bodyless Update whose payload is exactly the extras object. |
| `MessageHandler.NewMsgHandlerOrExist` | pkg/message/handler.go:18-36 | A spec that does not serialise yields nil and no change. A cached key yields its handler and no change. An unseen key with an MQTT backend gets a fresh handler stored under it; without one the result is nil and nothing changes. |
| `MessageHandler.LookupOnlyGrows` | pkg/message/handler.go:26-33 | A lookup never replaces or removes an entry, and every cached handler stays one the registry built. |
| `MessageHandler.EqualSpecsShareHandler` | pkg/message/handler.go:26-29 | Once a spec has a handler, looking it up again returns the same handler and changes nothing. |
| `MessageHandler.HandlersNeverReplaced` | pkg/message/handler.go:16-36 | Over any sequence of lookups, a cached handler stays cached under its key. |
| `MessageHandler.NewHandlerIsDistinct` | pkg/message/handler.go:30-33 | A newly built handler differs from every cached one. |
| `Job.NewMonitorJob` | pkg/job/job.go:40-66 | There is no job, and no sink lookup, exactly when the Prometheus source is absent. Otherwise the job holds a copy of the spec, the monitor's name, the selector's kind, the resolved sink and no queries. |
| `Job.IsRelated` | pkg/job/job.go:206-211 | An object is related iff it exists, lives in the selector's namespace and its labels match the selector. |
| `Job.UnlabelledObjectNeverRelated` | pkg/job/job.go:206-211 | An object without labels is never related. |
| `Job.AddVmiQueries` | pkg/job/job.go:109-112 | Exactly the two kubevirt query keys are added, and every query already present keeps its field and metric, including a kubevirt key registered before. |
| `Job.DeleteVmiQueries` | pkg/job/job.go:159-162 | Exactly the two kubevirt query keys are removed, and every other query is kept unchanged. |
| `Job.OnAdd` | pkg/job/job.go:91-115 | An unrelated object or a failed encoding has no effect. Otherwise the callback publishes New and recomputes the status, and a VirtualMachineInstance gains its two queries. |
| `Job.OnUpdate` | pkg/job/job.go:116-140 | It forwards iff the old or the new object is related and the patch encodes, as one Update under the new object's name. It never recomputes the status and never touches queries. |
| `Job.UpdateForwardedIffAddOrDeleteWould` | pkg/job/job.go:116-121 | An update is forwarded exactly when the Add callback would forward the new object or the Delete callback would forward the old one, so an object leaving the selector is still reported. |
| `Job.OnDelete` | pkg/job/job.go:141-165 | An unrelated object or a failed encoding has no effect. Otherwise the callback publishes Delete and recomputes the status, and a VirtualMachineInstance loses its two queries. |
| `Job.DeleteVmiUndoesAdd` | pkg/job/job.go:109-162 | Removing the kubevirt queries of a name undoes registering them. |
| `Job.VmiAddThenDeleteRestoresQueries` | pkg/job/job.go:91-165 | Add then Delete of a related VirtualMachineInstance leaves neither key. If neither was registered before, the job is back where it started. |
| `Job.VmiAddRegistersKubevirtQueries` | pkg/job/job.go:109-112 | The two queries are `mem_use` and `cpu_sec` in namespace `kubevirt`, whatever the object's namespace. |
| `JobManager.JobKeyIdentifiesMonitor` | pkg/job/job_manager.go:66-68 | `namespace/name` keys are equal iff the monitors' namespace and name are equal. |
| `JobManager.AtMostOneLiveJobPerKey` | pkg/job/job_manager.go:32-64 | In a valid manager no two live jobs share a key. |
| `JobManager.Install` | pkg/job/job_manager.go:34-52 | The create and replace paths cancel exactly the cached job, if any, and cache a fresh live job under the key. |
| `JobManager.NewJobOrExistAsWritten` | pkg/job/job_manager.go:32-53 | The reconcile as written keeps the manager valid and its history intact, and on every input it is `Install`: any cached job is cancelled and a fresh one is filed under the key. |
| `JobManager.RepeatedReconcileRestartsAsWritten` | pkg/job/job_manager.go:43-52 | As written, two reconciles of the same monitor return different jobs and cancel the first. |
| `JobManager.NewJobOrExist` | pkg/job/job_manager.go:32-53 | An absent key gets a new live job and no other job changes. A cached job with an equal spec is returned and nothing changes. A cached job with another spec is cancelled and replaced under the same key. A new job is the one `NewMonitorJob` builds, and the sink registry becomes the one that call leaves, which may hold a new handler. |
| `JobManager.ReuseDiffersFromAsWritten` | pkg/job/job_manager.go:43-46 | With an unchanged spec the corrected reconcile keeps the cached job, where the as-written one replaces it. |
| `JobManager.NewJobOrExistIdempotent` | pkg/job/job_manager.go:43-46 | Reconciling the same monitor twice equals reconciling it once. |
| `JobManager.CleanJob` | pkg/job/job_manager.go:55-64 | An absent key is a no-op. Otherwise the cached job is cancelled and only its key is removed. |
| `JobManager.ServeKeepsOneLiveJobPerKey` | pkg/job/job_manager.go:32-64 | Over any sequence of reconciles and cleanups, the manager stays valid and no cancelled job is revived. |

## Left out

- Job.OnUpdate: requires a new object whenever the update would be forwarded. When the old object is related but `ToUnstructured` fails on the new one, job.go:134 calls `GetNamespace` on nil and panics; the model does not describe that panic.
- Informer wiring, `listRelatedResource`, `updateResourceStatus` and `ToUnstructured` are Kubernetes API plumbing. A callback only records that the status was recomputed, and a failed conversion is an absent object; the one callback that dereferences such an object is under `Job.OnUpdate` above.
- `MetricWorker.Start` and `Stop`, the ticker, goroutines, channels, contexts and locks are concurrency. Each entry point is one atomic step.
- `doMetric` only reads the query store, and its results are a map keyed by entity. "Emitted once per entity after the loop" therefore holds by construction and is not stated separately.
- The MQTT client (`pkg/message/mqtt_handler.go`) is network I/O. Publishing appends to the returned sequence, and a handler is an opaque identifier.
- `json.Marshal`, `jsonschema.Reflect` and the JSON diff are foreign library calls and become inputs. The final `json.Marshal` in `MarshalJSON` (base64 of `Data`) is left opaque: the model returns the message handed to it.
- Float metric values are the type parameter `V`, and the zero value is a parameter.
- Go's `MarshalJSON` copies `Data` before editing. Datatype values cannot be aliased, so "the receiver is unchanged" holds by construction.
- The metric map types: msg_store.go compares `map[string]interface{}` with `map[string]float64` and assigns one to the other (lines 164 and 167). That does not compile as written, and `reflect.DeepEqual` across those types would always be false. The model uses one field-map type throughout.
- job.go reads `Spec.MsgBuilder.MsgSource.PrometheusSource` (lines 43 and 47), which the spec type does not declare. The spec is modelled as a value with an optional Prometheus source and equality.
- The deleted object's metadata: job.go:147 and msg_store.go:195 encode `obj.(ctrl.ObjectMeta)`. That type assertion panics for an informer object that is not a bare `ObjectMeta` value. The model takes the encoded metadata as an input, so the panic is not modelled.
- `prom.NewMetricWorker` returns nil when the Prometheus client cannot be built. The model's job always has a query store.
- A nil sink: a job whose sink lookup returned nil panics on its first publish. The callbacks require a sink only on the paths that publish.
- A nil constructor result: the manager calls `Start` on what `NewMonitorJob` returns without a nil check. Building a job is a precondition exactly on the create and replace paths.
- `controllers/resourcemonitor_controller.go` is finalizer and reconcile plumbing. Its only core effect is calling `NewJobOrExist` and `CleanJob`, which `JobManager.Serve` sequences.

## Findings

| source | as written | input that shows it | evidently intended | confidence | as-written member | corrected member |
|---|---|---|---|---|---|---|
| pkg/msg/types.go:44 | With non-empty extras the splice writes `newData[len(newData)-1]` even when `Data` is empty | `OnMetricUpdate` for an object the store has not cached: it builds a message with no `Data` and merges a polling result, which always has at least one field; index -1 panics | an empty payload is treated like `{}`, so the payload becomes the extras object | high, not executed | `MsgStore.FirstMetricsOutsideSpliceDomainAsWritten` | `MsgStore.FirstMetricsPublishExtrasObject` |
| pkg/msg/msg_store.go:135-144 | a changed update is published but the cached message is never replaced | updates A, B, A of an object first seen through an update: the third is judged equal to the cached A and not published, though the sink last saw B; likewise add A, update B, then a metric tick republishes the stale New A | the published message becomes the cached message, keeping the cached metrics | medium, not executed | `MsgStore.LostUpdateAsWritten` | `MsgStore.NoLostUpdate` |
| pkg/job/job_manager.go:43 | `reflect.DeepEqual(monitorRef.Spec, oldJob.MonitorSpec)` compares a spec value with a spec pointer, which are never deeply equal | a second reconcile of an unchanged monitor: the running job is cancelled and a new one is built | compare with the pointed-to spec, so an unchanged monitor keeps its job | high, not executed | `JobManager.RepeatedReconcileRestartsAsWritten` | `JobManager.NewJobOrExistIdempotent` |
