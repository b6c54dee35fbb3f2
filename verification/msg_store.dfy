/** The deduplicating, metric-merging message cache (pkg/msg/msg_store.go).
    A store is its schema identifier and its cache; every entry point is a
    pure transition returning the next store and the frames it hands to
    `Publish`, in order. The store lock makes each entry point atomic, which
    is what a pure transition expresses. */
module MsgStore {
  import opened Base
  import opened MsgTypes
  import Utils
  import Prom

  datatype Entry<V> = Entry(message: Message, metrics: Fields<V>)

  datatype Store<V> = Store(schemaId: string, cache: map<string, Entry<V>>)

  datatype Step<V> = Step(store: Store<V>, published: seq<Frame>)

  /** What the informer hands the store about one object. */
  datatype Resource = Resource(apiVersion: string, kind: string, namespace: string, name: string)

  function NewStore<V>(): Store<V> {
    Store("", map[])
  }

  /** `schemaID/namespace/name` */
  function CacheKey(schemaId: string, namespace: string, name: string): string {
    Join(Join(schemaId, '/', namespace), '/', name)
  }

  /** Kubernetes namespaces and names never contain a slash, so within one
      schema every object has its own cache entry, and objects of different
      schemas never share one (the schema identifier itself may contain
      slashes). */
  lemma CacheKeyIdentifiesObject(schemaId1: string, namespace1: string, name1: string,
                                 schemaId2: string, namespace2: string, name2: string)
    requires '/' !in namespace1 && '/' !in namespace2 && '/' !in name1 && '/' !in name2
    ensures CacheKey(schemaId1, namespace1, name1) == CacheKey(schemaId2, namespace2, name2)
        <==> schemaId1 == schemaId2 && namespace1 == namespace2 && name1 == name2
  {
    if CacheKey(schemaId1, namespace1, name1) == CacheKey(schemaId2, namespace2, name2) {
      JoinInjectiveRight(Join(schemaId1, '/', namespace1), name1, Join(schemaId2, '/', namespace2), name2, '/');
      JoinInjectiveRight(schemaId1, namespace1, schemaId2, namespace2, '/');
    }
  }

  function KeyOf(schemaId: string, u: Resource): string {
    CacheKey(schemaId, u.namespace, u.name)
  }

  function ResourceMessage(op: Op, schemaId: string, u: Resource, data: Bytes): Message {
    Message(op, Some(ResourceMeta(schemaId, u.namespace, u.name)), data)
  }

  function RegistrationFrame(schema: Bytes): Frame {
    Frame(Message(RegisterSchema, None, schema))
  }

  /** The cache already holds a message semantically equal to `msg`. */
  predicate Duplicate<V>(s: Store<V>, key: string, msg: Message, json: Json<V>) {
    key in s.cache && Equal(msg, s.cache[key].message, json)
  }

  /** OnResourceAdd. The JSON-schema document of the object (None when its
      serialisation failed), whether the sink accepted the registration, and
      `json.Marshal` of the object are inputs. The first add of the store's
      life registers the schema; the schema identifier is then fixed. The
      object is cached with no metrics and published as New, unless the cache
      already holds an equal message. */
  function OnResourceAdd<V>(s: Store<V>, u: Resource, schemaData: Option<Bytes>, registerAccepted: bool,
                            objData: Option<Bytes>, json: Json<V>): (r: Step<V>)
    ensures r.store.schemaId ==
      if s.schemaId == "" && schemaData.Some? && registerAccepted then Utils.JSONSchemaID(u.apiVersion, u.kind)
      else s.schemaId
    ensures s.schemaId == "" && schemaData.None? ==> r == Step(s, [])
    ensures s.schemaId == "" && schemaData.Some? && !registerAccepted ==>
        r == Step(s, [RegistrationFrame(schemaData.value)])
    ensures s.schemaId == "" && schemaData.Some? && registerAccepted ==>
        |r.published| >= 1 && r.published[0] == RegistrationFrame(schemaData.value)
    ensures Proceeds(s, schemaData, registerAccepted) ==>
        var before := if s.schemaId == "" then [RegistrationFrame(schemaData.value)] else [];
        var key := KeyOf(r.store.schemaId, u);
        && (objData.None? ==> r.store.cache == s.cache && r.published == before)
        && (objData.Some? && Duplicate(s, key, ResourceMessage(NewResource, r.store.schemaId, u, objData.value), json) ==>
              r.store.cache == s.cache && r.published == before)
        && (objData.Some? && !Duplicate(s, key, ResourceMessage(NewResource, r.store.schemaId, u, objData.value), json) ==>
              var msg := ResourceMessage(NewResource, r.store.schemaId, u, objData.value);
              r.store.cache == s.cache[key := Entry(msg, map[])] && r.published == before + [Frame(msg)])
  {
    if s.schemaId == "" then
      match schemaData
      case None => Step(s, [])
      case Some(schema) =>
        if !registerAccepted then Step(s, [RegistrationFrame(schema)])
        else
          var next := AddResource(s.(schemaId := Utils.JSONSchemaID(u.apiVersion, u.kind)), u, objData, json);
          Step(next.store, [RegistrationFrame(schema)] + next.published)
    else AddResource(s, u, objData, json)
  }

  /** Registration is either already done or succeeds now. */
  predicate Proceeds<V>(s: Store<V>, schemaData: Option<Bytes>, registerAccepted: bool) {
    s.schemaId != "" || (schemaData.Some? && registerAccepted)
  }

  /** The part of OnResourceAdd after registration. */
  function AddResource<V>(s: Store<V>, u: Resource, objData: Option<Bytes>, json: Json<V>): Step<V> {
    match objData
    case None => Step(s, [])
    case Some(data) =>
      var msg := ResourceMessage(NewResource, s.schemaId, u, data);
      var key := KeyOf(s.schemaId, u);
      if Duplicate(s, key, msg, json) then Step(s, [])
      else Step(s.(cache := s.cache[key := Entry(msg, map[])]), [ToFrame(MarshalJSON(msg, map[], json))])
  }

  /** OnResourceUpdate as written: an object seen for the first time is cached
      and published without extras; for a cached object the new message is
      compared with the cached one and, when different, published with the
      cached metrics merged in, but the cache is left as it was. The merge is
      the corrected MarshalJSON: it differs from the splice as written only
      on an empty payload, and the payload here is json.Marshal output,
      which is never empty. */
  function OnResourceUpdateAsWritten<V>(s: Store<V>, u: Resource, objData: Option<Bytes>, json: Json<V>): (r: Step<V>)
    ensures objData.None? ==> r == Step(s, [])
    ensures objData.Some? && KeyOf(s.schemaId, u) in s.cache ==> r.store == s
    ensures objData.Some? && KeyOf(s.schemaId, u) in s.cache ==>
        var msg := ResourceMessage(UpdateResource, s.schemaId, u, objData.value);
        && (Equal(msg, s.cache[KeyOf(s.schemaId, u)].message, json) ==> r.published == [])
        && (!Equal(msg, s.cache[KeyOf(s.schemaId, u)].message, json) ==>
              r.published == [ToFrame(MarshalJSON(msg, s.cache[KeyOf(s.schemaId, u)].metrics, json))])
    ensures objData.Some? && KeyOf(s.schemaId, u) !in s.cache ==>
        var msg := ResourceMessage(UpdateResource, s.schemaId, u, objData.value);
        r.store == s.(cache := s.cache[KeyOf(s.schemaId, u) := Entry(msg, map[])]) && r.published == [Frame(msg)]
  {
    match objData
    case None => Step(s, [])
    case Some(data) =>
      var msg := ResourceMessage(UpdateResource, s.schemaId, u, data);
      var key := KeyOf(s.schemaId, u);
      if key in s.cache then
        if Equal(msg, s.cache[key].message, json) then Step(s, [])
        else Step(s, [ToFrame(MarshalJSON(msg, s.cache[key].metrics, json))])
      else Step(s.(cache := s.cache[key := Entry(msg, map[])]), [ToFrame(MarshalJSON(msg, map[], json))])
  }

  /** OnResourceUpdate with the cached message refreshed whenever a changed
      message is published, keeping the cached metrics. This is the
      definition the rest of the model uses. */
  function OnResourceUpdate<V>(s: Store<V>, u: Resource, objData: Option<Bytes>, json: Json<V>): (r: Step<V>)
    ensures objData.None? ==> r == Step(s, [])
    ensures r.store.schemaId == s.schemaId
    ensures objData.Some? && KeyOf(s.schemaId, u) in s.cache ==>
        var msg := ResourceMessage(UpdateResource, s.schemaId, u, objData.value);
        var cached := s.cache[KeyOf(s.schemaId, u)];
        && (Equal(msg, cached.message, json) ==> r == Step(s, []))
        && (!Equal(msg, cached.message, json) ==>
              && r.store.cache == s.cache[KeyOf(s.schemaId, u) := Entry(msg, cached.metrics)]
              && r.published == [ToFrame(MarshalJSON(msg, cached.metrics, json))])
    ensures objData.Some? && KeyOf(s.schemaId, u) !in s.cache ==>
        r == OnResourceUpdateAsWritten(s, u, objData, json)
  {
    match objData
    case None => Step(s, [])
    case Some(data) =>
      var msg := ResourceMessage(UpdateResource, s.schemaId, u, data);
      var key := KeyOf(s.schemaId, u);
      if key in s.cache then
        var cached := s.cache[key];
        if Equal(msg, cached.message, json) then Step(s, [])
        else Step(s.(cache := s.cache[key := Entry(msg, cached.metrics)]), [ToFrame(MarshalJSON(msg, cached.metrics, json))])
      else Step(s.(cache := s.cache[key := Entry(msg, map[])]), [ToFrame(MarshalJSON(msg, map[], json))])
  }

  /** The bodyless Update synthesised for metrics of an unseen object. */
  function MetricsOnlyMessage(schemaId: string, namespace: string, name: string): Message {
    Message(UpdateResource, Some(ResourceMeta(schemaId, namespace, name)), [])
  }

  /** OnMetricUpdate: for a cached object, unchanged metrics publish nothing;
      changed metrics replace only the cached metrics and republish the
      cached message with the new metrics as extras. For an unseen object a
      bodyless Update carrying the metrics is cached and published. */
  function OnMetricUpdate<V(==)>(s: Store<V>, result: Prom.MetricResult<V>, json: Json<V>): (r: Step<V>)
    ensures r.store.schemaId == s.schemaId && |r.published| <= 1
    ensures var key := CacheKey(s.schemaId, result.resNamespace, result.resName);
      && (key in s.cache && s.cache[key].metrics == result.fields ==> r == Step(s, []))
      && (key in s.cache && s.cache[key].metrics != result.fields ==>
            && r.store.cache == s.cache[key := Entry(s.cache[key].message, result.fields)]
            && r.published == [ToFrame(MarshalJSON(s.cache[key].message, result.fields, json))])
      && (key !in s.cache ==>
            var msg := MetricsOnlyMessage(s.schemaId, result.resNamespace, result.resName);
            && r.store.cache == s.cache[key := Entry(msg, result.fields)]
            && r.published == [ToFrame(MarshalJSON(msg, result.fields, json))])
  {
    var key := CacheKey(s.schemaId, result.resNamespace, result.resName);
    if key in s.cache then
      var cached := s.cache[key];
      if cached.metrics == result.fields then Step(s, [])
      else Step(s.(cache := s.cache[key := cached.(metrics := result.fields)]),
                [ToFrame(MarshalJSON(cached.message, result.fields, json))])
    else
      var msg := MetricsOnlyMessage(s.schemaId, result.resNamespace, result.resName);
      Step(s.(cache := s.cache[key := Entry(msg, result.fields)]), [ToFrame(MarshalJSON(msg, result.fields, json))])
  }

  /** OnResourceDel: always publishes one Delete, never consults or changes
      the cache. `objData` is the encoding of the object's metadata. */
  function OnResourceDel<V>(s: Store<V>, u: Resource, objData: Option<Bytes>): (r: Step<V>)
    ensures r.store == s
    ensures objData.None? ==> r.published == []
    ensures objData.Some? ==> r.published == [Frame(ResourceMessage(DelResource, s.schemaId, u, objData.value))]
  {
    match objData
    case None => Step(s, [])
    case Some(data) => Step(s, [Frame(ResourceMessage(DelResource, s.schemaId, u, data))])
  }

  /** The store's inputs, one per entry point. */
  datatype Event<V> =
    | ResourceAdded(u: Resource, schemaData: Option<Bytes>, registerAccepted: bool, objData: Option<Bytes>)
    | ResourceUpdated(u: Resource, objData: Option<Bytes>)
    | MetricsArrived(result: Prom.MetricResult<V>)
    | ResourceDeleted(u: Resource, objData: Option<Bytes>)

  function Apply<V(==)>(s: Store<V>, e: Event<V>, json: Json<V>): Step<V> {
    match e
    case ResourceAdded(u, schemaData, registerAccepted, objData) =>
      OnResourceAdd(s, u, schemaData, registerAccepted, objData, json)
    case ResourceUpdated(u, objData) => OnResourceUpdate(s, u, objData, json)
    case MetricsArrived(result) => OnMetricUpdate(s, result, json)
    case ResourceDeleted(u, objData) => OnResourceDel(s, u, objData)
  }

  /** Events applied one after the other; the published frames concatenate. */
  function Run<V(==)>(s: Store<V>, events: seq<Event<V>>, json: Json<V>): Step<V>
    decreases |events|
  {
    if |events| == 0 then Step(s, [])
    else
      var first := Apply(s, events[0], json);
      var rest := Run(first.store, events[1..], json);
      Step(rest.store, first.published + rest.published)
  }

  /** Once a schema identifier is set, no sequence of events changes it. */
  lemma {:induction false} SchemaIdNeverReassigned<V>(s: Store<V>, events: seq<Event<V>>, json: Json<V>)
    requires s.schemaId != ""
    ensures Run(s, events, json).store.schemaId == s.schemaId
    decreases |events|
  {
    if |events| > 0 {
      var first := Apply(s, events[0], json);
      assert first.store.schemaId == s.schemaId;
      SchemaIdNeverReassigned(first.store, events[1..], json);
    }
  }

  /** Every cache entry holds a New or Update message whose meta renders to
      the entry's key. */
  ghost predicate WellFormed<V>(s: Store<V>) {
    forall key :: key in s.cache ==> EntryFits(key, s.cache[key])
  }

  predicate EntryFits<V>(key: string, e: Entry<V>) {
    && e.message.meta.Some?
    && key == CacheKey(e.message.meta.value.schemaId, e.message.meta.value.namespace, e.message.meta.value.name)
    && (e.message.op == NewResource || e.message.op == UpdateResource)
  }

  /** Storing a New or Update message under its own key keeps WellFormed. */
  lemma StorePreservesWellFormed<V>(s: Store<V>, key: string, e: Entry<V>)
    requires WellFormed(s) && EntryFits(key, e)
    ensures WellFormed(s.(cache := s.cache[key := e]))
  {
  }

  lemma ApplyPreservesWellFormed<V>(s: Store<V>, e: Event<V>, json: Json<V>)
    requires WellFormed(s)
    ensures WellFormed(Apply(s, e, json).store)
  {
    match e
    case ResourceAdded(u, schemaData, registerAccepted, objData) =>
      if Proceeds(s, schemaData, registerAccepted) && objData.Some? {
        var r := Apply(s, e, json).store;
        var msg := ResourceMessage(NewResource, r.schemaId, u, objData.value);
        if !Duplicate(s, KeyOf(r.schemaId, u), msg, json) {
          StorePreservesWellFormed(s, KeyOf(r.schemaId, u), Entry(msg, map[]));
        }
      }
    case ResourceUpdated(u, objData) =>
      if objData.Some? {
        var msg := ResourceMessage(UpdateResource, s.schemaId, u, objData.value);
        var key := KeyOf(s.schemaId, u);
        if key in s.cache {
          StorePreservesWellFormed(s, key, Entry(msg, s.cache[key].metrics));
        } else {
          StorePreservesWellFormed(s, key, Entry(msg, map[]));
        }
      }
    case MetricsArrived(result) =>
      var key := CacheKey(s.schemaId, result.resNamespace, result.resName);
      if key in s.cache {
        StorePreservesWellFormed(s, key, Entry(s.cache[key].message, result.fields));
      } else {
        var msg := MetricsOnlyMessage(s.schemaId, result.resNamespace, result.resName);
        StorePreservesWellFormed(s, key, Entry(msg, result.fields));
      }
    case ResourceDeleted(u, objData) =>
  }

  lemma {:induction false} RunPreservesWellFormed<V>(s: Store<V>, events: seq<Event<V>>, json: Json<V>)
    requires WellFormed(s)
    ensures WellFormed(Run(s, events, json).store)
    decreases |events|
  {
    if |events| > 0 {
      ApplyPreservesWellFormed(s, events[0], json);
      RunPreservesWellFormed(Apply(s, events[0], json).store, events[1..], json);
    }
  }

  /** Two consecutive adds of the same payload publish one New message: the
      second finds the first in the cache and is suppressed. */
  lemma RepeatedAddIsSuppressed<V>(s: Store<V>, u: Resource, schemaData: Option<Bytes>, registerAccepted: bool,
                                   data: Bytes, json: Json<V>)
    requires Proceeds(s, schemaData, registerAccepted)
    requires |data| > 0 && json.sameDocument(data, data)
    ensures var first := OnResourceAdd(s, u, schemaData, registerAccepted, Some(data), json);
      var second := OnResourceAdd(first.store, u, schemaData, registerAccepted, Some(data), json);
      second.published == [] && second.store == first.store
  {
    var first := OnResourceAdd(s, u, schemaData, registerAccepted, Some(data), json);
    var id := first.store.schemaId;
    var msg := ResourceMessage(NewResource, id, u, data);
    assert id != "";
    assert Duplicate(first.store, KeyOf(id, u), msg, json);
  }

  /** A metric tick on a cached object publishes the cached message
      with only the extras added: the base payload is recovered byte for
      byte, and the same tick again publishes nothing. */
  lemma MetricTickKeepsBasePayload<V>(s: Store<V>, result: Prom.MetricResult<V>, json: Json<V>)
    requires CacheKey(s.schemaId, result.resNamespace, result.resName) in s.cache
    requires var cached := s.cache[CacheKey(s.schemaId, result.resNamespace, result.resName)].message;
      |cached.data| > 2 && cached.data[0] == 123 && cached.data[|cached.data| - 1] == CloseBrace
    requires s.cache[CacheKey(s.schemaId, result.resNamespace, result.resName)].metrics != result.fields
    requires |result.fields| > 0 && json.encodeFields(result.fields).Some?
    ensures var cached := s.cache[CacheKey(s.schemaId, result.resNamespace, result.resName)].message;
      var r := OnMetricUpdate(s, result, json);
      && r.published[0].Frame?
      && r.published[0].msg.op == cached.op && r.published[0].msg.meta == cached.meta
      && StripExtras(r.published[0].msg.data, |ExtrasObject(json.encodeFields(result.fields).value)|) == cached.data
      && OnMetricUpdate(r.store, result, json).published == []
  {
    var cached := s.cache[CacheKey(s.schemaId, result.resNamespace, result.resName)].message;
    MergeRoundTrip(cached.data, json.encodeFields(result.fields).value);
  }

  /** Deletes are never deduplicated: the same delete twice publishes twice. */
  lemma RepeatedDeletePublishesTwice<V>(s: Store<V>, u: Resource, data: Bytes, json: Json<V>)
    ensures var delete := Frame(ResourceMessage(DelResource, s.schemaId, u, data));
      Run(s, [ResourceDeleted(u, Some(data)), ResourceDeleted(u, Some(data))], json)
        == Step(s, [delete, delete])
  {
    var events: seq<Event<V>> := [ResourceDeleted(u, Some(data)), ResourceDeleted(u, Some(data))];
    assert events[1..] == [ResourceDeleted(u, Some(data))];
    assert events[1..][1..] == [];
    assert Run(s, events[1..][1..], json) == Step(s, []);
  }

  /** As written, an object first seen through an update keeps that first
      message cached forever: after updates A then B, an update back to A is
      judged equal to the cached A and nothing is published, although the
      sink last saw B. */
  lemma LostUpdateAsWritten<V>(s: Store<V>, u: Resource, a: Bytes, b: Bytes, json: Json<V>)
    requires KeyOf(s.schemaId, u) !in s.cache
    requires |a| > 0 && json.sameDocument(a, a) && !json.sameDocument(b, a)
    ensures var first := OnResourceUpdateAsWritten(s, u, Some(a), json);
      var second := OnResourceUpdateAsWritten(first.store, u, Some(b), json);
      var third := OnResourceUpdateAsWritten(second.store, u, Some(a), json);
      |second.published| == 1 && third.published == []
  {
  }

  /** With the cache refreshed, the same three updates publish three times,
      and the cache ends holding A. */
  lemma NoLostUpdate<V>(s: Store<V>, u: Resource, a: Bytes, b: Bytes, json: Json<V>)
    requires KeyOf(s.schemaId, u) !in s.cache
    requires !json.sameDocument(b, a) && !json.sameDocument(a, b)
    ensures var first := OnResourceUpdate(s, u, Some(a), json);
      var second := OnResourceUpdate(first.store, u, Some(b), json);
      var third := OnResourceUpdate(second.store, u, Some(a), json);
      && |first.published| == 1 && |second.published| == 1 && |third.published| == 1
      && third.store.cache[KeyOf(s.schemaId, u)].message == ResourceMessage(UpdateResource, s.schemaId, u, a)
  {
  }

  /** As written, after an add of A and an update to B, a metric tick
      republishes the stale New message A. */
  lemma StaleBodyOnMetricTickAsWritten<V>(s: Store<V>, u: Resource, a: Bytes, b: Bytes,
                                               result: Prom.MetricResult<V>, json: Json<V>)
    requires s.schemaId != "" && KeyOf(s.schemaId, u) !in s.cache
    requires result.resNamespace == u.namespace && result.resName == u.name && |result.fields| > 0
    requires json.encodeFields(result.fields).Some?
    ensures var added := OnResourceAdd(s, u, None, false, Some(a), json);
      var updated := OnResourceUpdateAsWritten(added.store, u, Some(b), json);
      var tick := OnMetricUpdate(updated.store, result, json);
      tick.published == [ToFrame(MarshalJSON(ResourceMessage(NewResource, s.schemaId, u, a), result.fields, json))]
  {
  }

  /** With the cache refreshed, the tick carries the latest body B. */
  lemma FreshBodyOnMetricTick<V>(s: Store<V>, u: Resource, a: Bytes, b: Bytes,
                                      result: Prom.MetricResult<V>, json: Json<V>)
    requires s.schemaId != "" && KeyOf(s.schemaId, u) !in s.cache
    requires result.resNamespace == u.namespace && result.resName == u.name && |result.fields| > 0
    requires json.encodeFields(result.fields).Some?
    ensures var added := OnResourceAdd(s, u, None, false, Some(a), json);
      var updated := OnResourceUpdate(added.store, u, Some(b), json);
      var tick := OnMetricUpdate(updated.store, result, json);
      tick.published == [ToFrame(MarshalJSON(ResourceMessage(UpdateResource, s.schemaId, u, b), result.fields, json))]
  {
  }

  /** Every result of a polling cycle carries at least one field, so as
      written the first metrics of an object the store has not seen always
      fall outside the splice's domain: Go indexes Data[-1] and panics. */
  lemma FirstMetricsOutsideSpliceDomainAsWritten<V>(s: Store<V>, qs: Prom.QueryStore, order: seq<string>,
                                                     eval: string -> Prom.Outcome<V>, zero: V)
    requires IsEnumeration(order, qs.Keys)
    ensures var results := Prom.DoMetric(qs, order, eval, zero);
      forall entity :: entity in results && CacheKey(s.schemaId, results[entity].resNamespace, results[entity].resName) !in s.cache ==>
        !InSpliceDomain(MetricsOnlyMessage(s.schemaId, results[entity].resNamespace, results[entity].resName), results[entity].fields)
  {
  }

  /** With the corrected splice, the first metrics of an unseen object are
      published as a bodyless Update whose payload is exactly the extras
      object. */
  lemma FirstMetricsPublishExtrasObject<V>(s: Store<V>, result: Prom.MetricResult<V>, json: Json<V>)
    requires CacheKey(s.schemaId, result.resNamespace, result.resName) !in s.cache
    requires |result.fields| > 0 && json.encodeFields(result.fields).Some?
    ensures var r := OnMetricUpdate(s, result, json);
      && r.published == [Frame(Message(UpdateResource, Some(ResourceMeta(s.schemaId, result.resNamespace, result.resName)),
                                       ExtrasObject(json.encodeFields(result.fields).value)))]
      && r.store.cache[CacheKey(s.schemaId, result.resNamespace, result.resName)].metrics == result.fields
  {
  }
}
