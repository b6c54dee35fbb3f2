/** The sink registry of the older publishing path (pkg/message/handler.go)
    and the message shape it publishes (pkg/message/message.go). A handler
    is an opaque identifier: building an MQTT client is a foreign call, so a
    new handler is simply the next unused identifier. `json.Marshal` of a
    backend spec is an input function. */
module MessageHandler {
  import opened Base

  datatype MqttBackend = MqttBackend(host: string, port: int, topic: string, username: string, password: string)

  /** `MsgBackendSpec`: the MQTT backend is a Go pointer. */
  datatype BackendSpec = BackendSpec(mqtt: Option<MqttBackend>)

  type HandlerId = nat

  /** The package-level `handlerCache`, keyed by the serialised spec, plus
      the number of handlers built so far (the next fresh identifier). */
  datatype Registry = Registry(handlers: map<string, HandlerId>, constructed: nat)

  /** The registry after a lookup and the handler returned (None is nil). */
  datatype Resolution = Resolution(registry: Registry, handler: Option<HandlerId>)

  datatype Op = New | Delete | Update

  datatype ResourceMeta = ResourceMeta(namespace: string, name: string)

  /** The message of this path carries no schema identifier. */
  datatype Message = Message(op: Op, meta: Option<ResourceMeta>, data: Bytes)

  function EmptyRegistry(): Registry {
    Registry(map[], 0)
  }

  /** Every cached handler was built by this registry. */
  predicate Fresh(reg: Registry) {
    forall key :: key in reg.handlers ==> reg.handlers[key] < reg.constructed
  }

  /** NewMsgHandlerOrExist. A spec that cannot be serialised yields nil; a
      cached key yields its handler; otherwise an MQTT backend gets a new
      handler stored under the key, and a spec without one yields nil. */
  function NewMsgHandlerOrExist(reg: Registry, spec: BackendSpec, encode: BackendSpec -> Option<string>): (r: Resolution)
    ensures encode(spec).None? ==> r == Resolution(reg, None)
    ensures encode(spec).Some? && encode(spec).value in reg.handlers ==>
        r == Resolution(reg, Some(reg.handlers[encode(spec).value]))
    ensures encode(spec).Some? && encode(spec).value !in reg.handlers && spec.mqtt.None? ==>
        r == Resolution(reg, None)
    ensures encode(spec).Some? && encode(spec).value !in reg.handlers && spec.mqtt.Some? ==>
        && r.handler == Some(reg.constructed)
        && r.registry.handlers == reg.handlers[encode(spec).value := reg.constructed]
        && r.registry.constructed == reg.constructed + 1
    ensures r.handler.Some? ==>
        && encode(spec).Some? && encode(spec).value in r.registry.handlers
        && r.registry.handlers[encode(spec).value] == r.handler.value
  {
    match encode(spec)
    case None => Resolution(reg, None)
    case Some(key) =>
      if key in reg.handlers then Resolution(reg, Some(reg.handlers[key]))
      else if spec.mqtt.Some? then
        Resolution(Registry(reg.handlers[key := reg.constructed], reg.constructed + 1), Some(reg.constructed))
      else Resolution(reg, None)
  }

  /** Entries are never replaced or removed: the registry only grows, and
      stays Fresh. */
  lemma LookupOnlyGrows(reg: Registry, spec: BackendSpec, encode: BackendSpec -> Option<string>)
    requires Fresh(reg)
    ensures var next := NewMsgHandlerOrExist(reg, spec, encode).registry;
      && Fresh(next)
      && reg.handlers.Keys <= next.handlers.Keys
      && (forall key :: key in reg.handlers ==> next.handlers[key] == reg.handlers[key])
  {
  }

  /** A handler handed out once is handed out again for the same spec, and
      the second lookup changes nothing. */
  lemma EqualSpecsShareHandler(reg: Registry, spec: BackendSpec, encode: BackendSpec -> Option<string>)
    ensures var first := NewMsgHandlerOrExist(reg, spec, encode);
      first.handler.Some? ==> NewMsgHandlerOrExist(first.registry, spec, encode) == first
  {
  }

  /** Lookups applied one spec after the other. */
  function Resolve(reg: Registry, specs: seq<BackendSpec>, encode: BackendSpec -> Option<string>): Registry
    decreases |specs|
  {
    if |specs| == 0 then reg
    else Resolve(NewMsgHandlerOrExist(reg, specs[0], encode).registry, specs[1..], encode)
  }

  /** Whatever lookups happen in between, a cached handler stays cached
      under its key. */
  lemma {:induction false} HandlersNeverReplaced(reg: Registry, specs: seq<BackendSpec>, encode: BackendSpec -> Option<string>)
    requires Fresh(reg)
    ensures var last := Resolve(reg, specs, encode);
      && Fresh(last)
      && (forall key :: key in reg.handlers ==> key in last.handlers && last.handlers[key] == reg.handlers[key])
    decreases |specs|
  {
    if |specs| > 0 {
      LookupOnlyGrows(reg, specs[0], encode);
      HandlersNeverReplaced(NewMsgHandlerOrExist(reg, specs[0], encode).registry, specs[1..], encode);
    }
  }

  /** In a Fresh registry, distinct serialised specs never share a handler:
      a newly built handler is distinct from every cached one. */
  lemma NewHandlerIsDistinct(reg: Registry, spec: BackendSpec, encode: BackendSpec -> Option<string>)
    requires Fresh(reg)
    requires encode(spec).Some? && encode(spec).value !in reg.handlers && spec.mqtt.Some?
    ensures var r := NewMsgHandlerOrExist(reg, spec, encode);
      forall key :: key in reg.handlers ==> reg.handlers[key] != r.handler.value
  {
  }
}
