/** One monitor job of the older publishing path (pkg/job/job.go): which
    informer events it forwards, the messages it hands its sink, the
    VirtualMachineInstance metric queries it keeps, and when it recomputes
    the monitor's status. The informer callbacks are pure reactions over a
    job value; `json.Marshal` of the object, the JSON patch of an update and
    the encoding of a deleted object's metadata are inputs. */
module Job {
  import opened Base
  import Utils
  import Prom
  import MessageHandler

  datatype GroupVersionKind = GroupVersionKind(group: string, version: string, kind: string)

  datatype Selector = Selector(gvk: GroupVersionKind, namespace: string, labels: Utils.Labels)

  /** Where the Prometheus server lives. */
  datatype PromSource = PromSource(scheme: string, host: string, port: int)

  /** The monitor spec: compared by value, copied by value. */
  datatype MonitorSpec = MonitorSpec(selector: Selector, changeBuilder: string, promSource: Option<PromSource>,
                                     backend: MessageHandler.BackendSpec)

  /** The ResourceMonitor object a job is built from. */
  datatype Monitor = Monitor(namespace: string, name: string, spec: MonitorSpec)

  /** What the informer hands a callback after conversion to unstructured
      form; a failed conversion is None. */
  datatype Object = Object(kind: string, namespace: string, name: string, labels: Utils.Labels)

  /** The parts of a job its callbacks read or change. `handler` None is a
      nil sink; `queries` is the job's metric worker's query store. */
  datatype MonitorJob = MonitorJob(spec: MonitorSpec, monitorName: string, interest: GroupVersionKind,
                                   handler: Option<MessageHandler.HandlerId>, queries: Prom.QueryStore)

  datatype Effect = Published(handler: MessageHandler.HandlerId, msg: MessageHandler.Message) | StatusRecomputed

  datatype Reaction = Reaction(job: MonitorJob, effects: seq<Effect>)

  datatype Creation = Creation(job: Option<MonitorJob>, registry: MessageHandler.Registry)

  const VmiKind: string := "VirtualMachineInstance"
  const KubevirtNamespace: string := "kubevirt"
  const MemField: string := "mem_use"
  const MemMetric: string := "kubevirt_vmi_memory_resident_bytes"
  const CpuField: string := "cpu_sec"
  const CpuMetric: string := "kubevirt_vmi_vcpu_seconds"

  /** NewMonitorJob: without a Prometheus source there is no job (and no sink
      lookup). Otherwise the job keeps a copy of the spec, watches the
      selector's kind, resolves its sink through the registry and starts
      with no metric queries. */
  function NewMonitorJob(reg: MessageHandler.Registry, ref: Monitor,
                         encode: MessageHandler.BackendSpec -> Option<string>): (r: Creation)
    ensures ref.spec.promSource.None? <==> r.job.None?
    ensures r.job.None? ==> r.registry == reg
    ensures r.job.Some? ==>
        var resolved := MessageHandler.NewMsgHandlerOrExist(reg, ref.spec.backend, encode);
        && r.job.value.spec == ref.spec
        && r.job.value.monitorName == ref.name
        && r.job.value.interest == ref.spec.selector.gvk
        && r.job.value.handler == resolved.handler
        && r.job.value.queries == map[]
        && r.registry == resolved.registry
  {
    if ref.spec.promSource.None? then Creation(None, reg)
    else
      var resolved := MessageHandler.NewMsgHandlerOrExist(reg, ref.spec.backend, encode);
      Creation(Some(MonitorJob(ref.spec, ref.name, ref.spec.selector.gvk, resolved.handler, map[])), resolved.registry)
  }

  /** isRelated, calling the label matcher as the Go code does. */
  method IsRelated(sel: Selector, u: Option<Object>) returns (related: bool)
    ensures related <==> u.Some? && u.value.namespace == sel.namespace && Utils.LabelsMatch(u.value.labels, sel.labels)
  {
    if u.None? || u.value.namespace != sel.namespace {
      return false;
    }
    related := Utils.MatchesLabelSelector(u.value.labels, sel.labels);
  }

  /** The meaning of isRelated, for use inside the reactions. */
  predicate Related(sel: Selector, u: Option<Object>) {
    u.Some? && u.value.namespace == sel.namespace && Utils.LabelsMatch(u.value.labels, sel.labels)
  }

  /** An object without labels is never related, whatever the selector. */
  lemma UnlabelledObjectNeverRelated(sel: Selector, u: Object)
    requires |u.labels| == 0
    ensures !Related(sel, Some(u))
  {
  }

  function Meta(u: Object): Option<MessageHandler.ResourceMeta> {
    Some(MessageHandler.ResourceMeta(u.namespace, u.name))
  }

  /** The two kubevirt queries registered for a VirtualMachineInstance. Their
      namespace is always "kubevirt", not the object's. */
  function AddVmiQueries(qs: Prom.QueryStore, name: string): (r: Prom.QueryStore)
    ensures Prom.QueryKey(KubevirtNamespace, name, MemMetric) in r
    ensures Prom.QueryKey(KubevirtNamespace, name, CpuMetric) in r
    ensures r.Keys == qs.Keys + {Prom.QueryKey(KubevirtNamespace, name, MemMetric), Prom.QueryKey(KubevirtNamespace, name, CpuMetric)}
    ensures forall key :: key in qs ==> r[key] == qs[key]
  {
    Prom.AddQuery(Prom.AddQuery(qs, KubevirtNamespace, name, MemField, MemMetric), KubevirtNamespace, name, CpuField, CpuMetric)
  }

  function DeleteVmiQueries(qs: Prom.QueryStore, name: string): (r: Prom.QueryStore)
    ensures Prom.QueryKey(KubevirtNamespace, name, MemMetric) !in r
    ensures Prom.QueryKey(KubevirtNamespace, name, CpuMetric) !in r
    ensures r.Keys == qs.Keys - {Prom.QueryKey(KubevirtNamespace, name, MemMetric), Prom.QueryKey(KubevirtNamespace, name, CpuMetric)}
    ensures forall key ::
        (key in qs && key != Prom.QueryKey(KubevirtNamespace, name, MemMetric)
         && key != Prom.QueryKey(KubevirtNamespace, name, CpuMetric)) ==> key in r && r[key] == qs[key]
  {
    Prom.DeleteQuery(Prom.DeleteQuery(qs, KubevirtNamespace, name, MemMetric), KubevirtNamespace, name, CpuMetric)
  }

  /** A publish is reached only with a sink: calling Publish on a nil
      handler would panic. */
  predicate CanPublish(j: MonitorJob) {
    j.handler.Some?
  }

  /** The Add callback: an unrelated object or a failed encoding has no
      effect. Otherwise a VirtualMachineInstance gets its two queries, the
      object is published as New, and the status is recomputed. */
  function OnAdd(j: MonitorJob, u: Option<Object>, objData: Option<Bytes>): (r: Reaction)
    requires Related(j.spec.selector, u) && objData.Some? ==> CanPublish(j)
    ensures !Related(j.spec.selector, u) || objData.None? ==> r == Reaction(j, [])
    ensures Related(j.spec.selector, u) && objData.Some? ==>
        && r.effects == [Published(j.handler.value, MessageHandler.Message(MessageHandler.New, Meta(u.value), objData.value)),
                         StatusRecomputed]
        && r.job == j.(queries := r.job.queries)
        && (u.value.kind == VmiKind ==> r.job.queries == AddVmiQueries(j.queries, u.value.name))
        && (u.value.kind != VmiKind ==> r.job.queries == j.queries)
  {
    if !Related(j.spec.selector, u) then Reaction(j, [])
    else match objData
      case None => Reaction(j, [])
      case Some(data) =>
        var queries := if u.value.kind == VmiKind then AddVmiQueries(j.queries, u.value.name) else j.queries;
        Reaction(j.(queries := queries),
                 [Published(j.handler.value, MessageHandler.Message(MessageHandler.New, Meta(u.value), data)),
                  StatusRecomputed])
  }

  /** The Update callback: forwarded when the old or the new object is
      related. A failed diff or encoding of the patch has no effect;
      otherwise the patch is published as Update under the new object's
      name. The status is never recomputed and no query changes. */
  function OnUpdate(j: MonitorJob, oldU: Option<Object>, newU: Option<Object>, patchData: Option<Bytes>): (r: Reaction)
    requires (Related(j.spec.selector, oldU) || Related(j.spec.selector, newU)) && patchData.Some? ==>
        newU.Some? && CanPublish(j)
    ensures r.job == j
    ensures !Related(j.spec.selector, oldU) && !Related(j.spec.selector, newU) ==> r.effects == []
    ensures patchData.None? ==> r.effects == []
    ensures (Related(j.spec.selector, oldU) || Related(j.spec.selector, newU)) && patchData.Some? ==>
        r.effects == [Published(j.handler.value, MessageHandler.Message(MessageHandler.Update, Meta(newU.value), patchData.value))]
    ensures StatusRecomputed !in r.effects
  {
    if !Related(j.spec.selector, oldU) && !Related(j.spec.selector, newU) then Reaction(j, [])
    else match patchData
      case None => Reaction(j, [])
      case Some(patch) =>
        Reaction(j, [Published(j.handler.value, MessageHandler.Message(MessageHandler.Update, Meta(newU.value), patch))])
  }

  /** An update is forwarded exactly when the Add callback would forward the
      new object or the Delete callback would forward the old one: an object
      that leaves the selector is still reported as an Update. */
  lemma UpdateForwardedIffAddOrDeleteWould(j: MonitorJob, oldU: Option<Object>, newU: Option<Object>, data: Bytes, patch: Bytes)
    requires newU.Some? && CanPublish(j)
    ensures var forwarded := OnUpdate(j, oldU, newU, Some(patch)).effects != [];
      forwarded <==> OnAdd(j, newU, Some(data)).effects != [] || OnDelete(j, oldU, Some(data)).effects != []
  {
  }

  /** The Delete callback: an unrelated object or a failed encoding of its
      metadata has no effect. Otherwise a VirtualMachineInstance loses its
      two queries, a Delete carrying the metadata is published, and the
      status is recomputed. */
  function OnDelete(j: MonitorJob, u: Option<Object>, metaData: Option<Bytes>): (r: Reaction)
    requires Related(j.spec.selector, u) && metaData.Some? ==> CanPublish(j)
    ensures !Related(j.spec.selector, u) || metaData.None? ==> r == Reaction(j, [])
    ensures Related(j.spec.selector, u) && metaData.Some? ==>
        && r.effects == [Published(j.handler.value, MessageHandler.Message(MessageHandler.Delete, Meta(u.value), metaData.value)),
                         StatusRecomputed]
        && r.job == j.(queries := r.job.queries)
        && (u.value.kind == VmiKind ==> r.job.queries == DeleteVmiQueries(j.queries, u.value.name))
        && (u.value.kind != VmiKind ==> r.job.queries == j.queries)
  {
    if !Related(j.spec.selector, u) then Reaction(j, [])
    else match metaData
      case None => Reaction(j, [])
      case Some(data) =>
        var queries := if u.value.kind == VmiKind then DeleteVmiQueries(j.queries, u.value.name) else j.queries;
        Reaction(j.(queries := queries),
                 [Published(j.handler.value, MessageHandler.Message(MessageHandler.Delete, Meta(u.value), data)),
                  StatusRecomputed])
  }

  /** The two kubevirt query keys of one name differ. */
  lemma VmiKeysDistinct(name: string)
    ensures Prom.QueryKey(KubevirtNamespace, name, MemMetric) != Prom.QueryKey(KubevirtNamespace, name, CpuMetric)
  {
    Prom.QueryKeyIdentifiesQuery(KubevirtNamespace, name, MemMetric, KubevirtNamespace, name, CpuMetric);
  }

  /** Removing the two kubevirt queries undoes registering them. */
  lemma DeleteVmiUndoesAdd(qs: Prom.QueryStore, name: string)
    requires Prom.QueryKey(KubevirtNamespace, name, MemMetric) !in qs
    requires Prom.QueryKey(KubevirtNamespace, name, CpuMetric) !in qs
    ensures DeleteVmiQueries(AddVmiQueries(qs, name), name) == qs
  {
    VmiKeysDistinct(name);
    var r := DeleteVmiQueries(AddVmiQueries(qs, name), name);
    assert r.Keys == qs.Keys;
  }

  /** Add then Delete of the same related VirtualMachineInstance leaves none
      of its two query keys behind; when neither key was registered before,
      the job is back where it started. */
  lemma VmiAddThenDeleteRestoresQueries(j: MonitorJob, u: Object, objData: Bytes, metaData: Bytes)
    requires Related(j.spec.selector, Some(u)) && CanPublish(j) && u.kind == VmiKind
    ensures var added := OnAdd(j, Some(u), Some(objData)).job;
      var deleted := OnDelete(added, Some(u), Some(metaData)).job;
      && Prom.QueryKey(KubevirtNamespace, u.name, MemMetric) !in deleted.queries
      && Prom.QueryKey(KubevirtNamespace, u.name, CpuMetric) !in deleted.queries
      && ((Prom.QueryKey(KubevirtNamespace, u.name, MemMetric) !in j.queries
           && Prom.QueryKey(KubevirtNamespace, u.name, CpuMetric) !in j.queries) ==> deleted == j)
  {
    if Prom.QueryKey(KubevirtNamespace, u.name, MemMetric) !in j.queries
       && Prom.QueryKey(KubevirtNamespace, u.name, CpuMetric) !in j.queries {
      DeleteVmiUndoesAdd(j.queries, u.name);
    }
  }

  /** Adding a VirtualMachineInstance registers its two queries under the
      "kubevirt" namespace whatever namespace the object lives in. */
  lemma VmiAddRegistersKubevirtQueries(j: MonitorJob, u: Object, objData: Bytes)
    requires Related(j.spec.selector, Some(u)) && CanPublish(j) && u.kind == VmiKind
    requires Prom.QueryKey(KubevirtNamespace, u.name, MemMetric) !in j.queries
    requires Prom.QueryKey(KubevirtNamespace, u.name, CpuMetric) !in j.queries
    ensures var added := OnAdd(j, Some(u), Some(objData)).job.queries;
      && added[Prom.QueryKey(KubevirtNamespace, u.name, MemMetric)] == Prom.MetricQuery(MemField, MemMetric, u.name, KubevirtNamespace)
      && added[Prom.QueryKey(KubevirtNamespace, u.name, CpuMetric)] == Prom.MetricQuery(CpuField, CpuMetric, u.name, KubevirtNamespace)
  {
    VmiKeysDistinct(u.name);
  }
}
