/** The job registry (pkg/job/job_manager.go): one monitor job per
    ResourceMonitor, created, reused or replaced on every reconcile and
    cancelled on cleanup. Jobs are identifiers into the history of every job
    ever built, each with a `cancelled` flag; `jobCache` maps a monitor's key
    to its current job. Starting a job is informer wiring and is not
    modelled; the sink registry the constructor consults is part of the
    state because it is a package-level cache. */
module JobManager {
  import opened Base
  import Job
  import MessageHandler

  datatype JobRecord = JobRecord(key: string, job: Job.MonitorJob, cancelled: bool)

  datatype Manager = Manager(jobCache: map<string, nat>, jobs: seq<JobRecord>, registry: MessageHandler.Registry)

  /** The manager after a reconcile and the job it returns. */
  datatype Outcome = Outcome(manager: Manager, job: nat)

  function NewSyncJobManager(registry: MessageHandler.Registry): Manager {
    Manager(map[], [], registry)
  }

  /** `namespace/name` of the monitor. */
  function JobKey(ref: Job.Monitor): string {
    Join(ref.namespace, '/', ref.name)
  }

  /** Namespaces never contain a slash, so distinct monitors have distinct
      job keys. */
  lemma JobKeyIdentifiesMonitor(ref1: Job.Monitor, ref2: Job.Monitor)
    requires '/' !in ref1.namespace && '/' !in ref2.namespace
    ensures JobKey(ref1) == JobKey(ref2) <==> ref1.namespace == ref2.namespace && ref1.name == ref2.name
  {
    if JobKey(ref1) == JobKey(ref2) {
      JoinInjectiveLeft(ref1.namespace, ref1.name, ref2.namespace, ref2.name, '/');
    }
  }

  /** Every cached job is a live record filed under its own key, and every
      live record is the one cached under its key. */
  predicate Valid(m: Manager) {
    && (forall key :: key in m.jobCache ==>
          m.jobCache[key] < |m.jobs| && m.jobs[m.jobCache[key]].key == key && !m.jobs[m.jobCache[key]].cancelled)
    && (forall i :: 0 <= i < |m.jobs| && !m.jobs[i].cancelled ==>
          m.jobs[i].key in m.jobCache && m.jobCache[m.jobs[i].key] == i)
  }

  /** At most one live job per monitor key. */
  lemma AtMostOneLiveJobPerKey(m: Manager, i: nat, j: nat)
    requires Valid(m)
    requires i < |m.jobs| && j < |m.jobs| && !m.jobs[i].cancelled && !m.jobs[j].cancelled
    requires m.jobs[i].key == m.jobs[j].key
    ensures i == j
  {
  }

  /** The constructor returns a job: NewMonitorJob returns nil without a
      Prometheus source, and the manager calls Start on the result
      unchecked. */
  predicate Constructible(ref: Job.Monitor) {
    ref.spec.promSource.Some?
  }

  /** Earlier records keep their key and job, and a cancelled record stays
      cancelled. */
  predicate Extends(m: Manager, next: Manager) {
    && |m.jobs| <= |next.jobs|
    && forall i :: 0 <= i < |m.jobs| ==>
         && next.jobs[i].key == m.jobs[i].key && next.jobs[i].job == m.jobs[i].job
         && (m.jobs[i].cancelled ==> next.jobs[i].cancelled)
  }

  /** The create and replace paths: cancel the cached job if there is one,
      build a new job, and cache it under the key. */
  function Install(m: Manager, ref: Job.Monitor, encode: MessageHandler.BackendSpec -> Option<string>): (r: Outcome)
    requires Valid(m) && Constructible(ref)
    ensures Valid(r.manager) && Extends(m, r.manager)
    ensures var created := Job.NewMonitorJob(m.registry, ref, encode);
      && r.job == |m.jobs| && |r.manager.jobs| == |m.jobs| + 1
      && r.manager.jobs[r.job] == JobRecord(JobKey(ref), created.job.value, false)
      && r.manager.jobCache == m.jobCache[JobKey(ref) := r.job]
      && r.manager.registry == created.registry
    ensures forall i :: 0 <= i < |m.jobs| ==>
        (r.manager.jobs[i].cancelled <==> m.jobs[i].cancelled || (JobKey(ref) in m.jobCache && i == m.jobCache[JobKey(ref)]))
  {
    var key := JobKey(ref);
    var created := Job.NewMonitorJob(m.registry, ref, encode);
    var jobs := if key in m.jobCache then m.jobs[m.jobCache[key] := m.jobs[m.jobCache[key]].(cancelled := true)] else m.jobs;
    var next := Manager(m.jobCache[key := |jobs|], jobs + [JobRecord(key, created.job.value, false)], created.registry);
    assert Valid(next) by {
      forall i | 0 <= i < |next.jobs| && !next.jobs[i].cancelled
        ensures next.jobs[i].key in next.jobCache && next.jobCache[next.jobs[i].key] == i
      {
        if i < |m.jobs| {
          assert !m.jobs[i].cancelled;
          assert next.jobs[i].key != key;
        }
      }
    }
    Outcome(next, |jobs|)
  }

  /** The comparison that decides reuse, given the cached job. */
  function ReuseOrInstall(m: Manager, ref: Job.Monitor, encode: MessageHandler.BackendSpec -> Option<string>, reuse: bool): (r: Outcome)
    requires Valid(m)
    requires JobKey(ref) !in m.jobCache || !reuse ==> Constructible(ref)
    ensures Valid(r.manager) && Extends(m, r.manager)
    ensures JobKey(ref) in r.manager.jobCache && r.manager.jobCache[JobKey(ref)] == r.job
  {
    var key := JobKey(ref);
    if key in m.jobCache && reuse then Outcome(m, m.jobCache[key])
    else Install(m, ref, encode)
  }

  /** reflect.DeepEqual's operands as dynamic values: a spec held by value,
      or a pointer to one. */
  datatype Dynamic = SpecValue(spec: Job.MonitorSpec) | SpecPointer(target: Option<Job.MonitorSpec>)

  /** reflect.DeepEqual: operands of different dynamic types are never
      deeply equal; two pointers are when both are nil or their targets
      are. */
  predicate DeepEqual(a: Dynamic, b: Dynamic) {
    match (a, b)
    case (SpecValue(x), SpecValue(y)) => x == y
    case (SpecPointer(x), SpecPointer(y)) => x == y
    case _ => false
  }

  /** NewJobOrExist as written: the monitor's spec value is compared with
      the job's spec pointer, so the reuse branch is never taken and every
      reconcile cancels any cached job and installs a fresh one. */
  function NewJobOrExistAsWritten(m: Manager, ref: Job.Monitor, encode: MessageHandler.BackendSpec -> Option<string>): (r: Outcome)
    requires Valid(m) && Constructible(ref)
    ensures Valid(r.manager) && Extends(m, r.manager)
    ensures r == Install(m, ref, encode)
  {
    var key := JobKey(ref);
    ReuseOrInstall(m, ref, encode,
                   key in m.jobCache && DeepEqual(SpecValue(ref.spec), SpecPointer(Some(m.jobs[m.jobCache[key]].job.spec))))
  }

  /** As written, a reconcile of an unchanged monitor cancels its running
      job and builds another: two reconciles in a row return two different
      jobs and the first one is cancelled. */
  lemma RepeatedReconcileRestartsAsWritten(m: Manager, ref: Job.Monitor, encode: MessageHandler.BackendSpec -> Option<string>)
    requires Valid(m) && Constructible(ref)
    ensures var first := NewJobOrExistAsWritten(m, ref, encode);
      var second := NewJobOrExistAsWritten(first.manager, ref, encode);
      && second.job != first.job
      && second.manager.jobs[first.job].cancelled
  {
  }

  /** NewJobOrExist: an absent key gets a new job; a cached job whose spec
      equals the monitor's is returned and nothing changes; a cached job
      with another spec is cancelled and replaced under the same key. */
  function NewJobOrExist(m: Manager, ref: Job.Monitor, encode: MessageHandler.BackendSpec -> Option<string>): (r: Outcome)
    requires Valid(m)
    requires JobKey(ref) !in m.jobCache || m.jobs[m.jobCache[JobKey(ref)]].job.spec != ref.spec ==> Constructible(ref)
    ensures Valid(r.manager) && Extends(m, r.manager)
    ensures JobKey(ref) in r.manager.jobCache && r.manager.jobCache[JobKey(ref)] == r.job
    ensures r.manager.jobs[r.job].job.spec == ref.spec
    ensures JobKey(ref) in m.jobCache && m.jobs[m.jobCache[JobKey(ref)]].job.spec == ref.spec ==>
        r == Outcome(m, m.jobCache[JobKey(ref)])
    ensures JobKey(ref) !in m.jobCache ==>
        && r.job == |m.jobs| && |r.manager.jobs| == |m.jobs| + 1
        && r.manager.jobCache == m.jobCache[JobKey(ref) := r.job]
        && (forall i :: 0 <= i < |m.jobs| ==> r.manager.jobs[i] == m.jobs[i])
    ensures JobKey(ref) in m.jobCache && m.jobs[m.jobCache[JobKey(ref)]].job.spec != ref.spec ==>
        && r.job == |m.jobs| && |r.manager.jobs| == |m.jobs| + 1
        && r.manager.jobCache == m.jobCache[JobKey(ref) := r.job]
        && r.manager.jobs[m.jobCache[JobKey(ref)]].cancelled
        && (forall i :: 0 <= i < |m.jobs| && i != m.jobCache[JobKey(ref)] ==> r.manager.jobs[i] == m.jobs[i])
    ensures !(JobKey(ref) in m.jobCache && m.jobs[m.jobCache[JobKey(ref)]].job.spec == ref.spec) ==>
        var created := Job.NewMonitorJob(m.registry, ref, encode);
        && r.manager.jobs[r.job] == JobRecord(JobKey(ref), created.job.value, false)
        && r.manager.registry == created.registry
  {
    var key := JobKey(ref);
    ReuseOrInstall(m, ref, encode,
                   key in m.jobCache && DeepEqual(SpecValue(ref.spec), SpecValue(m.jobs[m.jobCache[key]].job.spec)))
  }

  /** Wherever the as-written comparison matters (a cached job whose spec
      already equals the monitor's), the two definitions part ways: the
      corrected one keeps the job, the as-written one replaces it. */
  lemma ReuseDiffersFromAsWritten(m: Manager, ref: Job.Monitor, encode: MessageHandler.BackendSpec -> Option<string>)
    requires Valid(m) && Constructible(ref)
    requires JobKey(ref) in m.jobCache && m.jobs[m.jobCache[JobKey(ref)]].job.spec == ref.spec
    ensures NewJobOrExist(m, ref, encode).job == m.jobCache[JobKey(ref)]
    ensures NewJobOrExistAsWritten(m, ref, encode).job != m.jobCache[JobKey(ref)]
  {
  }

  /** Reconciling the same monitor twice is the same as reconciling it once. */
  lemma NewJobOrExistIdempotent(m: Manager, ref: Job.Monitor, encode: MessageHandler.BackendSpec -> Option<string>)
    requires Valid(m) && Constructible(ref)
    ensures var first := NewJobOrExist(m, ref, encode);
      NewJobOrExist(first.manager, ref, encode) == first
  {
  }

  /** CleanJob: an absent key changes nothing; a cached job is cancelled and
      only its key is removed. */
  function CleanJob(m: Manager, ref: Job.Monitor): (r: Manager)
    requires Valid(m)
    ensures Valid(r) && Extends(m, r)
    ensures JobKey(ref) !in r.jobCache
    ensures JobKey(ref) !in m.jobCache ==> r == m
    ensures JobKey(ref) in m.jobCache ==>
        && r.jobCache == m.jobCache - {JobKey(ref)}
        && |r.jobs| == |m.jobs| && r.registry == m.registry
        && r.jobs[m.jobCache[JobKey(ref)]].cancelled
        && (forall i :: 0 <= i < |m.jobs| && i != m.jobCache[JobKey(ref)] ==> r.jobs[i] == m.jobs[i])
  {
    var key := JobKey(ref);
    if key !in m.jobCache then m
    else
      var id := m.jobCache[key];
      Manager(m.jobCache - {key}, m.jobs[id := m.jobs[id].(cancelled := true)], m.registry)
  }

  /** Reconciles and cleanups as the controller issues them. */
  datatype Request = Reconcile(ref: Job.Monitor) | Clean(ref: Job.Monitor)

  predicate Servable(reqs: seq<Request>) {
    forall i :: 0 <= i < |reqs| && reqs[i].Reconcile? ==> Constructible(reqs[i].ref)
  }

  function Serve(m: Manager, reqs: seq<Request>, encode: MessageHandler.BackendSpec -> Option<string>): Manager
    requires Valid(m) && Servable(reqs)
    decreases |reqs|
  {
    if |reqs| == 0 then m
    else
      var next := match reqs[0]
        case Reconcile(ref) => NewJobOrExist(m, ref, encode).manager
        case Clean(ref) => CleanJob(m, ref);
      Serve(next, reqs[1..], encode)
  }

  /** Whatever the controller asks, starting from an empty manager there is
      never more than one live job per monitor key, and a cancelled job is
      never revived. */
  lemma {:induction false} ServeKeepsOneLiveJobPerKey(m: Manager, reqs: seq<Request>,
                                                      encode: MessageHandler.BackendSpec -> Option<string>)
    requires Valid(m) && Servable(reqs)
    ensures Valid(Serve(m, reqs, encode)) && Extends(m, Serve(m, reqs, encode))
    decreases |reqs|
  {
    if |reqs| > 0 {
      var next := match reqs[0]
        case Reconcile(ref) => NewJobOrExist(m, ref, encode).manager
        case Clean(ref) => CleanJob(m, ref);
      assert Servable(reqs[1..]) by {
        forall i | 0 <= i < |reqs[1..]| && reqs[1..][i].Reconcile?
          ensures Constructible(reqs[1..][i].ref)
        {
          assert reqs[1..][i] == reqs[i + 1];
        }
      }
      ServeKeepsOneLiveJobPerKey(next, reqs[1..], encode);
    }
  }
}
