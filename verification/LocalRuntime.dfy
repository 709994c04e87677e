/** The runtime as a client starts and uses it. */
module LocalRuntime {
  import opened Prelude
  import opened ResourceSets
  import opened Tasks
  import opened RuntimeModel
  import S = SchedulerModel
  import T = SchedulerTasks
  import W = RuntimeWorkers
  import D = RuntimeResults
  import X = RuntimeExecution

  datatype RuntimeConfig = RuntimeConfig(numCpus: nat, maxWorkers: nat, objectStoreMemory: nat)

  /** The default configuration for a machine with `cpus` cores. */
  function DefaultConfig(cpus: nat): RuntimeConfig {
    RuntimeConfig(cpus, cpus * 2, 0)
  }

  ghost function Start(config: RuntimeConfig): Runtime {
    Init(map["CPU" := config.numCpus as real], config.maxWorkers, config.objectStoreMemory)
  }

  /** The task `submit_fn` builds from a function name and a payload. */
  function CallSpec(taskId: TaskId, functionName: string, payload: Bytes, returnId: ObjectId): TaskSpec {
    TaskSpec(taskId, functionName, payload, [returnId], map["CPU" := 1.0])
  }

  // ---- A call's result ----

  lemma SameTask(sent: seq<S.Command>, p: nat, a: TaskSpec, b: TaskSpec)
    requires S.DistinctTaskIds(sent) && a.taskId == b.taskId
    requires p < |sent| && sent[p] == S.SubmitTask(a) && S.SubmitTask(b) in sent
    ensures a == b
  {
    var q :| 0 <= q < |sent| && sent[q] == S.SubmitTask(b);
  }

  /** The task dispatched under an id is the one submitted under it. */
  lemma DispatchedCall(total: Quantities, maxWorkers: nat, budget: nat, events: seq<Event>, j: nat, spec: TaskSpec)
    requires Possible(Init(total, maxWorkers, budget), events)
    requires var s := Exec(Init(total, maxWorkers, budget), events).sched;
             && S.DistinctTaskIds(s.sent) && S.SubmitTask(spec) in s.sent
             && j < |s.ledger.jobs| && s.ledger.jobs[j].spec.taskId == spec.taskId
    ensures Exec(Init(total, maxWorkers, budget), events).sched.ledger.jobs[j].spec == spec
  {
    var s := Exec(Init(total, maxWorkers, budget), events).sched;
    var acts := RunsScheduler(Init(total, maxWorkers, budget), events);
    T.DispatchedWasSubmitted(total, acts, j);
    var p :| 0 <= p < s.handled && s.sent[p] == S.SubmitTask(s.ledger.jobs[j].spec);
    SameTask(s.sent, p, s.ledger.jobs[j].spec, spec);
  }

  /** End to end, on a runtime started with the default configuration, with unique task ids, ids of its own for every
      result and client put, and no deletes or reference removals: a submitted call that has finished was executed once,
      at position `n` of the run; its return id holds what the function registered under `name` at that point makes of
      `payload`, or nothing if there was none or it failed. */
  lemma CallDelivers(cpus: nat, events: seq<Event>, taskId: TaskId, name: string, payload: Bytes, returnId: ObjectId, j: nat)
      returns (n: nat)
    requires Possible(Start(DefaultConfig(cpus)), events)
    requires forall e | e in events :: e.StoreStep? ==> D.Keeps(e.op)
    requires var r := Exec(Start(DefaultConfig(cpus)), events);
             && D.OwnIds(r.sched.ledger.jobs, r.userPuts) && S.DistinctTaskIds(r.sched.sent)
             && S.SubmitTask(CallSpec(taskId, name, payload, returnId)) in r.sched.sent
             && j < |r.runs| && r.sched.ledger.jobs[j].spec.taskId == taskId && r.runs[j].stage == Over
    ensures n < |events| && events[n] == Execute(j) && Possible(Start(DefaultConfig(cpus)), events[..n])
    ensures var objects := Exec(Start(DefaultConfig(cpus)), events).store.objects;
            var fns := Exec(Start(DefaultConfig(cpus)), events[..n]).fns;
            if name in fns && fns[name](payload).Some?
            then returnId in objects && objects[returnId].data == fns[name](payload).value
            else returnId !in objects
  {
    var total: Quantities := map["CPU" := cpus as real];
    assert Start(DefaultConfig(cpus)) == Init(total, cpus * 2, 0);
    DispatchedCall(total, cpus * 2, 0, events, j, CallSpec(taskId, name, payload, returnId));
    n := X.FinishedTasksRanOnce(total, cpus * 2, 0, events, j);
    D.FinishedTasksDeliver(total, cpus * 2, events, j);
  }

  // ---- Workers and CPUs for calls ----

  ghost predicate IsCall(command: S.Command) {
    command.SubmitTask? ==>
      exists taskId, name, payload, returnId :: command.spec == CallSpec(taskId, name, payload, returnId)
  }

  lemma {:induction false} CallsHoldOneCpuEach(jobs: seq<S.Job>)
    requires forall j :: 0 <= j < |jobs| ==> Get(jobs[j].spec.required, "CPU") == 1.0
    ensures S.Held(jobs, "CPU") == |W.RunningJobs(jobs)| as real
  {
    if |jobs| > 0 {
      var n := |jobs| - 1;
      CallsHoldOneCpuEach(jobs[..n]);
      if jobs[n].running {
        assert W.RunningJobs(jobs) == W.RunningJobs(jobs[..n]) + {n};
      } else {
        assert W.RunningJobs(jobs) == W.RunningJobs(jobs[..n]);
      }
    } else {
      assert W.RunningJobs(jobs) == {};
    }
  }

  lemma CallsTakeOneCpuEach(config: RuntimeConfig, events: seq<Event>)
    requires Possible(Start(config), events)
    requires forall i :: 0 <= i < |Exec(Start(config), events).sched.sent| ==> IsCall(Exec(Start(config), events).sched.sent[i])
    ensures var l := Exec(Start(config), events).sched.ledger;
            Get(l.available, "CPU") + |W.RunningJobs(l.jobs)| as real + S.Leased(l.leases, "CPU") == config.numCpus as real
  {
    var total: Quantities := map["CPU" := config.numCpus as real];
    var r := Exec(Start(config), events);
    D.ConservedThroughout(Start(config), events);
    var acts := RunsScheduler(Start(config), events);
    forall j | 0 <= j < |r.sched.ledger.jobs| ensures Get(r.sched.ledger.jobs[j].spec.required, "CPU") == 1.0 {
      T.DispatchedWasSubmitted(total, acts, j);
      var p :| 0 <= p < |r.sched.sent| && r.sched.sent[p] == S.SubmitTask(r.sched.ledger.jobs[j].spec);
      assert IsCall(r.sched.sent[p]);
    }
    CallsHoldOneCpuEach(r.sched.ledger.jobs);
  }

  /** A runtime that is only given function calls and no leases: each call in flight takes exactly one CPU, so at most
      one per CPU is in flight, and every call gets a worker as long as there are at least as many workers as CPUs. */
  lemma CallsAlwaysGetWorkers(config: RuntimeConfig, events: seq<Event>)
    requires config.numCpus <= config.maxWorkers
    requires Possible(Start(config), events) && forall e | e in events :: !e.KillWorker?
    requires var r := Exec(Start(config), events);
             r.sched.ledger.leases == [] && forall i :: 0 <= i < |r.sched.sent| ==> IsCall(r.sched.sent[i])
    ensures var r := Exec(Start(config), events);
            && Get(r.sched.ledger.available, "CPU") == config.numCpus as real - |W.RunningJobs(r.sched.ledger.jobs)| as real
            && |W.RunningJobs(r.sched.ledger.jobs)| <= config.numCpus
            && forall k :: 0 <= k < |r.pool.sessions| ==> !r.pool.sessions[k].Refused?
  {
    var r, total := Exec(Start(config), events), map["CPU" := config.numCpus as real];
    D.ConservedThroughout(Start(config), events);
    CallsTakeOneCpuEach(config, events);
    assert S.NonNegativeDemands(r.sched) && W.CpuDemands(r.sched, 1.0) by {
      forall i | 0 <= i < |r.sched.sent| && r.sched.sent[i].SubmitTask?
        ensures NonNegative(r.sched.sent[i].spec.required) && W.NeedsCpu(r.sched.sent[i].spec, 1.0)
      {
        assert IsCall(r.sched.sent[i]);
      }
    }
    W.NoTaskGoesWithoutWorker(total, config.maxWorkers, config.objectStoreMemory, events, config.numCpus, 1.0);
  }

  /** The default configuration has two workers per CPU and no more: no task that needs at least half a CPU is ever
      left without one, leases or not. */
  lemma DefaultConfigNeverStarves(cpus: nat, events: seq<Event>)
    requires Possible(Start(DefaultConfig(cpus)), events) && forall e | e in events :: !e.KillWorker?
    requires var r := Exec(Start(DefaultConfig(cpus)), events);
             S.NonNegativeDemands(r.sched) && W.CpuDemands(r.sched, 0.5)
    ensures var r := Exec(Start(DefaultConfig(cpus)), events);
            && |r.pool.workers| <= 2 * cpus && |W.RunningJobs(r.sched.ledger.jobs)| <= 2 * cpus
            && forall k :: 0 <= k < |r.pool.sessions| ==> !r.pool.sessions[k].Refused?
  {
    var total: Quantities := map["CPU" := cpus as real];
    assert W.SharesCover(cpus as real, 2 * cpus, 0.5);
    W.NoTaskGoesWithoutWorker(total, cpus * 2, 0, events, 2 * cpus, 0.5);
    var moves := RunsPool(Start(DefaultConfig(cpus)), events);
  }
}
