/** Enough workers for everyone: with at least one CPU per task the pool never refuses a dispatched task. */
module RuntimeWorkers {
  import opened Prelude
  import opened ResourceSets
  import opened Tasks
  import opened RuntimeModel
  import S = SchedulerModel
  import P = WorkerPoolModel
  import R = SchedulerResources
  import W = WorkerPoolSafety

  // ---- Tasks in flight are bounded by the CPUs ----

  ghost predicate NeedsCpu(spec: TaskSpec, share: real) {
    Get(spec.required, "CPU") >= share
  }

  ghost predicate CpuDemands(s: S.State, share: real) {
    forall i :: 0 <= i < |s.sent| && s.sent[i].SubmitTask? ==> NeedsCpu(s.sent[i].spec, share)
  }

  ghost predicate AllNeedCpu(s: S.State, share: real) {
    && (forall t | t in s.queue :: NeedsCpu(t, share))
    && (forall j :: 0 <= j < |s.ledger.jobs| ==> NeedsCpu(s.ledger.jobs[j].spec, share))
  }

  ghost function RunningJobs(jobs: seq<S.Job>): set<nat> {
    set j: nat | j < |jobs| && jobs[j].running
  }

  /** `slots` shares make up at least `cpu`. */
  ghost predicate SharesCover(cpu: real, slots: nat, share: real) {
    share > 0.0 && cpu <= slots as real * share
  }

  ghost function Times(n: nat, share: real): real {
    if n == 0 then 0.0 else Times(n - 1, share) + share
  }

  lemma {:induction false} TimesIsProduct(n: nat, share: real)
    ensures Times(n, share) == n as real * share
  {
    if n > 0 {
      TimesIsProduct(n - 1, share);
      OneMore((n - 1) as real, share);
    }
  }

  lemma OneMore(x: real, share: real)
    ensures (x + 1.0) * share == x * share + share
  {
  }

  lemma {:induction false} TimesGrows(n: nat, slots: nat, share: real)
    requires slots < n && share > 0.0
    ensures Times(slots, share) < Times(n, share)
  {
    if slots + 1 < n {
      TimesGrows(n - 1, slots, share);
    }
  }

  lemma {:induction false} RunningCostCpu(jobs: seq<S.Job>, share: real)
    requires forall j :: 0 <= j < |jobs| ==> NeedsCpu(jobs[j].spec, share)
    ensures Times(|RunningJobs(jobs)|, share) <= S.Held(jobs, "CPU")
  {
    if |jobs| > 0 {
      var n := |jobs| - 1;
      RunningCostCpu(jobs[..n], share);
      if jobs[n].running {
        assert RunningJobs(jobs) == RunningJobs(jobs[..n]) + {n};
      } else {
        assert RunningJobs(jobs) == RunningJobs(jobs[..n]);
      }
    } else {
      assert RunningJobs(jobs) == {};
    }
  }

  lemma FewerShares(n: nat, slots: nat, share: real, cpu: real)
    requires SharesCover(cpu, slots, share) && Times(n, share) <= cpu
    ensures n <= slots
  {
    TimesIsProduct(slots, share);
    if n > slots {
      TimesGrows(n, slots, share);
    }
  }

  lemma RunningWithinCpus(s: S.State, slots: nat, share: real)
    requires R.Sound(s.ledger) && AllNeedCpu(s, share) && SharesCover(Get(s.ledger.total, "CPU"), slots, share)
    ensures |RunningJobs(s.ledger.jobs)| <= slots
  {
    RunningCostCpu(s.ledger.jobs, share);
    R.LeasedNonNegative(s.ledger.leases, "CPU");
    FewerShares(|RunningJobs(s.ledger.jobs)|, slots, share, Get(s.ledger.total, "CPU"));
  }

  lemma AllNeedCpuStep(s: S.State, e: S.Event, share: real)
    requires AllNeedCpu(s, share) && S.Enabled(s, e) && CpuDemands(S.Apply(s, e), share)
    ensures AllNeedCpu(S.Apply(s, e), share) && CpuDemands(s, share)
  {
    R.QueueEffect(s, e);
    S.LedgerEffect(s, e);
    S.ChannelEffect(s, e);
    var next := S.Apply(s, e);
    assert forall i :: 0 <= i < |s.sent| ==> next.sent[i] == s.sent[i];
    if S.Dispatched(s, e).Some? && e.TryNext? {
      assert s.queue[s.loop.next] in s.queue;
    }
  }

  // ---- The composed invariant ----

  ghost predicate Fed(s: S.State, slots: nat, share: real) {
    R.Bounded(s) && AllNeedCpu(s, share) && SharesCover(Get(s.ledger.total, "CPU"), slots, share)
  }

  lemma FedStep(s: S.State, e: S.Event, slots: nat, share: real)
    requires Fed(s, slots, share) && S.Enabled(s, e) && S.NonNegativeDemands(S.Apply(s, e)) && CpuDemands(S.Apply(s, e), share)
    ensures Fed(S.Apply(s, e), slots, share)
    ensures S.NonNegativeDemands(s) && CpuDemands(s, share)
  {
    R.BoundedStep(s, e);
    R.DemandsEarlier(s, e);
    AllNeedCpuStep(s, e, share);
    S.LedgerEffect(s, e);
  }

  ghost predicate Manned(r: Runtime, slots: nat, share: real) {
    && Linked(r)
    && Fed(r.sched, slots, share)
    && W.Unstarved(r.pool, slots) && slots <= r.pool.max
    && |r.pool.sessions| == |r.runs|
    && (forall j :: 0 <= j < |r.runs| ==> r.runs[j].session == j)
  }

  lemma FewLive(r: Runtime, slots: nat, share: real)
    requires Manned(r, slots, share)
    ensures |W.Live(r.pool)| <= slots
  {
    RunningWithinCpus(r.sched, slots, share);
    forall k | k in W.Live(r.pool) ensures k in RunningJobs(r.sched.ledger.jobs) {
      assert r.runs[k].session == k;
    }
    W.SubsetSize(W.Live(r.pool), RunningJobs(r.sched.ledger.jobs));
  }

  lemma PoolManned(r: Runtime, k: nat, slots: nat, share: real)
    requires Manned(r, slots, share) && P.Enabled(r.pool, P.Advance(k))
    ensures W.Unstarved(P.Apply(r.pool, P.Advance(k)), slots)
    ensures |P.Apply(r.pool, P.Advance(k)).sessions| == |r.pool.sessions|
  {
    FewLive(r, slots, share);
    W.UnstarvedStep(r.pool, P.Advance(k), slots);
    SessionAfter(r.pool, k, k);
  }

  lemma OpenManned(r: Runtime, slots: nat, share: real)
    requires Manned(r, slots, share)
    ensures W.Unstarved(P.Apply(r.pool, P.Open), slots)
    ensures |P.Apply(r.pool, P.Open).sessions| == |r.pool.sessions| + 1 && P.Apply(r.pool, P.Open).max == r.pool.max
  {
    FewLive(r, slots, share);
    W.UnstarvedStep(r.pool, P.Open, slots);
  }

  lemma LoopManned(r: Runtime, act: S.Event, slots: nat, share: real)
    requires Manned(r, slots, share) && Enabled(r, Loop(act))
    requires S.NonNegativeDemands(S.Apply(r.sched, act)) && CpuDemands(S.Apply(r.sched, act), share)
    ensures Manned(LoopStep(r, act), slots, share)
  {
    FedStep(r.sched, act, slots, share);
    LoopLinked(r, act);
    OpenManned(r, slots, share);
  }

  lemma ReleaseManned(r: Runtime, j: nat, slots: nat, share: real)
    requires Manned(r, slots, share) && Enabled(r, Release(j))
    requires S.NonNegativeDemands(Apply(r, Release(j)).sched) && CpuDemands(Apply(r, Release(j)).sched, share)
    ensures Manned(Apply(r, Release(j)), slots, share)
  {
    ReleaseLinked(r, j);
    FedStep(r.sched, S.Complete(j), slots, share);
  }

  /** Events that touch neither the scheduler nor the pool. */
  ghost predicate Inner(e: Event) {
    e.Execute? || e.Stored? || e.StoreStep? || e.Register? || e.Unregister?
  }

  lemma InnerEffect(r: Runtime, e: Event)
    requires Linked(r) && Enabled(r, e) && Inner(e)
    ensures Next(r, e).sched == r.sched && Next(r, e).pool == r.pool && |Next(r, e).runs| == |r.runs|
    ensures forall j :: 0 <= j < |r.runs| ==> Next(r, e).runs[j].session == r.runs[j].session
  {
  }

  lemma InnerManned(r: Runtime, e: Event, slots: nat, share: real)
    requires Manned(r, slots, share) && Enabled(r, e) && Inner(e)
    ensures Manned(Next(r, e), slots, share)
  {
    NextLinked(r, e);
    InnerEffect(r, e);
  }

  lemma SessionStepManned(r: Runtime, e: Event, slots: nat, share: real)
    requires Manned(r, slots, share) && Enabled(r, e) && (e.PoolStep? || e.StartReturn?)
    ensures Manned(Next(r, e), slots, share)
  {
    NextLinked(r, e);
    PoolManned(r, if e.PoolStep? then e.session else r.runs[e.job].session, slots, share);
  }

  lemma MannedStep(r: Runtime, e: Event, slots: nat, share: real)
    requires Manned(r, slots, share) && Enabled(r, e) && !e.KillWorker?
    requires S.NonNegativeDemands(Apply(r, e).sched) && CpuDemands(Apply(r, e).sched, share)
    ensures Manned(Apply(r, e), slots, share)
  {
    if e.Loop? {
      LoopManned(r, e.act, slots, share);
    } else if e.Release? {
      ReleaseManned(r, e.job, slots, share);
    } else if Inner(e) {
      InnerManned(r, e, slots, share);
    } else {
      SessionStepManned(r, e, slots, share);
    }
  }

  lemma SchedEarlier(r: Runtime, e: Event, share: real)
    requires Linked(r) && Enabled(r, e)
    ensures S.NonNegativeDemands(Next(r, e).sched) ==> S.NonNegativeDemands(r.sched)
    ensures CpuDemands(Next(r, e).sched, share) ==> CpuDemands(r.sched, share)
  {
    SchedulerPart(r, e);
    if SchedulerAct(e).Some? {
      var act := SchedulerAct(e).value;
      S.ChannelEffect(r.sched, act);
      assert forall i :: 0 <= i < |r.sched.sent| ==> S.Apply(r.sched, act).sent[i] == r.sched.sent[i];
      if S.NonNegativeDemands(S.Apply(r.sched, act)) {
        R.DemandsEarlier(r.sched, act);
      }
    }
  }

  lemma {:induction false} MannedRun(r: Runtime, events: seq<Event>, slots: nat, share: real)
    requires Manned(r, slots, share) && Possible(r, events)
    requires forall e | e in events :: !e.KillWorker?
    requires S.NonNegativeDemands(Exec(r, events).sched) && CpuDemands(Exec(r, events).sched, share)
    ensures Manned(Exec(r, events), slots, share)
    decreases |events|
  {
    if events != [] {
      var next := Apply(r, events[0]);
      assert events[0] in events;
      assert forall e | e in events[1..] :: e in events;
      DemandsBefore(next, events[1..], share);
      MannedStep(r, events[0], slots, share);
      MannedRun(next, events[1..], slots, share);
    }
  }

  lemma {:induction false} DemandsBefore(r: Runtime, events: seq<Event>, share: real)
    requires Linked(r) && Possible(r, events)
    requires S.NonNegativeDemands(Exec(r, events).sched) && CpuDemands(Exec(r, events).sched, share)
    ensures S.NonNegativeDemands(r.sched) && CpuDemands(r.sched, share)
    decreases |events|
  {
    if events != [] {
      DemandsBefore(Apply(r, events[0]), events[1..], share);
      SchedEarlier(r, events[0], share);
    }
  }

  /** With non-negative requirements, at least some share of a CPU per submitted task, no kills, and at least as many
      workers as shares that make up the CPUs, every run has at most that many tasks in flight and `get_worker` never
      answers None, even though returns take no lock and idle workers are claimed in two steps; every busy worker is
      in a caller's hands. */
  lemma NoTaskGoesWithoutWorker(total: Quantities, maxWorkers: nat, budget: nat, events: seq<Event>, slots: nat, share: real)
    requires Possible(Init(total, maxWorkers, budget), events)
    requires forall e | e in events :: !e.KillWorker?
    requires SharesCover(Get(total, "CPU"), slots, share) && slots <= maxWorkers
    requires var r := Exec(Init(total, maxWorkers, budget), events);
             S.NonNegativeDemands(r.sched) && CpuDemands(r.sched, share)
    ensures var r := Exec(Init(total, maxWorkers, budget), events);
            && |RunningJobs(r.sched.ledger.jobs)| <= slots
            && (forall k :: 0 <= k < |r.pool.sessions| ==> !r.pool.sessions[k].Refused?)
            && forall w :: 0 <= w < |r.pool.cells| && r.pool.cells[w] == P.Busy ==> W.Held(r.pool, w)
  {
    var r := Init(total, maxWorkers, budget);
    DemandsBefore(r, events, share);
    InitManned(total, maxWorkers, budget, slots, share);
    MannedRun(r, events, slots, share);
    RunningWithinCpus(Exec(r, events).sched, slots, share);
  }

  lemma InitManned(total: Quantities, maxWorkers: nat, budget: nat, slots: nat, share: real)
    requires NonNegative(total) && SharesCover(Get(total, "CPU"), slots, share) && slots <= maxWorkers
    ensures Manned(Init(total, maxWorkers, budget), slots, share)
  {
  }
}
