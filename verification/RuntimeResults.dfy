/** End to end: what a finished task leaves behind in the object store and in the resource pool. */
module RuntimeResults {
  import opened Prelude
  import opened ResourceSets
  import opened Tasks
  import opened RuntimeModel
  import S = SchedulerModel
  import O = ObjectStoreModel
  import R = SchedulerResources
  import Q = SchedulerProgress
  import V = ObjectStoreSafety

  // ---- Resources across whole tasks ----

  lemma ConservedThroughout(r: Runtime, events: seq<Event>)
    requires Linked(r) && R.Conserved(r.sched.ledger) && Possible(r, events)
    ensures R.Conserved(Exec(r, events).sched.ledger)
    ensures Exec(r, events).sched.ledger.total == r.sched.ledger.total
  {
    var acts := RunsScheduler(r, events);
    R.ConservedRun(r.sched, acts);
  }

  /** However its tasks ended, a runtime whose dispatched tasks have all finished has every resource back except
      what it has leased. */
  lemma FinishedTasksReleaseEverything(total: Quantities, maxWorkers: nat, budget: nat, events: seq<Event>, name: string)
    requires Possible(Init(total, maxWorkers, budget), events)
    requires var r := Exec(Init(total, maxWorkers, budget), events);
             forall j :: 0 <= j < |r.runs| ==> r.runs[j].stage == Over
    ensures var l := Exec(Init(total, maxWorkers, budget), events).sched.ledger;
            Get(l.available, name) == Get(total, name) - S.Leased(l.leases, name)
  {
    ConservedThroughout(Init(total, maxWorkers, budget), events);
    Q.IdlePoolIsFull(Exec(Init(total, maxWorkers, budget), events).sched.ledger);
  }

  // ---- Results ----

  ghost predicate Produces(spec: TaskSpec, run: Run, item: (ObjectId, Bytes)) {
    run.outcome == Some(item.1) && spec.returnIds != [] && spec.returnIds[0] == item.0
  }

  /** Clients and tasks use different ids: first return ids of dispatched tasks are distinct, clients never put
      under one of them, and clients never put under one id twice. */
  ghost predicate OwnIds(jobs: seq<S.Job>, userPuts: seq<ObjectId>) {
    && (forall i, j :: 0 <= i < j < |jobs| && jobs[i].spec.returnIds != [] && jobs[j].spec.returnIds != [] ==>
                         jobs[i].spec.returnIds[0] != jobs[j].spec.returnIds[0])
    && (forall i, u :: 0 <= i < |jobs| && jobs[i].spec.returnIds != [] && 0 <= u < |userPuts| ==>
                         jobs[i].spec.returnIds[0] != userPuts[u])
    && (forall u, v :: 0 <= u < v < |userPuts| ==> userPuts[u] != userPuts[v])
  }

  /** Call `c` of the store is the put of `data` under `id`: under way, or done with the object present. */
  ghost predicate PutUnderWay(s: O.Store, c: nat, id: ObjectId, data: Bytes) {
    && c < |s.calls|
    && (s.calls[c] == O.PutCheck(id, data) || s.calls[c] == O.PutInsert(id, data) || (s.calls[c] == O.Done(true) && id in s.objects))
  }

  ghost predicate RunOk(s: O.Store, spec: TaskSpec, run: Run) {
    && (match run.stage
        case Waiting => run.ran.None? && run.outcome.None?
        case Storing(c) => run.outcome.Some? && spec.returnIds != [] && PutUnderWay(s, c, spec.returnIds[0], run.outcome.value)
        case Returning => run.outcome.Some? && spec.returnIds != [] ==> spec.returnIds[0] in s.objects
        case Over => run.outcome.Some? && spec.returnIds != [] ==> spec.returnIds[0] in s.objects)
    && (run.stage != Waiting ==> run.outcome == Outcome(run.ran, spec))
    && (run.outcome.Some? && spec.returnIds != [] ==> (spec.returnIds[0], run.outcome.value) in s.begun)
  }

  ghost predicate StoreOk(s: O.Store) {
    V.Genuine(s) && V.Counted(s) && s.budget == 0 && V.WriteOnce(s.begun)
  }

  /** Every put ever begun came from a client or from exactly the task whose result it is. */
  ghost predicate Origins(r: Runtime)
    requires |r.runs| == |r.sched.ledger.jobs|
  {
    forall i :: 0 <= i < |r.store.begun| ==>
                  || r.store.begun[i].0 in r.userPuts
                  || exists j :: 0 <= j < |r.runs| && Produces(r.sched.ledger.jobs[j].spec, r.runs[j], r.store.begun[i])
  }

  ghost predicate RunsOk(r: Runtime)
    requires |r.runs| == |r.sched.ledger.jobs|
  {
    forall j :: 0 <= j < |r.runs| ==> RunOk(r.store, r.sched.ledger.jobs[j].spec, r.runs[j])
  }

  ghost predicate Delivering(r: Runtime) {
    Linked(r) && StoreOk(r.store) && Origins(r) && RunsOk(r)
  }

  /** Nothing is deleted and no reference is given up. */
  ghost predicate Keeps(op: O.Event) {
    !op.Delete? && !op.RemoveReference?
  }

  lemma StoreKeepsObjects(s: O.Store, op: O.Event)
    requires V.Counted(s) && O.Enabled(s, op) && Keeps(op)
    ensures forall id | id in s.objects :: id in O.Apply(s, op).objects
    ensures O.Apply(s, op).budget == s.budget && s.begun <= O.Apply(s, op).begun
  {
  }

  lemma RunStaysOk(s: O.Store, op: O.Event, spec: TaskSpec, run: Run)
    requires V.Counted(s) && s.budget == 0 && O.Enabled(s, op) && Keeps(op) && RunOk(s, spec, run)
    ensures RunOk(O.Apply(s, op), spec, run)
  {
  }

  lemma StoreStaysOk(s: O.Store, op: O.Event)
    requires StoreOk(s) && O.Enabled(s, op) && Keeps(op)
    requires op.BeginPut? ==> forall i :: 0 <= i < |s.begun| ==> s.begun[i].0 != op.id
    ensures StoreOk(O.Apply(s, op))
  {
    V.GenuineStep(s, op);
    V.CountedStep(s, op);
    StoreKeepsObjects(s, op);
  }

  // ---- Preservation ----

  lemma ClientStepDelivers(r: Runtime, op: O.Event)
    requires Delivering(r) && Enabled(r, StoreStep(op)) && Keeps(op)
    requires OwnIds(r.sched.ledger.jobs, Next(r, StoreStep(op)).userPuts)
    ensures StoreOk(Next(r, StoreStep(op)).store) && RunsOk(Next(r, StoreStep(op)))
  {
    var next := Next(r, StoreStep(op));
    if op.BeginPut? {
      forall i | 0 <= i < |r.store.begun| ensures r.store.begun[i].0 != op.id {
        assert next.userPuts[|r.userPuts|] == op.id;
        if r.store.begun[i].0 in r.userPuts {
          var u :| 0 <= u < |r.userPuts| && r.userPuts[u] == r.store.begun[i].0;
          assert next.userPuts[u] == r.userPuts[u];
        } else {
          var j :| 0 <= j < |r.runs| && Produces(r.sched.ledger.jobs[j].spec, r.runs[j], r.store.begun[i]);
        }
      }
    }
    StoreStaysOk(r.store, op);
    forall j | 0 <= j < |r.runs| ensures RunOk(next.store, r.sched.ledger.jobs[j].spec, r.runs[j]) {
      RunStaysOk(r.store, op, r.sched.ledger.jobs[j].spec, r.runs[j]);
    }
  }

  lemma ClientStepOrigins(r: Runtime, op: O.Event)
    requires Delivering(r) && Enabled(r, StoreStep(op))
    ensures Origins(Next(r, StoreStep(op)))
  {
  }

  /** A put that a task is about to begin uses an id nobody has put before. */
  lemma ResultIdIsFresh(r: Runtime, j: nat, i: nat)
    requires Delivering(r) && j < |r.runs| && r.runs[j].stage == Waiting && i < |r.store.begun|
    requires OwnIds(r.sched.ledger.jobs, r.userPuts) && r.sched.ledger.jobs[j].spec.returnIds != []
    ensures r.store.begun[i].0 != r.sched.ledger.jobs[j].spec.returnIds[0]
  {
  }

  lemma ExecuteStores(r: Runtime, j: nat)
    requires Delivering(r) && Enabled(r, Execute(j)) && OwnIds(r.sched.ledger.jobs, r.userPuts)
    ensures StoreOk(ExecuteStep(r, j).store) && RunsOk(ExecuteStep(r, j))
  {
    var spec, next := r.sched.ledger.jobs[j].spec, ExecuteStep(r, j);
    var outcome := Outcome(Registered(r.fns, spec.functionName), spec);
    assert RunOk(r.store, spec, r.runs[j]);
    if outcome.Some? && spec.returnIds != [] {
      var op := O.BeginPut(spec.returnIds[0], outcome.value);
      forall i | 0 <= i < |r.store.begun| ensures r.store.begun[i].0 != op.id {
        ResultIdIsFresh(r, j, i);
      }
      StoreStaysOk(r.store, op);
      forall k | 0 <= k < |r.runs| && k != j ensures RunOk(next.store, r.sched.ledger.jobs[k].spec, r.runs[k]) {
        RunStaysOk(r.store, op, r.sched.ledger.jobs[k].spec, r.runs[k]);
      }
      assert next.store.begun[|r.store.begun|] == (spec.returnIds[0], outcome.value);
      assert RunOk(next.store, spec, next.runs[j]);
    }
  }

  lemma ExecuteOrigins(r: Runtime, j: nat)
    requires Delivering(r) && Enabled(r, Execute(j))
    ensures Origins(ExecuteStep(r, j))
  {
  }

  /** The store, the clients' puts and each run's record stay; runs may only move on from storing or returning,
      and new runs wait. */
  ghost predicate Carries(r: Runtime, next: Runtime)
    requires |r.runs| == |r.sched.ledger.jobs| && |next.runs| == |next.sched.ledger.jobs|
  {
    && next.store == r.store && next.userPuts == r.userPuts
    && |r.runs| <= |next.runs|
    && (forall j :: 0 <= j < |r.runs| ==>
                      && next.sched.ledger.jobs[j].spec == r.sched.ledger.jobs[j].spec
                      && next.runs[j].ran == r.runs[j].ran && next.runs[j].outcome == r.runs[j].outcome
                      && (next.runs[j].stage == r.runs[j].stage
                          || (r.runs[j].stage.Storing? && next.runs[j].stage == Returning
                              && r.runs[j].stage.call < |r.store.calls| && r.store.calls[r.runs[j].stage.call].Done?)
                          || (r.runs[j].stage == Returning && next.runs[j].stage == Over)))
    && (forall j :: |r.runs| <= j < |next.runs| ==> next.runs[j].stage == Waiting && next.runs[j].ran.None? && next.runs[j].outcome.None?)
  }

  lemma CarriesDelivers(r: Runtime, next: Runtime)
    requires Delivering(r) && Linked(next) && Carries(r, next)
    ensures Delivering(next)
  {
  }

  lemma LoopCarries(r: Runtime, act: S.Event)
    requires Linked(r) && Enabled(r, Loop(act)) && Linked(LoopStep(r, act))
    ensures Carries(r, LoopStep(r, act))
  {
    S.LedgerEffect(r.sched, act);
  }

  lemma OtherCarries(r: Runtime, e: Event)
    requires Linked(r) && Enabled(r, e) && Linked(Next(r, e))
    requires e.PoolStep? || e.KillWorker? || e.Stored? || e.StartReturn? || e.Register? || e.Unregister?
    ensures Carries(r, Next(r, e))
  {
  }

  lemma ReleaseCarries(r: Runtime, j: nat)
    requires Linked(r) && Enabled(r, Release(j))
    ensures Linked(Next(r, Release(j))) && Carries(r, Next(r, Release(j)))
  {
    ReleaseLinked(r, j);
    S.LedgerEffect(r.sched, S.Complete(j));
  }

  lemma DeliveringStep(r: Runtime, e: Event)
    requires Delivering(r) && Enabled(r, e) && (e.StoreStep? ==> Keeps(e.op))
    requires OwnIds(r.sched.ledger.jobs, Apply(r, e).userPuts)
    ensures Delivering(Apply(r, e))
  {
    NextLinked(r, e);
    if e.StoreStep? {
      ClientStepDelivers(r, e.op);
      ClientStepOrigins(r, e.op);
    } else if e.Execute? {
      ExecuteStores(r, e.job);
      ExecuteOrigins(r, e.job);
    } else {
      if e.Loop? {
        LoopCarries(r, e.act);
      } else if e.Release? {
        ReleaseCarries(r, e.job);
      } else {
        OtherCarries(r, e);
      }
      CarriesDelivers(r, Next(r, e));
    }
  }

  lemma IdsOnlyGrow(r: Runtime, e: Event)
    requires Linked(r) && Enabled(r, e)
    ensures S.Specs(r.sched.ledger.jobs) <= S.Specs(Next(r, e).sched.ledger.jobs)
    ensures r.userPuts <= Next(r, e).userPuts
  {
    SchedulerPart(r, e);
    if SchedulerAct(e).Some? {
      S.LedgerEffect(r.sched, SchedulerAct(e).value);
    }
  }

  lemma OwnIdsOfPrefix(jobs: seq<S.Job>, puts: seq<ObjectId>, moreJobs: seq<S.Job>, morePuts: seq<ObjectId>)
    requires S.Specs(jobs) <= S.Specs(moreJobs) && puts <= morePuts && OwnIds(moreJobs, morePuts)
    ensures OwnIds(jobs, puts)
  {
    forall i | 0 <= i < |jobs| ensures jobs[i].spec == moreJobs[i].spec {
      assert S.Specs(jobs)[i] == S.Specs(moreJobs)[i];
    }
  }

  lemma OwnIdsEarlier(r: Runtime, e: Event)
    requires Linked(r) && Enabled(r, e) && OwnIds(Apply(r, e).sched.ledger.jobs, Apply(r, e).userPuts)
    ensures OwnIds(r.sched.ledger.jobs, Apply(r, e).userPuts) && OwnIds(r.sched.ledger.jobs, r.userPuts)
  {
    var next := Next(r, e);
    IdsOnlyGrow(r, e);
    OwnIdsOfPrefix(r.sched.ledger.jobs, next.userPuts, next.sched.ledger.jobs, next.userPuts);
    OwnIdsOfPrefix(r.sched.ledger.jobs, r.userPuts, next.sched.ledger.jobs, next.userPuts);
  }

  lemma {:induction false} OwnIdsThroughout(r: Runtime, events: seq<Event>)
    requires Linked(r) && Possible(r, events)
    requires OwnIds(Exec(r, events).sched.ledger.jobs, Exec(r, events).userPuts)
    ensures OwnIds(r.sched.ledger.jobs, r.userPuts)
    decreases |events|
  {
    if events != [] {
      OwnIdsThroughout(Apply(r, events[0]), events[1..]);
      OwnIdsEarlier(r, events[0]);
    }
  }

  lemma {:induction false} DeliveringRun(r: Runtime, events: seq<Event>)
    requires Delivering(r) && Possible(r, events)
    requires forall e | e in events :: e.StoreStep? ==> Keeps(e.op)
    requires OwnIds(Exec(r, events).sched.ledger.jobs, Exec(r, events).userPuts)
    ensures Delivering(Exec(r, events))
    decreases |events|
  {
    if events != [] {
      assert events[0] in events;
      assert forall e | e in events[1..] :: e in events;
      OwnIdsThroughout(Apply(r, events[0]), events[1..]);
      OwnIdsEarlier(r, events[0]);
      DeliveringStep(r, events[0]);
      DeliveringRun(Apply(r, events[0]), events[1..]);
    }
  }

  /** With an unlimited budget, ids of its own for every result and client put, and no deletes or reference
      removals, in every interleaving each finished task has been run with the function registered at that
      moment; if that function succeeded, the task's first return id holds exactly its result, and if it failed,
      nothing is stored under that id. */
  lemma FinishedTasksDeliver(total: Quantities, maxWorkers: nat, events: seq<Event>, j: nat)
    requires Possible(Init(total, maxWorkers, 0), events)
    requires forall e | e in events :: e.StoreStep? ==> Keeps(e.op)
    requires var r := Exec(Init(total, maxWorkers, 0), events);
             OwnIds(r.sched.ledger.jobs, r.userPuts) && j < |r.runs| && r.runs[j].stage == Over
    ensures var r := Exec(Init(total, maxWorkers, 0), events);
            var spec, run := r.sched.ledger.jobs[j].spec, r.runs[j];
            && run.outcome == Outcome(run.ran, spec)
            && (spec.returnIds != [] ==>
                  var id := spec.returnIds[0];
                  match run.outcome
                  case Some(bytes) => id in r.store.objects && r.store.objects[id].data == bytes
                  case None => id !in r.store.objects)
  {
    var r := Exec(Init(total, maxWorkers, 0), events);
    DeliveringRun(Init(total, maxWorkers, 0), events);
    var spec, run := r.sched.ledger.jobs[j].spec, r.runs[j];
    assert RunOk(r.store, spec, run);
    if spec.returnIds != [] && spec.returnIds[0] in r.store.objects {
      DeliveredValue(r, j);
    }
  }

  lemma DeliveredValue(r: Runtime, j: nat)
    requires Delivering(r) && OwnIds(r.sched.ledger.jobs, r.userPuts) && j < |r.runs|
    requires r.sched.ledger.jobs[j].spec.returnIds != [] && r.sched.ledger.jobs[j].spec.returnIds[0] in r.store.objects
    ensures r.runs[j].outcome == Some(r.store.objects[r.sched.ledger.jobs[j].spec.returnIds[0]].data)
  {
    var id := r.sched.ledger.jobs[j].spec.returnIds[0];
    var item := (id, r.store.objects[id].data);
    assert item in r.store.begun;
    var i :| 0 <= i < |r.store.begun| && r.store.begun[i] == item;
    assert id !in r.userPuts;
    var k :| 0 <= k < |r.runs| && Produces(r.sched.ledger.jobs[k].spec, r.runs[k], r.store.begun[i]);
    assert k == j;
  }
}
