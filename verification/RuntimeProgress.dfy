/** The runtime never gets stuck: whatever its state, the tasks it has dispatched finish within a bounded number of
    actions, however those are interleaved. */
module RuntimeProgress {
  import opened Prelude
  import opened ResourceSets
  import opened Tasks
  import opened RuntimeModel
  import S = SchedulerModel
  import P = WorkerPoolModel
  import O = ObjectStoreModel
  import L = ObjectStoreLimits
  import Q = SchedulerProgress
  import D = RuntimeResults

  // ---- How many actions are left ----

  ghost function Sum(work: seq<nat>): nat {
    if work == [] then 0 else Sum(work[..|work| - 1]) + work[|work| - 1]
  }

  lemma {:induction false} SumUpdate(work: seq<nat>, k: nat, amount: nat)
    requires k < |work|
    ensures Sum(work[k := amount]) == Sum(work) - work[k] + amount
  {
    var n := |work| - 1;
    if k < n {
      SumUpdate(work[..n], k, amount);
      assert work[k := amount][..n] == work[..n][k := amount];
    } else {
      assert work[k := amount][..n] == work[..n];
    }
  }

  lemma SumAppend(work: seq<nat>, amount: nat)
    ensures Sum(work + [amount]) == Sum(work) + amount
  {
    assert (work + [amount])[..|work|] == work;
  }

  ghost function Left(max: nat, i: nat): nat {
    if i <= max then max - i else 0
  }

  /** Bounds the actions of a session until it is gone; every status it may load and every turn its scans may take
      is accounted for. */
  ghost function SessionWork(max: nat, c: P.Session): nat {
    match c
    case Gone => 0
    case MarkIdle(_) => 1
    case Purging(i, _) => Left(max, i) + 1
    case AwaitPurge => max + 2
    case Killing(_) => max + 3
    case Holding(_) => max + 3
    case Refused => max + 3
    case WriteClaim(_) => max + 4
    case ReadClaim(_) => max + 4
    case WriteScan(i) => Left(max, i) + max + 5
    case AwaitWrite => 2 * max + 6
    case ReadScan(i) => Left(max, i) + 2 * max + 7
    case Arriving => 3 * max + 8
  }

  ghost function CallWork(c: O.Call): nat {
    match c
    case Done(_) => 0
    case PutInsert(_, _) => 1
    case PutRecheck(_, _) => 2
    case PutEvict(_, _) => 3
    case PutCheck(_, _) => 4
    case SpillMark(_, _) => 1
    case SpillWrite(_, _, _) => 2
    case SpillRead(_, _) => 3
    case RestoreClean(_, _) => 1
    case RestoreWrite(_, _, _) => 2
    case RestoreRead(_, _) => 3
    case RestoreLook(_) => 4
  }

  /** Executing a task starts a put of at most four actions. */
  ghost function StageWork(stage: Stage): nat {
    match stage
    case Over => 0
    case Returning => 1
    case Storing(_) => 2
    case Waiting => 7
  }

  ghost function PoolWork(p: P.Pool): nat {
    Sum(seq(|p.sessions|, i requires 0 <= i < |p.sessions| => SessionWork(p.max, p.sessions[i])))
  }

  ghost function StoreWork(s: O.Store): nat {
    Sum(seq(|s.calls|, i requires 0 <= i < |s.calls| => CallWork(s.calls[i])))
  }

  ghost function RunsWork(runs: seq<Run>): nat {
    Sum(seq(|runs|, i requires 0 <= i < |runs| => StageWork(runs[i].stage)))
  }

  ghost function Work(r: Runtime): nat {
    PoolWork(r.pool) + StoreWork(r.store) + RunsWork(r.runs)
  }

  /** Actions that bring dispatched tasks, pool calls or store calls forward and start nothing new. */
  ghost predicate Finishing(e: Event) {
    e.PoolStep? || e.Execute? || e.Stored? || e.StartReturn? || e.Release? || (e.StoreStep? && e.op.Advance?)
  }

  // ---- Every such action leaves less to do ----

  lemma SessionWorkShrinks(p: P.Pool, k: nat)
    requires P.WellFormed(p) && P.Enabled(p, P.Advance(k))
    ensures var q := P.Apply(p, P.Advance(k));
            && q.max == p.max && |q.sessions| == |p.sessions|
            && SessionWork(p.max, q.sessions[k]) < SessionWork(p.max, p.sessions[k])
            && forall h :: 0 <= h < |p.sessions| && h != k ==> q.sessions[h] == p.sessions[h]
  {
  }

  lemma PoolWorkShrinks(p: P.Pool, k: nat)
    requires P.WellFormed(p) && P.Enabled(p, P.Advance(k))
    ensures PoolWork(P.Apply(p, P.Advance(k))) < PoolWork(p)
  {
    SessionWorkShrinks(p, k);
    var q := P.Apply(p, P.Advance(k));
    var before := seq(|p.sessions|, i requires 0 <= i < |p.sessions| => SessionWork(p.max, p.sessions[i]));
    var after := seq(|q.sessions|, i requires 0 <= i < |q.sessions| => SessionWork(q.max, q.sessions[i]));
    SumUpdate(before, k, after[k]);
    assert after == before[k := after[k]];
  }

  lemma StoreWorkShrinks(s: O.Store, k: nat)
    requires O.Enabled(s, O.Advance(k))
    ensures StoreWork(O.Apply(s, O.Advance(k))) < StoreWork(s)
  {
    var t := O.Apply(s, O.Advance(k));
    var before := seq(|s.calls|, i requires 0 <= i < |s.calls| => CallWork(s.calls[i]));
    var after := seq(|t.calls|, i requires 0 <= i < |t.calls| => CallWork(t.calls[i]));
    SumUpdate(before, k, after[k]);
    assert after == before[k := after[k]];
  }

  lemma PutAddsWork(s: O.Store, id: ObjectId, data: Bytes)
    ensures StoreWork(O.Apply(s, O.BeginPut(id, data))) == StoreWork(s) + 4
  {
    var t := O.Apply(s, O.BeginPut(id, data));
    var before := seq(|s.calls|, i requires 0 <= i < |s.calls| => CallWork(s.calls[i]));
    var after := seq(|t.calls|, i requires 0 <= i < |t.calls| => CallWork(t.calls[i]));
    SumAppend(before, 4);
    assert after == before + [4];
  }

  lemma RunsWorkUpdate(runs: seq<Run>, j: nat, run: Run)
    requires j < |runs|
    ensures RunsWork(runs[j := run]) == RunsWork(runs) - StageWork(runs[j].stage) + StageWork(run.stage)
  {
    var before := seq(|runs|, i requires 0 <= i < |runs| => StageWork(runs[i].stage));
    var changed := runs[j := run];
    var after := seq(|changed|, i requires 0 <= i < |changed| => StageWork(changed[i].stage));
    SumUpdate(before, j, after[j]);
    assert after == before[j := after[j]];
  }

  lemma ExecuteShrinks(r: Runtime, j: nat)
    requires Linked(r) && Enabled(r, Execute(j))
    ensures Work(ExecuteStep(r, j)) < Work(r)
  {
    var spec := r.sched.ledger.jobs[j].spec;
    var outcome := Outcome(Registered(r.fns, spec.functionName), spec);
    RunsWorkUpdate(r.runs, j, ExecuteStep(r, j).runs[j]);
    if outcome.Some? && spec.returnIds != [] {
      PutAddsWork(r.store, spec.returnIds[0], outcome.value);
    }
  }

  lemma StageShrinks(r: Runtime, j: nat, stage: Stage)
    requires j < |r.runs| && StageWork(stage) < StageWork(r.runs[j].stage)
    ensures RunsWork(AtStage(r, j, stage)) < RunsWork(r.runs)
  {
    RunsWorkUpdate(r.runs, j, AtStage(r, j, stage)[j]);
  }

  lemma WorkShrinks(r: Runtime, e: Event)
    requires Linked(r) && Enabled(r, e) && Finishing(e)
    ensures Work(Apply(r, e)) < Work(r)
  {
    match e
    case PoolStep(k) => PoolWorkShrinks(r.pool, k);
    case Execute(j) => ExecuteShrinks(r, j);
    case Stored(j) => StageShrinks(r, j, Returning);
    case StartReturn(j) => PoolWorkShrinks(r.pool, r.runs[j].session);
    case Release(j) => StageShrinks(r, j, Over);
    case StoreStep(op) => StoreWorkShrinks(r.store, op.call);
  }

  // ---- And while a task is unfinished there is such an action ----

  /** A task that waits for its put waits for a call the store knows. */
  ghost predicate CallsExist(runs: seq<Run>, calls: seq<O.Call>) {
    forall j :: 0 <= j < |runs| && runs[j].stage.Storing? ==> runs[j].stage.call < |calls|
  }

  lemma OnlyExecuteStores(r: Runtime, e: Event)
    requires Linked(r) && Enabled(r, e) && !e.Execute?
    ensures var next := Next(r, e);
            forall j :: 0 <= j < |next.runs| && next.runs[j].stage.Storing? ==>
                          j < |r.runs| && next.runs[j].stage == r.runs[j].stage
  {
  }

  lemma CallsOnlyGrow(r: Runtime, e: Event)
    requires Linked(r) && Enabled(r, e)
    ensures |r.store.calls| <= |Next(r, e).store.calls|
  {
    StorePart(r, e);
    if StoreOp(r, e).Some? {
      L.CallsGrow(r.store, StoreOp(r, e).value);
    }
  }

  lemma CallsExistStep(r: Runtime, e: Event)
    requires Linked(r) && Enabled(r, e) && CallsExist(r.runs, r.store.calls)
    ensures CallsExist(Next(r, e).runs, Next(r, e).store.calls)
  {
    CallsOnlyGrow(r, e);
    if !e.Execute? {
      OnlyExecuteStores(r, e);
    }
  }

  lemma {:induction false} CallsExistRun(r: Runtime, events: seq<Event>)
    requires Linked(r) && Possible(r, events) && CallsExist(r.runs, r.store.calls)
    ensures CallsExist(Exec(r, events).runs, Exec(r, events).store.calls)
    decreases |events|
  {
    if events != [] {
      CallsExistStep(r, events[0]);
      CallsExistRun(Apply(r, events[0]), events[1..]);
    }
  }

  /** The lock never blocks everybody: whoever holds it can move, and with nobody holding it everybody can. */
  lemma SomeSessionMoves(p: P.Pool, k: nat) returns (h: nat)
    requires P.WellFormed(p) && k < |p.sessions| && !Settled(p.sessions[k]) && p.sessions[k] != P.Gone
    ensures P.Enabled(p, P.Advance(h)) && !Settled(p.sessions[h])
  {
    if P.Unlocked(p) {
      h := k;
    } else {
      h :| 0 <= h < |p.sessions| && (P.Reading(p.sessions[h]) || P.Writing(p.sessions[h]));
    }
  }

  lemma SomethingToDo(r: Runtime, j: nat) returns (e: Event)
    requires Linked(r) && CallsExist(r.runs, r.store.calls) && j < |r.runs| && r.runs[j].stage != Over
    ensures Enabled(r, e) && Finishing(e)
  {
    var run := r.runs[j];
    var session := r.pool.sessions[run.session];
    if run.stage.Storing? {
      e := if r.store.calls[run.stage.call].Done? then Stored(j) else StoreStep(O.Advance(run.stage.call));
    } else if Settled(session) {
      e := if run.stage == Waiting then Execute(j) else StartReturn(j);
    } else if session == P.Gone {
      e := Release(j);
    } else {
      var h := SomeSessionMoves(r.pool, run.session);
      e := PoolStep(h);
    }
  }

  ghost predicate AllOver(r: Runtime) {
    forall j :: 0 <= j < |r.runs| ==> r.runs[j].stage == Over
  }

  ghost predicate AllFinishing(events: seq<Event>) {
    forall e | e in events :: Finishing(e)
  }

  lemma {:induction false} FinishingIsBounded(r: Runtime, events: seq<Event>)
    requires Linked(r) && Possible(r, events) && AllFinishing(events)
    ensures |events| + Work(Exec(r, events)) <= Work(r)
    decreases |events|
  {
    if events != [] {
      assert events[0] in events;
      assert forall e | e in events[1..] :: e in events;
      WorkShrinks(r, events[0]);
      FinishingIsBounded(Apply(r, events[0]), events[1..]);
    }
  }

  /** From every reachable state every way of bringing things forward ends: after at most `Work` actions, whoever
      moves when, there is nothing left to bring forward, and there is nothing left only once every dispatched task
      is over. Locks, purges, failing functions and rejected puts included, nothing is ever stuck. */
  lemma DispatchedTasksFinish(total: Quantities, maxWorkers: nat, budget: nat, past: seq<Event>, events: seq<Event>)
    requires Possible(Init(total, maxWorkers, budget), past)
    requires Possible(Exec(Init(total, maxWorkers, budget), past), events) && AllFinishing(events)
    ensures var r := Exec(Init(total, maxWorkers, budget), past);
            && |events| <= Work(r)
            && (AllOver(Exec(r, events)) || exists e :: Enabled(Exec(r, events), e) && Finishing(e))
  {
    var r := Exec(Init(total, maxWorkers, budget), past);
    FinishingIsBounded(r, events);
    CallsExistRun(Init(total, maxWorkers, budget), past);
    CallsExistRun(r, events);
    if !AllOver(Exec(r, events)) {
      var j :| 0 <= j < |Exec(r, events).runs| && Exec(r, events).runs[j].stage != Over;
      var e := SomethingToDo(Exec(r, events), j);
    }
  }

  lemma {:induction false} FinishAll(r: Runtime) returns (events: seq<Event>)
    requires Linked(r) && CallsExist(r.runs, r.store.calls)
    ensures Possible(r, events) && AllFinishing(events) && AllOver(Exec(r, events))
    decreases Work(r)
  {
    if AllOver(r) {
      events := [];
    } else {
      var j :| 0 <= j < |r.runs| && r.runs[j].stage != Over;
      var e := SomethingToDo(r, j);
      WorkShrinks(r, e);
      CallsExistStep(r, e);
      var rest := FinishAll(Apply(r, e));
      events := [e] + rest;
      assert events[1..] == rest;
    }
  }

  /** In particular from every reachable state all dispatched tasks can finish without another command, and then
      everything but the leases is back. */
  lemma EverythingCanFinish(total: Quantities, maxWorkers: nat, budget: nat, past: seq<Event>) returns (events: seq<Event>)
    requires Possible(Init(total, maxWorkers, budget), past)
    ensures var r := Exec(Init(total, maxWorkers, budget), past);
            && Possible(r, events) && AllFinishing(events) && AllOver(Exec(r, events))
            && var l := Exec(r, events).sched.ledger;
            forall name :: Get(l.available, name) == Get(total, name) - S.Leased(l.leases, name)
  {
    var r := Exec(Init(total, maxWorkers, budget), past);
    CallsExistRun(Init(total, maxWorkers, budget), past);
    events := FinishAll(r);
    FinishedIsFull(total, maxWorkers, budget, past, events);
  }

  lemma FinishedIsFull(total: Quantities, maxWorkers: nat, budget: nat, past: seq<Event>, events: seq<Event>)
    requires Possible(Init(total, maxWorkers, budget), past)
    requires Possible(Exec(Init(total, maxWorkers, budget), past), events)
    requires AllOver(Exec(Exec(Init(total, maxWorkers, budget), past), events))
    ensures var l := Exec(Exec(Init(total, maxWorkers, budget), past), events).sched.ledger;
            forall name :: Get(l.available, name) == Get(total, name) - S.Leased(l.leases, name)
  {
    var r := Exec(Init(total, maxWorkers, budget), past);
    D.ConservedThroughout(Init(total, maxWorkers, budget), past);
    D.ConservedThroughout(r, events);
    var l := Exec(r, events).sched.ledger;
    Q.IdlePoolIsFull(l);
  }
}
