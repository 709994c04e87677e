/** The single-node runtime: scheduler, worker pool, object store and function registry wired together.

    Each dispatched task walks through get a worker, look up and run its function, write the first return id,
    return the worker, release the resources; every action of every component may fall in between. */
module RuntimeModel {
  import opened Prelude
  import opened Tasks
  import S = SchedulerModel
  import P = WorkerPoolModel
  import O = ObjectStoreModel

  /** A registered function: bytes in, bytes out, or failure (an error or a panic). */
  type TaskFn = Bytes -> Option<Bytes>

  datatype Stage =
    | Waiting                // for a worker (or to be told there is none)
    | Storing(call: nat)     // its put is call `call` of the store
    | Returning              // handing its worker back
    | Over

  /** The dispatched task's own record, beside its scheduler job and its pool session. */
  datatype Run = Run(session: nat, stage: Stage, ran: Option<TaskFn>, outcome: Option<Bytes>)

  datatype Runtime = Runtime(
    sched: S.State,
    pool: P.Pool,
    store: O.Store,
    fns: map<string, TaskFn>,
    runs: seq<Run>,
    userPuts: seq<ObjectId>)   // ids put by clients directly

  datatype Event =
    | Loop(act: S.Event)       // any scheduler action except a completion
    | PoolStep(session: nat)   // a get or return in progress
    | KillWorker(target: nat)
    | Execute(job: nat)
    | Stored(job: nat)
    | StartReturn(job: nat)
    | Release(job: nat)
    | StoreStep(op: O.Event)   // a client's operation, or any call of the store advancing
    | Register(name: string, f: TaskFn)
    | Unregister(name: string)

  ghost function Init(total: map<string, real>, maxWorkers: nat, budget: nat): Runtime {
    Runtime(S.Init(total), P.Init(maxWorkers), O.Init(budget), map[], [], [])
  }

  ghost predicate Settled(c: P.Session) {
    c.Holding? || c.Refused?
  }

  ghost predicate Arrived(c: P.Session) {
    c.Arriving? || c.ReadScan? || c.ReadClaim? || c.AwaitWrite? || c.WriteScan? || c.WriteClaim? || Settled(c)
  }

  /** Jobs, runs and pool sessions belong together one to one, and a job's resources are held exactly until its
      run is finished. */
  ghost predicate Matched(jobs: seq<S.Job>, runs: seq<Run>, sessions: seq<P.Session>) {
    && |runs| == |jobs|
    && (forall j :: 0 <= j < |runs| ==> runs[j].session < |sessions|)
    && (forall i, j :: 0 <= i < j < |runs| ==> runs[i].session != runs[j].session)
    && (forall j :: 0 <= j < |runs| ==> (jobs[j].running <==> runs[j].stage != Over))
    && (forall j :: 0 <= j < |runs| ==>
                      match runs[j].stage
                      case Waiting => Arrived(sessions[runs[j].session])
                      case Storing(_) => Settled(sessions[runs[j].session])
                      case Returning => true
                      case Over => sessions[runs[j].session] == P.Gone)
  }

  ghost predicate Linked(r: Runtime) {
    P.WellFormed(r.pool) && Matched(r.sched.ledger.jobs, r.runs, r.pool.sessions)
  }

  ghost predicate Enabled(r: Runtime, e: Event)
    requires Linked(r)
  {
    match e
    case Loop(act) => S.Enabled(r.sched, act) && !act.Complete?
    case PoolStep(k) => P.Enabled(r.pool, P.Advance(k)) && !Settled(r.pool.sessions[k])
    case KillWorker(_) => true
    case Execute(j) => j < |r.runs| && r.runs[j].stage == Waiting && Settled(r.pool.sessions[r.runs[j].session])
    case Stored(j) =>
      && j < |r.runs| && r.runs[j].stage.Storing?
      && r.runs[j].stage.call < |r.store.calls| && r.store.calls[r.runs[j].stage.call].Done?
    case StartReturn(j) => j < |r.runs| && r.runs[j].stage == Returning && Settled(r.pool.sessions[r.runs[j].session])
    case Release(j) => j < |r.runs| && r.runs[j].stage == Returning && r.pool.sessions[r.runs[j].session] == P.Gone
    case StoreStep(op) => O.Enabled(r.store, op)
    case Register(_, _) => true
    case Unregister(_) => true
  }

  /** What running a task produces: the function registered under its name at that moment, applied to its
      payload. */
  ghost function Outcome(f: Option<TaskFn>, spec: TaskSpec): Option<Bytes> {
    if f.Some? then f.value(spec.payload) else None
  }

  ghost function Registered(fns: map<string, TaskFn>, name: string): Option<TaskFn> {
    if name in fns then Some(fns[name]) else None
  }

  ghost function LoopStep(r: Runtime, act: S.Event): Runtime
    requires Linked(r) && S.Enabled(r.sched, act)
  {
    if S.Dispatched(r.sched, act).Some? then
      Runtime(S.Apply(r.sched, act), P.Apply(r.pool, P.Open), r.store, r.fns,
              r.runs + [Run(|r.pool.sessions|, Waiting, None, None)], r.userPuts)
    else
      Runtime(S.Apply(r.sched, act), r.pool, r.store, r.fns, r.runs, r.userPuts)
  }

  ghost function ExecuteStep(r: Runtime, j: nat): Runtime
    requires Linked(r) && j < |r.runs|
  {
    var spec, run := r.sched.ledger.jobs[j].spec, r.runs[j];
    var f := Registered(r.fns, spec.functionName);
    var outcome := Outcome(f, spec);
    if outcome.Some? && spec.returnIds != [] then
      Runtime(r.sched, r.pool, O.Apply(r.store, O.BeginPut(spec.returnIds[0], outcome.value)), r.fns,
              r.runs[j := Run(run.session, Storing(|r.store.calls|), f, outcome)], r.userPuts)
    else
      Runtime(r.sched, r.pool, r.store, r.fns, r.runs[j := Run(run.session, Returning, f, outcome)], r.userPuts)
  }

  ghost function AtStage(r: Runtime, j: nat, stage: Stage): seq<Run>
    requires j < |r.runs|
  {
    r.runs[j := Run(r.runs[j].session, stage, r.runs[j].ran, r.runs[j].outcome)]
  }

  ghost function Next(r: Runtime, e: Event): Runtime
    requires Linked(r) && Enabled(r, e)
  {
    match e
    case Loop(act) => LoopStep(r, act)
    case PoolStep(k) => Runtime(r.sched, P.Apply(r.pool, P.Advance(k)), r.store, r.fns, r.runs, r.userPuts)
    case KillWorker(target) => Runtime(r.sched, P.Apply(r.pool, P.Kill(target)), r.store, r.fns, r.runs, r.userPuts)
    case Execute(j) => ExecuteStep(r, j)
    case Stored(j) => Runtime(r.sched, r.pool, r.store, r.fns, AtStage(r, j, Returning), r.userPuts)
    case StartReturn(j) =>
      Runtime(r.sched, P.Apply(r.pool, P.Advance(r.runs[j].session)), r.store, r.fns, r.runs, r.userPuts)
    case Release(j) =>
      Runtime(S.Apply(r.sched, S.Complete(j)), r.pool, r.store, r.fns, AtStage(r, j, Over), r.userPuts)
    case StoreStep(op) =>
      Runtime(r.sched, r.pool, O.Apply(r.store, op), r.fns, r.runs,
              if op.BeginPut? then r.userPuts + [op.id] else r.userPuts)
    case Register(name, f) => Runtime(r.sched, r.pool, r.store, r.fns[name := f], r.runs, r.userPuts)
    case Unregister(name) => Runtime(r.sched, r.pool, r.store, r.fns - {name}, r.runs, r.userPuts)
  }

  // ---- The links hold throughout ----

  lemma MatchedDispatch(jobs: seq<S.Job>, runs: seq<Run>, sessions: seq<P.Session>, spec: TaskSpec)
    requires Matched(jobs, runs, sessions)
    ensures Matched(jobs + [S.Job(spec, true)], runs + [Run(|sessions|, Waiting, None, None)], sessions + [P.Arriving])
  {
  }

  lemma LoopLinked(r: Runtime, act: S.Event)
    requires Linked(r) && Enabled(r, Loop(act))
    ensures Linked(LoopStep(r, act))
  {
    S.LedgerEffect(r.sched, act);
    if S.Dispatched(r.sched, act).Some? {
      var spec := S.Dispatched(r.sched, act).value;
      MatchedDispatch(r.sched.ledger.jobs, r.runs, r.pool.sessions, spec);
      assert S.Apply(r.sched, act).ledger.jobs == r.sched.ledger.jobs + [S.Job(spec, true)];
    }
  }

  /** What one pool action may do to a session. */
  lemma SessionAfter(p: P.Pool, k: nat, h: nat)
    requires P.WellFormed(p) && P.Enabled(p, P.Advance(k)) && h < |p.sessions|
    ensures |P.Apply(p, P.Advance(k)).sessions| == |p.sessions|
    ensures h != k ==> P.Apply(p, P.Advance(k)).sessions[h] == p.sessions[h]
    ensures Arrived(p.sessions[k]) && !Settled(p.sessions[k]) ==> Arrived(P.Apply(p, P.Advance(k)).sessions[k])
    ensures p.sessions[k] != P.Gone
  {
  }

  lemma PoolLinked(r: Runtime, k: nat)
    requires Linked(r) && P.Enabled(r.pool, P.Advance(k))
    requires Settled(r.pool.sessions[k]) ==>
               forall j :: 0 <= j < |r.runs| && r.runs[j].session == k ==> r.runs[j].stage == Returning
    ensures Linked(Runtime(r.sched, P.Apply(r.pool, P.Advance(k)), r.store, r.fns, r.runs, r.userPuts))
  {
  }

  lemma ReleaseLinked(r: Runtime, j: nat)
    requires Linked(r) && Enabled(r, Release(j))
    ensures S.Enabled(r.sched, S.Complete(j)) && Linked(Next(r, Release(j)))
  {
  }

  lemma KillLinked(r: Runtime, target: nat)
    requires Linked(r)
    ensures Linked(Next(r, KillWorker(target)))
  {
  }

  lemma ExecuteLinked(r: Runtime, j: nat)
    requires Linked(r) && (Enabled(r, Execute(j)) || Enabled(r, Stored(j)))
    ensures Enabled(r, Execute(j)) ==> Linked(ExecuteStep(r, j))
    ensures Linked(Runtime(r.sched, r.pool, r.store, r.fns, AtStage(r, j, Returning), r.userPuts))
  {
  }

  lemma NextLinked(r: Runtime, e: Event)
    requires Linked(r) && Enabled(r, e)
    ensures Linked(Next(r, e))
  {
    match e
    case Loop(act) => LoopLinked(r, act);
    case PoolStep(k) => PoolLinked(r, k);
    case KillWorker(target) => KillLinked(r, target);
    case Execute(j) => ExecuteLinked(r, j);
    case Stored(j) => ExecuteLinked(r, j);
    case StartReturn(j) => PoolLinked(r, r.runs[j].session);
    case Release(j) => ReleaseLinked(r, j);
    case StoreStep(_) =>
    case Register(_, _) =>
    case Unregister(_) =>
  }

  ghost function Apply(r: Runtime, e: Event): (next: Runtime)
    requires Linked(r) && Enabled(r, e)
    ensures Linked(next)
  {
    NextLinked(r, e);
    Next(r, e)
  }

  ghost predicate Possible(r: Runtime, events: seq<Event>)
    requires Linked(r)
    decreases |events|
  {
    events == [] || (Enabled(r, events[0]) && Possible(Apply(r, events[0]), events[1..]))
  }

  ghost function Exec(r: Runtime, events: seq<Event>): (next: Runtime)
    requires Linked(r) && Possible(r, events)
    ensures Linked(next)
    decreases |events|
  {
    if events == [] then r else Exec(Apply(r, events[0]), events[1..])
  }

  lemma {:induction false} RunConcat(r: Runtime, events: seq<Event>, more: seq<Event>)
    requires Linked(r) && Possible(r, events) && Possible(Exec(r, events), more)
    ensures Possible(r, events + more) && Exec(r, events + more) == Exec(Exec(r, events), more)
    decreases |events|, 1
  {
    if events == [] {
      assert events + more == more;
    } else {
      RunConcatStep(r, events, more);
    }
  }

  lemma {:induction false} RunConcatStep(r: Runtime, events: seq<Event>, more: seq<Event>)
    requires Linked(r) && events != [] && Possible(r, events) && Possible(Exec(r, events), more)
    ensures Possible(r, events + more) && Exec(r, events + more) == Exec(Exec(r, events), more)
    decreases |events|, 0
  {
    assert (events + more)[1..] == events[1..] + more;
    RunConcat(Apply(r, events[0]), events[1..], more);
  }

  // ---- Every run of the runtime is a run of each component ----

  ghost function SchedulerAct(e: Event): Option<S.Event> {
    match e
    case Loop(act) => Some(act)
    case Release(j) => Some(S.Complete(j))
    case _ => None
  }

  ghost function PoolMove(r: Runtime, e: Event): Option<P.Event>
    requires Linked(r) && Enabled(r, e)
  {
    match e
    case Loop(act) => if S.Dispatched(r.sched, act).Some? then Some(P.Open) else None
    case PoolStep(k) => Some(P.Advance(k))
    case KillWorker(target) => Some(P.Kill(target))
    case StartReturn(j) => Some(P.Advance(r.runs[j].session))
    case _ => None
  }

  ghost function StoreOp(r: Runtime, e: Event): Option<O.Event>
    requires Linked(r) && Enabled(r, e)
  {
    match e
    case StoreStep(op) => Some(op)
    case Execute(j) =>
      var spec := r.sched.ledger.jobs[j].spec;
      var outcome := Outcome(Registered(r.fns, spec.functionName), spec);
      if outcome.Some? && spec.returnIds != [] then Some(O.BeginPut(spec.returnIds[0], outcome.value)) else None
    case _ => None
  }

  lemma SchedulerPart(r: Runtime, e: Event)
    requires Linked(r) && Enabled(r, e)
    ensures match SchedulerAct(e)
            case Some(act) => S.Enabled(r.sched, act) && Next(r, e).sched == S.Apply(r.sched, act)
            case None => Next(r, e).sched == r.sched
  {
  }

  lemma PoolPart(r: Runtime, e: Event)
    requires Linked(r) && Enabled(r, e)
    ensures match PoolMove(r, e)
            case Some(move) => P.Enabled(r.pool, move) && Next(r, e).pool == P.Apply(r.pool, move)
            case None => Next(r, e).pool == r.pool
  {
  }

  lemma StorePart(r: Runtime, e: Event)
    requires Linked(r) && Enabled(r, e)
    ensures match StoreOp(r, e)
            case Some(op) => O.Enabled(r.store, op) && Next(r, e).store == O.Apply(r.store, op)
            case None => Next(r, e).store == r.store
  {
  }

  /** So the claims about every scheduler run hold in every run of the runtime. */
  lemma {:induction false} RunsScheduler(r: Runtime, events: seq<Event>) returns (acts: seq<S.Event>)
    requires Linked(r) && Possible(r, events)
    ensures S.Possible(r.sched, acts) && S.Exec(r.sched, acts) == Exec(r, events).sched
    decreases |events|
  {
    if events == [] {
      acts := [];
    } else {
      SchedulerPart(r, events[0]);
      acts := RunsScheduler(Apply(r, events[0]), events[1..]);
      if SchedulerAct(events[0]).Some? {
        var rest := acts;
        acts := [SchedulerAct(events[0]).value] + rest;
        assert acts[1..] == rest;
      }
    }
  }

  lemma {:induction false} RunsPool(r: Runtime, events: seq<Event>) returns (moves: seq<P.Event>)
    requires Linked(r) && Possible(r, events)
    ensures P.Possible(r.pool, moves) && P.Exec(r.pool, moves) == Exec(r, events).pool
    decreases |events|
  {
    if events == [] {
      moves := [];
    } else {
      PoolPart(r, events[0]);
      moves := RunsPool(Apply(r, events[0]), events[1..]);
      if PoolMove(r, events[0]).Some? {
        var rest := moves;
        moves := [PoolMove(r, events[0]).value] + rest;
        assert moves[1..] == rest;
      }
    }
  }

  lemma {:induction false} RunsStore(r: Runtime, events: seq<Event>) returns (ops: seq<O.Event>)
    requires Linked(r) && Possible(r, events)
    ensures O.Possible(r.store, ops) && O.Exec(r.store, ops) == Exec(r, events).store
    decreases |events|
  {
    if events == [] {
      ops := [];
    } else {
      StorePart(r, events[0]);
      ops := RunsStore(Apply(r, events[0]), events[1..]);
      if StoreOp(r, events[0]).Some? {
        var rest := ops;
        ops := [StoreOp(r, events[0]).value] + rest;
        assert ops[1..] == rest;
      }
    }
  }
}
