/** A call from start to result: it can always be made, and then it delivers. */
module RuntimeCalls {
  import opened Prelude
  import opened ResourceSets
  import opened Tasks
  import opened RuntimeModel
  import opened RuntimeProgress
  import opened LocalRuntime
  import S = SchedulerModel
  import D = RuntimeResults
  import X = RuntimeExecution
  import Y = RuntimeSettling

  lemma OneStep(r: Runtime, e: Event, next: Runtime)
    requires Linked(r) && Enabled(r, e) && Apply(r, e) == next
    ensures Possible(r, [e]) && Exec(r, [e]) == next
  {
    assert [e][1..] == [];
  }

  /** The call's command, once taken by an otherwise unused runtime, is dispatched. */
  lemma CallIsDispatched(r: Runtime, spec: TaskSpec) returns (next: Runtime, events: seq<Event>)
    requires Linked(r) && r.runs == [] && r.sched.ledger.jobs == [] && r.userPuts == [] && r.sched.sent == [] && r.sched.handled == 0
    requires r.sched.loop.Receiving? && CanSatisfy(r.sched.ledger.available, spec.required)
    ensures events == [Loop(S.Send(S.SubmitTask(spec)))] + [Loop(S.Receive)]
    ensures Possible(r, events) && Exec(r, events) == next
    ensures |next.runs| == 1 && next.runs[0].stage == Waiting && next.sched.ledger.jobs == [S.Job(spec, true)]
    ensures next.sched.sent == [S.SubmitTask(spec)] && next.userPuts == []
  {
    var send, take := Loop(S.Send(S.SubmitTask(spec))), Loop(S.Receive);
    var sent := Apply(r, send);
    assert S.Fits(S.StartDrain(sent.sched.ledger), spec.required);
    next := Apply(sent, take);
    OneStep(r, send, sent);
    OneStep(sent, take, next);
    RunConcat(r, [send], [take]);
    events := [send] + [take];
  }

  lemma FinishingStepStartsNothing(r: Runtime, e: Event)
    requires Linked(r) && Enabled(r, e) && Finishing(e)
    ensures |Next(r, e).runs| == |r.runs| && Next(r, e).userPuts == r.userPuts
    ensures S.Specs(Next(r, e).sched.ledger.jobs) == S.Specs(r.sched.ledger.jobs)
  {
    if e.Release? {
      ReleaseLinked(r, e.job);
      S.LedgerEffect(r.sched, S.Complete(e.job));
    }
  }

  lemma {:induction false} FinishingStartsNothing(r: Runtime, events: seq<Event>)
    requires Linked(r) && Possible(r, events) && AllFinishing(events)
    ensures |Exec(r, events).runs| == |r.runs| && Exec(r, events).userPuts == r.userPuts
    ensures S.Specs(Exec(r, events).sched.ledger.jobs) == S.Specs(r.sched.ledger.jobs)
    decreases |events|
  {
    if events != [] {
      assert events[0] in events;
      assert forall e | e in events[1..] :: e in events;
      FinishingStepStartsNothing(r, events[0]);
      FinishingStartsNothing(Apply(r, events[0]), events[1..]);
    }
  }

  /** What is left of a runtime whose only task was `spec`. */
  ghost predicate HasRun(end: Runtime, spec: TaskSpec) {
    && |end.runs| == 1 && end.runs[0].stage == Over && end.userPuts == []
    && S.Specs(end.sched.ledger.jobs) == [spec] && end.sched.sent == [S.SubmitTask(spec)]
  }

  lemma CallFinishesFrom(r: Runtime, spec: TaskSpec) returns (submit: seq<Event>, finish: seq<Event>)
    requires Linked(r) && r.runs == [] && r.sched.ledger.jobs == [] && r.userPuts == [] && r.sched.sent == [] && r.sched.handled == 0
    requires r.sched.loop.Receiving? && CanSatisfy(r.sched.ledger.available, spec.required)
    ensures submit == [Loop(S.Send(S.SubmitTask(spec)))] + [Loop(S.Receive)] && AllFinishing(finish)
    ensures Possible(r, submit + finish) && HasRun(Exec(r, submit + finish), spec)
  {
    var next;
    next, submit := CallIsDispatched(r, spec);
    finish := FinishAll(next);
    FinishingStartsNothing(next, finish);
    Y.FinishingKeepsLoop(next, finish);
    RunConcat(r, submit, finish);
  }

  lemma FreshRuntime(cpus: nat, name: string, f: TaskFn)
    ensures var r := Apply(Start(DefaultConfig(cpus)), Register(name, f));
            && r.runs == [] && r.sched.ledger.jobs == [] && r.userPuts == [] && r.sched.sent == [] && r.sched.handled == 0
            && r.sched.loop.Receiving? && Get(r.sched.ledger.available, "CPU") == cpus as real
  {
  }

  /** Register, submit, take: then everything dispatched finishes. */
  lemma CallFinishes(cpus: nat, f: TaskFn, spec: TaskSpec) returns (events: seq<Event>, finish: seq<Event>)
    requires cpus >= 1 && spec.required == map["CPU" := 1.0]
    ensures AllFinishing(finish) && Possible(Start(DefaultConfig(cpus)), events)
    ensures events == [Register(spec.functionName, f)] + ([Loop(S.Send(S.SubmitTask(spec)))] + [Loop(S.Receive)] + finish)
    ensures HasRun(Exec(Start(DefaultConfig(cpus)), events), spec)
  {
    var register := Register(spec.functionName, f);
    FreshRuntime(cpus, spec.functionName, f);
    var submit;
    submit, finish := CallFinishesFrom(Apply(Start(DefaultConfig(cpus)), register), spec);
    OneStep(Start(DefaultConfig(cpus)), register, Apply(Start(DefaultConfig(cpus)), register));
    RunConcat(Start(DefaultConfig(cpus)), [register], submit + finish);
    events := [register] + (submit + finish);
  }

  lemma OnlyRegistrationCounts(events: seq<Event>, n: nat, name: string, f: TaskFn, g: Option<TaskFn>)
    requires 0 < n <= |events| && events[0] == Register(name, f)
    requires forall i :: 0 < i < |events| ==> !X.Sets(events[i], name)
    requires X.LastSet(events[..n], name, g)
    ensures g == Some(f)
  {
    var m :| && 0 <= m < n && X.UnsetFrom(events[..n], m + 1, name)
             && events[..n][m] == (if g.Some? then Register(name, g.value) else Unregister(name));
    assert X.Sets(events[m], name);
  }

  /** On every machine with a CPU, for every function and payload, some run of a runtime started with the default
      configuration registers the function, submits the call and finishes it, with exactly the function's result, or
      nothing on failure, under the return id. */
  lemma CallCanBeMade(cpus: nat, taskId: TaskId, name: string, f: TaskFn, payload: Bytes, returnId: ObjectId)
      returns (events: seq<Event>)
    requires cpus >= 1
    ensures Possible(Start(DefaultConfig(cpus)), events)
    ensures var objects := Exec(Start(DefaultConfig(cpus)), events).store.objects;
            if f(payload).Some? then returnId in objects && objects[returnId].data == f(payload).value
            else returnId !in objects
  {
    var spec := CallSpec(taskId, name, payload, returnId);
    var finish;
    events, finish := CallFinishes(cpus, f, spec);
    var end := Exec(Start(DefaultConfig(cpus)), events);
    assert S.Specs(end.sched.ledger.jobs)[0] == spec;
    AfterRegistration(events, finish, spec, f);
    var n := CallDelivers(cpus, events, taskId, name, payload, returnId, 0);
    RegisteredThen(cpus, events, n, name, f);
  }

  /** None of the later events deletes, drops a reference or registers anything. */
  lemma AfterRegistration(events: seq<Event>, finish: seq<Event>, spec: TaskSpec, f: TaskFn)
    requires AllFinishing(finish)
    requires events == [Register(spec.functionName, f)] + ([Loop(S.Send(S.SubmitTask(spec)))] + [Loop(S.Receive)] + finish)
    ensures forall e | e in events :: e.StoreStep? ==> D.Keeps(e.op)
    ensures forall i :: 0 < i < |events| ==> !X.Sets(events[i], spec.functionName)
  {
    forall i | 0 < i < |events|
      ensures !X.Sets(events[i], spec.functionName)
    {
      assert i > 2 ==> events[i] == finish[i - 3] && events[i] in finish;
    }
  }

  lemma RegisteredThen(cpus: nat, events: seq<Event>, n: nat, name: string, f: TaskFn)
    requires n < |events| && events[n].Execute? && events[0] == Register(name, f)
    requires forall i :: 0 < i < |events| ==> !X.Sets(events[i], name)
    requires Possible(Start(DefaultConfig(cpus)), events[..n])
    ensures Registered(Exec(Start(DefaultConfig(cpus)), events[..n]).fns, name) == Some(f)
  {
    var total: Quantities := map["CPU" := cpus as real];
    var g := Registered(Exec(Start(DefaultConfig(cpus)), events[..n]).fns, name);
    X.LatestRegistrationCounts(total, cpus * 2, 0, events[..n], name);
    assert n > 0 && X.Sets(events[..n][0], name);
    OnlyRegistrationCounts(events, n, name, f, g);
  }
}
