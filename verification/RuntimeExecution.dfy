/** Each dispatched task is executed once, with the function registered at that moment. */
module RuntimeExecution {
  import opened Prelude
  import opened Tasks
  import opened RuntimeModel
  import S = SchedulerModel
  import D = RuntimeResults

  lemma StepOnRun(r: Runtime, e: Event, j: nat)
    requires Linked(r) && Enabled(r, e) && j < |r.runs|
    ensures j < |Next(r, e).runs|
    ensures r.runs[j].stage != Waiting ==>
              e != Execute(j) && Next(r, e).runs[j].stage != Waiting && Next(r, e).runs[j].ran == r.runs[j].ran
    ensures r.runs[j].stage == Waiting && e != Execute(j) ==> Next(r, e).runs[j].stage == Waiting
    ensures e == Execute(j) ==>
              && Next(r, e).runs[j].stage != Waiting
              && Next(r, e).runs[j].ran == Registered(r.fns, r.sched.ledger.jobs[j].spec.functionName)
  {
  }

  lemma SpecStays(r: Runtime, e: Event, j: nat)
    requires Linked(r) && Enabled(r, e) && j < |r.runs|
    ensures j < |Next(r, e).sched.ledger.jobs| && Next(r, e).sched.ledger.jobs[j].spec == r.sched.ledger.jobs[j].spec
  {
    D.IdsOnlyGrow(r, e);
    assert S.Specs(r.sched.ledger.jobs)[j] == S.Specs(Next(r, e).sched.ledger.jobs)[j];
  }

  lemma {:induction false} RecordStays(r: Runtime, events: seq<Event>, j: nat)
    requires Linked(r) && Possible(r, events) && j < |r.runs| && r.runs[j].stage != Waiting
    ensures var end := Exec(r, events);
            && j < |end.runs| && end.runs[j].ran == r.runs[j].ran
            && end.sched.ledger.jobs[j].spec == r.sched.ledger.jobs[j].spec
    decreases |events|
  {
    if events != [] {
      StepOnRun(r, events[0], j);
      SpecStays(r, events[0], j);
      RecordStays(Apply(r, events[0]), events[1..], j);
    }
  }

  lemma {:induction false} NeverAgain(r: Runtime, events: seq<Event>, j: nat, m: nat)
    requires Linked(r) && Possible(r, events) && j < |r.runs| && r.runs[j].stage != Waiting && m < |events|
    ensures events[m] != Execute(j)
    decreases m
  {
    StepOnRun(r, events[0], j);
    if m > 0 {
      NeverAgain(Apply(r, events[0]), events[1..], j, m - 1);
    }
  }

  /** Not dispatched yet, or still waiting for its worker. */
  ghost predicate Unexecuted(r: Runtime, j: nat) {
    j < |r.runs| ==> r.runs[j].stage == Waiting
  }

  /** Position `n` of the run is the execution of task `j`, with the function registered at that point. */
  ghost predicate ExecutedAt(r: Runtime, events: seq<Event>, j: nat, n: nat)
    requires Linked(r) && Possible(r, events) && j < |Exec(r, events).runs|
  {
    && n < |events| && events[n] == Execute(j) && Possible(r, events[..n])
    && Exec(r, events).runs[j].ran ==
       Registered(Exec(r, events[..n]).fns, Exec(r, events).sched.ledger.jobs[j].spec.functionName)
  }

  ghost predicate Only(events: seq<Event>, j: nat, n: nat) {
    forall m :: 0 <= m < |events| && events[m] == Execute(j) ==> m == n
  }

  lemma ExecutedNow(r: Runtime, events: seq<Event>, j: nat)
    requires Linked(r) && Possible(r, events) && events != [] && events[0] == Execute(j)
    ensures j < |Exec(r, events).runs| && ExecutedAt(r, events, j, 0)
  {
    StepOnRun(r, events[0], j);
    SpecStays(r, events[0], j);
    RecordStays(Apply(r, events[0]), events[1..], j);
    assert events[..0] == [];
  }

  lemma OnlyNow(r: Runtime, events: seq<Event>, j: nat)
    requires Linked(r) && Possible(r, events) && events != [] && events[0] == Execute(j)
    ensures Only(events, j, 0)
  {
    StepOnRun(r, events[0], j);
    forall m | 1 <= m < |events| ensures events[m] != Execute(j) {
      NeverAgain(Apply(r, events[0]), events[1..], j, m - 1);
    }
  }

  lemma ExecutedLater(r: Runtime, events: seq<Event>, j: nat, n: nat)
    requires Linked(r) && Possible(r, events) && events != [] && j < |Exec(r, events).runs|
    requires ExecutedAt(Apply(r, events[0]), events[1..], j, n)
    ensures ExecutedAt(r, events, j, n + 1)
  {
    assert events[..n + 1][1..] == events[1..][..n];
  }

  lemma OnlyLater(events: seq<Event>, j: nat, n: nat)
    requires events != [] && events[0] != Execute(j) && Only(events[1..], j, n)
    ensures Only(events, j, n + 1)
  {
    assert forall m :: 1 <= m < |events| ==> events[m] == events[1..][m - 1];
  }

  lemma {:induction false} FindExecution(r: Runtime, events: seq<Event>, j: nat) returns (n: nat)
    requires Linked(r) && Possible(r, events) && Unexecuted(r, j)
    requires j < |Exec(r, events).runs| && !Unexecuted(Exec(r, events), j)
    ensures ExecutedAt(r, events, j, n) && Only(events, j, n)
    decreases |events|
  {
    if events[0] == Execute(j) {
      ExecutedNow(r, events, j);
      OnlyNow(r, events, j);
      n := 0;
    } else {
      UnexecutedStep(r, events[0], j);
      var rest := FindExecution(Apply(r, events[0]), events[1..], j);
      ExecutedLater(r, events, j, rest);
      OnlyLater(events, j, rest);
      n := rest + 1;
    }
  }

  lemma UnexecutedStep(r: Runtime, e: Event, j: nat)
    requires Linked(r) && Enabled(r, e) && Unexecuted(r, j) && e != Execute(j)
    ensures Unexecuted(Next(r, e), j)
  {
  }

  /** In every run a finished task was executed exactly once, and what ran is what was registered under its
      function name at that point of the run: later registrations change nothing. */
  lemma FinishedTasksRanOnce(total: map<string, real>, maxWorkers: nat, budget: nat, events: seq<Event>, j: nat) returns (n: nat)
    requires Possible(Init(total, maxWorkers, budget), events)
    requires j < |Exec(Init(total, maxWorkers, budget), events).runs|
    requires Exec(Init(total, maxWorkers, budget), events).runs[j].stage == Over
    ensures n < |events| && events[n] == Execute(j) && Possible(Init(total, maxWorkers, budget), events[..n])
    ensures forall m :: 0 <= m < |events| && events[m] == Execute(j) ==> m == n
    ensures var was, end := Exec(Init(total, maxWorkers, budget), events[..n]), Exec(Init(total, maxWorkers, budget), events);
            end.runs[j].ran == Registered(was.fns, end.sched.ledger.jobs[j].spec.functionName)
  {
    n := FindExecution(Init(total, maxWorkers, budget), events, j);
  }

  // ---- What is registered is what was registered last ----

  ghost predicate Sets(e: Event, name: string) {
    (e.Register? && e.name == name) || e == Unregister(name)
  }

  ghost predicate UnsetFrom(events: seq<Event>, n: nat, name: string) {
    forall i :: n <= i < |events| ==> !Sets(events[i], name)
  }

  /** The last event of the run that sets `name` registers exactly `f`, or unregisters it if there is none. */
  ghost predicate LastSet(events: seq<Event>, name: string, f: Option<TaskFn>) {
    exists m :: && 0 <= m < |events| && UnsetFrom(events, m + 1, name)
                && events[m] == (if f.Some? then Register(name, f.value) else Unregister(name))
  }

  lemma RegistrationStep(r: Runtime, e: Event, name: string)
    requires Linked(r) && Enabled(r, e)
    ensures var f := Registered(Next(r, e).fns, name);
            if Sets(e, name) then e == (if f.Some? then Register(name, f.value) else Unregister(name))
            else f == Registered(r.fns, name)
  {
  }

  lemma {:induction false} RegistrationRun(r: Runtime, events: seq<Event>, name: string)
    requires Linked(r) && Possible(r, events)
    ensures var f := Registered(Exec(r, events).fns, name);
            if UnsetFrom(events, 0, name) then f == Registered(r.fns, name) else LastSet(events, name, f)
    decreases |events|
  {
    if events != [] {
      var rest, f := events[1..], Registered(Exec(r, events).fns, name);
      RegistrationStep(r, events[0], name);
      RegistrationRun(Apply(r, events[0]), rest, name);
      assert forall i :: 0 < i < |events| ==> events[i] == rest[i - 1];
      if UnsetFrom(rest, 0, name) {
        assert UnsetFrom(events, 1, name);
      } else {
        var m :| && 0 <= m < |rest| && UnsetFrom(rest, m + 1, name)
                 && rest[m] == (if f.Some? then Register(name, f.value) else Unregister(name));
        assert UnsetFrom(events, m + 2, name) && Sets(events[m + 1], name);
      }
    }
  }

  /** At every point of every run the registry answers for a name what the latest registration or removal of that
      name said, and nothing if there was none. */
  lemma LatestRegistrationCounts(total: map<string, real>, maxWorkers: nat, budget: nat, events: seq<Event>, name: string)
    requires Possible(Init(total, maxWorkers, budget), events)
    ensures var f := Registered(Exec(Init(total, maxWorkers, budget), events).fns, name);
            if UnsetFrom(events, 0, name) then f.None? else LastSet(events, name, f)
  {
    RegistrationRun(Init(total, maxWorkers, budget), events, name);
  }
}
