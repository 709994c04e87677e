/** Left alone, the runtime works off its channel and its queue: everything that can run does run and finishes. */
module RuntimeSettling {
  import opened Prelude
  import opened ResourceSets
  import opened Tasks
  import opened RuntimeModel
  import opened RuntimeProgress
  import S = SchedulerModel
  import R = SchedulerResources
  import Q = SchedulerProgress
  import L = SchedulerLeases
  import D = RuntimeResults

  /** The loop's own actions, and status queries, which make it look at its queue. */
  ghost predicate ActsAlone(act: S.Event) {
    act.Receive? || act.TryNext? || act.EndDrain? || (act.Send? && act.command.GetStatus?)
  }

  ghost predicate WorkingOff(e: Event) {
    Finishing(e) || (e.Loop? && ActsAlone(e.act))
  }

  ghost predicate AllWorkingOff(events: seq<Event>) {
    forall e | e in events :: WorkingOff(e)
  }

  /** What holds in every reachable state. */
  ghost predicate Sane(r: Runtime) {
    Linked(r) && CallsExist(r.runs, r.store.calls) && L.InPlace(r.sched) && R.Conserved(r.sched.ledger)
  }

  lemma SaneRun(r: Runtime, events: seq<Event>)
    requires Sane(r) && Possible(r, events)
    ensures Sane(Exec(r, events))
  {
    CallsExistRun(r, events);
    D.ConservedThroughout(r, events);
    var acts := RunsScheduler(r, events);
    L.StaysInPlace(r.sched, acts);
  }

  // ---- The loop's actions, lifted to the runtime ----

  lemma LiftStep(r: Runtime, act: S.Event)
    requires Linked(r) && S.Enabled(r.sched, act) && ActsAlone(act)
    ensures Enabled(r, Loop(act)) && Apply(r, Loop(act)).sched == S.Apply(r.sched, act)
    ensures r.runs <= Apply(r, Loop(act)).runs
  {
  }

  lemma {:induction false} Lift(r: Runtime, acts: seq<S.Event>) returns (events: seq<Event>)
    requires Linked(r) && S.Possible(r.sched, acts) && forall act | act in acts :: ActsAlone(act)
    ensures Possible(r, events) && AllWorkingOff(events)
    ensures Exec(r, events).sched == S.Exec(r.sched, acts) && r.runs <= Exec(r, events).runs
    decreases |acts|
  {
    if acts == [] {
      events := [];
    } else {
      assert acts[0] in acts;
      assert forall act | act in acts[1..] :: act in acts;
      LiftStep(r, acts[0]);
      var rest := Lift(Apply(r, Loop(acts[0])), acts[1..]);
      events := [Loop(acts[0])] + rest;
      assert events[1..] == rest;
    }
  }

  // ---- Finishing tasks leaves the loop alone ----

  ghost predicate SameLoop(s: S.State, t: S.State) {
    s.sent == t.sent && s.handled == t.handled && s.queue == t.queue && s.loop == t.loop
  }

  lemma FinishingStepKeepsLoop(r: Runtime, e: Event)
    requires Linked(r) && Enabled(r, e) && Finishing(e)
    ensures SameLoop(r.sched, Apply(r, e).sched)
  {
    SchedulerPart(r, e);
  }

  lemma {:induction false} FinishingKeepsLoop(r: Runtime, events: seq<Event>)
    requires Linked(r) && Possible(r, events) && AllFinishing(events)
    ensures SameLoop(r.sched, Exec(r, events).sched)
    decreases |events|
  {
    if events != [] {
      assert events[0] in events;
      assert forall e | e in events[1..] :: e in events;
      FinishingStepKeepsLoop(r, events[0]);
      FinishingKeepsLoop(Apply(r, events[0]), events[1..]);
    }
  }

  // ---- One status query at a time, the queue empties ----

  ghost predicate AtRest(s: S.State) {
    s.loop.Receiving? && s.handled == |s.sent|
  }

  /** With nothing in flight, a status query makes the loop dispatch a queued task or find all of them infeasible. */
  lemma IdleRound(s: S.State, id: TaskId) returns (acts: seq<S.Event>)
    requires AtRest(s) && R.Conserved(s.ledger) && Q.Idle(s.ledger)
    ensures S.Possible(s, acts) && forall act | act in acts :: ActsAlone(act)
    ensures var end := S.Exec(s, acts);
            && AtRest(end) && |s.ledger.jobs| <= |end.ledger.jobs|
            && (if |end.ledger.jobs| > |s.ledger.jobs| then |end.queue| < |s.queue| else Q.OnlyInfeasible(end))
  {
    var ask := S.Send(S.GetStatus(id));
    var asked := S.Apply(s, ask);
    var start := S.Apply(asked, S.Receive);
    Q.QuietDrainIsFirstFit(start);
    var tries := Q.Tries(|start.queue|);
    var drained := S.Exec(start, tries);
    var end := S.Apply(drained, S.EndDrain);
    OneQuery(s, ask, tries);
    acts := [ask, S.Receive] + tries + [S.EndDrain];
    QueryIsRound(s, ask, tries, end);
    Q.RoundMakesProgress(s, [ask], tries, end);
    TriesKeepChannel(start, tries);
    L.JobsOnlyGrow(s, acts);
  }

  lemma OneQuery(s: S.State, ask: S.Event, tries: seq<S.Event>)
    requires S.Enabled(s, ask) && S.Enabled(S.Apply(s, ask), S.Receive)
    requires S.Possible(S.Apply(S.Apply(s, ask), S.Receive), tries)
    requires S.Enabled(S.Exec(S.Apply(S.Apply(s, ask), S.Receive), tries), S.EndDrain)
    ensures var acts := [ask, S.Receive] + tries + [S.EndDrain];
            && S.Possible(s, acts)
            && S.Exec(s, acts) == S.Apply(S.Exec(S.Apply(S.Apply(s, ask), S.Receive), tries), S.EndDrain)
  {
    var start := S.Apply(S.Apply(s, ask), S.Receive);
    S.RunAppend(start, tries, S.EndDrain);
    S.RunAppend(s, [], ask);
    S.RunAppend(s, [] + [ask], S.Receive);
    assert [] + [ask] + [S.Receive] == [ask, S.Receive];
    S.RunConcat(s, [ask, S.Receive], tries + [S.EndDrain]);
    assert [ask, S.Receive] + tries + [S.EndDrain] == [ask, S.Receive] + (tries + [S.EndDrain]);
  }

  lemma QueryIsRound(s: S.State, ask: S.Event, tries: seq<S.Event>, end: S.State)
    requires AtRest(s) && Q.Idle(s.ledger) && ask.Send? && ask.command.GetStatus?
    requires S.Enabled(s, ask) && S.Enabled(S.Apply(s, ask), S.Receive) && tries == Q.Tries(|tries|)
    requires S.Possible(S.Apply(S.Apply(s, ask), S.Receive), tries)
    requires S.Enabled(S.Exec(S.Apply(S.Apply(s, ask), S.Receive), tries), S.EndDrain)
    requires end == S.Apply(S.Exec(S.Apply(S.Apply(s, ask), S.Receive), tries), S.EndDrain)
    ensures Q.Round(s, [ask], tries, end)
  {
    S.RunAppend(s, [], ask);
    assert [] + [ask] == [ask];
    forall e | e in tries ensures e.TryNext? {
      var i :| 0 <= i < |tries| && tries[i] == e;
    }
  }

  lemma {:induction false} TriesKeepChannel(s: S.State, tries: seq<S.Event>)
    requires S.Possible(s, tries) && tries == Q.Tries(|tries|)
    ensures S.Exec(s, tries).sent == s.sent && S.Exec(s, tries).handled == s.handled
    decreases |tries|
  {
    if tries != [] {
      S.ChannelEffect(s, tries[0]);
      TriesKeepChannel(S.Apply(s, tries[0]), tries[1..]);
    }
  }

  lemma {:induction false} QueueIsWorkedOff(r: Runtime, id: TaskId) returns (events: seq<Event>)
    requires Sane(r) && AllOver(r) && AtRest(r.sched)
    ensures Possible(r, events) && AllWorkingOff(events)
    ensures var end := Exec(r, events);
            AllOver(end) && AtRest(end.sched) && Q.OnlyInfeasible(end.sched)
    decreases |r.sched.queue|
  {
    var acts := IdleRound(r.sched, id);
    var round := Lift(r, acts);
    var next := Exec(r, round);
    SaneRun(r, round);
    if |next.runs| == |r.runs| {
      assert next.runs == r.runs;
      events := round;
    } else {
      var finish := FinishAll(next);
      FinishingKeepsLoop(next, finish);
      SaneRun(next, finish);
      var rest := QueueIsWorkedOff(Exec(next, finish), id);
      RunConcat(next, finish, rest);
      RunConcat(r, round, finish + rest);
      events := round + (finish + rest);
    }
  }

  /** From every reachable state, with no further submission, some continuation ends with every dispatched task over,
      the channel empty, and only tasks in the queue that exceed what the leases leave of the total. */
  lemma EverythingFeasibleFinishes(total: Quantities, maxWorkers: nat, budget: nat, past: seq<Event>, id: TaskId)
      returns (events: seq<Event>)
    requires Possible(Init(total, maxWorkers, budget), past)
    ensures var r := Exec(Init(total, maxWorkers, budget), past);
            && Possible(r, events) && AllWorkingOff(events)
            && var end := Exec(r, events);
            && AllOver(end) && end.sched.loop.Receiving? && end.sched.handled == |end.sched.sent|
            && forall t | t in end.sched.queue :: !Q.Feasible(end.sched.ledger, t.required)
  {
    var r := Exec(Init(total, maxWorkers, budget), past);
    SaneRun(Init(total, maxWorkers, budget), past);
    var acts := L.LoopComesToRest(r.sched);
    var first := Lift(r, acts);
    var rested := Exec(r, first);
    SaneRun(r, first);
    var finish := FinishAll(rested);
    FinishingKeepsLoop(rested, finish);
    SaneRun(rested, finish);
    var rest := QueueIsWorkedOff(Exec(rested, finish), id);
    RunConcat(rested, finish, rest);
    RunConcat(r, first, finish + rest);
    events := first + (finish + rest);
  }
}
