/** Dispatch is not first come, first served: exactly when a waiting task is overtaken. */
module SchedulerFairness {
  import opened Prelude
  import opened ResourceSets
  import opened Tasks
  import opened SchedulerModel
  import opened SchedulerResources
  import opened SchedulerProgress
  import opened SchedulerLeases

  // ---- Overtaking, by a new submission or inside the drain ----

  /** `newcomer` needs at least as much as `waiting` of everything `waiting` needs. */
  ghost predicate NeedsNoLess(newcomer: TaskSpec, waiting: TaskSpec) {
    forall name | name in waiting.required ::
      name in newcomer.required && waiting.required[name] <= newcomer.required[name]
  }

  /** The step dispatches, ahead of the task queued at `i`, one that needs no less: a submission just taken, or a
      task behind it that the drain tries after having passed it over. */
  ghost predicate Overtakes(s: State, e: Event, i: nat)
    requires Enabled(s, e)
  {
    && i < |s.queue| && Dispatched(s, e).Some? && NeedsNoLess(Dispatched(s, e).value, s.queue[i])
    && (e.TryNext? ==> i < s.loop.next)
  }

  lemma OvertakenStaysQueued(s: State, e: Event, i: nat)
    requires Enabled(s, e) && Overtakes(s, e, i)
    ensures i < |Apply(s, e).queue| && Apply(s, e).queue[i] == s.queue[i]
    ensures CanSatisfy(s.ledger.available, s.queue[i].required)
  {
  }

  /** In every run with non-negative demands, a task is overtaken, by a submission or inside a drain, only where
      some of what it needs was released since that drain, or the last one, began. */
  lemma OvertakingNeedsRelease(total: Quantities, events: seq<Event>, e: Event, i: nat)
    requires ReachableWithin(total, events)
    requires Enabled(Exec(Init(total), events), e) && Overtakes(Exec(Init(total), events), e, i)
    ensures var s := Exec(Init(total), events);
            exists name :: name in s.queue[i].required && Get(s.ledger.freed, name) > 0.0
  {
    var s := Exec(Init(total), events);
    ReachableBounded(total, events);
    OvertakenStaysQueued(s, e, i);
    assert Short(s.ledger, s.queue[i].required);
    var name :| name in s.queue[i].required && Headroom(s.ledger, name) < s.queue[i].required[name];
    assert Get(s.ledger.freed, name) > 0.0;
  }

  // ---- What can happen to a waiting task from here on ----

  ghost predicate NoCompletion(events: seq<Event>) {
    forall e | e in events :: !e.Complete?
  }

  /** After `events`, with non-negative demands, step `e` overtakes the waiting task `w`, queued at `i`, with a task
      called `id`. */
  ghost predicate OvertakesAfter(s: State, events: seq<Event>, e: Event, i: nat, w: TaskSpec, id: TaskId) {
    && Possible(s, events)
    && var now := Exec(s, events);
    && Enabled(now, e) && NonNegativeDemands(Apply(now, e))
    && Overtakes(now, e, i) && now.queue[i] == w && Dispatched(now, e).value.taskId == id
  }

  /** Some continuation, free of completions unless `completions`, overtakes `w` with a task called `id`. */
  ghost predicate OvertakenBy(s: State, w: TaskSpec, id: TaskId, completions: bool) {
    exists events, e, i :: OvertakesAfter(s, events, e, i, w, id) && (completions || NoCompletion(events))
  }

  lemma AvailabilityFallsStep(s: State, e: Event, name: string)
    requires Bounded(s) && Enabled(s, e) && !e.Complete? && NonNegativeDemands(Apply(s, e))
    ensures Get(Apply(s, e).ledger.available, name) <= Get(s.ledger.available, name)
  {
    LedgerEffect(s, e);
    DemandsEarlier(s, e);
    if Dispatched(s, e).Some? {
      MinusLookup(s.ledger.available, Dispatched(s, e).value.required, name);
    } else if e.Lease? {
      MinusLookup(s.ledger.available, e.need, name);
    }
  }

  /** Without completions there is never more available than now. */
  lemma {:induction false} AvailabilityFalls(s: State, events: seq<Event>, name: string)
    requires Bounded(s) && Possible(s, events) && NoCompletion(events) && NonNegativeDemands(Exec(s, events))
    ensures Get(Exec(s, events).ledger.available, name) <= Get(s.ledger.available, name)
    decreases |events|
  {
    if events != [] {
      assert events[0] in events;
      assert forall e | e in events[1..] :: e in events;
      DemandsHold(Apply(s, events[0]), events[1..]);
      AvailabilityFallsStep(s, events[0], name);
      BoundedStep(s, events[0]);
      AvailabilityFalls(Apply(s, events[0]), events[1..], name);
    }
  }

  /** From every state, a task that does not fit now is not overtaken in any continuation before a completion. */
  lemma SafeUntilCompletion(s: State, w: TaskSpec, id: TaskId)
    requires Bounded(s) && !CanSatisfy(s.ledger.available, w.required)
    ensures !OvertakenBy(s, w, id, false)
  {
    forall events, e, i | OvertakesAfter(s, events, e, i, w, id) ensures !NoCompletion(events) {
      var now := Exec(s, events);
      DemandsEarlier(now, e);
      OvertakenStaysQueued(now, e, i);
      var name :| name in w.required && Get(s.ledger.available, name) < w.required[name];
      if NoCompletion(events) {
        AvailabilityFalls(s, events, name);
      }
    }
  }

  lemma {:induction false} LeasesGrowRun(s: State, events: seq<Event>)
    requires Possible(s, events) && NonNegativeDemands(Exec(s, events))
    ensures LeasesGrow(s.ledger, Exec(s, events).ledger)
    decreases |events|
  {
    if events != [] {
      DemandsHold(Apply(s, events[0]), events[1..]);
      LeasesGrowStep(s, events[0]);
      LeasesGrowRun(Apply(s, events[0]), events[1..]);
    }
  }

  lemma OvertakenIsFeasible(s: State, events: seq<Event>, e: Event, i: nat, w: TaskSpec, id: TaskId)
    requires Bounded(s) && OvertakesAfter(s, events, e, i, w, id)
    ensures Feasible(s.ledger, w.required)
  {
    var now := Exec(s, events);
    DemandsEarlier(now, e);
    BoundedRun(s, events);
    DispatchedIsFeasible(now, e);
    LeasesGrowRun(s, events);
    if !Feasible(s.ledger, w.required) {
      InfeasibleStays(s.ledger, now.ledger, w.required);
    }
  }

  /** From every state, a task that exceeds what the leases leave of the total is never overtaken by one that needs
      no less. */
  lemma InfeasibleNeverOvertaken(s: State, w: TaskSpec, id: TaskId)
    requires Bounded(s) && !Feasible(s.ledger, w.required)
    ensures !OvertakenBy(s, w, id, true)
  {
    if OvertakenBy(s, w, id, true) {
      var events, e, i :| OvertakesAfter(s, events, e, i, w, id);
      OvertakenIsFeasible(s, events, e, i, w, id);
    }
  }

  /** A submission that fits is dispatched at once, ahead of every queued task. */
  lemma OvertakenAtOnce(s: State, i: nat, newcomer: TaskSpec)
    requires s.loop.Receiving? && s.handled == |s.sent| && i < |s.queue| && NonNegativeDemands(s)
    requires NonNegative(newcomer.required) && NeedsNoLess(newcomer, s.queue[i]) && Fits(s.ledger, newcomer.required)
    ensures OvertakenBy(s, s.queue[i], newcomer.taskId, false)
  {
    var send := Send(SubmitTask(newcomer));
    RunAppend(s, [], send);
    var events, sent := [] + [send], Apply(s, send);
    assert NoCompletion(events) && Exec(s, events) == sent;
    assert Overtakes(sent, Receive, i) && sent.queue[i] == s.queue[i];
    LedgerEffect(sent, Receive);
    ChannelEffect(sent, Receive);
    assert OvertakesAfter(s, events, Receive, i, s.queue[i], newcomer.taskId);
  }

  ghost function Renamed(spec: TaskSpec, id: TaskId): TaskSpec {
    spec.(taskId := id)
  }

  /** At the receive point with nothing in the channel and non-negative demands, a queued task can be overtaken
      before the next completion, by a task of any name, if and only if it fits now. */
  lemma OvertakenIffItFits(s: State, i: nat, id: TaskId)
    requires Bounded(s) && NonNegativeDemands(s) && s.loop.Receiving? && s.handled == |s.sent| && i < |s.queue|
    ensures OvertakenBy(s, s.queue[i], id, false) <==> CanSatisfy(s.ledger.available, s.queue[i].required)
  {
    if CanSatisfy(s.ledger.available, s.queue[i].required) {
      OvertakenAtOnce(s, i, Renamed(s.queue[i], id));
    } else {
      SafeUntilCompletion(s, s.queue[i], id);
    }
  }

  lemma OvertakenAfterCompletions(s: State, completions: seq<Event>, w: TaskSpec, id: TaskId)
    requires Possible(s, completions) && OvertakenBy(Exec(s, completions), w, id, false)
    ensures OvertakenBy(s, w, id, true)
  {
    var idle := Exec(s, completions);
    var events, e, i :| OvertakesAfter(idle, events, e, i, w, id) && NoCompletion(events);
    RunConcat(s, completions, events);
    assert OvertakesAfter(s, completions + events, e, i, w, id);
  }

  /** With completions it can be overtaken if and only if it could run at all: nothing short of the leases taking
      its room protects it. */
  lemma OvertakenIffFeasible(s: State, i: nat, id: TaskId)
    requires Bounded(s) && NonNegativeDemands(s) && s.loop.Receiving? && s.handled == |s.sent| && i < |s.queue|
    ensures OvertakenBy(s, s.queue[i], id, true) <==> Feasible(s.ledger, s.queue[i].required)
  {
    if Feasible(s.ledger, s.queue[i].required) {
      var completions := CompleteAll(s, |s.ledger.jobs|);
      var idle := Exec(s, completions);
      ConservedRun(s, completions);
      CompletionsKeepLeases(s, completions);
      FitsIdlePool(idle.ledger, s.queue[i].required);
      OvertakenAtOnce(idle, i, Renamed(s.queue[i], id));
      OvertakenAfterCompletions(s, completions, s.queue[i], id);
    } else {
      InfeasibleNeverOvertaken(s, s.queue[i], id);
    }
  }

  /** Inside a drain, a task that was passed over is overtaken by the one about to be tried, given the right
      completions in between, if and only if that one could run at all. */
  lemma OvertakenInDrainIffFeasible(s: State, i: nat)
    requires Bounded(s) && NonNegativeDemands(s) && s.loop.Draining? && i < s.loop.next < |s.queue|
    requires NeedsNoLess(s.queue[s.loop.next], s.queue[i])
    ensures (exists completions: seq<Event> ::
               && Possible(s, completions) && (forall e | e in completions :: e.Complete?)
               && Enabled(Exec(s, completions), TryNext) && Overtakes(Exec(s, completions), TryNext, i))
            <==> Feasible(s.ledger, s.queue[s.loop.next].required)
  {
    var t := s.queue[s.loop.next];
    forall completions: seq<Event> | Possible(s, completions) && forall e | e in completions :: e.Complete?
      ensures Enabled(Exec(s, completions), TryNext)
      ensures Overtakes(Exec(s, completions), TryNext, i) <==> Fits(Exec(s, completions).ledger, t.required)
      ensures Fits(Exec(s, completions).ledger, t.required) ==> Feasible(s.ledger, t.required)
    {
      CompletionsKeepLeases(s, completions);
      var now := Exec(s, completions);
      BoundedRun(s, completions);
      if Fits(now.ledger, t.required) {
        DispatchedIsFeasible(now, TryNext);
      }
    }
    if Feasible(s.ledger, t.required) {
      var completions := CompleteAll(s, |s.ledger.jobs|);
      ConservedRun(s, completions);
      CompletionsKeepLeases(s, completions);
      FitsIdlePool(Exec(s, completions).ledger, t.required);
    }
  }

  // ---- It can be overtaken again and again ----

  /** Alone on the node, `t` fits and leaves too little for `waiting`. */
  ghost predicate Hogs(total: Quantities, t: TaskSpec, waiting: TaskSpec) {
    && CanSatisfy(total, t.required)
    && exists name :: name in waiting.required && Get(total, name) - Get(t.required, name) < waiting.required[name]
  }

  /** Exactly `t` is taken from the node. */
  ghost predicate OnlyTaken(total: Quantities, available: Quantities, t: TaskSpec) {
    forall name :: Get(available, name) == Get(total, name) - Get(t.required, name)
  }

  /** `waiting` is queued while the latest dispatched task has the node to itself; the loop is idle. */
  ghost predicate Blocked(s: State, total: Quantities, waiting: TaskSpec, dispatched: seq<TaskSpec>, sent: seq<TaskSpec>) {
    && s.loop == Receiving && s.handled == |s.sent| && Submitted(s.sent) == sent
    && s.queue == [waiting]
    && Specs(s.ledger.jobs) == dispatched && dispatched != []
    && s.ledger.jobs[|s.ledger.jobs| - 1].running
    && OnlyTaken(total, s.ledger.available, dispatched[|dispatched| - 1])
  }

  lemma SubmittedAppend(sent: seq<Command>, spec: TaskSpec)
    ensures Submitted(sent + [SubmitTask(spec)]) == Submitted(sent) + [spec]
  {
  }

  /** On a free node the newcomer's command is sent, taken and dispatched. */
  lemma NewcomerTakesNode(s: State, total: Quantities, newcomer: TaskSpec)
    requires s.loop == Receiving && s.handled == |s.sent| && SameLookups(s.ledger.available, total)
    requires CanSatisfy(total, newcomer.required)
    ensures Enabled(s, Send(SubmitTask(newcomer))) && Enabled(Apply(s, Send(SubmitTask(newcomer))), Receive)
    ensures var end := Apply(Apply(s, Send(SubmitTask(newcomer))), Receive);
            && end.loop == Draining(0) && end.handled == |end.sent| && Submitted(end.sent) == Submitted(s.sent) + [newcomer]
            && end.queue == s.queue
            && Specs(end.ledger.jobs) == Specs(s.ledger.jobs) + [newcomer]
            && end.ledger.jobs[|end.ledger.jobs| - 1].running
            && OnlyTaken(total, end.ledger.available, newcomer)
  {
    SubmittedAppend(s.sent, newcomer);
    assert CanSatisfy(s.ledger.available, newcomer.required);
    forall name ensures Get(Minus(s.ledger.available, newcomer.required), name) ==
                        Get(s.ledger.available, name) - Get(newcomer.required, name)
    {
      MinusLookup(s.ledger.available, newcomer.required, name);
    }
  }

  lemma LastReleases(s: State, total: Quantities, waiting: TaskSpec, dispatched: seq<TaskSpec>, sent: seq<TaskSpec>)
    requires Blocked(s, total, waiting, dispatched, sent)
    ensures var last := |s.ledger.jobs| - 1;
            && Enabled(s, Complete(last))
            && var end := Apply(s, Complete(last));
            && end == s.(ledger := end.ledger)
            && Specs(end.ledger.jobs) == dispatched && SameLookups(end.ledger.available, total)
  {
    var last := dispatched[|dispatched| - 1].required;
    forall name ensures Get(Plus(s.ledger.available, last), name) == Get(total, name) {
      PlusLookup(s.ledger.available, last, name);
    }
  }

  /** The latest task releases the node and the newcomer takes it. */
  lemma Overtake(s: State, total: Quantities, waiting: TaskSpec, dispatched: seq<TaskSpec>, sent: seq<TaskSpec>, newcomer: TaskSpec)
      returns (events: seq<Event>)
    requires Blocked(s, total, waiting, dispatched, sent) && CanSatisfy(total, newcomer.required)
    ensures Possible(s, events)
    ensures var end := Exec(s, events);
            && end.loop == Draining(0) && end.handled == |end.sent| && Submitted(end.sent) == sent + [newcomer]
            && end.queue == [waiting]
            && Specs(end.ledger.jobs) == dispatched + [newcomer]
            && end.ledger.jobs[|end.ledger.jobs| - 1].running
            && OnlyTaken(total, end.ledger.available, newcomer)
  {
    var e1, e2 := Complete(|s.ledger.jobs| - 1), Send(SubmitTask(newcomer));
    LastReleases(s, total, waiting, dispatched, sent);
    NewcomerTakesNode(Apply(s, e1), total, newcomer);
    RunAppend(s, [], e1);
    RunAppend(s, [] + [e1], e2);
    RunAppend(s, [] + [e1] + [e2], Receive);
    events := [] + [e1] + [e2] + [Receive];
  }

  lemma PassedOver(s: State, total: Quantities, waiting: TaskSpec, last: TaskSpec)
    requires s.loop == Draining(0) && s.queue == [waiting]
    requires OnlyTaken(total, s.ledger.available, last) && Hogs(total, last, waiting)
    ensures Possible(s, [TryNext, EndDrain])
    ensures Exec(s, [TryNext, EndDrain]) == s.(loop := Receiving)
  {
    var name :| name in waiting.required && Get(total, name) - Get(last.required, name) < waiting.required[name];
    assert !Fits(s.ledger, waiting.required);
  }

  lemma BlockAgain(s: State, total: Quantities, waiting: TaskSpec, dispatched: seq<TaskSpec>, sent: seq<TaskSpec>, newcomer: TaskSpec)
      returns (events: seq<Event>)
    requires Blocked(s, total, waiting, dispatched, sent) && Hogs(total, newcomer, waiting)
    ensures Possible(s, events) && Blocked(Exec(s, events), total, waiting, dispatched + [newcomer], sent + [newcomer])
  {
    var first := Overtake(s, total, waiting, dispatched, sent, newcomer);
    PassedOver(Exec(s, first), total, waiting, newcomer);
    RunConcat(s, first, [TryNext, EndDrain]);
    events := first + [TryNext, EndDrain];
  }

  lemma FirstRuns(total: Quantities, first: TaskSpec) returns (events: seq<Event>)
    requires CanSatisfy(total, first.required)
    ensures Possible(Init(total), events)
    ensures var s := Exec(Init(total), events);
            && s.loop == Receiving && s.handled == |s.sent| && Submitted(s.sent) == [first] && s.queue == []
            && Specs(s.ledger.jobs) == [first] && s.ledger.jobs[0].running
            && OnlyTaken(total, s.ledger.available, first)
  {
    var s, e := Init(total), Send(SubmitTask(first));
    NewcomerTakesNode(s, total, first);
    RunAppend(s, [], e);
    RunAppend(s, [] + [e], Receive);
    RunAppend(s, [] + [e] + [Receive], EndDrain);
    events := [] + [e] + [Receive] + [EndDrain];
  }

  lemma SecondQueues(s: State, waiting: TaskSpec) returns (events: seq<Event>)
    requires s.loop == Receiving && s.handled == |s.sent| && s.queue == []
    requires !CanSatisfy(s.ledger.available, waiting.required)
    ensures Possible(s, events)
    ensures var end := Exec(s, events);
            && end.loop == Draining(0) && end.handled == |end.sent| && Submitted(end.sent) == Submitted(s.sent) + [waiting]
            && end.queue == [waiting] && end.ledger.jobs == s.ledger.jobs && end.ledger.available == s.ledger.available
  {
    var e := Send(SubmitTask(waiting));
    SubmittedAppend(s.sent, waiting);
    RunAppend(s, [], e);
    assert !Fits(StartDrain(s.ledger), waiting.required);
    RunAppend(s, [] + [e], Receive);
    events := [] + [e] + [Receive];
  }

  lemma FirstTwo(total: Quantities, first: TaskSpec, waiting: TaskSpec) returns (events: seq<Event>)
    requires Hogs(total, first, waiting)
    ensures Possible(Init(total), events) && Blocked(Exec(Init(total), events), total, waiting, [first], [first, waiting])
  {
    var one := FirstRuns(total, first);
    var s := Exec(Init(total), one);
    var name :| name in waiting.required && Get(total, name) - Get(first.required, name) < waiting.required[name];
    assert !CanSatisfy(s.ledger.available, waiting.required);
    var two := SecondQueues(s, waiting);
    PassedOver(Exec(s, two), total, waiting, first);
    RunConcat(s, two, [TryNext, EndDrain]);
    RunConcat(Init(total), one, two + [TryNext, EndDrain]);
    events := one + (two + [TryNext, EndDrain]);
  }

  /** On every node, for a task submitted second and every sequence of later submissions, however long, that each
      fit the node alone and leave too little for it: some run dispatches all of them, in order, while that task
      stays queued. A completion does not wake the queue, and a submission is tried before it. */
  lemma {:induction false} QueuedTaskCanStarve(total: Quantities, first: TaskSpec, waiting: TaskSpec, newcomers: seq<TaskSpec>)
      returns (events: seq<Event>)
    requires Hogs(total, first, waiting) && forall t | t in newcomers :: Hogs(total, t, waiting)
    ensures Possible(Init(total), events)
    ensures var end := Exec(Init(total), events);
            && Submitted(end.sent) == [first, waiting] + newcomers
            && Specs(end.ledger.jobs) == [first] + newcomers
            && end.queue == [waiting]
            && Blocked(end, total, waiting, [first] + newcomers, [first, waiting] + newcomers)
    decreases |newcomers|
  {
    if newcomers == [] {
      events := FirstTwo(total, first, waiting);
      assert [first] + newcomers == [first] && [first, waiting] + newcomers == [first, waiting];
    } else {
      var n := |newcomers| - 1;
      var front, last := newcomers[..n], newcomers[n];
      events := QueuedTaskCanStarve(total, first, waiting, front);
      var s := Exec(Init(total), events);
      assert last in newcomers;
      var more := BlockAgain(s, total, waiting, [first] + front, [first, waiting] + front, last);
      RunConcat(Init(total), events, more);
      events := events + more;
      assert [first] + front + [last] == [first] + newcomers;
      assert [first, waiting] + front + [last] == [first, waiting] + newcomers;
    }
  }
}
