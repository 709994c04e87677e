/** Leases are never given back: exactly which tasks can still be dispatched. */
module SchedulerLeases {
  import opened Prelude
  import opened ResourceSets
  import opened Tasks
  import opened SchedulerModel
  import opened SchedulerResources
  import opened SchedulerProgress

  // ---- What exceeds the rest is never dispatched ----

  lemma LeasesGrowStep(s: State, e: Event)
    requires Enabled(s, e) && NonNegativeDemands(Apply(s, e))
    ensures LeasesGrow(s.ledger, Apply(s, e).ledger)
  {
    LedgerEffect(s, e);
    var before, after := s.ledger.leases, Apply(s, e).ledger.leases;
    if after != before {
      assert NonNegative(after[|before|]);
      GrantGrows(s.ledger, e.need);
    }
  }

  lemma DispatchedIsFeasible(s: State, e: Event)
    requires Bounded(s) && Enabled(s, e) && Dispatched(s, e).Some?
    ensures Feasible(s.ledger, Dispatched(s, e).value.required)
  {
    var need := Dispatched(s, e).value.required;
    forall name | name in need ensures need[name] <= Get(s.ledger.total, name) - Leased(s.ledger.leases, name) {
      HeldNonNegative(s.ledger.jobs, name);
    }
  }

  lemma {:induction false} SpecsNeverChange(s: State, events: seq<Event>, j: nat)
    requires Possible(s, events) && j < |s.ledger.jobs|
    ensures j < |Exec(s, events).ledger.jobs| && Exec(s, events).ledger.jobs[j].spec == s.ledger.jobs[j].spec
    decreases |events|
  {
    if events != [] {
      LedgerEffect(s, events[0]);
      SpecsNeverChange(Apply(s, events[0]), events[1..], j);
    }
  }

  /** With non-negative demands every task dispatched in any continuation fits into what the leases granted now
      leave of the total. */
  lemma {:induction false} DispatchedLaterIsFeasible(s: State, events: seq<Event>, j: nat)
    requires Bounded(s) && Possible(s, events) && NonNegativeDemands(Exec(s, events))
    requires |s.ledger.jobs| <= j < |Exec(s, events).ledger.jobs|
    ensures Feasible(s.ledger, Exec(s, events).ledger.jobs[j].spec.required)
    decreases |events|
  {
    if events != [] {
      var next, need := Apply(s, events[0]), Exec(s, events).ledger.jobs[j].spec.required;
      DemandsHold(next, events[1..]);
      BoundedStep(s, events[0]);
      LedgerEffect(s, events[0]);
      if j < |next.ledger.jobs| {
        SpecsNeverChange(next, events[1..], j);
        DispatchedIsFeasible(s, events[0]);
      } else {
        DispatchedLaterIsFeasible(next, events[1..], j);
        LeasesGrowStep(s, events[0]);
        if !Feasible(s.ledger, need) {
          InfeasibleStays(s.ledger, next.ledger, need);
        }
      }
    }
  }

  // ---- Everything else still can be ----

  /** Where the loop stands in its queue and its channel. */
  ghost predicate InPlace(s: State) {
    s.handled <= |s.sent| && (s.loop.Draining? ==> s.loop.next <= |s.queue|)
  }

  /** Steps of the loop alone, which start nothing from outside. */
  ghost predicate LoopOnly(events: seq<Event>) {
    forall e | e in events :: e.Receive? || e.TryNext? || e.EndDrain?
  }

  ghost function LoopStep(s: State): Event {
    if s.loop.Receiving? then Receive else if s.loop.next < |s.queue| then TryNext else EndDrain
  }

  lemma LoopStepEffect(s: State)
    requires InPlace(s) && !(s.loop.Receiving? && s.handled == |s.sent|)
    ensures Enabled(s, LoopStep(s)) && InPlace(Apply(s, LoopStep(s)))
    ensures var next := Apply(s, LoopStep(s));
            && next.sent == s.sent && next.ledger.leases == s.ledger.leases && next.ledger.total == s.ledger.total
            && s.handled <= next.handled && (s.loop.Receiving? ==> s.handled < next.handled && next.loop.Draining?)
            && (s.loop.Draining? && next.loop.Draining? ==> |next.queue| - next.loop.next < |s.queue| - s.loop.next)
  {
    LedgerEffect(s, LoopStep(s));
    ChannelEffect(s, LoopStep(s));
  }

  /** Left to itself the loop empties its channel and comes back to its receive point. */
  lemma {:induction false} LoopComesToRest(s: State) returns (events: seq<Event>)
    requires InPlace(s)
    ensures LoopOnly(events) && Possible(s, events)
    ensures var end := Exec(s, events);
            && end.loop.Receiving? && end.handled == |end.sent|
            && end.sent == s.sent && end.ledger.leases == s.ledger.leases && end.ledger.total == s.ledger.total
    decreases |s.sent| - s.handled, if s.loop.Draining? then 1 else 0, if s.loop.Draining? then |s.queue| - s.loop.next else 0
  {
    if s.loop.Receiving? && s.handled == |s.sent| {
      events := [];
    } else {
      LoopStepEffect(s);
      var rest := LoopComesToRest(Apply(s, LoopStep(s)));
      events := [LoopStep(s)] + rest;
      assert events[1..] == rest;
    }
  }

  /** The loop comes to rest, everything in flight completes, and `spec` is submitted and dispatched. */
  lemma FeasibleIsDispatched(s: State, spec: TaskSpec) returns (events: seq<Event>, j: nat)
    requires InPlace(s) && Conserved(s.ledger) && Feasible(s.ledger, spec.required)
    ensures Possible(s, events)
    ensures var end := Exec(s, events);
            && |s.ledger.jobs| <= j < |end.ledger.jobs| && end.ledger.jobs[j].spec == spec
            && end.sent == s.sent + [SubmitTask(spec)] && end.ledger.leases == s.ledger.leases
            && end.ledger.total == s.ledger.total
  {
    var first := LoopComesToRest(s);
    var rested := Exec(s, first);
    ConservedRun(s, first);
    JobsOnlyGrow(s, first);
    var second := CompleteAll(rested, |rested.ledger.jobs|);
    var idle := Exec(rested, second);
    ConservedRun(rested, second);
    CompletionsKeepLeases(rested, second);
    FitsIdlePool(idle.ledger, spec.required);
    SubmittedAtOnce(idle, spec);
    j := |idle.ledger.jobs|;
    events := first + (second + [Send(SubmitTask(spec)), Receive]);
    RunConcat(rested, second, [Send(SubmitTask(spec)), Receive]);
    RunConcat(s, first, second + [Send(SubmitTask(spec)), Receive]);
  }

  lemma SubmittedAtOnce(s: State, spec: TaskSpec)
    requires s.loop.Receiving? && s.handled == |s.sent| && Fits(s.ledger, spec.required)
    ensures Possible(s, [Send(SubmitTask(spec)), Receive])
    ensures var end := Exec(s, [Send(SubmitTask(spec)), Receive]);
            && end.ledger.jobs == s.ledger.jobs + [Job(spec, true)] && end.sent == s.sent + [SubmitTask(spec)]
            && end.ledger.leases == s.ledger.leases && end.ledger.total == s.ledger.total && end.queue == s.queue
  {
    RunAppend(s, [], Send(SubmitTask(spec)));
    RunAppend(s, [] + [Send(SubmitTask(spec))], Receive);
    assert [] + [Send(SubmitTask(spec))] + [Receive] == [Send(SubmitTask(spec)), Receive];
  }

  lemma {:induction false} JobsOnlyGrow(s: State, events: seq<Event>)
    requires Possible(s, events)
    ensures |s.ledger.jobs| <= |Exec(s, events).ledger.jobs|
    decreases |events|
  {
    if events != [] {
      LedgerEffect(s, events[0]);
      JobsOnlyGrow(Apply(s, events[0]), events[1..]);
    }
  }

  lemma {:induction false} CompletionsKeepLeases(s: State, events: seq<Event>)
    requires Possible(s, events) && forall e | e in events :: e.Complete?
    ensures Exec(s, events).ledger.leases == s.ledger.leases && Exec(s, events).ledger.total == s.ledger.total
    ensures Exec(s, events).sent == s.sent && Exec(s, events).queue == s.queue && Exec(s, events).loop == s.loop
    decreases |events|
  {
    if events != [] {
      assert events[0] in events;
      assert forall e | e in events[1..] :: e in events;
      CompletionsKeepLeases(Apply(s, events[0]), events[1..]);
    }
  }

  /** Some continuation with non-negative demands dispatches `spec`. */
  ghost predicate CanBeDispatched(s: State, spec: TaskSpec) {
    exists events, j ::
      && Possible(s, events) && NonNegativeDemands(Exec(s, events))
      && |s.ledger.jobs| <= j < |Exec(s, events).ledger.jobs| && Exec(s, events).ledger.jobs[j].spec == spec
  }

  /** In every reachable state, with non-negative demands, a task can still be dispatched if and only if it needs no
      more than the total minus the leases granted so far. */
  lemma DispatchableIffFeasible(total: Quantities, past: seq<Event>, spec: TaskSpec)
    requires ReachableWithin(total, past) && NonNegative(spec.required)
    ensures var s := Exec(Init(total), past);
            CanBeDispatched(s, spec) <==> Feasible(s.ledger, spec.required)
  {
    var s := Exec(Init(total), past);
    ReachableBounded(total, past);
    if CanBeDispatched(s, spec) {
      var events, j :| && Possible(s, events) && NonNegativeDemands(Exec(s, events))
                       && |s.ledger.jobs| <= j < |Exec(s, events).ledger.jobs| && Exec(s, events).ledger.jobs[j].spec == spec;
      DispatchedLaterIsFeasible(s, events, j);
    }
    if Feasible(s.ledger, spec.required) {
      StaysInPlace(Init(total), past);
      var events, j := FeasibleIsDispatched(s, spec);
      assert NonNegativeDemands(Exec(s, events));
    }
  }

  lemma {:induction false} StaysInPlace(s: State, events: seq<Event>)
    requires InPlace(s) && Possible(s, events)
    ensures InPlace(Exec(s, events))
    decreases |events|
  {
    if events != [] {
      ChannelEffect(s, events[0]);
      QueueEffect(s, events[0]);
      StaysInPlace(Apply(s, events[0]), events[1..]);
    }
  }

  // ---- A lease takes what it asks for, for good ----

  /** A lease is granted exactly when it fits, and then takes its amounts; otherwise nothing changes. */
  lemma LeaseTakesExactly(s: State, need: Quantities)
    ensures var next := Apply(s, Lease(need));
            if CanSatisfy(s.ledger.available, need)
            then next.ledger.leases == s.ledger.leases + [need] &&
                 forall name :: Get(next.ledger.available, name) == Get(s.ledger.available, name) - Get(need, name)
            else next == s
  {
    if CanSatisfy(s.ledger.available, need) {
      forall name ensures Get(Minus(s.ledger.available, need), name) == Get(s.ledger.available, name) - Get(need, name) {
        MinusLookup(s.ledger.available, need, name);
      }
    }
  }

  lemma LeaseOfAll(l: Ledger, name: string)
    requires Conserved(l) && Idle(l)
    ensures var need := map[name := Get(l.available, name)];
            Leased(Grant(l, need).leases, name) == Get(l.total, name)
  {
    IdlePoolIsFull(l);
    var need := map[name := Get(l.available, name)];
    assert Grant(l, need).leases[..|l.leases|] == l.leases;
  }

  /** From every reachable state a single lease can end a task's chances: for every task that needs some of a resource,
      some continuation grants one lease of that resource after which no continuation dispatches the task. */
  lemma OneLeaseCanBlock(total: Quantities, past: seq<Event>, spec: TaskSpec, name: string)
      returns (events: seq<Event>)
    requires ReachableWithin(total, past) && NonNegative(spec.required)
    requires name in spec.required && spec.required[name] > 0.0
    ensures var s := Exec(Init(total), past);
            && Possible(s, events) && NonNegativeDemands(Exec(s, events))
            && |Exec(s, events).ledger.leases| == |s.ledger.leases| + 1
            && !CanBeDispatched(Exec(s, events), spec)
  {
    var s := Exec(Init(total), past);
    ReachableBounded(total, past);
    var completions := CompleteAll(s, |s.ledger.jobs|);
    var idle := Exec(s, completions);
    CompletionsKeepLeases(s, completions);
    BoundedRun(s, completions);
    var need: Quantities := map[name := Get(idle.ledger.available, name)];
    events := completions + [Lease(need)];
    RunAppend(s, completions, Lease(need));
    LeaseBlocks(idle, spec, name);
  }

  lemma LeaseBlocks(idle: State, spec: TaskSpec, name: string)
    requires Bounded(idle) && NonNegativeDemands(idle) && Idle(idle.ledger)
    requires name in spec.required && spec.required[name] > 0.0
    ensures var end := Apply(idle, Lease(map[name := Get(idle.ledger.available, name)]));
            && NonNegativeDemands(end) && |end.ledger.leases| == |idle.ledger.leases| + 1
            && !CanBeDispatched(end, spec)
  {
    var need: Quantities := map[name := Get(idle.ledger.available, name)];
    var end := Apply(idle, Lease(need));
    LeaseTakesExactly(idle, need);
    LeaseOfAll(idle.ledger, name);
    BoundedStep(idle, Lease(need));
    assert !Feasible(end.ledger, spec.required);
    forall events, j | Possible(end, events) && NonNegativeDemands(Exec(end, events))
                       && |end.ledger.jobs| <= j < |Exec(end, events).ledger.jobs|
      ensures Exec(end, events).ledger.jobs[j].spec != spec
    {
      DispatchedLaterIsFeasible(end, events, j);
    }
  }
}
