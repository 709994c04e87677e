/** Conservation of resources, admission bounds and drain maximality, over every run. */
module SchedulerResources {
  import opened Prelude
  import opened ResourceSets
  import opened Tasks
  import opened SchedulerModel
  import ResourceManagement

  // ---- Conservation, for requirements of any sign ----

  ghost predicate Conserved(l: Ledger) {
    forall name :: Get(l.available, name) + Held(l.jobs, name) + Leased(l.leases, name) == Get(l.total, name)
  }

  lemma {:induction false} HeldAfterRelease(jobs: seq<Job>, j: nat, name: string)
    requires j < |jobs| && jobs[j].running
    ensures Held(jobs[j := Job(jobs[j].spec, false)], name) == Held(jobs, name) - Get(jobs[j].spec.required, name)
  {
    var n := |jobs| - 1;
    var after := jobs[j := Job(jobs[j].spec, false)];
    if j < n {
      HeldAfterRelease(jobs[..n], j, name);
      assert after[..n] == jobs[..n][j := Job(jobs[j].spec, false)];
    } else {
      assert after[..n] == jobs[..n];
    }
  }

  lemma TakeConserves(l: Ledger, spec: TaskSpec)
    requires Conserved(l) && Fits(l, spec.required)
    ensures Conserved(Take(l, spec))
  {
  }

  lemma GiveBackConserves(l: Ledger, j: nat)
    requires Conserved(l) && j < |l.jobs| && l.jobs[j].running
    ensures Conserved(GiveBack(l, j))
  {
    var next := GiveBack(l, j);
    forall name
      ensures Get(next.available, name) + Held(next.jobs, name) + Leased(next.leases, name) == Get(next.total, name)
    {
      PlusLookup(l.available, l.jobs[j].spec.required, name);
      HeldAfterRelease(l.jobs, j, name);
    }
  }

  lemma GrantConserves(l: Ledger, need: Quantities)
    requires Conserved(l) && Fits(l, need)
    ensures Conserved(Grant(l, need))
  {
  }

  lemma ConservedStep(s: State, e: Event)
    requires Conserved(s.ledger) && Enabled(s, e)
    ensures Conserved(Apply(s, e).ledger)
  {
    LedgerEffect(s, e);
    var l := if e.Receive? then StartDrain(s.ledger) else s.ledger;
    assert Conserved(l);
    match Dispatched(s, e)
    case Some(spec) => TakeConserves(l, spec);
    case None =>
      if e.Complete? {
        GiveBackConserves(l, e.job);
      } else if e.Lease? && Fits(l, e.need) {
        GrantConserves(l, e.need);
      }
  }

  lemma {:induction false} ConservedRun(s: State, events: seq<Event>)
    requires Conserved(s.ledger) && Possible(s, events)
    ensures Conserved(Exec(s, events).ledger)
    ensures Exec(s, events).ledger.total == s.ledger.total
    decreases |events|
  {
    if events != [] {
      ConservedStep(s, events[0]);
      LedgerEffect(s, events[0]);
      ConservedRun(Apply(s, events[0]), events[1..]);
    }
  }

  /** In every interleaving, for every resource name, what is available, what dispatched tasks still
      hold and what leases hold add up to the total; requirements may have any sign. */
  lemma ResourcesAreConserved(total: Quantities, events: seq<Event>, name: string)
    requires Possible(Init(total), events)
    ensures var l := Exec(Init(total), events).ledger;
            Get(l.available, name) + Held(l.jobs, name) + Leased(l.leases, name) == Get(total, name)
  {
    ConservedRun(Init(total), events);
  }

  // ---- Non-negative demands: bounds, feasibility and maximality ----

  ghost predicate AllNonNegative(specs: seq<TaskSpec>) {
    forall i :: 0 <= i < |specs| ==> NonNegative(specs[i].required)
  }

  /** Availability is not negative, and every dispatched task was non-negative and fits the total. */
  ghost predicate Sound(l: Ledger) {
    && Conserved(l)
    && (forall name :: Get(l.available, name) >= 0.0)
    && (forall j :: 0 <= j < |l.jobs| ==>
                      NonNegative(l.jobs[j].spec.required) && CanSatisfy(l.total, l.jobs[j].spec.required))
    && (forall i :: 0 <= i < |l.leases| ==> NonNegative(l.leases[i]))
    && NonNegative(l.freed)
  }

  lemma {:induction false} HeldNonNegative(jobs: seq<Job>, name: string)
    requires forall j :: 0 <= j < |jobs| ==> NonNegative(jobs[j].spec.required)
    ensures Held(jobs, name) >= 0.0
  {
    if |jobs| > 0 {
      HeldNonNegative(jobs[..|jobs| - 1], name);
      assert NonNegative(jobs[|jobs| - 1].spec.required);
    }
  }

  lemma {:induction false} LeasedNonNegative(leases: seq<Quantities>, name: string)
    requires forall i :: 0 <= i < |leases| ==> NonNegative(leases[i])
    ensures Leased(leases, name) >= 0.0
  {
    if |leases| > 0 {
      LeasedNonNegative(leases[..|leases| - 1], name);
      assert NonNegative(leases[|leases| - 1]);
    }
  }

  lemma AvailableWithinTotal(l: Ledger, name: string)
    requires Sound(l)
    ensures 0.0 <= Get(l.available, name) <= Get(l.total, name)
  {
    HeldNonNegative(l.jobs, name);
    LeasedNonNegative(l.leases, name);
  }

  /** Headroom that does not count releases since the drain began; it never grows during a drain. */
  ghost function Headroom(l: Ledger, name: string): real {
    Get(l.available, name) - Get(l.freed, name)
  }

  ghost predicate Shrinks(before: Ledger, after: Ledger) {
    forall name :: Headroom(after, name) <= Headroom(before, name)
  }

  lemma TakeSound(l: Ledger, spec: TaskSpec)
    requires Sound(l) && NonNegative(spec.required) && Fits(l, spec.required)
    ensures Sound(Take(l, spec)) && Shrinks(l, Take(l, spec))
  {
    var next := Take(l, spec);
    TakeConserves(l, spec);
    forall name | name in spec.required ensures spec.required[name] <= Get(l.total, name) {
      AvailableWithinTotal(l, name);
    }
    forall name ensures 0.0 <= Get(next.available, name) <= Get(l.available, name) {
      MinusLookup(l.available, spec.required, name);
    }
  }

  lemma GiveBackSound(l: Ledger, j: nat)
    requires Sound(l) && j < |l.jobs| && l.jobs[j].running
    ensures Sound(GiveBack(l, j)) && Shrinks(l, GiveBack(l, j))
  {
    var next, back := GiveBack(l, j), l.jobs[j].spec.required;
    GiveBackConserves(l, j);
    forall name
      ensures Get(next.available, name) == Get(l.available, name) + Get(back, name)
      ensures Get(next.freed, name) == Get(l.freed, name) + Get(back, name)
    {
      PlusLookup(l.available, back, name);
      PlusLookup(l.freed, back, name);
    }
  }

  lemma GrantSound(l: Ledger, need: Quantities)
    requires Sound(l) && NonNegative(need) && Fits(l, need)
    ensures Sound(Grant(l, need)) && Shrinks(l, Grant(l, need))
  {
  }

  /** What the demands assumption says about the event itself. */
  ghost predicate NonNegativeEvent(s: State, e: Event)
    requires Enabled(s, e)
  {
    && (Dispatched(s, e).Some? ==> NonNegative(Dispatched(s, e).value.required))
    && (e.Lease? && Fits(s.ledger, e.need) ==> NonNegative(e.need))
  }

  lemma SoundStep(s: State, e: Event)
    requires Sound(s.ledger) && Enabled(s, e) && NonNegativeEvent(s, e)
    ensures Sound(Apply(s, e).ledger)
    ensures !e.Receive? ==> Shrinks(s.ledger, Apply(s, e).ledger)
  {
    LedgerEffect(s, e);
    var l := if e.Receive? then StartDrain(s.ledger) else s.ledger;
    assert Sound(l);
    match Dispatched(s, e)
    case Some(spec) => TakeSound(l, spec);
    case None =>
      if e.Complete? {
        GiveBackSound(l, e.job);
      } else if e.Lease? && Fits(l, e.need) {
        GrantSound(l, e.need);
      }
  }

  /** `need` does not fit into the headroom. */
  ghost predicate Short(l: Ledger, need: Quantities) {
    exists name :: name in need && Headroom(l, name) < need[name]
  }

  ghost function Tried(s: State): int {
    if s.loop.Draining? then s.loop.next else |s.queue|
  }

  ghost predicate Maximal(s: State) {
    && Tried(s) <= |s.queue|
    && forall i :: 0 <= i < Tried(s) ==> Short(s.ledger, s.queue[i].required)
  }

  lemma ShortPersists(before: Ledger, after: Ledger, need: Quantities)
    requires Short(before, need) && Shrinks(before, after)
    ensures Short(after, need)
  {
  }

  lemma UnfitIsShort(l: Ledger, need: Quantities)
    requires Sound(l) && !Fits(l, need)
    ensures Short(l, need)
  {
  }

  ghost predicate Bounded(s: State) {
    Sound(s.ledger) && AllNonNegative(s.queue) && Maximal(s)
  }

  lemma DemandsEarlier(s: State, e: Event)
    requires Enabled(s, e) && NonNegativeDemands(Apply(s, e))
    ensures NonNegativeDemands(s)
    ensures AllNonNegative(s.queue) ==> NonNegativeEvent(s, e)
  {
    var next := Apply(s, e);
    LedgerEffect(s, e);
    ChannelEffect(s, e);
    forall i | 0 <= i < |s.sent| && s.sent[i].SubmitTask? ensures NonNegative(s.sent[i].spec.required) {
      assert next.sent[i] == s.sent[i];
    }
    forall i | 0 <= i < |s.ledger.leases| ensures NonNegative(s.ledger.leases[i]) {
      assert next.ledger.leases[i] == s.ledger.leases[i];
    }
    if e.Lease? && Fits(s.ledger, e.need) {
      assert next.ledger.leases[|s.ledger.leases|] == e.need;
    }
  }

  /** How an event moves the queue: nothing new but the submission just taken, and the tried prefix
      survives except that a command restarts the drain. */
  lemma QueueEffect(s: State, e: Event)
    requires Enabled(s, e)
    ensures var next := Apply(s, e);
            && (forall t | t in next.queue :: t in s.queue || (e.Receive? && s.sent[s.handled] == SubmitTask(t)))
            && (e.Receive? ==> next.loop == Draining(0))
            && (e.TryNext? ==>
                  if Fits(s.ledger, s.queue[s.loop.next].required)
                  then next.loop == s.loop && next.queue == RemoveAt(s.queue, s.loop.next)
                  else next.loop == Draining(s.loop.next + 1) && next.queue == s.queue)
            && (e.EndDrain? ==> next.queue == s.queue && next.loop == Receiving)
            && (e.Send? || e.Complete? || e.Lease? ==> next.queue == s.queue && next.loop == s.loop)
  {
    match e
    case Receive =>
      match s.sent[s.handled] {
        case SubmitTask(_) =>
        case CancelTask(id) =>
          FilterPartition(s.queue, (t: TaskSpec) => t.taskId != id, (t: TaskSpec) => t.taskId == id);
        case GetStatus(_) =>
      }
    case TryNext => RemoveAtMultiset(s.queue, s.loop.next);
    case _ =>
  }

  lemma BoundedStep(s: State, e: Event)
    requires Bounded(s) && Enabled(s, e) && NonNegativeDemands(Apply(s, e))
    ensures Bounded(Apply(s, e))
  {
    var next := Apply(s, e);
    DemandsEarlier(s, e);
    SoundStep(s, e);
    QueueEffect(s, e);
    forall i | 0 <= i < |next.queue| ensures NonNegative(next.queue[i].required) {
      var t := next.queue[i];
      assert t in next.queue;
      if t !in s.queue {
        assert s.sent[s.handled] == SubmitTask(t);
      }
    }
    forall i | 0 <= i < Tried(next) ensures Short(next.ledger, next.queue[i].required) {
      if e.TryNext? && i == s.loop.next {
        UnfitIsShort(s.ledger, s.queue[i].required);
      }
      ShortPersists(s.ledger, next.ledger, s.queue[i].required);
    }
  }

  lemma {:induction false} BoundedRun(s: State, events: seq<Event>)
    requires Bounded(s) && Possible(s, events) && NonNegativeDemands(Exec(s, events))
    ensures Bounded(Exec(s, events))
    decreases |events|
  {
    if events != [] {
      var next := Apply(s, events[0]);
      DemandsHold(next, events[1..]);
      BoundedStep(s, events[0]);
      BoundedRun(next, events[1..]);
    }
  }

  lemma {:induction false} DemandsHold(s: State, events: seq<Event>)
    requires Possible(s, events) && NonNegativeDemands(Exec(s, events))
    ensures NonNegativeDemands(s)
    decreases |events|
  {
    if events != [] {
      DemandsHold(Apply(s, events[0]), events[1..]);
      DemandsEarlier(s, events[0]);
    }
  }

  ghost predicate ReachableWithin(total: Quantities, events: seq<Event>) {
    Possible(Init(total), events) && NonNegativeDemands(Exec(Init(total), events))
  }

  lemma ReachableBounded(total: Quantities, events: seq<Event>)
    requires ReachableWithin(total, events)
    ensures Bounded(Exec(Init(total), events)) && Exec(Init(total), events).ledger.total == total
  {
    ConservedRun(Init(total), events);
    DemandsHold(Init(total), events);
    BoundedRun(Init(total), events);
  }

  /** With non-negative demands availability stays between zero and the total, so every reported
      utilization is a fraction. */
  lemma AvailabilityStaysInBounds(total: Quantities, events: seq<Event>)
    requires ReachableWithin(total, events)
    ensures var available := Exec(Init(total), events).ledger.available;
            && (forall name :: 0.0 <= Get(available, name) <= Get(total, name))
            && (var util := ResourceManagement.Utilization(total, available);
                forall name | name in util :: 0.0 <= util[name] <= 1.0)
  {
    var l := Exec(Init(total), events).ledger;
    ReachableBounded(total, events);
    forall name ensures 0.0 <= Get(l.available, name) <= Get(total, name) {
      AvailableWithinTotal(l, name);
    }
    ResourceManagement.UtilizationIsFraction(total, l.available);
  }

  /** In every run the node reports exactly the resources it has, each as the share held by tasks in flight and by
      leases; requirements may have any sign. */
  lemma UtilizationIsWhatIsTaken(total: Quantities, events: seq<Event>, name: string)
    requires Possible(Init(total), events)
    ensures var l := Exec(Init(total), events).ledger;
            var util := ResourceManagement.Utilization(total, l.available);
            && (name in util <==> name in total && total[name] > 0.0)
            && (name in util ==> util[name] * total[name] == Held(l.jobs, name) + Leased(l.leases, name))
  {
    var l := Exec(Init(total), events).ledger;
    ConservedRun(Init(total), events);
    ResourceManagement.UtilizationIsUsedShare(total, l.available, name);
  }

  /** A task that needs more than the node's total is never dispatched, in any run. */
  lemma OversizedTaskNeverDispatched(total: Quantities, events: seq<Event>, j: nat)
    requires ReachableWithin(total, events) && j < |Exec(Init(total), events).ledger.jobs|
    ensures CanSatisfy(total, Exec(Init(total), events).ledger.jobs[j].spec.required)
  {
    ReachableBounded(total, events);
  }

  /** Whenever the loop is back at its receive point, no queued task fits into what is available
      without the resources released since the last drain began. */
  lemma DrainIsMaximal(total: Quantities, events: seq<Event>, i: nat)
    requires ReachableWithin(total, events)
    requires Exec(Init(total), events).loop.Receiving? && i < |Exec(Init(total), events).queue|
    ensures var s := Exec(Init(total), events);
            exists name :: name in s.queue[i].required &&
                           Get(s.ledger.available, name) - Get(s.ledger.freed, name) < s.queue[i].required[name]
  {
    ReachableBounded(total, events);
    var s := Exec(Init(total), events);
    assert Short(s.ledger, s.queue[i].required);
    var name :| name in s.queue[i].required && Headroom(s.ledger, name) < s.queue[i].required[name];
  }
}
