/** The drain as a first-fit pass, and how fast the queue empties. */
module SchedulerProgress {
  import opened Prelude
  import opened ResourceSets
  import opened Tasks
  import opened SchedulerModel
  import opened SchedulerResources

  // ---- The recursive first-fit pass ----

  /** Which of the tasks `todo`, tried in order, are admitted. */
  ghost function FirstFit(have: Quantities, todo: seq<TaskSpec>): (admitted: seq<bool>)
    ensures |admitted| == |todo|
    decreases |todo|
  {
    if todo == [] then []
    else if CanSatisfy(have, todo[0].required) then [true] + FirstFit(Minus(have, todo[0].required), todo[1..])
    else [false] + FirstFit(have, todo[1..])
  }

  ghost function Chosen<T>(items: seq<T>, mask: seq<bool>, want: bool): seq<T>
    requires |items| == |mask|
  {
    if items == [] then []
    else (if mask[0] == want then [items[0]] else []) + Chosen(items[1..], mask[1..], want)
  }

  /** What the admitted tasks among the first `n` take of one resource. */
  ghost function Drawn(todo: seq<TaskSpec>, mask: seq<bool>, n: nat, name: string): real
    requires n <= |todo| == |mask|
  {
    if n == 0 then 0.0
    else (if mask[0] then Get(todo[0].required, name) else 0.0) + Drawn(todo[1..], mask[1..], n - 1, name)
  }

  /** A task is admitted exactly when it fits into what the admitted tasks before it leave over. */
  lemma {:induction false} FirstFitIsGreedy(have: Quantities, todo: seq<TaskSpec>, i: nat)
    requires i < |todo|
    ensures FirstFit(have, todo)[i] <==>
            forall name | name in todo[i].required ::
              todo[i].required[name] <= Get(have, name) - Drawn(todo, FirstFit(have, todo), i, name)
    decreases |todo|
  {
    if i > 0 {
      var first, mask, rest := todo[0].required, FirstFit(have, todo), todo[1..];
      var left := if CanSatisfy(have, first) then Minus(have, first) else have;
      assert mask[1..] == FirstFit(left, rest);
      FirstFitIsGreedy(left, rest, i - 1);
      forall name ensures Get(have, name) - Drawn(todo, mask, i, name) ==
                          Get(left, name) - Drawn(rest, mask[1..], i - 1, name)
      {
        MinusLookup(have, first, name);
      }
    }
  }

  lemma {:induction false} ChosenSplits<T>(items: seq<T>, mask: seq<bool>)
    requires |items| == |mask|
    ensures multiset(items) == multiset(Chosen(items, mask, true)) + multiset(Chosen(items, mask, false))
  {
    if items != [] {
      ChosenSplits(items[1..], mask[1..]);
      assert items == [items[0]] + items[1..];
      assert Chosen(items, mask, mask[0]) == [items[0]] + Chosen(items[1..], mask[1..], mask[0]);
      assert Chosen(items, mask, !mask[0]) == Chosen(items[1..], mask[1..], !mask[0]);
    }
  }

  lemma {:induction false} ChosenInOrder<T(!new)>(items: seq<T>, mask: seq<bool>, want: bool)
    requires |items| == |mask|
    ensures Subsequence(Chosen(items, mask, want), items)
  {
    if items == [] {
      assert Places([], Chosen(items, mask, want), items);
    } else {
      var rest := Chosen(items[1..], mask[1..], want);
      ChosenInOrder(items[1..], mask[1..], want);
      assert items == [items[0]] + items[1..];
      SubsequencePrepend(rest, items[1..], items[0]);
      assert Chosen(items, mask, want) == if mask[0] == want then [items[0]] + rest else rest;
    }
  }

  /** The chosen and the passed-over items are complementary, order-preserving parts. */
  lemma ChosenComplementary<T(!new)>(items: seq<T>, mask: seq<bool>)
    requires |items| == |mask|
    ensures multiset(items) == multiset(Chosen(items, mask, true)) + multiset(Chosen(items, mask, false))
    ensures Subsequence(Chosen(items, mask, true), items) && Subsequence(Chosen(items, mask, false), items)
  {
    ChosenSplits(items, mask);
    ChosenInOrder(items, mask, true);
    ChosenInOrder(items, mask, false);
  }

  lemma {:induction false} NothingFits(have: Quantities, todo: seq<TaskSpec>)
    requires forall i :: 0 <= i < |todo| ==> !CanSatisfy(have, todo[i].required)
    ensures forall i :: 0 <= i < |todo| ==> !FirstFit(have, todo)[i]
    ensures Chosen(todo, FirstFit(have, todo), false) == todo
    decreases |todo|
  {
    if todo != [] {
      NothingFits(have, todo[1..]);
      assert FirstFit(have, todo)[1..] == FirstFit(have, todo[1..]);
    }
  }

  // ---- A drain without interference is the first-fit pass ----

  ghost function Tries(n: nat): seq<Event> {
    seq(n, i => TryNext)
  }

  ghost function MarkRunning(statuses: map<TaskId, TaskStatus>, admitted: seq<TaskSpec>): map<TaskId, TaskStatus>
    decreases |admitted|
  {
    if admitted == [] then statuses else MarkRunning(statuses[admitted[0].taskId := Running], admitted[1..])
  }

  /** Every admitted id is Running, and every other status is as it was. */
  lemma {:induction false} MarkRunningExactly(statuses: map<TaskId, TaskStatus>, admitted: seq<TaskSpec>, id: TaskId)
    ensures var after := MarkRunning(statuses, admitted);
            if exists t :: t in admitted && t.taskId == id then id in after && after[id] == Running
            else (id in after <==> id in statuses) && (id in after ==> after[id] == statuses[id])
    decreases |admitted|
  {
    if admitted != [] {
      MarkRunningExactly(statuses[admitted[0].taskId := Running], admitted[1..], id);
      assert admitted == [admitted[0]] + admitted[1..];
      assert forall t :: t in admitted <==> t == admitted[0] || t in admitted[1..];
    }
  }

  /** `after` is `before` less what the admitted tasks of `todo` take. */
  ghost predicate TakesAdmitted(before: Quantities, after: Quantities, todo: seq<TaskSpec>, mask: seq<bool>)
    requires |todo| == |mask|
  {
    forall name :: Get(after, name) == Get(before, name) - Drawn(todo, mask, |todo|, name)
  }

  /** What a pass shows: the queue, the dispatched tasks, the statuses and what is available. */
  datatype View = View(queue: seq<TaskSpec>, dispatched: seq<TaskSpec>, statuses: map<TaskId, TaskStatus>, available: Quantities)

  ghost function ViewOf(s: State, queue: seq<TaskSpec>): View {
    View(queue, Specs(s.ledger.jobs), s.statuses, s.ledger.available)
  }

  /** `after` is `before` after a first-fit pass over `todo`, which follows the queue of `before`: kept tasks stay
      queued in order, admitted ones are dispatched in order and Running, and what they need is gone. */
  ghost predicate PassOutcome(before: View, todo: seq<TaskSpec>, after: View) {
    var mask := FirstFit(before.available, todo);
    && after.queue == before.queue + Chosen(todo, mask, false)
    && after.dispatched == before.dispatched + Chosen(todo, mask, true)
    && after.statuses == MarkRunning(before.statuses, Chosen(todo, mask, true))
    && TakesAdmitted(before.available, after.available, todo, mask)
  }

  /** `end` is `s` after a first-fit pass over the part of the queue not tried yet. */
  ghost predicate FirstFitOutcome(s: State, end: State)
    requires s.loop.Draining? && s.loop.next <= |s.queue|
  {
    PassOutcome(ViewOf(s, s.queue[..s.loop.next]), s.queue[s.loop.next..], ViewOf(end, end.queue))
  }

  lemma AdmittedPass(before: View, todo: seq<TaskSpec>, after: View)
    requires todo != [] && CanSatisfy(before.available, todo[0].required)
    requires PassOutcome(View(before.queue, before.dispatched + [todo[0]], before.statuses[todo[0].taskId := Running],
                              Minus(before.available, todo[0].required)), todo[1..], after)
    ensures PassOutcome(before, todo, after)
  {
    var have, left := before.available, Minus(before.available, todo[0].required);
    var mask, rest := FirstFit(have, todo), FirstFit(left, todo[1..]);
    assert mask[0] && mask[1..] == rest;
    var admitted := Chosen(todo[1..], rest, true);
    assert Chosen(todo, mask, true) == [todo[0]] + admitted && ([todo[0]] + admitted)[1..] == admitted;
    assert Chosen(todo, mask, false) == Chosen(todo[1..], rest, false);
    forall name ensures Get(left, name) == Get(have, name) - Get(todo[0].required, name) {
      MinusLookup(have, todo[0].required, name);
    }
  }

  lemma PassedOverPass(before: View, todo: seq<TaskSpec>, after: View)
    requires todo != [] && !CanSatisfy(before.available, todo[0].required)
    requires PassOutcome(View(before.queue + [todo[0]], before.dispatched, before.statuses, before.available), todo[1..], after)
    ensures PassOutcome(before, todo, after)
  {
    var mask, rest := FirstFit(before.available, todo), FirstFit(before.available, todo[1..]);
    assert !mask[0] && mask[1..] == rest;
    assert Chosen(todo, mask, true) == Chosen(todo[1..], rest, true);
    assert Chosen(todo, mask, false) == [todo[0]] + Chosen(todo[1..], rest, false);
  }

  /** One try moves one task from what is still to be tried to the dispatched or to the kept ones. */
  lemma TryEffect(s: State)
    requires Enabled(s, TryNext)
    ensures var next, before, todo := TryQueued(s), ViewOf(s, s.queue[..s.loop.next]), s.queue[s.loop.next..];
            && next.loop.Draining? && next.loop.next <= |next.queue| && todo != [] && next.queue[next.loop.next..] == todo[1..]
            && ViewOf(next, next.queue[..next.loop.next]) ==
               if CanSatisfy(before.available, todo[0].required)
               then View(before.queue, before.dispatched + [todo[0]], before.statuses[todo[0].taskId := Running],
                         Minus(before.available, todo[0].required))
               else View(before.queue + [todo[0]], before.dispatched, before.statuses, before.available)
  {
  }

  lemma NothingLeftOutcome(s: State)
    requires s.loop.Draining? && s.loop.next == |s.queue|
    ensures FirstFitOutcome(s, s)
  {
    assert s.queue[..s.loop.next] == s.queue;
  }

  lemma OneTryOutcome(s: State, end: State)
    requires Enabled(s, TryNext) && FirstFitOutcome(TryQueued(s), end)
    ensures FirstFitOutcome(s, end)
  {
    TryEffect(s);
    var before, todo := ViewOf(s, s.queue[..s.loop.next]), s.queue[s.loop.next..];
    if CanSatisfy(before.available, todo[0].required) {
      AdmittedPass(before, todo, ViewOf(end, end.queue));
    } else {
      PassedOverPass(before, todo, ViewOf(end, end.queue));
    }
  }

  lemma FirstTry(s: State, n: nat)
    requires Enabled(s, TryNext) && n == |s.queue| - s.loop.next
    ensures var next := Apply(s, TryNext);
            && next == TryQueued(s) && next.loop.Draining? && |next.queue| - next.loop.next == n - 1
            && Tries(n) == [TryNext] + Tries(n - 1) && Tries(n)[1..] == Tries(n - 1)
  {
  }

  /** Without interference, trying every queued task once is exactly the first-fit pass. */
  lemma {:induction false} QuietDrainIsFirstFit(s: State)
    requires s.loop.Draining? && s.loop.next <= |s.queue|
    ensures Possible(s, Tries(|s.queue| - s.loop.next))
    ensures var end := Exec(s, Tries(|s.queue| - s.loop.next));
            Enabled(end, EndDrain) && FirstFitOutcome(s, end)
    decreases |s.queue| - s.loop.next
  {
    var n := |s.queue| - s.loop.next;
    if n == 0 {
      NothingLeftOutcome(s);
    } else {
      FirstTry(s, n);
      var next := Apply(s, TryNext);
      QuietDrainIsFirstFit(next);
      OneTryOutcome(s, Exec(next, Tries(n - 1)));
    }
  }

  /** With nothing released since the last drain began, draining again admits nothing. */
  lemma SecondDrainIsNoOp(total: Quantities, events: seq<Event>)
    requires ReachableWithin(total, events)
    requires Exec(Init(total), events).loop.Receiving?
    requires forall name :: Get(Exec(Init(total), events).ledger.freed, name) == 0.0
    ensures var s := Exec(Init(total), events);
            && Chosen(s.queue, FirstFit(s.ledger.available, s.queue), false) == s.queue
            && forall i :: 0 <= i < |s.queue| ==> !FirstFit(s.ledger.available, s.queue)[i]
  {
    var s := Exec(Init(total), events);
    ReachableBounded(total, events);
    forall i | 0 <= i < |s.queue| ensures !CanSatisfy(s.ledger.available, s.queue[i].required) {
      assert Short(s.ledger, s.queue[i].required);
      var name :| name in s.queue[i].required && Headroom(s.ledger, name) < s.queue[i].required[name];
    }
    NothingFits(s.ledger.available, s.queue);
  }

  // ---- Rounds ----

  ghost predicate Idle(l: Ledger) {
    forall j :: 0 <= j < |l.jobs| ==> !l.jobs[j].running
  }

  /** `need` fits into what the leases granted so far leave of the total. */
  ghost predicate Feasible(l: Ledger, need: Quantities) {
    forall name | name in need :: need[name] <= Get(l.total, name) - Leased(l.leases, name)
  }

  ghost predicate OnlyInfeasible(s: State) {
    forall t | t in s.queue :: !Feasible(s.ledger, t.required)
  }

  /** An action of a client, a finishing task or a lease that takes no negative amount. */
  ghost predicate FromOutside(e: Event) {
    e.Send? || e.Complete? || (e.Lease? && NonNegative(e.need))
  }

  ghost predicate Outside(events: seq<Event>) {
    forall e | e in events :: FromOutside(e)
  }

  ghost predicate WithinDrain(events: seq<Event>) {
    forall e | e in events :: e.TryNext? || FromOutside(e)
  }

  /** All tasks in flight complete, then the loop takes one command that submits nothing and drains,
      with sends, completions and leases interleaved anywhere. */
  ghost predicate Round(s: State, before: seq<Event>, during: seq<Event>, end: State) {
    && s.loop.Receiving?
    && Outside(before) && WithinDrain(during)
    && Possible(s, before)
    && var rest := Exec(s, before);
    && Idle(rest.ledger)
    && Enabled(rest, Receive) && !rest.sent[rest.handled].SubmitTask?
    && Possible(Apply(rest, Receive), during)
    && var drained := Exec(Apply(rest, Receive), during);
    && Enabled(drained, EndDrain)
    && end == Apply(drained, EndDrain)
  }

  lemma {:induction false} IdleHoldsNothing(jobs: seq<Job>, name: string)
    requires forall j :: 0 <= j < |jobs| ==> !jobs[j].running
    ensures Held(jobs, name) == 0.0
  {
    if |jobs| > 0 {
      IdleHoldsNothing(jobs[..|jobs| - 1], name);
    }
  }

  lemma IdlePoolIsFull(l: Ledger)
    requires Conserved(l) && Idle(l)
    ensures forall name :: Get(l.available, name) == Get(l.total, name) - Leased(l.leases, name)
  {
    forall name ensures Get(l.available, name) == Get(l.total, name) - Leased(l.leases, name) {
      IdleHoldsNothing(l.jobs, name);
    }
  }

  /** Once nothing is in flight, what fits is exactly what the leases leave possible. */
  lemma FitsIdlePool(l: Ledger, need: Quantities)
    requires Conserved(l) && Idle(l)
    ensures Fits(l, need) <==> Feasible(l, need)
  {
    IdlePoolIsFull(l);
  }

  ghost predicate LeasesGrow(before: Ledger, after: Ledger) {
    after.total == before.total && forall name :: Leased(before.leases, name) <= Leased(after.leases, name)
  }

  lemma InfeasibleStays(before: Ledger, after: Ledger, need: Quantities)
    requires LeasesGrow(before, after) && !Feasible(before, need)
    ensures !Feasible(after, need)
  {
    var name :| name in need && Get(before.total, name) - Leased(before.leases, name) < need[name];
    assert Leased(before.leases, name) <= Leased(after.leases, name);
  }

  lemma GrantGrows(l: Ledger, need: Quantities)
    requires NonNegative(need)
    ensures LeasesGrow(l, Grant(l, need))
  {
    var after := Grant(l, need).leases;
    assert after[..|l.leases|] == l.leases;
  }

  /** What sends, completions, leases and tries keep: the total, the leases granted, conservation; dispatching
      only moves tasks out of the queue. */
  ghost predicate Narrows(s: State, end: State) {
    && LeasesGrow(s.ledger, end.ledger)
    && |s.ledger.jobs| <= |end.ledger.jobs|
    && |end.queue| + |end.ledger.jobs| == |s.queue| + |s.ledger.jobs|
    && (forall t | t in end.queue :: t in s.queue)
    && (|end.ledger.jobs| == |s.ledger.jobs| ==> end.queue == s.queue)
  }

  lemma NarrowsStep(s: State, e: Event)
    requires Conserved(s.ledger) && Enabled(s, e) && (e.TryNext? || FromOutside(e))
    ensures Narrows(s, Apply(s, e)) && Conserved(Apply(s, e).ledger)
    ensures !e.TryNext? ==> Apply(s, e).loop == s.loop
  {
    ConservedStep(s, e);
    LedgerEffect(s, e);
    QueueEffect(s, e);
    if e.Lease? {
      GrantGrows(s.ledger, e.need);
    }
  }

  lemma {:induction false} NarrowsRun(s: State, events: seq<Event>)
    requires Conserved(s.ledger) && Possible(s, events) && WithinDrain(events)
    ensures Narrows(s, Exec(s, events)) && Conserved(Exec(s, events).ledger)
    ensures Outside(events) ==> Exec(s, events).loop == s.loop
    decreases |events|
  {
    if events != [] {
      assert events[0] in events;
      NarrowsStep(s, events[0]);
      assert forall e | e in events[1..] :: e in events;
      NarrowsRun(Apply(s, events[0]), events[1..]);
    }
  }

  /** The drain has tried a prefix of the queue and dispatched nothing, because nothing so far fits even with
      nothing in flight. */
  ghost predicate Stalled(s: State) {
    && s.loop.Draining? && s.loop.next <= |s.queue|
    && Idle(s.ledger)
    && forall k :: 0 <= k < s.loop.next ==> !Feasible(s.ledger, s.queue[k].required)
  }

  lemma StalledStep(s: State, e: Event)
    requires Stalled(s) && Conserved(s.ledger) && Enabled(s, e) && (e.TryNext? || FromOutside(e))
    ensures |Apply(s, e).ledger.jobs| > |s.ledger.jobs| || Stalled(Apply(s, e))
  {
    var next := Apply(s, e);
    if e.TryNext? {
      FitsIdlePool(s.ledger, s.queue[s.loop.next].required);
    } else {
      NarrowsStep(s, e);
      forall k | 0 <= k < next.loop.next ensures !Feasible(next.ledger, next.queue[k].required) {
        InfeasibleStays(s.ledger, next.ledger, s.queue[k].required);
      }
    }
  }

  lemma {:induction false} StalledRun(s: State, events: seq<Event>)
    requires Stalled(s) && Conserved(s.ledger) && Possible(s, events) && WithinDrain(events)
    ensures |Exec(s, events).ledger.jobs| > |s.ledger.jobs| || Stalled(Exec(s, events))
    decreases |events|
  {
    if events != [] {
      var e := events[0];
      assert e in events;
      StalledStep(s, e);
      NarrowsStep(s, e);
      assert forall x | x in events[1..] :: x in events;
      NarrowsRun(Apply(s, e), events[1..]);
      if Stalled(Apply(s, e)) {
        StalledRun(Apply(s, e), events[1..]);
      }
    }
  }

  lemma ReceiveWithoutSubmission(s: State)
    requires Conserved(s.ledger) && Enabled(s, Receive) && !s.sent[s.handled].SubmitTask?
    ensures var next := Apply(s, Receive);
            && Conserved(next.ledger) && next.loop == Draining(0)
            && next.ledger == StartDrain(s.ledger)
            && |next.queue| <= |s.queue|
            && (forall t | t in next.queue :: t in s.queue)
            && (s.sent[s.handled].GetStatus? ==> next.queue == s.queue)
  {
    ConservedStep(s, Receive);
    if s.sent[s.handled].CancelTask? {
      var id := s.sent[s.handled].taskId;
      FilterPartition(s.queue, (t: TaskSpec) => t.taskId != id, (t: TaskSpec) => t.taskId == id);
    }
  }

  /** A round dispatches a queued task or leaves only tasks that exceed what the leases leave of the total.
      No assumption on the sign of the tasks' requirements is needed. */
  lemma RoundMakesProgress(s: State, before: seq<Event>, during: seq<Event>, end: State)
    requires Conserved(s.ledger) && Round(s, before, during, end)
    ensures |end.ledger.jobs| > |s.ledger.jobs| || OnlyInfeasible(end)
    ensures |end.queue| + |end.ledger.jobs| <= |s.queue| + |s.ledger.jobs|
    ensures forall t | t in end.queue :: t in s.queue
    ensures Conserved(end.ledger) && LeasesGrow(s.ledger, end.ledger)
    ensures end.loop.Receiving?
  {
    NarrowsRun(s, before);
    var rest := Exec(s, before);
    ReceiveWithoutSubmission(rest);
    var start := Apply(rest, Receive);
    NarrowsRun(start, during);
    StalledRun(start, during);
    var drained := Exec(start, during);
    if Stalled(drained) {
      forall t | t in end.queue ensures !Feasible(end.ledger, t.required) {
        var k :| 0 <= k < |drained.queue| && drained.queue[k] == t;
      }
    }
  }

  ghost predicate OneRound(s: State, end: State) {
    exists before, during :: Round(s, before, during, end)
  }

  /** Each state follows the one before it by a round. */
  ghost predicate Rounds(states: seq<State>) {
    |states| > 0 && forall i :: 0 < i < |states| ==> OneRound(states[i - 1], states[i])
  }

  lemma OneRoundProgress(s: State, end: State)
    requires Conserved(s.ledger) && OneRound(s, end)
    ensures Conserved(end.ledger)
    ensures |end.queue| < |s.queue| || OnlyInfeasible(end)
    ensures OnlyInfeasible(s) ==> OnlyInfeasible(end)
  {
    var before, during :| Round(s, before, during, end);
    RoundMakesProgress(s, before, during, end);
    if OnlyInfeasible(s) {
      forall t | t in end.queue ensures !Feasible(end.ledger, t.required) {
        InfeasibleStays(s.ledger, end.ledger, t.required);
      }
    }
  }

  lemma {:induction false} AfterRounds(states: seq<State>, k: nat)
    requires Rounds(states) && Conserved(states[0].ledger) && k < |states|
    ensures Conserved(states[k].ledger)
    ensures |states[k].queue| + k <= |states[0].queue| || OnlyInfeasible(states[k])
  {
    if k > 0 {
      AfterRounds(states, k - 1);
      OneRoundProgress(states[k - 1], states[k]);
    }
  }

  /** After as many rounds as there were queued tasks, only tasks exceeding what the leases leave remain queued;
      without leases, only tasks exceeding the total. */
  lemma QueueEmptiesInRounds(states: seq<State>, n: nat)
    requires Rounds(states) && Conserved(states[0].ledger) && |states[0].queue| <= n < |states|
    ensures forall t | t in states[n].queue :: !Feasible(states[n].ledger, t.required)
    ensures states[n].ledger.leases == [] ==>
              forall t | t in states[n].queue :: !CanSatisfy(states[n].ledger.total, t.required)
  {
    AfterRounds(states, n);
  }

  // ---- Rounds do happen: completions and one status query are always possible ----

  lemma {:induction false} CompleteAll(s: State, k: nat) returns (events: seq<Event>)
    requires k <= |s.ledger.jobs|
    ensures (forall e | e in events :: e.Complete?) && Possible(s, events)
    ensures var end := Exec(s, events);
            && end.sent == s.sent && end.handled == s.handled && end.queue == s.queue && end.loop == s.loop
            && |end.ledger.jobs| == |s.ledger.jobs|
            && (forall j :: 0 <= j < k ==> !end.ledger.jobs[j].running)
    decreases k
  {
    if k == 0 {
      events := [];
    } else {
      events := CompleteAll(s, k - 1);
      var mid := Exec(s, events);
      if mid.ledger.jobs[k - 1].running {
        RunAppend(s, events, Complete(k - 1));
        LedgerEffect(mid, Complete(k - 1));
        events := events + [Complete(k - 1)];
      }
    }
  }

  /** From every state at the receive point with an empty channel, a round is possible. */
  lemma RoundIsPossible(s: State, id: TaskId) returns (before: seq<Event>, during: seq<Event>, end: State)
    requires s.loop.Receiving? && s.handled == |s.sent|
    ensures Round(s, before, during, end)
  {
    var completions := CompleteAll(s, |s.ledger.jobs|);
    var finished := Exec(s, completions);
    RunAppend(s, completions, Send(GetStatus(id)));
    before := completions + [Send(GetStatus(id))];
    var rest := Exec(s, before);
    var start := Apply(rest, Receive);
    QuietDrainIsFirstFit(start);
    during := Tries(|start.queue|);
    assert start.queue[0..] == start.queue;
    end := Apply(Exec(start, during), EndDrain);
  }
}
