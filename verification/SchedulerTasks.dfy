/** Task accounting, queue order, status agreement and the answers clients see, over every run. */
module SchedulerTasks {
  import opened Prelude
  import opened Tasks
  import opened SchedulerModel

  // ---- Accounting and order ----

  ghost function TakenSubmissions(s: State): seq<TaskSpec>
    requires s.handled <= |s.sent|
  {
    Submitted(s.sent[..s.handled])
  }

  /** `taken` is split, without loss or duplication, into a queue that keeps its order, the dispatched
      tasks and the tasks cancelled in the queue. */
  ghost predicate Split(taken: seq<TaskSpec>, queue: seq<TaskSpec>, dispatched: seq<TaskSpec>, cancelled: seq<TaskSpec>) {
    && multiset(taken) == multiset(queue) + multiset(dispatched) + multiset(cancelled)
    && Subsequence(queue, taken)
  }

  ghost predicate Accounted(s: State) {
    s.handled <= |s.sent| && Split(TakenSubmissions(s), s.queue, Specs(s.ledger.jobs), s.cancelled)
  }

  lemma SplitEnqueue(taken: seq<TaskSpec>, queue: seq<TaskSpec>, dispatched: seq<TaskSpec>, cancelled: seq<TaskSpec>, spec: TaskSpec)
    requires Split(taken, queue, dispatched, cancelled)
    ensures Split(taken + [spec], queue + [spec], dispatched, cancelled)
  {
    SubsequenceGrow(queue, taken, spec);
  }

  lemma SplitRun(taken: seq<TaskSpec>, queue: seq<TaskSpec>, dispatched: seq<TaskSpec>, cancelled: seq<TaskSpec>, spec: TaskSpec)
    requires Split(taken, queue, dispatched, cancelled)
    ensures Split(taken + [spec], queue, dispatched + [spec], cancelled)
  {
    SubsequenceGrow(queue, taken, spec);
  }

  lemma SplitCancellation(taken: seq<TaskSpec>, queue: seq<TaskSpec>, dispatched: seq<TaskSpec>, cancelled: seq<TaskSpec>, id: TaskId)
    requires Split(taken, queue, dispatched, cancelled)
    ensures Split(taken, Filter(queue, (t: TaskSpec) => t.taskId != id), dispatched,
                  cancelled + Filter(queue, (t: TaskSpec) => t.taskId == id))
  {
    var keep, drop := (t: TaskSpec) => t.taskId != id, (t: TaskSpec) => t.taskId == id;
    FilterPartition(queue, keep, drop);
    FilterSubsequence(queue, keep);
    SubsequenceTransitive(Filter(queue, keep), queue, taken);
  }

  lemma SplitDispatch(taken: seq<TaskSpec>, queue: seq<TaskSpec>, dispatched: seq<TaskSpec>, cancelled: seq<TaskSpec>, i: nat)
    requires Split(taken, queue, dispatched, cancelled) && i < |queue|
    ensures Split(taken, RemoveAt(queue, i), dispatched + [queue[i]], cancelled)
  {
    RemoveAtMultiset(queue, i);
    SubsequenceRemoveAt(queue, taken, i);
  }

  lemma SubmittedNext(sent: seq<Command>, n: nat)
    requires n < |sent|
    ensures Submitted(sent[..n + 1]) == Submitted(sent[..n]) + if sent[n].SubmitTask? then [sent[n].spec] else []
  {
    assert sent[..n + 1][..n] == sent[..n];
  }

  lemma SpecsOfTake(l: Ledger, spec: TaskSpec)
    ensures Specs(Take(l, spec).jobs) == Specs(l.jobs) + [spec]
  {
  }

  lemma SpecsOfGiveBack(l: Ledger, j: nat)
    requires j < |l.jobs|
    ensures Specs(GiveBack(l, j).jobs) == Specs(l.jobs)
  {
  }

  lemma SubmitEffect(s: State)
    requires Enabled(s, Receive) && s.sent[s.handled].SubmitTask?
    ensures var next, spec := Apply(s, Receive), s.sent[s.handled].spec;
            && next.sent == s.sent && next.handled == s.handled + 1 && next.cancelled == s.cancelled
            && if Fits(StartDrain(s.ledger), spec.required)
               then next.queue == s.queue && Specs(next.ledger.jobs) == Specs(s.ledger.jobs) + [spec]
               else next.queue == s.queue + [spec] && Specs(next.ledger.jobs) == Specs(s.ledger.jobs)
  {
  }

  lemma SubmitAccounts(s: State)
    requires Accounted(s) && Enabled(s, Receive) && s.sent[s.handled].SubmitTask?
    ensures Accounted(Apply(s, Receive))
  {
    var spec, next := s.sent[s.handled].spec, Apply(s, Receive);
    SubmitEffect(s);
    SubmittedNext(s.sent, s.handled);
    assert TakenSubmissions(next) == TakenSubmissions(s) + [spec];
    if next.queue == s.queue {
      SplitRun(TakenSubmissions(s), s.queue, Specs(s.ledger.jobs), s.cancelled, spec);
    } else {
      SplitEnqueue(TakenSubmissions(s), s.queue, Specs(s.ledger.jobs), s.cancelled, spec);
    }
  }

  lemma OtherCommandAccounts(s: State)
    requires Accounted(s) && Enabled(s, Receive) && !s.sent[s.handled].SubmitTask?
    ensures Accounted(Apply(s, Receive))
  {
    var command := s.sent[s.handled];
    SubmittedNext(s.sent, s.handled);
    assert TakenSubmissions(s) + [] == TakenSubmissions(s);
    if command.CancelTask? {
      SplitCancellation(TakenSubmissions(s), s.queue, Specs(s.ledger.jobs), s.cancelled, command.taskId);
    }
  }

  lemma AccountedStep(s: State, e: Event)
    requires Accounted(s) && Enabled(s, e)
    ensures Accounted(Apply(s, e))
  {
    match e
    case Send(command) => assert (s.sent + [command])[..s.handled] == s.sent[..s.handled];
    case Receive =>
      if s.sent[s.handled].SubmitTask? {
        SubmitAccounts(s);
      } else {
        OtherCommandAccounts(s);
      }
    case TryNext =>
      SplitDispatch(TakenSubmissions(s), s.queue, Specs(s.ledger.jobs), s.cancelled, s.loop.next);
      SpecsOfTake(s.ledger, s.queue[s.loop.next]);
    case EndDrain =>
    case Complete(j) => SpecsOfGiveBack(s.ledger, j);
    case Lease(_) =>
  }

  lemma {:induction false} AccountedRun(s: State, events: seq<Event>)
    requires Accounted(s) && Possible(s, events)
    ensures Accounted(Exec(s, events))
    decreases |events|
  {
    if events != [] {
      AccountedStep(s, events[0]);
      AccountedRun(Apply(s, events[0]), events[1..]);
    }
  }

  lemma InitAccounted(total: map<string, real>)
    ensures Accounted(Init(total))
  {
    assert Places([], Init(total).queue, TakenSubmissions(Init(total)));
  }

  ghost function JobsWhere(jobs: seq<Job>, running: bool): seq<TaskSpec> {
    if |jobs| == 0 then []
    else
      var last := jobs[|jobs| - 1];
      JobsWhere(jobs[..|jobs| - 1], running) + if last.running == running then [last.spec] else []
  }

  lemma {:induction false} JobsSplit(jobs: seq<Job>)
    ensures multiset(Specs(jobs)) == multiset(JobsWhere(jobs, true)) + multiset(JobsWhere(jobs, false))
  {
    if |jobs| > 0 {
      var front, last := jobs[..|jobs| - 1], jobs[|jobs| - 1];
      JobsSplit(front);
      assert Specs(jobs) == Specs(front) + [last.spec];
      JobsWhereNext(jobs, true);
      JobsWhereNext(jobs, false);
      if last.running {
        OneMorePart(Specs(front), JobsWhere(front, true), JobsWhere(front, false), last.spec);
      } else {
        OneMorePart(Specs(front), JobsWhere(front, false), JobsWhere(front, true), last.spec);
      }
    }
  }

  lemma JobsWhereNext(jobs: seq<Job>, running: bool)
    requires |jobs| > 0
    ensures var front, last := jobs[..|jobs| - 1], jobs[|jobs| - 1];
            JobsWhere(jobs, running) == if last.running == running then JobsWhere(front, running) + [last.spec] else JobsWhere(front, running)
  {
  }

  lemma OneMorePart(whole: seq<TaskSpec>, a: seq<TaskSpec>, b: seq<TaskSpec>, x: TaskSpec)
    requires multiset(whole) == multiset(a) + multiset(b)
    ensures multiset(whole + [x]) == multiset(a + [x]) + multiset(b)
  {
  }

  /** In every run the submissions taken by the loop are exactly the queued, in-flight, completed and
      cancelled-in-queue ones, and the queue is in submission order. */
  lemma EveryTaskIsAccountedFor(total: map<string, real>, events: seq<Event>)
    requires Possible(Init(total), events)
    ensures var s := Exec(Init(total), events);
            && s.handled <= |s.sent|
            && multiset(Submitted(s.sent[..s.handled])) ==
               multiset(s.queue) + multiset(JobsWhere(s.ledger.jobs, true)) +
               multiset(JobsWhere(s.ledger.jobs, false)) + multiset(s.cancelled)
            && Subsequence(s.queue, Submitted(s.sent[..s.handled]))
  {
    InitAccounted(total);
    AccountedRun(Init(total), events);
    JobsSplit(Exec(Init(total), events).ledger.jobs);
  }

  lemma {:induction false} SubmittedOnce(commands: seq<Command>, spec: TaskSpec)
    requires DistinctTaskIds(commands)
    ensures multiset(Submitted(commands))[spec] <= 1
  {
    if |commands| > 0 {
      var n := |commands| - 1;
      SubmittedOnce(commands[..n], spec);
      if spec in Submitted(commands[..n]) {
        SubmittedIsSent(commands[..n], spec);
        var p :| 0 <= p < n && commands[..n][p] == SubmitTask(spec);
        assert commands[p] == SubmitTask(spec);
      }
    }
  }

  lemma {:induction false} TwiceInMultiset<T>(s: seq<T>, i: nat, j: nat)
    requires i < j < |s| && s[i] == s[j]
    ensures multiset(s)[s[i]] >= 2
  {
    assert s == s[..j] + [s[j]] + s[j + 1..];
    assert s[..j][i] == s[i];
    assert s[i] in multiset(s[..j]);
  }

  /** With unique ids no task is dispatched twice. */
  lemma DispatchedAtMostOnce(total: map<string, real>, events: seq<Event>, i: nat, j: nat)
    requires Possible(Init(total), events) && DistinctTaskIds(Exec(Init(total), events).sent)
    requires i < j < |Exec(Init(total), events).ledger.jobs|
    ensures var jobs := Exec(Init(total), events).ledger.jobs;
            jobs[i].spec.taskId != jobs[j].spec.taskId
  {
    InitAccounted(total);
    AccountedRun(Init(total), events);
    var s := Exec(Init(total), events);
    var specs, taken := Specs(s.ledger.jobs), s.sent[..s.handled];
    assert specs[i] in multiset(specs) && specs[j] in multiset(specs);
    SubmittedOnce(taken, specs[j]);
    if specs[i].taskId == specs[j].taskId {
      SameIdSameSpec(taken, specs[i], specs[j]);
      TwiceInMultiset(specs, i, j);
    }
  }

  /** What is dispatched was submitted, just so. */
  lemma DispatchedWasSubmitted(total: map<string, real>, events: seq<Event>, j: nat)
    requires Possible(Init(total), events) && j < |Exec(Init(total), events).ledger.jobs|
    ensures var s := Exec(Init(total), events);
            s.handled <= |s.sent| && exists p :: 0 <= p < s.handled && s.sent[p] == SubmitTask(s.ledger.jobs[j].spec)
  {
    InitAccounted(total);
    AccountedRun(Init(total), events);
    var s := Exec(Init(total), events);
    var specs, taken := Specs(s.ledger.jobs), s.sent[..s.handled];
    assert specs[j] in multiset(specs);
    assert specs[j] in multiset(Submitted(taken));
    SubmittedIsSent(taken, specs[j]);
    var p :| 0 <= p < |taken| && taken[p] == SubmitTask(specs[j]);
    assert s.sent[p] == SubmitTask(specs[j]);
  }

  /** With unique ids no dispatched task is still queued or was ever cancelled in the queue. */
  lemma CancelledInQueueNeverDispatched(total: map<string, real>, events: seq<Event>, j: nat)
    requires Possible(Init(total), events) && DistinctTaskIds(Exec(Init(total), events).sent)
    requires j < |Exec(Init(total), events).ledger.jobs|
    ensures var s := Exec(Init(total), events);
            forall t | t in s.queue || t in s.cancelled :: t.taskId != s.ledger.jobs[j].spec.taskId
  {
    InitAccounted(total);
    AccountedRun(Init(total), events);
    var s := Exec(Init(total), events);
    var specs, taken := Specs(s.ledger.jobs), s.sent[..s.handled];
    assert specs[j] in multiset(specs);
    SubmittedOnce(taken, specs[j]);
    forall t | t in s.queue || t in s.cancelled ensures t.taskId != specs[j].taskId {
      assert t in multiset(s.cancelled) || t in multiset(s.queue);
      if t.taskId == specs[j].taskId {
        SameIdSameSpec(taken, t, specs[j]);
      }
    }
  }

  lemma SameIdSameSpec(commands: seq<Command>, a: TaskSpec, b: TaskSpec)
    requires DistinctTaskIds(commands) && a.taskId == b.taskId
    requires a in multiset(Submitted(commands)) && b in multiset(Submitted(commands))
    ensures a == b
  {
    SubmittedIsSent(commands, a);
    SubmittedIsSent(commands, b);
    var p :| 0 <= p < |commands| && commands[p] == SubmitTask(a);
    var q :| 0 <= q < |commands| && commands[q] == SubmitTask(b);
  }

  // ---- Which ids are known, and what clients are told ----

  ghost predicate SubmittedBefore(sent: seq<Command>, n: nat, id: TaskId)
    requires n <= |sent|
  {
    exists p :: 0 <= p < n && sent[p].SubmitTask? && sent[p].spec.taskId == id
  }

  /** A cancellation of `id` was sent after a submission of it, both before position `n`. */
  ghost predicate CancelledBefore(sent: seq<Command>, n: nat, id: TaskId)
    requires n <= |sent|
  {
    exists r :: 0 <= r < n && sent[r] == CancelTask(id) && SubmittedBefore(sent, r, id)
  }

  lemma SubmittedBeforeNext(sent: seq<Command>, n: nat, id: TaskId)
    requires n < |sent|
    ensures SubmittedBefore(sent, n + 1, id) <==>
            SubmittedBefore(sent, n, id) || (sent[n].SubmitTask? && sent[n].spec.taskId == id)
  {
  }

  lemma BeforeIgnoresLater(sent: seq<Command>, c: Command, n: nat, id: TaskId)
    requires n <= |sent|
    ensures SubmittedBefore(sent + [c], n, id) == SubmittedBefore(sent, n, id)
    ensures CancelledBefore(sent + [c], n, id) == CancelledBefore(sent, n, id)
  {
    forall m: nat | m <= n ensures SubmittedBefore(sent + [c], m, id) == SubmittedBefore(sent, m, id) {
      assert forall p :: 0 <= p < m ==> (sent + [c])[p] == sent[p];
    }
    assert forall r :: 0 <= r < n ==> (sent + [c])[r] == sent[r];
  }

  ghost predicate Known(s: State) {
    && s.handled <= |s.sent|
    && (forall id :: id in s.statuses <==> SubmittedBefore(s.sent, s.handled, id))
    && (forall id | id in s.statuses :: s.statuses[id] in {Pending, Running, Cancelled})
  }

  ghost predicate Answered(s: State) {
    && s.handled <= |s.sent|
    && (forall q :: q in s.replies <==> 0 <= q < s.handled && s.sent[q].GetStatus?)
    && (forall q | q in s.replies :: s.replies[q].Some? <==> SubmittedBefore(s.sent, q, s.sent[q].taskId))
  }

  lemma ReceiveKnown(s: State)
    requires Known(s) && Enabled(s, Receive)
    ensures Known(Apply(s, Receive))
  {
    var next := Apply(s, Receive);
    forall id ensures id in next.statuses <==> SubmittedBefore(next.sent, next.handled, id) {
      SubmittedBeforeNext(s.sent, s.handled, id);
    }
  }

  lemma KnownStep(s: State, e: Event)
    requires Known(s) && Enabled(s, e)
    requires forall t | t in s.queue :: t.taskId in s.statuses
    ensures Known(Apply(s, e))
  {
    match e
    case Receive => ReceiveKnown(s);
    case Send(command) =>
      forall id ensures SubmittedBefore(s.sent + [command], s.handled, id) == SubmittedBefore(s.sent, s.handled, id) {
        BeforeIgnoresLater(s.sent, command, s.handled, id);
      }
    case TryNext => assert s.queue[s.loop.next] in s.queue;
    case _ =>
  }

  lemma QueueKnown(s: State, t: TaskSpec)
    requires Known(s) && Accounted(s) && t in s.queue
    ensures t.taskId in s.statuses
  {
    assert t in multiset(s.queue);
    assert t in Submitted(s.sent[..s.handled]);
    SubmittedIsSent(s.sent[..s.handled], t);
    var p :| 0 <= p < s.handled && s.sent[..s.handled][p] == SubmitTask(t);
    assert s.sent[p] == SubmitTask(t);
  }

  lemma {:induction false} SubmittedIsSent(commands: seq<Command>, spec: TaskSpec)
    requires spec in Submitted(commands)
    ensures exists p :: 0 <= p < |commands| && commands[p] == SubmitTask(spec)
  {
    var n := |commands| - 1;
    if spec in Submitted(commands[..n]) {
      SubmittedIsSent(commands[..n], spec);
      var p :| 0 <= p < n && commands[..n][p] == SubmitTask(spec);
      assert commands[p] == SubmitTask(spec);
    } else {
      assert commands[n] == SubmitTask(spec);
    }
  }

  lemma SendAnswered(s: State, command: Command)
    requires Answered(s) && Enabled(s, Send(command))
    ensures Answered(Apply(s, Send(command)))
  {
  }

  lemma QueryAnswered(s: State)
    requires Known(s) && Answered(s) && Enabled(s, Receive) && s.sent[s.handled].GetStatus?
    ensures Answered(Apply(s, Receive))
  {
  }

  lemma AnsweredStep(s: State, e: Event)
    requires Known(s) && Answered(s) && Enabled(s, e)
    ensures Answered(Apply(s, e))
  {
    match e
    case Send(command) => SendAnswered(s, command);
    case Receive =>
      match s.sent[s.handled] {
        case SubmitTask(_) =>
        case CancelTask(_) =>
        case GetStatus(_) => QueryAnswered(s);
      }
    case _ =>
  }

  // ---- Agreement of statuses and queue, with unique task ids ----

  /** The queue holds exactly the pending ids, each once, and exactly the ids cancelled after their submission
      within the first `n` commands are Cancelled. */
  ghost predicate Agree(sent: seq<Command>, n: nat, statuses: map<TaskId, TaskStatus>, queue: seq<TaskSpec>) {
    && n <= |sent|
    && (forall i, j :: 0 <= i < j < |queue| ==> queue[i].taskId != queue[j].taskId)
    && (forall t | t in queue :: t.taskId in statuses && statuses[t.taskId] == Pending)
    && (forall id | id in statuses && statuses[id] == Pending :: exists t :: t in queue && t.taskId == id)
    && (forall id :: CancelledBefore(sent, n, id) <==> id in statuses && statuses[id] == Cancelled)
  }

  ghost predicate Told(sent: seq<Command>, replies: map<nat, Option<TaskStatus>>) {
    forall q | q in replies :: q < |sent| && sent[q].GetStatus? &&
      (CancelledBefore(sent, q, sent[q].taskId) <==> replies[q] == Some(Cancelled))
  }

  ghost predicate Agreeing(s: State) {
    Agree(s.sent, s.handled, s.statuses, s.queue) && Told(s.sent, s.replies)
  }

  lemma FreshSubmission(s: State)
    requires Known(s) && Enabled(s, Receive) && s.sent[s.handled].SubmitTask? && DistinctTaskIds(s.sent)
    ensures s.sent[s.handled].spec.taskId !in s.statuses
  {
  }

  lemma CancelledBeforeNext(sent: seq<Command>, n: nat, id: TaskId)
    requires n < |sent|
    ensures CancelledBefore(sent, n + 1, id) <==>
            CancelledBefore(sent, n, id) || (sent[n] == CancelTask(id) && SubmittedBefore(sent, n, id))
  {
    if CancelledBefore(sent, n, id) {
      var r :| 0 <= r < n && sent[r] == CancelTask(id) && SubmittedBefore(sent, r, id);
      assert CancelledBefore(sent, n + 1, id);
    }
  }

  lemma AgreeOnSubmit(sent: seq<Command>, n: nat, statuses: map<TaskId, TaskStatus>, queue: seq<TaskSpec>, spec: TaskSpec)
    requires Agree(sent, n, statuses, queue) && n < |sent| && sent[n] == SubmitTask(spec) && spec.taskId !in statuses
    ensures Agree(sent, n + 1, statuses[spec.taskId := Running], queue)
    ensures Agree(sent, n + 1, statuses[spec.taskId := Pending], queue + [spec])
  {
  }

  lemma FilteredQueue(queue: seq<TaskSpec>, id: TaskId)
    ensures var rest := Filter(queue, (t: TaskSpec) => t.taskId != id);
            && (forall t :: t in rest <==> t in queue && t.taskId != id)
            && ((forall i, j :: 0 <= i < j < |queue| ==> queue[i].taskId != queue[j].taskId) ==>
                  forall i, j :: 0 <= i < j < |rest| ==> rest[i].taskId != rest[j].taskId)
  {
    var keep := (t: TaskSpec) => t.taskId != id;
    var rest := Filter(queue, keep);
    FilterPartition(queue, keep, (t: TaskSpec) => t.taskId == id);
    FilterSubsequence(queue, keep);
    var at: seq<nat> :| Places(at, rest, queue);
    if forall i, j :: 0 <= i < j < |queue| ==> queue[i].taskId != queue[j].taskId {
      forall i, j | 0 <= i < j < |rest| ensures rest[i].taskId != rest[j].taskId {
        assert queue[at[i]].taskId != queue[at[j]].taskId;
      }
    }
  }

  lemma AgreeOnCancel(sent: seq<Command>, n: nat, statuses: map<TaskId, TaskStatus>, queue: seq<TaskSpec>, id: TaskId)
    requires Agree(sent, n, statuses, queue) && n < |sent| && sent[n] == CancelTask(id)
    requires SubmittedBefore(sent, n, id) <==> id in statuses
    ensures Agree(sent, n + 1, if id in statuses then statuses[id := Cancelled] else statuses,
                  Filter(queue, (t: TaskSpec) => t.taskId != id))
  {
    var rest := Filter(queue, (t: TaskSpec) => t.taskId != id);
    var after := if id in statuses then statuses[id := Cancelled] else statuses;
    FilteredQueue(queue, id);
    forall other | other in after && after[other] == Pending ensures exists t :: t in rest && t.taskId == other {
      var t :| t in queue && t.taskId == other;
      assert t in rest;
    }
    forall other ensures CancelledBefore(sent, n + 1, other) <==> other in after && after[other] == Cancelled {
      CancelledBeforeNext(sent, n, other);
    }
  }

  lemma AgreeOnDispatch(sent: seq<Command>, n: nat, statuses: map<TaskId, TaskStatus>, queue: seq<TaskSpec>, i: nat)
    requires Agree(sent, n, statuses, queue) && i < |queue|
    ensures Agree(sent, n, statuses[queue[i].taskId := Running], RemoveAt(queue, i))
  {
  }

  lemma AgreeOnSend(sent: seq<Command>, n: nat, statuses: map<TaskId, TaskStatus>, queue: seq<TaskSpec>,
                    replies: map<nat, Option<TaskStatus>>, command: Command)
    requires Agree(sent, n, statuses, queue) && Told(sent, replies)
    ensures Agree(sent + [command], n, statuses, queue) && Told(sent + [command], replies)
  {
    forall m: nat, id | m <= |sent| ensures CancelledBefore(sent + [command], m, id) == CancelledBefore(sent, m, id) {
      BeforeIgnoresLater(sent, command, m, id);
    }
  }

  lemma QueryAgrees(s: State)
    requires Agreeing(s) && Enabled(s, Receive) && s.sent[s.handled].GetStatus?
    ensures Agreeing(Apply(s, Receive))
  {
  }

  lemma SubmitAgrees(s: State)
    requires Known(s) && Agreeing(s) && Enabled(s, Receive) && DistinctTaskIds(s.sent) && s.sent[s.handled].SubmitTask?
    ensures Agreeing(Apply(s, Receive))
  {
    FreshSubmission(s);
    AgreeOnSubmit(s.sent, s.handled, s.statuses, s.queue, s.sent[s.handled].spec);
  }

  lemma ReceiveAgrees(s: State)
    requires Known(s) && Agreeing(s) && Enabled(s, Receive) && DistinctTaskIds(s.sent)
    ensures Agreeing(Apply(s, Receive))
  {
    match s.sent[s.handled]
    case SubmitTask(_) => SubmitAgrees(s);
    case CancelTask(id) => AgreeOnCancel(s.sent, s.handled, s.statuses, s.queue, id);
    case GetStatus(_) => QueryAgrees(s);
  }

  lemma AgreeingStep(s: State, e: Event)
    requires Known(s) && Agreeing(s) && Enabled(s, e) && DistinctTaskIds(s.sent)
    ensures Agreeing(Apply(s, e))
  {
    match e
    case Send(command) => AgreeOnSend(s.sent, s.handled, s.statuses, s.queue, s.replies, command);
    case TryNext => AgreeOnDispatch(s.sent, s.handled, s.statuses, s.queue, s.loop.next);
    case Receive => ReceiveAgrees(s);
    case EndDrain =>
    case Complete(_) =>
    case Lease(_) =>
  }

  ghost predicate Consistent(s: State) {
    && Accounted(s) && Known(s) && Answered(s)
    && (DistinctTaskIds(s.sent) ==> Agreeing(s))
  }

  lemma ConsistentStep(s: State, e: Event)
    requires Consistent(s) && Enabled(s, e)
    ensures Consistent(Apply(s, e))
    ensures DistinctTaskIds(Apply(s, e).sent) ==> DistinctTaskIds(s.sent)
  {
    ChannelEffect(s, e);
    AccountedStep(s, e);
    forall t | t in s.queue ensures t.taskId in s.statuses {
      QueueKnown(s, t);
    }
    KnownStep(s, e);
    AnsweredStep(s, e);
    if DistinctTaskIds(Apply(s, e).sent) {
      EarlierIdsDistinct(s.sent, Apply(s, e).sent);
      AgreeingStep(s, e);
    }
  }

  lemma EarlierIdsDistinct(prefix: seq<Command>, sent: seq<Command>)
    requires prefix <= sent && DistinctTaskIds(sent)
    ensures DistinctTaskIds(prefix)
  {
  }

  lemma {:induction false} ConsistentRun(s: State, events: seq<Event>)
    requires Consistent(s) && Possible(s, events)
    ensures Consistent(Exec(s, events))
    ensures DistinctTaskIds(Exec(s, events).sent) ==> DistinctTaskIds(s.sent)
    decreases |events|
  {
    if events != [] {
      ConsistentStep(s, events[0]);
      ConsistentRun(Apply(s, events[0]), events[1..]);
    }
  }

  lemma ReachableConsistent(total: map<string, real>, events: seq<Event>)
    requires Possible(Init(total), events)
    ensures Consistent(Exec(Init(total), events))
  {
    InitAccounted(total);
    ConsistentRun(Init(total), events);
  }

  /** With unique ids the queue holds exactly the ids whose status is Pending, and no status other
      than Pending, Running and Cancelled is ever recorded. */
  lemma QueueMatchesPending(total: map<string, real>, events: seq<Event>, id: TaskId)
    requires Possible(Init(total), events) && DistinctTaskIds(Exec(Init(total), events).sent)
    ensures var s := Exec(Init(total), events);
            && ((exists t :: t in s.queue && t.taskId == id) <==> id in s.statuses && s.statuses[id] == Pending)
            && (id in s.statuses ==> s.statuses[id] in {Pending, Running, Cancelled})
  {
    ReachableConsistent(total, events);
  }

  /** Status changes go forward only; Cancelled is absorbing. */
  ghost predicate Forward(before: TaskStatus, after: TaskStatus) {
    || before == after
    || (before == Pending && after in {Running, Cancelled})
    || (before == Running && after == Cancelled)
  }

  lemma ReceiveStatus(s: State, id: TaskId)
    requires Consistent(s) && Enabled(s, Receive) && DistinctTaskIds(s.sent) && id in s.statuses
    ensures id in Apply(s, Receive).statuses && Forward(s.statuses[id], Apply(s, Receive).statuses[id])
  {
    match s.sent[s.handled]
    case SubmitTask(_) => FreshSubmission(s);
    case CancelTask(_) =>
    case GetStatus(_) =>
  }

  lemma StatusStep(s: State, e: Event, id: TaskId)
    requires Consistent(s) && Enabled(s, e) && DistinctTaskIds(s.sent) && id in s.statuses
    ensures id in Apply(s, e).statuses && Forward(s.statuses[id], Apply(s, e).statuses[id])
  {
    match e
    case Receive => ReceiveStatus(s, id);
    case TryNext => assert s.queue[s.loop.next] in s.queue;
    case Send(_) =>
    case EndDrain =>
    case Complete(_) =>
    case Lease(_) =>
  }

  /** Between any two points of a run with unique ids, every status has only moved forward. */
  lemma {:induction false} StatusNeverGoesBack(s: State, events: seq<Event>, id: TaskId)
    requires Consistent(s) && Possible(s, events) && DistinctTaskIds(Exec(s, events).sent) && id in s.statuses
    ensures id in Exec(s, events).statuses && Forward(s.statuses[id], Exec(s, events).statuses[id])
    decreases |events|
  {
    if events != [] {
      var next := Apply(s, events[0]);
      ConsistentStep(s, events[0]);
      ConsistentRun(next, events[1..]);
      StatusStep(s, events[0], id);
      StatusNeverGoesBack(next, events[1..], id);
    }
  }

  /** Read your writes: the answer to a status query finds the task exactly when a submission of it
      precedes the query in the channel, and with unique ids a query sent after a cancellation of a
      submitted task, and no other, is answered Cancelled. Every query the loop has taken is answered. */
  lemma AnswersFollowTheChannel(total: map<string, real>, events: seq<Event>, q: nat)
    requires Possible(Init(total), events)
    requires var s := Exec(Init(total), events); q < s.handled <= |s.sent| && s.sent[q].GetStatus?
    ensures var s := Exec(Init(total), events);
            var id := s.sent[q].taskId;
            && q in s.replies
            && (s.replies[q].Some? <==> SubmittedBefore(s.sent, q, id))
            && (DistinctTaskIds(s.sent) ==> (s.replies[q] == Some(Cancelled) <==> CancelledBefore(s.sent, q, id)))
  {
    ReachableConsistent(total, events);
  }

  // ---- What a query is told at the moment it is taken ----

  ghost predicate HasJob(l: Ledger, id: TaskId) {
    exists j :: 0 <= j < |l.jobs| && l.jobs[j].spec.taskId == id
  }

  /** Whatever is recorded as Running has been dispatched. */
  ghost predicate RunningHasJob(s: State) {
    forall id | id in s.statuses && s.statuses[id] == Running :: HasJob(s.ledger, id)
  }

  lemma JobsStay(s: State, e: Event, id: TaskId)
    requires Enabled(s, e)
    ensures HasJob(s.ledger, id) ==> HasJob(Apply(s, e).ledger, id)
    ensures Dispatched(s, e).Some? ==> HasJob(Apply(s, e).ledger, Dispatched(s, e).value.taskId)
  {
    LedgerEffect(s, e);
    var next := Apply(s, e).ledger;
    if HasJob(s.ledger, id) {
      var j :| 0 <= j < |s.ledger.jobs| && s.ledger.jobs[j].spec.taskId == id;
      assert next.jobs[j].spec.taskId == id;
    }
    if Dispatched(s, e).Some? {
      assert next.jobs[|s.ledger.jobs|].spec == Dispatched(s, e).value;
    }
  }

  lemma NewlyRunning(s: State, e: Event, id: TaskId)
    requires Enabled(s, e) && id in Apply(s, e).statuses && Apply(s, e).statuses[id] == Running
    ensures (id in s.statuses && s.statuses[id] == Running) || (Dispatched(s, e).Some? && Dispatched(s, e).value.taskId == id)
  {
  }

  lemma RunningHasJobStep(s: State, e: Event)
    requires RunningHasJob(s) && Enabled(s, e)
    ensures RunningHasJob(Apply(s, e))
  {
    var next := Apply(s, e);
    forall id | id in next.statuses && next.statuses[id] == Running ensures HasJob(next.ledger, id) {
      NewlyRunning(s, e, id);
      JobsStay(s, e, id);
    }
  }

  lemma {:induction false} RunningHasJobRun(s: State, events: seq<Event>)
    requires RunningHasJob(s) && Possible(s, events)
    ensures RunningHasJob(Exec(s, events))
    decreases |events|
  {
    if events != [] {
      RunningHasJobStep(s, events[0]);
      RunningHasJobRun(Apply(s, events[0]), events[1..]);
    }
  }

  lemma JobIsNotQueued(total: map<string, real>, events: seq<Event>, id: TaskId)
    requires Possible(Init(total), events) && DistinctTaskIds(Exec(Init(total), events).sent)
    requires HasJob(Exec(Init(total), events).ledger, id)
    ensures var s := Exec(Init(total), events);
            id in s.statuses && s.statuses[id] != Pending
  {
    var s := Exec(Init(total), events);
    var j :| 0 <= j < |s.ledger.jobs| && s.ledger.jobs[j].spec.taskId == id;
    CancelledInQueueNeverDispatched(total, events, j);
    DispatchedWasSubmitted(total, events, j);
    ReachableConsistent(total, events);
    assert SubmittedBefore(s.sent, s.handled, id);
    QueueMatchesPending(total, events, id);
  }

  /** With unique ids a query, when the loop takes it, is answered: not found exactly for an id never submitted before,
      Pending exactly for a queued task, Cancelled exactly for one cancelled after its submission, and Running exactly
      for one that was dispatched and not cancelled, whether or not it has completed. */
  lemma QueryIsAnswered(total: map<string, real>, events: seq<Event>, id: TaskId)
    requires Possible(Init(total), events) && DistinctTaskIds(Exec(Init(total), events).sent)
    requires var s := Exec(Init(total), events); Enabled(s, Receive) && s.sent[s.handled] == GetStatus(id)
    ensures var s := Exec(Init(total), events);
            && s.handled in Apply(s, Receive).replies
            && var answer := Apply(s, Receive).replies[s.handled];
            && (answer == None <==> !SubmittedBefore(s.sent, s.handled, id))
            && (answer == Some(Pending) <==> exists t :: t in s.queue && t.taskId == id)
            && (answer == Some(Cancelled) <==> CancelledBefore(s.sent, s.handled, id))
            && (answer == Some(Running) <==> HasJob(s.ledger, id) && !CancelledBefore(s.sent, s.handled, id))
  {
    var s := Exec(Init(total), events);
    ReachableConsistent(total, events);
    QueueMatchesPending(total, events, id);
    RunningHasJobRun(Init(total), events);
    if HasJob(s.ledger, id) {
      JobIsNotQueued(total, events, id);
    }
  }

  /** And an answer once given stays. */
  lemma {:induction false} AnswersNeverChange(s: State, events: seq<Event>, q: nat)
    requires Possible(s, events) && q in s.replies && q < s.handled
    ensures q in Exec(s, events).replies && Exec(s, events).replies[q] == s.replies[q]
    decreases |events|
  {
    if events != [] {
      ChannelEffect(s, events[0]);
      AnswersNeverChange(Apply(s, events[0]), events[1..], q);
    }
  }

  /** A cancellation, when taken, clears the queue of every task with that id, unique or not, and leaves the others in
      order; a known task is Cancelled, and nothing in flight is touched. */
  lemma CancelClearsQueue(s: State, id: TaskId)
    requires Enabled(s, Receive) && s.sent[s.handled] == CancelTask(id)
    ensures var next := Apply(s, Receive);
            && (forall t :: t in next.queue <==> t in s.queue && t.taskId != id) && Subsequence(next.queue, s.queue)
            && multiset(s.queue) - multiset(next.queue) == multiset(next.cancelled) - multiset(s.cancelled)
            && (id in s.statuses ==> next.statuses == s.statuses[id := Cancelled])
            && (id !in s.statuses ==> next.statuses == s.statuses)
            && next.ledger.jobs == s.ledger.jobs && next.ledger.available == s.ledger.available
  {
    var keep, drop := (t: TaskSpec) => t.taskId != id, (t: TaskSpec) => t.taskId == id;
    FilterPartition(s.queue, keep, drop);
    FilterSubsequence(s.queue, keep);
  }

  // ---- The channel ----

  ghost function Sends(commands: seq<Command>): seq<Event> {
    seq(|commands|, i requires 0 <= i < |commands| => Send(commands[i]))
  }

  lemma {:induction false} BurstFits(s: State, commands: seq<Command>)
    requires s.handled <= |s.sent| <= s.handled + 4096
    ensures Possible(s, Sends(commands)) <==> |s.sent| + |commands| <= s.handled + 4096
    decreases |commands|
  {
    if commands != [] {
      assert Sends(commands)[0] == Send(commands[0]) && Sends(commands)[1..] == Sends(commands[1..]);
      if Enabled(s, Send(commands[0])) {
        BurstFits(Apply(s, Send(commands[0])), commands[1..]);
      }
    }
  }

  /** Before the loop takes any, exactly up to 4096 commands can be sent. */
  lemma ChannelHolds(total: map<string, real>, commands: seq<Command>)
    ensures Possible(Init(total), Sends(commands)) <==> |commands| <= 4096
  {
    BurstFits(Init(total), commands);
  }
}
