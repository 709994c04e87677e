/** The local scheduler as a transition system.

    One event is one atomic action: a client enqueues a command, the event loop takes a command
    (with the single `try_allocate` a submission makes), the drain tries one queued task, the drain
    ends, a dispatched task gives its resources back, or a worker lease is requested. Events of
    different parties interleave arbitrarily. */
module SchedulerModel {
  import opened Prelude
  import opened ResourceSets
  import opened Tasks

  const CHANNEL_CAPACITY := 4096

  datatype Command =
    | SubmitTask(spec: TaskSpec)
    | CancelTask(taskId: TaskId)
    | GetStatus(taskId: TaskId)

  /** A spawned task; `running` until its resources are released. */
  datatype Job = Job(spec: TaskSpec, running: bool)

  /** While draining, `queue[..next]` was tried and kept, `queue[next..]` is still to be tried. */
  datatype Loop = Receiving | Draining(next: nat)

  /** The resource pool together with everything that draws on it. */
  datatype Ledger = Ledger(
    total: Quantities,
    available: Quantities,
    jobs: seq<Job>,            // every task ever dispatched, in dispatch order
    leases: seq<Quantities>,   // granted worker leases, never given back
    freed: Quantities)         // released since the current or last drain began

  datatype State = State(
    ledger: Ledger,
    sent: seq<Command>,                     // every command ever enqueued
    handled: nat,                           // how many of them the loop has taken
    statuses: map<TaskId, TaskStatus>,
    queue: seq<TaskSpec>,
    loop: Loop,
    cancelled: seq<TaskSpec>,               // removed from the queue by a cancellation
    replies: map<nat, Option<TaskStatus>>)  // answers to GetStatus, by position in `sent`

  datatype Event =
    | Send(command: Command)
    | Receive
    | TryNext
    | EndDrain
    | Complete(job: nat)
    | Lease(need: Quantities)

  ghost function Init(total: Quantities): State {
    State(Ledger(total, total, [], [], map[]), [], 0, map[], [], Receiving, [], map[])
  }

  // ---- Effects on the ledger ----

  ghost predicate Fits(l: Ledger, need: Quantities) {
    CanSatisfy(l.available, need)
  }

  ghost function Take(l: Ledger, spec: TaskSpec): Ledger {
    Ledger(l.total, Minus(l.available, spec.required), l.jobs + [Job(spec, true)], l.leases, l.freed)
  }

  ghost function GiveBack(l: Ledger, j: nat): Ledger
    requires j < |l.jobs|
  {
    var spec := l.jobs[j].spec;
    Ledger(l.total, Plus(l.available, spec.required), l.jobs[j := Job(spec, false)], l.leases, Plus(l.freed, spec.required))
  }

  ghost function Grant(l: Ledger, need: Quantities): Ledger {
    Ledger(l.total, Minus(l.available, need), l.jobs, l.leases + [need], l.freed)
  }

  ghost function StartDrain(l: Ledger): Ledger {
    Ledger(l.total, l.available, l.jobs, l.leases, map[])
  }

  // ---- Events ----

  ghost predicate Enabled(s: State, e: Event) {
    match e
    case Send(_) => s.handled <= |s.sent| < s.handled + CHANNEL_CAPACITY
    case Receive => s.loop.Receiving? && s.handled < |s.sent|
    case TryNext => s.loop.Draining? && s.loop.next < |s.queue|
    case EndDrain => s.loop.Draining? && s.loop.next == |s.queue|
    case Complete(j) => j < |s.ledger.jobs| && s.ledger.jobs[j].running
    case Lease(_) => true
  }

  // Taking a command restarts the drain: `handled` moves on, the loop turns to the queue's head and the
  // releases set aside for maximality start again from nothing.

  ghost function Submit(s: State, spec: TaskSpec): State {
    var l := StartDrain(s.ledger);
    if Fits(l, spec.required) then
      State(Take(l, spec), s.sent, s.handled + 1, s.statuses[spec.taskId := Running],
            s.queue, Draining(0), s.cancelled, s.replies)
    else
      State(l, s.sent, s.handled + 1, s.statuses[spec.taskId := Pending],
            s.queue + [spec], Draining(0), s.cancelled, s.replies)
  }

  ghost function Cancel(s: State, id: TaskId): State {
    State(StartDrain(s.ledger), s.sent, s.handled + 1,
          if id in s.statuses then s.statuses[id := Cancelled] else s.statuses,
          Filter(s.queue, (t: TaskSpec) => t.taskId != id), Draining(0),
          s.cancelled + Filter(s.queue, (t: TaskSpec) => t.taskId == id), s.replies)
  }

  ghost function Answer(s: State, id: TaskId): State {
    State(StartDrain(s.ledger), s.sent, s.handled + 1, s.statuses, s.queue, Draining(0), s.cancelled,
          s.replies[s.handled := if id in s.statuses then Some(s.statuses[id]) else None])
  }

  ghost function TryQueued(s: State): State
    requires Enabled(s, TryNext)
  {
    var i := s.loop.next;
    var spec := s.queue[i];
    if Fits(s.ledger, spec.required) then
      s.(ledger := Take(s.ledger, spec),
         statuses := s.statuses[spec.taskId := Running],
         queue := RemoveAt(s.queue, i))
    else s.(loop := Draining(i + 1))
  }

  ghost function Apply(s: State, e: Event): State
    requires Enabled(s, e)
  {
    match e
    case Send(command) => s.(sent := s.sent + [command])
    case Receive => (
      match s.sent[s.handled]
      case SubmitTask(spec) => Submit(s, spec)
      case CancelTask(id) => Cancel(s, id)
      case GetStatus(id) => Answer(s, id))
    case TryNext => TryQueued(s)
    case EndDrain => s.(loop := Receiving)
    case Complete(j) => s.(ledger := GiveBack(s.ledger, j))
    case Lease(need) => if Fits(s.ledger, need) then s.(ledger := Grant(s.ledger, need)) else s
  }

  /** The tasks an event dispatches. */
  ghost function Dispatched(s: State, e: Event): Option<TaskSpec>
    requires Enabled(s, e)
  {
    match e
    case Receive =>
      var command := s.sent[s.handled];
      if command.SubmitTask? && Fits(s.ledger, command.spec.required) then Some(command.spec) else None
    case TryNext =>
      var spec := s.queue[s.loop.next];
      if Fits(s.ledger, spec.required) then Some(spec) else None
    case _ => None
  }

  /** How an event moves the ledger. */
  ghost function LedgerAfter(s: State, e: Event): Ledger
    requires Enabled(s, e)
  {
    var l := if e.Receive? then StartDrain(s.ledger) else s.ledger;
    match Dispatched(s, e)
    case Some(spec) => Take(l, spec)
    case None =>
      if e.Complete? then GiveBack(l, e.job)
      else if e.Lease? && Fits(l, e.need) then Grant(l, e.need)
      else l
  }

  lemma LedgerEffect(s: State, e: Event)
    requires Enabled(s, e)
    ensures Apply(s, e).ledger == LedgerAfter(s, e)
  {
  }

  lemma ChannelEffect(s: State, e: Event)
    requires Enabled(s, e)
    ensures Apply(s, e).sent == if e.Send? then s.sent + [e.command] else s.sent
    ensures Apply(s, e).handled == if e.Receive? then s.handled + 1 else s.handled
  {
  }

  // ---- Runs ----

  ghost predicate Possible(s: State, events: seq<Event>)
    decreases |events|
  {
    events == [] || (Enabled(s, events[0]) && Possible(Apply(s, events[0]), events[1..]))
  }

  ghost function Exec(s: State, events: seq<Event>): State
    requires Possible(s, events)
    decreases |events|
  {
    if events == [] then s else Exec(Apply(s, events[0]), events[1..])
  }

  lemma {:induction false} RunAppend(s: State, events: seq<Event>, e: Event)
    requires Possible(s, events) && Enabled(Exec(s, events), e)
    ensures Possible(s, events + [e])
    ensures Exec(s, events + [e]) == Apply(Exec(s, events), e)
    decreases |events|
  {
    if events == [] {
      assert [e][1..] == [];
    } else {
      RunAppend(Apply(s, events[0]), events[1..], e);
      assert (events + [e])[1..] == events[1..] + [e];
    }
  }

  lemma {:induction false} RunConcat(s: State, events: seq<Event>, more: seq<Event>)
    requires Possible(s, events) && Possible(Exec(s, events), more)
    ensures Possible(s, events + more) && Exec(s, events + more) == Exec(Exec(s, events), more)
    decreases |events|
  {
    if events == [] {
      assert events + more == more;
    } else {
      assert (events + more)[1..] == events[1..] + more;
      RunConcat(Apply(s, events[0]), events[1..], more);
    }
  }

  // ---- Shared vocabulary of the claims ----

  ghost function Submitted(commands: seq<Command>): seq<TaskSpec> {
    if |commands| == 0 then []
    else
      var last := commands[|commands| - 1];
      Submitted(commands[..|commands| - 1]) + if last.SubmitTask? then [last.spec] else []
  }

  ghost function Specs(jobs: seq<Job>): seq<TaskSpec> {
    seq(|jobs|, i requires 0 <= i < |jobs| => jobs[i].spec)
  }

  /** Resources held by tasks that have not released them yet. */
  ghost function Held(jobs: seq<Job>, name: string): real {
    if |jobs| == 0 then 0.0
    else
      var last := jobs[|jobs| - 1];
      Held(jobs[..|jobs| - 1], name) + if last.running then Get(last.spec.required, name) else 0.0
  }

  ghost function Leased(leases: seq<Quantities>, name: string): real {
    if |leases| == 0 then 0.0
    else Leased(leases[..|leases| - 1], name) + Get(leases[|leases| - 1], name)
  }

  /** No submission, lease or total quantity is negative. */
  ghost predicate NonNegativeDemands(s: State) {
    && NonNegative(s.ledger.total)
    && (forall i :: 0 <= i < |s.sent| && s.sent[i].SubmitTask? ==> NonNegative(s.sent[i].spec.required))
    && (forall i :: 0 <= i < |s.ledger.leases| ==> NonNegative(s.ledger.leases[i]))
  }

  /** No two submissions carry the same task id. */
  ghost predicate DistinctTaskIds(commands: seq<Command>) {
    forall p, q :: 0 <= p < q < |commands| && commands[p].SubmitTask? && commands[q].SubmitTask? ==>
                     commands[p].spec.taskId != commands[q].spec.taskId
  }
}
