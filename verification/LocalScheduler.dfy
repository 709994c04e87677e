/** The event loop itself, working in place on its status map and queue while other parties interfere.

    Its ghost `trace` names the atomic actions taken so far; `Valid` ties the fields to the state that
    trace reaches, so every claim about runs of the transition system holds of this object. */
module LocalScheduling {
  import opened Prelude
  import opened ResourceSets
  import opened Tasks
  import opened SchedulerModel
  import opened SchedulerProgress
  import opened ResourceManagement

  /** What other parties may do between two actions of the loop. */
  datatype Interference =
    | Finishes(job: nat)
    | AsksLease(need: Quantities)
    | Sends(command: Command)

  /** The fields show the model state, apart from its histories. */
  ghost predicate Shows(s: State, available: Quantities, spawned: seq<Job>, statuses: map<TaskId, TaskStatus>, inbox: seq<Command>) {
    && s.ledger.available == available
    && s.ledger.jobs == spawned
    && s.statuses == statuses
    && s.handled <= |s.sent|
    && s.sent[s.handled..] == inbox
  }

  /** The action an interference amounts to, if it can happen. */
  ghost function Caused(s: State, act: Interference): seq<Event> {
    var e := match act
             case Finishes(job) => Complete(job)
             case AsksLease(need) => Lease(need)
             case Sends(command) => Send(command);
    if Enabled(s, e) then [e] else []
  }

  ghost function After(s: State, act: Interference): State {
    var log := Caused(s, act);
    if log == [] then s else Apply(s, log[0])
  }

  ghost function CausedAll(s: State, acts: seq<Interference>): (log: seq<Event>)
    ensures ByOthers(log)
    decreases |acts|
  {
    if acts == [] then [] else Caused(s, acts[0]) + CausedAll(After(s, acts[0]), acts[1..])
  }

  ghost predicate ByOthers(events: seq<Event>) {
    forall e | e in events :: e.Complete? || e.Lease? || e.Send?
  }

  ghost predicate InDrain(events: seq<Event>) {
    forall e | e in events :: e.TryNext? || e.Complete? || e.Lease? || e.Send?
  }

  ghost predicate Quiet(env: seq<seq<Interference>>) {
    forall i :: 0 <= i < |env| ==> env[i] == []
  }

  /** A run extended by one undisturbed try per queued task ends in the first-fit outcome. */
  lemma QuietTrace(total: Quantities, trace: seq<Event>, n: nat)
    requires Possible(Init(total), trace)
    requires Exec(Init(total), trace).loop == Draining(0) && |Exec(Init(total), trace).queue| == n
    ensures Possible(Init(total), trace + Tries(n) + [EndDrain])
    ensures FirstFitOutcome(Exec(Init(total), trace), Exec(Init(total), trace + Tries(n) + [EndDrain]))
  {
    QuietDrainIsFirstFit(Exec(Init(total), trace));
    RunConcat(Init(total), trace, Tries(n));
    RunAppend(Init(total), trace + Tries(n), EndDrain);
  }

  class LocalScheduler {
    const manager: ResourceManager
    var taskStatuses: map<TaskId, TaskStatus>
    var pendingQueue: seq<TaskSpec>
    var inbox: seq<Command>
    var spawned: seq<Job>
    ghost var trace: seq<Event>

    ghost predicate Mirrors(queue: seq<TaskSpec>, loop: Loop)
      reads this, manager.available
    {
      && Possible(Init(manager.total), trace)
      && Shows(Model(), manager.available.quantities, spawned, taskStatuses, inbox)
      && Model().queue == queue && Model().loop == loop
    }

    ghost predicate Valid()
      reads this, manager.available
    {
      Mirrors(pendingQueue, Receiving)
    }

    ghost function Model(): State
      reads this
      requires Possible(Init(manager.total), trace)
    {
      Exec(Init(manager.total), trace)
    }

    constructor (manager: ResourceManager)
      requires manager.available.quantities == manager.total
      ensures Valid() && this.manager == manager && trace == [] && inbox == []
    {
      this.manager := manager;
      taskStatuses, pendingQueue, inbox, spawned, trace := map[], [], [], [], [];
    }

    /** Other parties act; the loop's own variables stay as they are. */
    method Interfere(acts: seq<Interference>, ghost queue: seq<TaskSpec>, ghost loop: Loop) returns (ghost log: seq<Event>)
      requires Mirrors(queue, loop)
      modifies this`inbox, this`spawned, this`trace, manager.available
      ensures Mirrors(queue, loop)
      ensures trace == old(trace) + log && log == CausedAll(old(Model()), acts)
      decreases |acts|
    {
      log := [];
      if acts != [] {
        ghost var first := Act(acts[0], queue, loop);
        ghost var rest := Interfere(acts[1..], queue, loop);
        log := first + rest;
      }
    }

    method Act(act: Interference, ghost queue: seq<TaskSpec>, ghost loop: Loop) returns (ghost log: seq<Event>)
      requires Mirrors(queue, loop)
      modifies this`inbox, this`spawned, this`trace, manager.available
      ensures Mirrors(queue, loop)
      ensures trace == old(trace) + log && log == Caused(old(Model()), act) && Model() == After(old(Model()), act)
    {
      log := [];
      match act
      case Finishes(job) =>
        if job < |spawned| && spawned[job].running {
          var spec := spawned[job].spec;
          manager.Release(spec.required);
          spawned := spawned[job := Job(spec, false)];
          log := [Complete(job)];
          Record(Complete(job));
        }
      case AsksLease(need) =>
        var granted := manager.TryAllocate(need);
        log := [Lease(need)];
        Record(Lease(need));
      case Sends(command) =>
        if |inbox| < CHANNEL_CAPACITY {
          inbox := inbox + [command];
          log := [Send(command)];
          Record(Send(command));
        }
    }

    ghost method Record(e: Event)
      requires Possible(Init(manager.total), trace) && Enabled(Model(), e)
      modifies this`trace
      ensures trace == old(trace) + [e]
      ensures Possible(Init(manager.total), trace) && Model() == Apply(old(Model()), e)
    {
      RunAppend(Init(manager.total), trace, e);
      trace := trace + [e];
    }

    /** Takes the command at the head of the channel; the answer of a status query is returned. */
    method TakeCommand() returns (reply: Option<TaskStatus>)
      requires Valid() && inbox != []
      modifies this, manager.available
      ensures Mirrors(pendingQueue, Draining(0))
      ensures trace == old(trace) + [Receive] && Model() == Apply(old(Model()), Receive)
      ensures var command := old(inbox[0]);
              command.GetStatus? ==>
                reply == if command.taskId in old(taskStatuses) then Some(old(taskStatuses)[command.taskId]) else None
      ensures old(inbox[0]).GetStatus? ==>
                old(Model().handled) in Model().replies && Model().replies[old(Model().handled)] == reply
    {
      reply := None;
      var command := inbox[0];
      inbox := inbox[1..];
      match command
      case SubmitTask(spec) =>
        var ok := manager.TryAllocate(spec.required);
        if ok {
          taskStatuses := taskStatuses[spec.taskId := Running];
          spawned := spawned + [Job(spec, true)];
        } else {
          taskStatuses := taskStatuses[spec.taskId := Pending];
          pendingQueue := pendingQueue + [spec];
        }
        Record(Receive);
      case CancelTask(id) =>
        if id in taskStatuses {
          taskStatuses := taskStatuses[id := Cancelled];
        }
        pendingQueue := Filter(pendingQueue, (t: TaskSpec) => t.taskId != id);
        Record(Receive);
      case GetStatus(id) =>
        if id in taskStatuses {
          reply := Some(taskStatuses[id]);
        }
        Record(Receive);
    }

    /** One `try_allocate` of the drain. */
    method TryQueuedTask(spec: TaskSpec, ghost kept: seq<TaskSpec>, ghost rest: seq<TaskSpec>) returns (ok: bool)
      requires Mirrors(kept + [spec] + rest, Draining(|kept|))
      modifies this`taskStatuses, this`spawned, this`trace, manager.available
      ensures if ok then Mirrors(kept + rest, Draining(|kept|)) else Mirrors(kept + [spec] + rest, Draining(|kept| + 1))
      ensures trace == old(trace) + [TryNext]
    {
      assert (kept + [spec] + rest)[|kept|] == spec && RemoveAt(kept + [spec] + rest, |kept|) == kept + rest;
      ok := manager.TryAllocate(spec.required);
      if ok {
        taskStatuses := taskStatuses[spec.taskId := Running];
        spawned := spawned + [Job(spec, true)];
      }
      Record(TryNext);
    }

    /** Other parties act, then the next queued task is tried; `kept` are the tasks to stay in the queue. */
    method TryAfter(acts: seq<Interference>, still: seq<TaskSpec>, todo: seq<TaskSpec>, i: nat)
      returns (kept: seq<TaskSpec>, ghost log: seq<Event>)
      requires i < |todo| && Mirrors(still + todo[i..], Draining(|still|))
      modifies this`inbox, this`taskStatuses, this`spawned, this`trace, manager.available
      ensures Mirrors(kept + todo[i + 1..], Draining(|kept|))
      ensures kept == still || kept == still + [todo[i]]
      ensures trace == old(trace) + log && InDrain(log) && (acts == [] ==> log == [TryNext])
    {
      assert still + todo[i..] == still + [todo[i]] + todo[i + 1..];
      log := Interfere(acts, still + todo[i..], Draining(|still|));
      var ok := TryQueuedTask(todo[i], still, todo[i + 1..]);
      log := log + [TryNext];
      kept := if ok then still else still + [todo[i]];
    }

    /** The drain: every queued task is tried once, with `env[i]` happening before the i-th try. */
    method Drain(env: seq<seq<Interference>>) returns (ghost log: seq<Event>)
      requires Mirrors(pendingQueue, Draining(0))
      modifies this, manager.available
      ensures Valid()
      ensures trace == old(trace) + log + [EndDrain] && InDrain(log)
      ensures Quiet(env) ==> FirstFitOutcome(old(Model()), Model())
    {
      var todo, still := pendingQueue, [];
      log := [];
      assert still + todo[0..] == todo && Tries(0) == [];
      for i := 0 to |todo|
        invariant trace == old(trace) + log && InDrain(log)
        invariant Mirrors(still + todo[i..], Draining(|still|))
        invariant Quiet(env) ==> log == Tries(i)
      {
        ghost var more;
        still, more := TryAfter(if i < |env| then env[i] else [], still, todo, i);
        log := log + more;
        assert Tries(i + 1) == Tries(i) + [TryNext];
      }
      assert still + todo[|todo|..] == still;
      pendingQueue := still;
      Record(EndDrain);
      if Quiet(env) {
        QuietTrace(manager.total, old(trace), |todo|);
      }
    }

    /** One turn of the event loop. */
    method HandleNext(env: seq<seq<Interference>>) returns (reply: Option<TaskStatus>, ghost log: seq<Event>)
      requires Valid() && inbox != []
      modifies this, manager.available
      ensures Valid()
      ensures trace == old(trace) + [Receive] + log + [EndDrain] && InDrain(log)
      ensures Quiet(env) ==> FirstFitOutcome(Apply(old(Model()), Receive), Model())
      ensures var command := old(inbox[0]);
              command.GetStatus? ==>
                reply == if command.taskId in old(taskStatuses) then Some(old(taskStatuses)[command.taskId]) else None
    {
      reply := TakeCommand();
      log := Drain(env);
    }
  }
}
