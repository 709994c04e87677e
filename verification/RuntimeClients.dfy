/** What clients find in the object store: their own puts and the tasks' results, and nothing else. */
module RuntimeClients {
  import opened Prelude
  import opened ResourceSets
  import opened Tasks
  import opened RuntimeModel
  import opened RuntimeResults
  import O = ObjectStoreModel
  import V = ObjectStoreSafety

  /** Under the conditions of delivery, whatever is stored was put by a client or is the result of a task, stored under
      its first return id. */
  lemma NothingElseIsStored(total: Quantities, maxWorkers: nat, events: seq<Event>, id: ObjectId)
    requires Possible(Init(total, maxWorkers, 0), events)
    requires forall e | e in events :: e.StoreStep? ==> Keeps(e.op)
    requires var r := Exec(Init(total, maxWorkers, 0), events);
             OwnIds(r.sched.ledger.jobs, r.userPuts) && id in r.store.objects
    ensures var r := Exec(Init(total, maxWorkers, 0), events);
            || id in r.userPuts
            || exists j :: && 0 <= j < |r.runs| && r.sched.ledger.jobs[j].spec.returnIds != []
                           && r.sched.ledger.jobs[j].spec.returnIds[0] == id
                           && r.runs[j].outcome == Some(r.store.objects[id].data)
  {
    var r := Exec(Init(total, maxWorkers, 0), events);
    DeliveringRun(Init(total, maxWorkers, 0), events);
    var item := (id, r.store.objects[id].data);
    assert item in r.store.begun;
    var i :| 0 <= i < |r.store.begun| && r.store.begun[i] == item;
    if id !in r.userPuts {
      var j :| 0 <= j < |r.runs| && Produces(r.sched.ledger.jobs[j].spec, r.runs[j], r.store.begun[i]);
    }
  }

  /** The put of `data` under `id`, call `c` of the store, is under way or done with the object present. */
  ghost predicate Putting(s: O.Store, c: nat, id: ObjectId, data: Bytes) {
    PutUnderWay(s, c, id, data) && (id, data) in s.begun
  }

  lemma PuttingStep(s: O.Store, op: O.Event, c: nat, id: ObjectId, data: Bytes)
    requires V.Counted(s) && s.budget == 0 && O.Enabled(s, op) && Keeps(op) && Putting(s, c, id, data)
    ensures Putting(O.Apply(s, op), c, id, data)
  {
    StoreKeepsObjects(s, op);
  }

  lemma PuttingEvent(r: Runtime, e: Event, c: nat, id: ObjectId, data: Bytes)
    requires Delivering(r) && Enabled(r, e) && Putting(r.store, c, id, data) && (e.StoreStep? ==> Keeps(e.op))
    ensures Putting(Next(r, e).store, c, id, data)
  {
    StorePart(r, e);
    if StoreOp(r, e).Some? {
      PuttingStep(r.store, StoreOp(r, e).value, c, id, data);
    }
  }

  lemma {:induction false} PuttingRun(r: Runtime, events: seq<Event>, c: nat, id: ObjectId, data: Bytes)
    requires Delivering(r) && Possible(r, events) && Putting(r.store, c, id, data)
    requires forall e | e in events :: e.StoreStep? ==> Keeps(e.op)
    requires OwnIds(Exec(r, events).sched.ledger.jobs, Exec(r, events).userPuts)
    ensures Putting(Exec(r, events).store, c, id, data) && Delivering(Exec(r, events))
    decreases |events|
  {
    if events != [] {
      assert events[0] in events;
      assert forall e | e in events[1..] :: e in events;
      OwnIdsThroughout(Apply(r, events[0]), events[1..]);
      OwnIdsEarlier(r, events[0]);
      DeliveringStep(r, events[0]);
      PuttingEvent(r, events[0], c, id, data);
      PuttingRun(Apply(r, events[0]), events[1..], c, id, data);
    }
  }

  lemma BeginPutting(r: Runtime, id: ObjectId, data: Bytes)
    requires Delivering(r)
    requires var next := Apply(r, StoreStep(O.BeginPut(id, data))); OwnIds(next.sched.ledger.jobs, next.userPuts)
    ensures var next := Apply(r, StoreStep(O.BeginPut(id, data)));
            Delivering(next) && Putting(next.store, |r.store.calls|, id, data)
  {
    var put := StoreStep(O.BeginPut(id, data));
    OwnIdsEarlier(r, put);
    DeliveringStep(r, put);
    assert Apply(r, put).store.begun[|r.store.begun|] == (id, data);
  }

  /** With an unlimited budget, ids of its own for every put and result, and no deletes or reference removals: from the
      moment a client's put is done its object is there with the bytes put, in every continuation, and it never fails. */
  lemma ClientPutIsKept(total: Quantities, maxWorkers: nat, past: seq<Event>, r: Runtime, id: ObjectId, data: Bytes, events: seq<Event>)
    requires Possible(Init(total, maxWorkers, 0), past) && r == Exec(Init(total, maxWorkers, 0), past)
    requires forall e | e in past || e in events :: e.StoreStep? ==> Keeps(e.op)
    requires Possible(Apply(r, StoreStep(O.BeginPut(id, data))), events)
    requires var end := Exec(Apply(r, StoreStep(O.BeginPut(id, data))), events); OwnIds(end.sched.ledger.jobs, end.userPuts)
    ensures var end, c := Exec(Apply(r, StoreStep(O.BeginPut(id, data))), events), |r.store.calls|;
            && c < |end.store.calls|
            && (end.store.calls[c].Done? ==>
                  end.store.calls[c] == O.Done(true) && id in end.store.objects && end.store.objects[id].data == data)
  {
    OwnIdsBefore(r, StoreStep(O.BeginPut(id, data)), events);
    ReachedDelivering(total, maxWorkers, past, r);
    KeptFrom(r, id, data, events);
  }

  lemma ReachedDelivering(total: Quantities, maxWorkers: nat, past: seq<Event>, r: Runtime)
    requires Possible(Init(total, maxWorkers, 0), past) && r == Exec(Init(total, maxWorkers, 0), past)
    requires forall e | e in past :: e.StoreStep? ==> Keeps(e.op)
    requires OwnIds(r.sched.ledger.jobs, r.userPuts)
    ensures Delivering(r)
  {
    DeliveringRun(Init(total, maxWorkers, 0), past);
  }

  lemma OwnIdsBefore(r: Runtime, e: Event, events: seq<Event>)
    requires Linked(r) && Enabled(r, e) && Possible(Apply(r, e), events)
    requires OwnIds(Exec(Apply(r, e), events).sched.ledger.jobs, Exec(Apply(r, e), events).userPuts)
    ensures OwnIds(r.sched.ledger.jobs, r.userPuts)
  {
    OwnIdsThroughout(Apply(r, e), events);
    OwnIdsEarlier(r, e);
  }

  lemma KeptFrom(r: Runtime, id: ObjectId, data: Bytes, events: seq<Event>)
    requires Delivering(r) && Possible(Apply(r, StoreStep(O.BeginPut(id, data))), events)
    requires forall e | e in events :: e.StoreStep? ==> Keeps(e.op)
    requires var end := Exec(Apply(r, StoreStep(O.BeginPut(id, data))), events); OwnIds(end.sched.ledger.jobs, end.userPuts)
    ensures var end, c := Exec(Apply(r, StoreStep(O.BeginPut(id, data))), events), |r.store.calls|;
            && c < |end.store.calls|
            && (end.store.calls[c].Done? ==>
                  end.store.calls[c] == O.Done(true) && id in end.store.objects && end.store.objects[id].data == data)
  {
    var begun := Apply(r, StoreStep(O.BeginPut(id, data)));
    OwnIdsThroughout(begun, events);
    BeginPutting(r, id, data);
    PuttingRun(begun, events, |r.store.calls|, id, data);
    KeptValue(Exec(begun, events), |r.store.calls|, id, data);
  }

  lemma KeptValue(r: Runtime, c: nat, id: ObjectId, data: Bytes)
    requires Delivering(r) && Putting(r.store, c, id, data)
    ensures r.store.calls[c].Done? ==> id in r.store.objects && r.store.objects[id].data == data
  {
    if r.store.calls[c].Done? {
      V.OnlyValue(r.store.begun, id, data, r.store.objects[id].data);
    }
  }
}
