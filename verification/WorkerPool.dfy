/** The worker pool with each call as one step: the vector of shared handles updated in place. */
module WorkerPooling {
  import opened Prelude
  import opened WorkerPoolModel

  type WorkerId = Bytes

  class WorkerHandle {
    const workerId: WorkerId
    var status: Status

    constructor (id: WorkerId)
      ensures workerId == id && status == Idle
    {
      workerId, status := id, Idle;
    }
  }

  class WorkerPool {
    const maxWorkers: nat
    var workers: seq<WorkerHandle>
    ghost var lent: set<WorkerHandle>    // handed out and not returned
    ghost var killed: set<WorkerHandle>  // marked dead by a kill

    ghost predicate Valid()
      reads this, workers, killed
    {
      && |workers| <= maxWorkers
      && (forall i, j :: 0 <= i < j < |workers| ==> workers[i] != workers[j])
      && (forall w | w in workers :: w.status == if w in lent then Busy else Idle)
      && (forall w | w in killed :: w.status == Dead)
    }

    constructor (maxWorkers: nat)
      ensures Valid() && this.maxWorkers == maxWorkers && workers == [] && lent == {} && killed == {}
    {
      this.maxWorkers := maxWorkers;
      workers, lent, killed := [], {}, {};
    }

    /** The scan for an idle worker, as done under either lock. */
    method FindIdle() returns (found: Option<WorkerHandle>)
      ensures found.Some? ==>
                exists i :: 0 <= i < |workers| && workers[i] == found.value && workers[i].status == Idle
                            && forall k :: 0 <= k < i ==> workers[k].status != Idle
      ensures found.None? ==> forall w | w in workers :: w.status != Idle
    {
      for i := 0 to |workers|
        invariant forall k :: 0 <= k < i ==> workers[k].status != Idle
      {
        if workers[i].status == Idle {
          return Some(workers[i]);
        }
      }
      return None;
    }

    /** A worker nobody else holds and nobody has killed, or none exactly when every pooled worker is lent and
        the pool is full. */
    method GetWorker(freshId: WorkerId) returns (worker: Option<WorkerHandle>)
      requires Valid()
      modifies this, workers
      ensures Valid() && killed == old(killed)
      ensures worker.None? <==> |old(workers)| == maxWorkers && forall w | w in old(workers) :: w in old(lent)
      ensures worker.None? ==> workers == old(workers) && lent == old(lent)
      ensures worker.Some? ==>
                && worker.value !in old(lent) && worker.value !in killed
                && worker.value in workers && lent == old(lent) + {worker.value}
                && if workers == old(workers)
                   then exists i :: 0 <= i < |workers| && workers[i] == worker.value
                                    && forall k :: 0 <= k < i ==> workers[k] in old(lent)
                   else workers == old(workers) + [worker.value] && fresh(worker.value)
                        && forall w | w in old(workers) :: w in old(lent)
    {
      var found := FindIdle();
      if found.None? {
        found := FindIdle();
      }
      if found.Some? {
        found.value.status := Busy;
        lent := lent + {found.value};
        return found;
      }
      if |workers| < maxWorkers {
        var handle := new WorkerHandle(freshId);
        handle.status := Busy;
        workers := workers + [handle];
        lent := lent + {handle};
        return Some(handle);
      }
      return None;
    }

    /** A live worker becomes available again; a dead one does not. */
    method ReturnWorker(handle: WorkerHandle)
      requires Valid()
      modifies this, handle
      ensures Valid() && killed == old(killed) && workers == old(workers) && lent == old(lent) - {handle}
      ensures handle.status == if old(handle.status) == Dead then Dead else Idle
    {
      lent := lent - {handle};
      if handle.status == Dead {
        DropDead(|workers|);
        return;
      }
      handle.status := Idle;
    }

    /** The workers among `handles` that are not dead, in order. */
    ghost function Survivors(handles: seq<WorkerHandle>): seq<WorkerHandle>
      reads handles
    {
      if handles == [] then []
      else
        var n := |handles| - 1;
        Survivors(handles[..n]) + if handles[n].status != Dead then [handles[n]] else []
    }

    lemma {:induction false} AllSurvive(handles: seq<WorkerHandle>)
      requires forall w | w in handles :: w.status != Dead
      ensures Survivors(handles) == handles
    {
      if handles != [] {
        var n := |handles| - 1;
        AllSurvive(handles[..n]);
        assert handles == handles[..n] + [handles[n]];
      }
    }

    lemma {:induction false} OneDies(handles: seq<WorkerHandle>, i: nat)
      requires i < |handles| && handles[i].status == Dead
      requires forall k :: 0 <= k < |handles| && k != i ==> handles[k].status != Dead
      ensures Survivors(handles) == RemoveAt(handles, i)
    {
      var n := |handles| - 1;
      if i == n {
        AllSurvive(handles[..n]);
      } else {
        OneDies(handles[..n], i);
      }
    }

    method Retain() returns (kept: seq<WorkerHandle>)
      ensures kept == Survivors(workers)
    {
      kept := [];
      for i := 0 to |workers|
        invariant kept == Survivors(workers[..i])
      {
        assert workers[..i + 1][..i] == workers[..i];
        if workers[i].status != Dead {
          kept := kept + [workers[i]];
        }
      }
      assert workers[..|workers|] == workers;
    }

    /** The first worker with the given id, at position `at`, is dead and out of the pool for good; the others stay,
        in order. Without such a worker nothing changes. */
    method KillWorker(id: WorkerId) returns (ghost at: nat)
      requires Valid()
      modifies this, workers
      ensures Valid() && lent == old(lent)
      ensures at <= |old(workers)| && forall k :: 0 <= k < at ==> old(workers)[k].workerId != id
      ensures if at < |old(workers)|
              then old(workers)[at].workerId == id && workers == RemoveAt(old(workers), at)
                   && killed == old(killed) + {old(workers)[at]}
              else workers == old(workers) && killed == old(killed)
    {
      var i := FirstWithId(id);
      at := i;
      if i < |workers| {
        workers[i].status := Dead;
        killed := killed + {workers[i]};
      }
      DropDead(i);
    }

    method FirstWithId(id: WorkerId) returns (i: nat)
      ensures i <= |workers| && (i < |workers| ==> workers[i].workerId == id)
      ensures forall k :: 0 <= k < i ==> workers[k].workerId != id
    {
      i := 0;
      while i < |workers| && workers[i].workerId != id
        invariant i <= |workers|
        invariant forall k :: 0 <= k < i ==> workers[k].workerId != id
      {
        i := i + 1;
      }
    }

    /** The cleanup of dead workers, when only the one at `at`, if any, is dead. */
    method DropDead(ghost at: nat)
      requires at < |workers| ==> workers[at].status == Dead
      requires forall k :: 0 <= k < |workers| && k != at ==> workers[k].status != Dead
      modifies this`workers
      ensures workers == if at < |old(workers)| then RemoveAt(old(workers), at) else old(workers)
      ensures forall w :: w in workers ==> exists k :: 0 <= k < |old(workers)| && k != at && w == old(workers)[k]
    {
      if at < |workers| {
        OneDies(workers, at);
      } else {
        AllSurvive(workers);
      }
      workers := Retain();
    }
  }
}
