/** What single pool calls do when run alone, what a purge leaves, and who stays in the pool. */
module WorkerPoolCalls {
  import opened Prelude
  import opened WorkerPoolModel
  import opened WorkerPoolSafety
  import opened WorkerPoolKills

  // ---- Calls run alone ----

  ghost function Steps(k: nat, n: nat): seq<Event> {
    seq(n, i => Advance(k))
  }

  /** Session `k`, advanced alone from `p`, leads to `q`. */
  ghost predicate Leads(p: Pool, k: nat, q: Pool)
    requires WellFormed(p)
  {
    exists n: nat :: Possible(p, Steps(k, n)) && Exec(p, Steps(k, n)) == q
  }

  lemma LeadsNowhere(p: Pool, k: nat)
    requires WellFormed(p)
    ensures Leads(p, k, p)
  {
    assert Possible(p, Steps(k, 0)) && Exec(p, Steps(k, 0)) == p;
  }

  lemma LeadsOn(p: Pool, k: nat, next: Pool, q: Pool)
    requires WellFormed(p) && Enabled(p, Advance(k)) && Apply(p, Advance(k)) == next && Leads(next, k, q)
    ensures Leads(p, k, q)
  {
    var n: nat :| Possible(next, Steps(k, n)) && Exec(next, Steps(k, n)) == q;
    assert Steps(k, n + 1)[0] == Advance(k) && Steps(k, n + 1)[1..] == Steps(k, n);
    assert Possible(p, Steps(k, n + 1)) && Exec(p, Steps(k, n + 1)) == q;
  }

  /** Nobody but session `k` has the lock. */
  ghost predicate LockFreeFor(p: Pool, k: nat) {
    forall h :: 0 <= h < |p.sessions| && h != k ==> !Reading(p.sessions[h]) && !Writing(p.sessions[h])
  }

  ghost predicate NoIdle(p: Pool, n: nat)
    requires WellFormed(p) && n <= |p.workers|
  {
    forall i :: 0 <= i < n ==> p.cells[p.workers[i]] != Idle
  }

  /** What `get_worker` of session `k` leaves: the first idle worker marked busy and handed out, else a new one if
      there is room, else a refusal. */
  ghost function Got(p: Pool, k: nat): Pool
    requires WellFormed(p) && k < |p.sessions|
  {
    if !NoIdle(p, |p.workers|) then
      var i := FirstIdle(p, 0);
      Stored(p, k, p.workers[i], Busy, Holding(p.workers[i]))
    else if |p.workers| < p.max then
      Pool(p.max, p.cells + [Busy], p.workers + [|p.cells|], p.sessions[k := Holding(|p.cells|)])
    else Moved(p, k, Refused)
  }

  /** The first idle position from `i` on. */
  ghost function FirstIdle(p: Pool, i: nat): (at: nat)
    requires WellFormed(p) && i <= |p.workers| && NoIdle(p, i) && !NoIdle(p, |p.workers|)
    ensures i <= at < |p.workers| && p.cells[p.workers[at]] == Idle && NoIdle(p, at)
    decreases |p.workers| - i
  {
    if i < |p.workers| && p.cells[p.workers[i]] == Idle then i else FirstIdle(p, i + 1)
  }

  lemma FirstIdleUnique(p: Pool, i: nat, at: nat)
    requires WellFormed(p) && i <= at < |p.workers| && NoIdle(p, at) && p.cells[p.workers[at]] == Idle
    ensures !NoIdle(p, |p.workers|) && FirstIdle(p, i) == at
  {
  }

  lemma {:induction false} WriteScanEnds(p: Pool, k: nat)
    requires WellFormed(p) && k < |p.sessions| && p.sessions[k].WriteScan? && NoIdle(p, p.sessions[k].next)
    ensures Leads(p, k, Got(p, k))
    decreases |p.workers| - p.sessions[k].next
  {
    var i, next := p.sessions[k].next, Apply(p, Advance(k));
    if i == |p.workers| {
      LeadsNowhere(next, k);
      LeadsOn(p, k, next, Got(p, k));
    } else if p.cells[p.workers[i]] == Idle {
      var end := Apply(next, Advance(k));
      FirstIdleUnique(p, 0, i);
      assert end == Got(p, k);
      LeadsNowhere(end, k);
      LeadsOn(next, k, end, end);
      LeadsOn(p, k, next, end);
    } else {
      WriteScanEnds(next, k);
      GotIgnoresPosition(p, next, k);
      LeadsOn(p, k, next, Got(p, k));
    }
  }

  /** What a call gets does not depend on how far it has scanned. */
  lemma GotIgnoresPosition(p: Pool, next: Pool, k: nat)
    requires WellFormed(p) && WellFormed(next) && k < |p.sessions|
    requires next.max == p.max && next.cells == p.cells && next.workers == p.workers
    requires |next.sessions| == |p.sessions| && forall h :: 0 <= h < |p.sessions| && h != k ==> next.sessions[h] == p.sessions[h]
    ensures Got(next, k) == Got(p, k)
  {
    if !NoIdle(p, |p.workers|) {
      var i := FirstIdle(p, 0);
      FirstIdleUnique(next, 0, i);
      assert next.sessions[k := Holding(p.workers[i])] == p.sessions[k := Holding(p.workers[i])];
    } else {
      assert next.sessions[k := Refused] == p.sessions[k := Refused];
      assert next.sessions[k := Holding(|p.cells|)] == p.sessions[k := Holding(|p.cells|)];
    }
  }

  lemma AwaitWriteEnds(p: Pool, k: nat)
    requires WellFormed(p) && k < |p.sessions| && p.sessions[k].AwaitWrite? && Unlocked(p)
    ensures Leads(p, k, Got(p, k))
  {
    var next := Apply(p, Advance(k));
    WriteScanEnds(next, k);
    GotIgnoresPosition(p, next, k);
    LeadsOn(p, k, next, Got(p, k));
  }

  lemma {:induction false} ReadScanEnds(p: Pool, k: nat)
    requires WellFormed(p) && k < |p.sessions| && p.sessions[k].ReadScan? && NoIdle(p, p.sessions[k].next)
    requires LockFreeFor(p, k)
    ensures Leads(p, k, Got(p, k))
    decreases |p.workers| - p.sessions[k].next
  {
    var i, next := p.sessions[k].next, Apply(p, Advance(k));
    GotIgnoresPosition(p, next, k);
    if i == |p.workers| {
      AwaitWriteEnds(next, k);
    } else if p.cells[p.workers[i]] == Idle {
      var end := Apply(next, Advance(k));
      FirstIdleUnique(next, 0, i);
      assert end == Got(next, k);
      LeadsNowhere(end, k);
      LeadsOn(next, k, end, end);
    } else {
      ReadScanEnds(next, k);
    }
    LeadsOn(p, k, next, Got(p, k));
  }

  /** A new caller's `get_worker`, run alone while nobody has the lock: it gets the first idle worker; with none idle a
      new one, if the pool has room; and None only from a full pool without an idle worker. */
  lemma GetAlone(p: Pool)
    requires WellFormed(p) && Unlocked(p)
    ensures var start, n := Apply(p, Open), |p.sessions|;
            && Leads(start, n, Got(start, n))
            && match Got(start, n).sessions[n]
               case Holding(w) =>
                 if w < |p.cells|
                 then exists i :: 0 <= i < |p.workers| && p.workers[i] == w && p.cells[w] == Idle && NoIdle(p, i)
                                  && Got(start, n).cells == p.cells[w := Busy] && Got(start, n).workers == p.workers
                 else NoIdle(p, |p.workers|) && |p.workers| < p.max && w == |p.cells|
                      && Got(start, n).cells == p.cells + [Busy] && Got(start, n).workers == p.workers + [w]
               case Refused => NoIdle(p, |p.workers|) && |p.workers| == p.max
               case _ => false
  {
    var start, n := Apply(p, Open), |p.sessions|;
    var scan := Apply(start, Advance(n));
    ReadScanEnds(scan, n);
    GotIgnoresPosition(start, scan, n);
    LeadsOn(start, n, scan, Got(start, n));
    if !NoIdle(start, |start.workers|) {
      var i := FirstIdle(start, 0);
      assert NoIdle(p, i);
    }
  }

  // ---- Kills and the purge, run alone ----

  /** The positions `0..n` of the vector whose worker is not dead. */
  ghost function Survivors(cells: seq<Status>, workers: seq<nat>): seq<nat>
    requires forall i :: 0 <= i < |workers| ==> workers[i] < |cells|
  {
    if workers == [] then []
    else
      var n := |workers| - 1;
      Survivors(cells, workers[..n]) + if cells[workers[n]] != Dead then [workers[n]] else []
  }

  /** The pool that the purge of session `k` leaves. */
  ghost function Purged(p: Pool, k: nat): Pool
    requires WellFormed(p) && k < |p.sessions|
  {
    Pool(p.max, p.cells, Survivors(p.cells, p.workers), p.sessions[k := Gone])
  }

  lemma PurgeStep(p: Pool, k: nat)
    requires WellFormed(p) && k < |p.sessions| && p.sessions[k].Purging? && p.sessions[k].next < |p.workers|
    ensures var i, kept := p.sessions[k].next, p.sessions[k].kept;
            Apply(p, Advance(k)) ==
            Moved(p, k, Purging(i + 1, if p.cells[p.workers[i]] == Dead then kept else kept + [p.workers[i]]))
  {
  }

  lemma SurvivorsNext(cells: seq<Status>, workers: seq<nat>, i: nat)
    requires i < |workers| && forall h :: 0 <= h < |workers| ==> workers[h] < |cells|
    ensures Survivors(cells, workers[..i + 1]) ==
            if cells[workers[i]] == Dead then Survivors(cells, workers[..i]) else Survivors(cells, workers[..i]) + [workers[i]]
  {
    assert workers[..i + 1][..i] == workers[..i];
  }

  lemma {:induction false} PurgeEnds(p: Pool, k: nat)
    requires WellFormed(p) && k < |p.sessions| && p.sessions[k].Purging?
    requires p.sessions[k].kept == Survivors(p.cells, p.workers[..p.sessions[k].next])
    ensures Leads(p, k, Purged(p, k))
    decreases |p.workers| - p.sessions[k].next
  {
    var i, next := p.sessions[k].next, Apply(p, Advance(k));
    if i == |p.workers| {
      assert p.workers[..i] == p.workers;
      LeadsNowhere(next, k);
    } else {
      PurgeStep(p, k);
      SurvivorsNext(p.cells, p.workers, i);
      PurgeEnds(next, k);
      assert next.sessions[k := Gone] == p.sessions[k := Gone];
    }
    LeadsOn(p, k, next, Purged(p, k));
  }

  lemma AwaitPurgeEnds(p: Pool, k: nat)
    requires WellFormed(p) && k < |p.sessions| && p.sessions[k].AwaitPurge? && Unlocked(p)
    ensures Leads(p, k, Pool(p.max, p.cells, Survivors(p.cells, p.workers), p.sessions[k := Gone]))
  {
    var next := Apply(p, Advance(k));
    assert p.workers[..0] == [];
    PurgeEnds(next, k);
    assert next.sessions[k := Gone] == p.sessions[k := Gone];
    LeadsOn(p, k, next, Pool(p.max, p.cells, Survivors(p.cells, p.workers), p.sessions[k := Gone]));
  }

  /** A kill run alone while nobody has the lock: its target, if pooled, is dead, and exactly the workers that are not
      dead stay, in order. */
  lemma KillAlone(p: Pool, target: nat)
    requires WellFormed(p) && Unlocked(p)
    ensures var start, n := Apply(p, Kill(target)), |p.sessions|;
            var cells := if target in p.workers then p.cells[target := Dead] else p.cells;
            Leads(start, n, Pool(p.max, cells, Survivors(cells, p.workers), p.sessions + [Gone]))
  {
    var start, n := Apply(p, Kill(target)), |p.sessions|;
    var marked := Apply(start, Advance(n));
    AwaitPurgeEnds(marked, n);
    assert marked.sessions[n := Gone] == p.sessions + [Gone];
    LeadsOn(start, n, marked, Pool(p.max, marked.cells, Survivors(marked.cells, p.workers), p.sessions + [Gone]));
  }

  /** A return run alone while nobody has the lock: a live worker becomes idle and stays; after the return of a dead
      one exactly the workers that are not dead stay, in order. */
  lemma ReturnAlone(p: Pool, k: nat)
    requires WellFormed(p) && Unlocked(p) && k < |p.sessions| && p.sessions[k].Holding?
    ensures var w := p.sessions[k].worker;
            Leads(p, k, if p.cells[w] == Dead
                        then Pool(p.max, p.cells, Survivors(p.cells, p.workers), p.sessions[k := Gone])
                        else Pool(p.max, p.cells[w := Idle], p.workers, p.sessions[k := Gone]))
  {
    var w, next := p.sessions[k].worker, Apply(p, Advance(k));
    assert next.sessions[k := Gone] == p.sessions[k := Gone];
    if p.cells[w] == Dead {
      AwaitPurgeEnds(next, k);
      LeadsOn(p, k, next, Pool(p.max, p.cells, Survivors(p.cells, p.workers), p.sessions[k := Gone]));
    } else {
      var end := Apply(next, Advance(k));
      LeadsNowhere(end, k);
      LeadsOn(next, k, end, end);
      LeadsOn(p, k, next, end);
    }
  }

  lemma {:induction false} SurvivorsExactly(cells: seq<Status>, workers: seq<nat>)
    requires forall i :: 0 <= i < |workers| ==> workers[i] < |cells|
    ensures forall w :: w in Survivors(cells, workers) <==> w in workers && cells[w] != Dead
  {
    if workers != [] {
      var n := |workers| - 1;
      SurvivorsExactly(cells, workers[..n]);
      assert workers == workers[..n] + [workers[n]];
    }
  }

  lemma {:induction false} SurvivorsInOrder(cells: seq<Status>, workers: seq<nat>)
    requires forall i :: 0 <= i < |workers| ==> workers[i] < |cells|
    ensures Subsequence(Survivors(cells, workers), workers)
  {
    if workers == [] {
      assert Places([], Survivors(cells, workers), workers);
    } else {
      var n := |workers| - 1;
      SurvivorsInOrder(cells, workers[..n]);
      SubsequenceGrow(Survivors(cells, workers[..n]), workers[..n], workers[n]);
      assert workers == workers[..n] + [workers[n]];
      assert Survivors(cells, workers) == Survivors(cells, workers[..n]) ||
             Survivors(cells, workers) == Survivors(cells, workers[..n]) + [workers[n]];
    }
  }

  lemma {:induction false} FewerSurvive(cells: seq<Status>, workers: seq<nat>, x: nat)
    requires forall i :: 0 <= i < |workers| ==> workers[i] < |cells|
    ensures |Survivors(cells, workers)| <= |workers|
    ensures x < |workers| && cells[workers[x]] == Dead ==> |Survivors(cells, workers)| < |workers|
  {
    if workers != [] {
      FewerSurvive(cells, workers[..|workers| - 1], x);
    }
  }

  // ---- A killed worker's slot is free again ----

  /** The pool after the kill of `w`, run alone. */
  ghost function Killed(p: Pool, w: nat): Pool
    requires WellFormed(p) && w < |p.cells|
  {
    Pool(p.max, p.cells[w := Dead], Survivors(p.cells[w := Dead], p.workers), p.sessions + [Gone])
  }

  lemma KillLeadsToKilled(p: Pool, w: nat)
    requires WellFormed(p) && Unlocked(p) && w in p.workers
    ensures Leads(Apply(p, Kill(w)), |p.sessions|, Killed(p, w)) && WellFormed(Killed(p, w)) && Unlocked(Killed(p, w))
  {
    KillAlone(p, w);
    LeadsKeepsWellFormed(Apply(p, Kill(w)), |p.sessions|, Killed(p, w));
  }

  lemma OneFewerSurvives(cells: seq<Status>, workers: seq<nat>, w: nat)
    requires forall i :: 0 <= i < |workers| ==> workers[i] < |cells| && cells[workers[i]] != Idle
    requires w in workers
    ensures var rest := Survivors(cells[w := Dead], workers);
            && |rest| < |workers| && w !in rest
            && forall i :: 0 <= i < |rest| ==> rest[i] < |cells| && cells[w := Dead][rest[i]] != Idle
  {
    var x :| 0 <= x < |workers| && workers[x] == w;
    FewerSurvive(cells[w := Dead], workers, x);
    SurvivorsExactly(cells[w := Dead], workers);
    var rest := Survivors(cells[w := Dead], workers);
    forall i | 0 <= i < |rest| ensures rest[i] < |cells| && cells[w := Dead][rest[i]] != Idle {
      assert rest[i] in workers;
    }
  }

  /** From every full pool whose workers are all taken and whose lock is free: a new caller is refused, but after a
      kill of any of its workers, run alone, the next caller gets a new worker. */
  lemma KillFreesSlot(p: Pool, w: nat)
    requires WellFormed(p) && Unlocked(p) && |p.workers| == p.max && NoIdle(p, |p.workers|) && w in p.workers
    ensures Got(Apply(p, Open), |p.sessions|).sessions[|p.sessions|] == Refused
    ensures Leads(Apply(p, Kill(w)), |p.sessions|, Killed(p, w)) && WellFormed(Killed(p, w))
    ensures var killed := Killed(p, w);
            var n, next := |killed.sessions|, Got(Apply(killed, Open), |killed.sessions|);
            && Leads(Apply(killed, Open), n, next) && next.sessions[n] == Holding(|p.cells|)
            && |p.cells| in next.workers && w !in next.workers
  {
    GetAlone(p);
    KillLeadsToKilled(p, w);
    OneFewerSurvives(p.cells, p.workers, w);
    GetAlone(Killed(p, w));
  }

  lemma LeadsKeepsWellFormed(p: Pool, k: nat, q: Pool)
    requires WellFormed(p) && Leads(p, k, q)
    ensures WellFormed(q)
  {
  }

  // ---- Under every interleaving: the dead leave, the others stay ----

  /** Session `k` is on its way to a purge that will not keep `w`, or `w` has left. */
  ghost predicate OnItsWayOut(p: Pool, k: nat, w: nat)
    requires k < |p.sessions|
  {
    || w !in p.workers
    || p.sessions[k] == Holding(w) || p.sessions[k] == AwaitPurge
    || (p.sessions[k].Purging? && w !in p.sessions[k].kept)
  }

  lemma OutStep(p: Pool, e: Event, k: nat, w: nat)
    requires WellFormed(p) && Enabled(p, e) && k < |p.sessions| && w < |p.cells|
    requires p.cells[w] == Dead && !Claimed(p, w) && !Returning(p, w) && OnItsWayOut(p, k, w)
    ensures OnItsWayOut(Apply(p, e), k, w)
  {
    if w !in p.workers && e.Advance? && p.sessions[e.session].Purging? {
      KeptIsPooled(p, e.session, w);
    }
  }

  /** A dead worker that nobody is about to mark busy or idle is out of the vector once a purge that starts after that,
      or the return of the caller that has it, has come to its end, and stays out in every continuation. */
  lemma {:induction false} DeadIsPurged(p: Pool, events: seq<Event>, k: nat, w: nat)
    requires WellFormed(p) && Possible(p, events) && k < |p.sessions| && w < |p.cells|
    requires p.cells[w] == Dead && !Claimed(p, w) && !Returning(p, w) && OnItsWayOut(p, k, w)
    ensures k < |Exec(p, events).sessions| && OnItsWayOut(Exec(p, events), k, w)
    ensures Exec(p, events).sessions[k] == Gone ==> w !in Exec(p, events).workers
    decreases |events|
  {
    if events != [] {
      OutStep(p, events[0], k, w);
      BarredStep(p, events[0], w);
      StaysDead(p, events[0], w);
      DeadIsPurged(Apply(p, events[0]), events[1..], k, w);
    }
  }

  /** Nobody kills `w` and nobody is about to. */
  ghost predicate Unkilled(p: Pool, w: nat) {
    w < |p.cells| && p.cells[w] != Dead && forall k :: 0 <= k < |p.sessions| ==> p.sessions[k] != Killing(w)
  }

  lemma UnkilledStep(p: Pool, e: Event, w: nat)
    requires WellFormed(p) && Enabled(p, e) && Unkilled(p, w) && e != Kill(w)
    ensures Unkilled(Apply(p, e), w)
  {
  }

  lemma PooledPurgeStep(p: Pool, k: nat, w: nat)
    requires WellFormed(p) && k < |p.sessions| && p.sessions[k].Purging? && Unkilled(p, w) && !Removed(p, w)
    ensures !Removed(Apply(p, Advance(k)), w)
  {
    var i, q := p.sessions[k].next, Apply(p, Advance(k));
    assert !Dropped(p, p.sessions[k], w);
    assert forall h :: 0 <= h < |p.sessions| && h != k ==> q.sessions[h] == p.sessions[h] && !q.sessions[h].Purging?;
    if i == |p.workers| {
      assert p.workers[..i] == p.workers;
    } else {
      assert p.workers[..i + 1] == p.workers[..i] + [p.workers[i]];
      assert !Dropped(q, q.sessions[k], w);
    }
  }

  lemma PooledStep(p: Pool, e: Event, w: nat)
    requires WellFormed(p) && Enabled(p, e) && Unkilled(p, w) && !Removed(p, w)
    ensures !Removed(Apply(p, e), w)
  {
    if e.Advance? && p.sessions[e.session].Purging? {
      PooledPurgeStep(p, e.session, w);
    } else {
      var q := Apply(p, e);
      assert forall h :: 0 <= h < |q.sessions| && Dropped(q, q.sessions[h], w) ==>
                           h < |p.sessions| && Dropped(p, p.sessions[h], w);
    }
  }

  /** Only killed workers leave the pool: in every run without a kill of `w`, a pooled worker stays pooled, whatever
      else is killed and purged. */
  lemma {:induction false} UnkilledStaysPooled(p: Pool, events: seq<Event>, w: nat)
    requires WellFormed(p) && Possible(p, events) && Unkilled(p, w) && !Removed(p, w)
    requires forall e | e in events :: e != Kill(w)
    ensures w in Exec(p, events).workers
    decreases |events|
  {
    if events != [] {
      assert events[0] in events;
      assert forall e | e in events[1..] :: e in events;
      UnkilledStep(p, events[0], w);
      PooledStep(p, events[0], w);
      UnkilledStaysPooled(Apply(p, events[0]), events[1..], w);
    }
  }
}
