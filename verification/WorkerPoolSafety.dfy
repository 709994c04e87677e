/** No caller is refused a worker while callers fit the capacity, and exactly when ownership is exclusive. */
module WorkerPoolSafety {
  import opened Prelude
  import opened WorkerPoolModel

  ghost predicate Holds(c: Session, w: nat) {
    c == Holding(w) || c == MarkIdle(w)
  }

  /** Sessions that have arrived and not yet finished returning. */
  ghost function Live(p: Pool): set<nat> {
    set k: nat | k < |p.sessions| && p.sessions[k] != Gone
  }

  ghost predicate NoKills(p: Pool) {
    && (forall k :: 0 <= k < |p.sessions| ==>
                      !p.sessions[k].Killing? && !p.sessions[k].AwaitPurge? && !p.sessions[k].Purging?)
    && (forall w :: 0 <= w < |p.cells| ==> p.cells[w] != Dead)
  }

  ghost predicate Held(p: Pool, w: nat) {
    exists k :: 0 <= k < |p.sessions| && Holds(p.sessions[k], w)
  }

  /** Every busy worker has a holder. */
  ghost predicate BusyOwned(p: Pool) {
    forall w :: 0 <= w < |p.cells| && p.cells[w] == Busy ==> Held(p, w)
  }

  ghost function CountBusy(cells: seq<Status>, workers: seq<nat>): nat
    requires forall i :: 0 <= i < |workers| ==> workers[i] < |cells|
  {
    if workers == [] then 0
    else (if cells[workers[0]] == Busy then 1 else 0) + CountBusy(cells, workers[1..])
  }

  /** Under the write lock: workers already seen busy, workers still busy ahead and the scanning caller
      itself are together at most `n`. */
  ghost predicate ScanBound(p: Pool, n: nat)
    requires WellFormed(p)
  {
    forall k :: 0 <= k < |p.sessions| && p.sessions[k].WriteScan? ==>
                  p.sessions[k].next + CountBusy(p.cells, p.workers[p.sessions[k].next..]) + 1 <= n
  }

  ghost predicate Unstarved(p: Pool, n: nat) {
    && WellFormed(p) && NoKills(p) && BusyOwned(p) && ScanBound(p, n)
    && forall k :: 0 <= k < |p.sessions| ==> !p.sessions[k].Refused?
  }

  /** Distinct busy workers have distinct holders. */
  lemma {:induction false} HoldersOf(p: Pool, workers: seq<nat>) returns (holders: set<nat>)
    requires BusyOwned(p)
    requires forall i :: 0 <= i < |workers| ==> workers[i] < |p.cells|
    requires forall i, j :: 0 <= i < j < |workers| ==> workers[i] != workers[j]
    ensures |holders| == CountBusy(p.cells, workers)
    ensures forall h | h in holders :: h < |p.sessions| && exists w :: w in workers && Holds(p.sessions[h], w)
    decreases |workers|
  {
    if workers == [] {
      holders := {};
    } else {
      var rest := HoldersOf(p, workers[1..]);
      holders := rest;
      if p.cells[workers[0]] == Busy {
        assert Held(p, workers[0]);
        var k :| 0 <= k < |p.sessions| && Holds(p.sessions[k], workers[0]);
        assert k !in rest;
        holders := rest + {k};
      }
      forall h | h in holders ensures exists w :: w in workers && Holds(p.sessions[h], w) {
        if h in rest {
          var w :| w in workers[1..] && Holds(p.sessions[h], w);
          assert w in workers;
        } else {
          assert workers[0] in workers;
        }
      }
    }
  }

  lemma BusyLeavesRoom(p: Pool, k: nat)
    requires WellFormed(p) && BusyOwned(p) && k < |p.sessions| && p.sessions[k].AwaitWrite?
    ensures CountBusy(p.cells, p.workers) + 1 <= |Live(p)|
  {
    var holders := HoldersOf(p, p.workers);
    assert k !in holders;
    assert holders + {k} <= Live(p);
    SubsetSize(holders + {k}, Live(p));
  }

  lemma SubsetSize<T>(a: set<T>, b: set<T>)
    requires a <= b
    ensures |a| <= |b|
  {
    assert b == a + (b - a);
  }

  lemma {:induction false} CountBusyAfterIdle(cells: seq<Status>, workers: seq<nat>, w: nat)
    requires w < |cells| && forall i :: 0 <= i < |workers| ==> workers[i] < |cells|
    ensures CountBusy(cells[w := Idle], workers) <= CountBusy(cells, workers)
  {
    if workers != [] {
      CountBusyAfterIdle(cells, workers[1..], w);
    }
  }

  // ---- Preservation, by kind of step ----

  lemma BusyOwnedMoved(p: Pool, k: nat, c: Session)
    requires BusyOwned(p) && k < |p.sessions|
    requires forall w :: Holds(p.sessions[k], w) ==> Holds(c, w)
    ensures BusyOwned(Moved(p, k, c))
  {
    var q := Moved(p, k, c);
    forall w | 0 <= w < |q.cells| && q.cells[w] == Busy ensures Held(q, w) {
      var h :| 0 <= h < |p.sessions| && Holds(p.sessions[h], w);
      assert Holds(q.sessions[h], w);
    }
  }

  lemma BusyOwnedStored(p: Pool, k: nat, w: nat, status: Status, c: Session)
    requires BusyOwned(p) && k < |p.sessions| && w < |p.cells|
    requires forall v :: v != w ==> !Holds(p.sessions[k], v)
    requires status == Busy ==> Holds(c, w)
    ensures BusyOwned(Stored(p, k, w, status, c))
  {
    var q := Stored(p, k, w, status, c);
    forall v | 0 <= v < |q.cells| && q.cells[v] == Busy ensures Held(q, v) {
      if v == w {
        assert Holds(q.sessions[k], w);
      } else {
        var h :| 0 <= h < |p.sessions| && Holds(p.sessions[h], v);
        assert Holds(q.sessions[h], v);
      }
    }
  }

  lemma BusyOwnedSpawn(p: Pool, k: nat)
    requires WellFormed(p) && BusyOwned(p) && k < |p.sessions| && p.sessions[k].WriteScan?
    ensures BusyOwned(Pool(p.max, p.cells + [Busy], p.workers + [|p.cells|], p.sessions[k := Holding(|p.cells|)]))
  {
    var q := Pool(p.max, p.cells + [Busy], p.workers + [|p.cells|], p.sessions[k := Holding(|p.cells|)]);
    forall v | 0 <= v < |q.cells| && q.cells[v] == Busy ensures Held(q, v) {
      if v == |p.cells| {
        assert Holds(q.sessions[k], v);
      } else {
        var h :| 0 <= h < |p.sessions| && Holds(p.sessions[h], v);
        assert Holds(q.sessions[h], v);
      }
    }
  }

  /** A store of Busy happens under the lock, so no write-locked scan is in progress elsewhere. */
  lemma ClaimUnstarved(p: Pool, k: nat, n: nat)
    requires Unstarved(p, n) && k < |p.sessions| && (p.sessions[k].ReadClaim? || p.sessions[k].WriteClaim?)
    ensures Unstarved(Step(p, k), n)
  {
    var w := p.workers[p.sessions[k].found];
    StoredWellFormed(p, k, w, Busy, Holding(w));
    BusyOwnedStored(p, k, w, Busy, Holding(w));
  }

  lemma ReturnUnstarved(p: Pool, k: nat, n: nat)
    requires Unstarved(p, n) && k < |p.sessions| && p.sessions[k].MarkIdle?
    ensures Unstarved(Step(p, k), n)
  {
    var w, q := p.sessions[k].worker, Step(p, k);
    StoredWellFormed(p, k, w, Idle, Gone);
    BusyOwnedStored(p, k, w, Idle, Gone);
    forall h | 0 <= h < |q.sessions| && q.sessions[h].WriteScan?
      ensures q.sessions[h].next + CountBusy(q.cells, q.workers[q.sessions[h].next..]) + 1 <= n
    {
      CountBusyAfterIdle(p.cells, p.workers[p.sessions[h].next..], w);
    }
  }

  /** The write-locked scan moves on past a busy worker, claims an idle one or, having seen only busy
      workers, still finds room to spawn. */
  lemma ScanUnstarved(p: Pool, k: nat, n: nat)
    requires Unstarved(p, n) && n <= p.max && k < |p.sessions| && p.sessions[k].WriteScan?
    ensures Unstarved(Step(p, k), n)
  {
    var i := p.sessions[k].next;
    if i < |p.workers| {
      var next := Step(p, k).sessions[k];
      MovedWellFormed(p, k, next);
      BusyOwnedMoved(p, k, next);
      assert p.workers[i..][1..] == p.workers[i + 1..];
    } else {
      assert |p.workers| + 1 <= p.max;
      SpawnWellFormed(p, k);
      BusyOwnedSpawn(p, k);
    }
  }

  lemma EnterScanUnstarved(p: Pool, k: nat, n: nat)
    requires Unstarved(p, n) && |Live(p)| <= n && k < |p.sessions| && p.sessions[k].AwaitWrite? && Unlocked(p)
    ensures Unstarved(Step(p, k), n)
  {
    BusyLeavesRoom(p, k);
    MovedWellFormed(p, k, WriteScan(0));
    BusyOwnedMoved(p, k, WriteScan(0));
    assert p.workers[0..] == p.workers;
  }

  lemma QuietMoveUnstarved(p: Pool, k: nat, n: nat)
    requires Unstarved(p, n) && Enabled(p, Advance(k))
    requires p.sessions[k].Arriving? || p.sessions[k].ReadScan? || p.sessions[k].Holding?
    ensures Unstarved(Step(p, k), n)
  {
    var next := Step(p, k).sessions[k];
    MovedWellFormed(p, k, next);
    BusyOwnedMoved(p, k, next);
  }

  lemma UnstarvedStep(p: Pool, e: Event, n: nat)
    requires Unstarved(p, n) && |Live(p)| <= n <= p.max && Enabled(p, e) && !e.Kill?
    ensures Unstarved(Apply(p, e), n)
  {
    match e
    case Open =>
      var q := Apply(p, Open);
      forall w | 0 <= w < |q.cells| && q.cells[w] == Busy ensures Held(q, w) {
        var h :| 0 <= h < |p.sessions| && Holds(p.sessions[h], w);
        assert Holds(q.sessions[h], w);
      }
    case Advance(k) =>
      match p.sessions[k] {
        case Arriving => QuietMoveUnstarved(p, k, n);
        case ReadScan(_) => QuietMoveUnstarved(p, k, n);
        case Holding(_) => QuietMoveUnstarved(p, k, n);
        case ReadClaim(_) => ClaimUnstarved(p, k, n);
        case WriteClaim(_) => ClaimUnstarved(p, k, n);
        case AwaitWrite => EnterScanUnstarved(p, k, n);
        case WriteScan(_) => ScanUnstarved(p, k, n);
        case MarkIdle(_) => ReturnUnstarved(p, k, n);
        case Refused =>
        case AwaitPurge =>
        case Purging(_, _) =>
        case Killing(_) =>
        case Gone =>
      }
    case Kill(_) =>
  }

  /** At every point of the run at most `n` sessions are live, and nothing is killed. */
  ghost predicate Crowded(p: Pool, events: seq<Event>, n: nat)
    requires WellFormed(p) && Possible(p, events)
    decreases |events|
  {
    && |Live(p)| <= n
    && (events != [] ==> !events[0].Kill? && Crowded(Apply(p, events[0]), events[1..], n))
  }

  lemma {:induction false} UnstarvedRun(p: Pool, events: seq<Event>, n: nat)
    requires Unstarved(p, n) && n <= p.max && Possible(p, events) && Crowded(p, events, n)
    ensures Unstarved(Exec(p, events), n)
    decreases |events|
  {
    if events != [] {
      UnstarvedStep(p, events[0], n);
      UnstarvedRun(Apply(p, events[0]), events[1..], n);
    }
  }

  /** While no more sessions are live than the pool may hold, `get_worker` never answers None, whatever the
      interleaving of scans, claims and unlocked returns. */
  lemma NobodyIsRefused(max: nat, events: seq<Event>, k: nat)
    requires Possible(Init(max), events) && Crowded(Init(max), events, max) && k < |Exec(Init(max), events).sessions|
    ensures !Exec(Init(max), events).sessions[k].Refused?
  {
    UnstarvedRun(Init(max), events, max);
  }

  // ---- Busy workers, in every run, kills included ----

  lemma BusyOwnedStep(p: Pool, e: Event)
    requires WellFormed(p) && BusyOwned(p) && Enabled(p, e)
    ensures BusyOwned(Apply(p, e))
  {
    var q := Apply(p, e);
    forall w | 0 <= w < |q.cells| && q.cells[w] == Busy ensures Held(q, w) {
      if e.Advance? && Holds(q.sessions[e.session], w) {
        assert Held(q, w);
      } else {
        assert w < |p.cells| && p.cells[w] == Busy;
        var h :| 0 <= h < |p.sessions| && Holds(p.sessions[h], w);
        assert Holds(q.sessions[h], w);
      }
    }
  }

  lemma {:induction false} BusyOwnedRun(p: Pool, events: seq<Event>)
    requires WellFormed(p) && BusyOwned(p) && Possible(p, events)
    ensures BusyOwned(Exec(p, events))
    decreases |events|
  {
    if events != [] {
      BusyOwnedStep(p, events[0]);
      BusyOwnedRun(Apply(p, events[0]), events[1..]);
    }
  }

  /** In every run, kills and clashes included, every busy worker is in some caller's hands and no caller has two; so
      no more workers of the pool are busy than callers are live. */
  lemma BusyWorkersHaveDistinctHolders(max: nat, events: seq<Event>)
    requires Possible(Init(max), events)
    ensures var p := Exec(Init(max), events);
            && (forall w :: 0 <= w < |p.cells| && p.cells[w] == Busy ==> Held(p, w))
            && (forall k, v, w: nat :: 0 <= k < |p.sessions| && Holds(p.sessions[k], v) && Holds(p.sessions[k], w) ==> v == w)
            && CountBusy(p.cells, p.workers) <= |Live(p)|
  {
    BusyOwnedRun(Init(max), events);
    var p := Exec(Init(max), events);
    var holders := HoldersOf(p, p.workers);
    assert holders <= Live(p);
    SubsetSize(holders, Live(p));
  }

  /** Sessions that will not scan under the write lock any more. */
  ghost predicate PastScan(c: Session) {
    c.WriteClaim? || c.Holding? || c.Refused? || c.MarkIdle? || c.AwaitPurge? || c.Purging? || c.Gone?
  }

  lemma {:induction false} StaysPastScan(p: Pool, events: seq<Event>, k: nat)
    requires WellFormed(p) && Possible(p, events) && k < |p.sessions| && PastScan(p.sessions[k])
    ensures k < |Exec(p, events).sessions| && PastScan(Exec(p, events).sessions[k])
    decreases |events|
  {
    if events != [] {
      StaysPastScan(Apply(p, events[0]), events[1..], k);
    }
  }

  /** Nobody marks a worker busy while another session has the write lock. */
  lemma NoNewBusyStep(p: Pool, e: Event, k: nat, w: nat)
    requires WellFormed(p) && Enabled(p, e) && k < |p.sessions| && p.sessions[k].WriteScan? && w < |p.cells|
    ensures var q := Apply(p, e);
            q.sessions[k].WriteScan? ==> |q.cells| == |p.cells| && (q.cells[w] == Busy ==> p.cells[w] == Busy)
    ensures !Apply(p, e).sessions[k].WriteScan? ==> PastScan(Apply(p, e).sessions[k])
  {
    if e.Advance? && e.session != k {
      assert !Reading(p.sessions[e.session]) && !Writing(p.sessions[e.session]);
    }
  }

  /** From any point of a write-locked scan to any later point of the same scan no worker has become busy, whatever
      else happened, so the scan misses no idle worker by its slowness. */
  lemma {:induction false} NoneBecomesBusyDuringScan(p: Pool, events: seq<Event>, k: nat, w: nat)
    requires WellFormed(p) && Possible(p, events) && k < |p.sessions| && w < |p.cells|
    requires p.sessions[k].WriteScan? && k < |Exec(p, events).sessions| && Exec(p, events).sessions[k].WriteScan?
    ensures w < |Exec(p, events).cells| && (Exec(p, events).cells[w] == Busy ==> p.cells[w] == Busy)
    decreases |events|
  {
    if events != [] {
      var next := Apply(p, events[0]);
      NoNewBusyStep(p, events[0], k, w);
      if PastScan(next.sessions[k]) {
        StaysPastScan(next, events[1..], k);
      } else {
        NoneBecomesBusyDuringScan(next, events[1..], k, w);
      }
    }
  }

  // ---- Exclusive ownership ----

  ghost predicate Exclusive(p: Pool) {
    forall j, k, w: nat :: 0 <= j < k < |p.sessions| && Holds(p.sessions[j], w) ==> !Holds(p.sessions[k], w)
  }

  /** Held workers are not idle, and a claim under the write lock is of an idle worker. */
  ghost predicate Marked(p: Pool) {
    && WellFormed(p)
    && (forall k, w: nat :: 0 <= k < |p.sessions| && Holds(p.sessions[k], w) ==> p.cells[w] != Idle)
    && (forall k :: 0 <= k < |p.sessions| && p.sessions[k].WriteClaim? ==> p.cells[p.workers[p.sessions[k].found]] == Idle)
  }

  ghost predicate Owned(p: Pool) {
    Marked(p) && BusyOwned(p) && Exclusive(p)
  }

  /** The step stores Busy into a cell that its caller saw idle but that is idle no longer. */
  ghost predicate LateClaim(p: Pool, e: Event)
    requires WellFormed(p) && Enabled(p, e)
  {
    e.Advance? && p.sessions[e.session].ReadClaim? && p.cells[p.workers[p.sessions[e.session].found]] != Idle
  }

  /** A late claim of a worker that is busy, or that was killed while its caller still has it. */
  ghost predicate Clash(p: Pool, e: Event)
    requires WellFormed(p) && Enabled(p, e)
  {
    LateClaim(p, e) && var w := p.workers[p.sessions[e.session].found]; p.cells[w] == Busy || Held(p, w)
  }

  lemma OwnedMoved(p: Pool, k: nat, c: Session)
    requires Owned(p) && k < |p.sessions| && WellFormed(Moved(p, k, c))
    requires forall w: nat :: Holds(c, w) ==> Holds(p.sessions[k], w)
    requires forall w: nat :: Holds(p.sessions[k], w) ==> Holds(c, w) || p.cells[w] == Dead
    requires c.WriteClaim? ==> InRange(p, c) && p.cells[p.workers[c.found]] == Idle
    ensures Owned(Moved(p, k, c))
  {
    var q := Moved(p, k, c);
    forall w | 0 <= w < |q.cells| && q.cells[w] == Busy ensures Held(q, w) {
      var h :| 0 <= h < |p.sessions| && Holds(p.sessions[h], w);
      assert Holds(q.sessions[h], w);
    }
    forall j, h, w: nat | 0 <= j < h < |q.sessions| && Holds(q.sessions[j], w) ensures !Holds(q.sessions[h], w) {
      assert Holds(p.sessions[j], w);
    }
  }

  lemma OwnedClaim(p: Pool, k: nat)
    requires Owned(p) && k < |p.sessions| && (p.sessions[k].ReadClaim? || p.sessions[k].WriteClaim?)
    ensures var w := p.workers[p.sessions[k].found];
            if Held(p, w) then !Exclusive(Step(p, k)) else Owned(Step(p, k))
  {
    var w, q := p.workers[p.sessions[k].found], Step(p, k);
    StoredWellFormed(p, k, w, Busy, Holding(w));
    BusyOwnedStored(p, k, w, Busy, Holding(w));
    if Held(p, w) {
      var h :| 0 <= h < |p.sessions| && Holds(p.sessions[h], w);
      assert Holds(q.sessions[h], w) && Holds(q.sessions[k], w);
    }
  }

  lemma OwnedReturn(p: Pool, k: nat)
    requires Owned(p) && k < |p.sessions| && p.sessions[k].MarkIdle?
    ensures Owned(Step(p, k))
  {
    var w := p.sessions[k].worker;
    StoredWellFormed(p, k, w, Idle, Gone);
    BusyOwnedStored(p, k, w, Idle, Gone);
  }

  lemma OwnedSpawn(p: Pool, k: nat)
    requires Owned(p) && k < |p.sessions| && p.sessions[k].WriteScan? && p.sessions[k].next == |p.workers| < p.max
    ensures Owned(Step(p, k))
  {
    SpawnWellFormed(p, k);
    BusyOwnedSpawn(p, k);
  }

  /** A kill finds no claim in progress under the write lock. */
  lemma OwnedKill(p: Pool, k: nat)
    requires Owned(p) && Enabled(p, Advance(k)) && p.sessions[k].Killing?
    ensures Owned(Step(p, k))
  {
    var target := p.sessions[k].target;
    StepWellFormed(p, k);
    if target in p.workers {
      BusyOwnedStored(p, k, target, Dead, AwaitPurge);
    } else {
      OwnedMoved(p, k, AwaitPurge);
    }
  }

  lemma OwnedPurge(p: Pool, k: nat)
    requires Owned(p) && k < |p.sessions| && p.sessions[k].Purging?
    ensures Owned(Step(p, k))
  {
    StepWellFormed(p, k);
    var q := Step(p, k);
    OwnedMovedCells(p, q, k);
  }

  /** The purge touches no status and nobody's worker. */
  lemma OwnedMovedCells(p: Pool, q: Pool, k: nat)
    requires Owned(p) && k < |p.sessions| && p.sessions[k].Purging? && WellFormed(q)
    requires q.cells == p.cells && |q.sessions| == |p.sessions| && (q.sessions[k].Purging? || q.sessions[k] == Gone)
    requires forall h :: 0 <= h < |p.sessions| && h != k ==> q.sessions[h] == p.sessions[h]
    ensures Owned(q)
  {
    forall w | 0 <= w < |q.cells| && q.cells[w] == Busy ensures Held(q, w) {
      var h :| 0 <= h < |p.sessions| && Holds(p.sessions[h], w);
      assert Holds(q.sessions[h], w);
    }
  }

  lemma OwnedArrival(p: Pool, c: Session)
    requires Owned(p) && (c.Arriving? || c.Killing?)
    ensures Owned(Pool(p.max, p.cells, p.workers, p.sessions + [c]))
  {
    var q := Pool(p.max, p.cells, p.workers, p.sessions + [c]);
    forall w | 0 <= w < |q.cells| && q.cells[w] == Busy ensures Held(q, w) {
      var h :| 0 <= h < |p.sessions| && Holds(p.sessions[h], w);
      assert Holds(q.sessions[h], w);
    }
  }

  lemma OwnedAdvance(p: Pool, k: nat)
    requires Owned(p) && Enabled(p, Advance(k)) && !p.sessions[k].ReadClaim? && !p.sessions[k].WriteClaim?
    ensures Owned(Step(p, k))
  {
    StepWellFormed(p, k);
    match p.sessions[k]
    case MarkIdle(_) => OwnedReturn(p, k);
    case WriteScan(i) =>
      if i == |p.workers| && |p.workers| < p.max {
        OwnedSpawn(p, k);
      } else {
        OwnedMoved(p, k, Step(p, k).sessions[k]);
      }
    case Arriving => OwnedMoved(p, k, Step(p, k).sessions[k]);
    case ReadScan(_) => OwnedMoved(p, k, Step(p, k).sessions[k]);
    case AwaitWrite => OwnedMoved(p, k, Step(p, k).sessions[k]);
    case Holding(_) => OwnedMoved(p, k, Step(p, k).sessions[k]);
    case Refused => OwnedMoved(p, k, Step(p, k).sessions[k]);
    case AwaitPurge => OwnedMoved(p, k, Step(p, k).sessions[k]);
    case Purging(_, _) => OwnedPurge(p, k);
    case Killing(_) => OwnedKill(p, k);
    case Gone =>
  }

  /** Ownership stays exclusive across a step, kills included, exactly when the step is not a clash: the only way
      two callers share a worker is that one of them marks busy a worker that stopped being idle after it looked
      and that somebody has. A late claim of a dead worker nobody has is harmless in this respect. */
  lemma ExclusiveUnlessClash(p: Pool, e: Event)
    requires Owned(p) && Enabled(p, e)
    ensures Exclusive(Apply(p, e)) <==> !Clash(p, e)
    ensures !Clash(p, e) ==> Owned(Apply(p, e))
  {
    match e
    case Open => OwnedArrival(p, Arriving);
    case Kill(target) => OwnedArrival(p, Killing(target));
    case Advance(k) =>
      StepWellFormed(p, k);
      if p.sessions[k].ReadClaim? || p.sessions[k].WriteClaim? {
        OwnedClaim(p, k);
        assert Clash(p, e) <==> Held(p, p.workers[p.sessions[k].found]) by {
          ClashIffHeld(p, k);
        }
      } else {
        OwnedAdvance(p, k);
      }
  }

  lemma ClashIffHeld(p: Pool, k: nat)
    requires Owned(p) && k < |p.sessions| && (p.sessions[k].ReadClaim? || p.sessions[k].WriteClaim?)
    ensures Clash(p, Advance(k)) <==> Held(p, p.workers[p.sessions[k].found])
  {
    var w := p.workers[p.sessions[k].found];
    if Held(p, w) {
      var h :| 0 <= h < |p.sessions| && Holds(p.sessions[h], w);
      assert p.cells[w] != Idle;
    }
  }

  /** No step of the run is a clash. */
  ghost predicate ClashFree(p: Pool, events: seq<Event>)
    requires WellFormed(p) && Possible(p, events)
    decreases |events|
  {
    events != [] ==> !Clash(p, events[0]) && ClashFree(Apply(p, events[0]), events[1..])
  }

  /** No two callers have the same worker at any point of the run. */
  ghost predicate ExclusiveThroughout(p: Pool, events: seq<Event>)
    requires WellFormed(p) && Possible(p, events)
    decreases |events|
  {
    Exclusive(p) && (events != [] ==> ExclusiveThroughout(Apply(p, events[0]), events[1..]))
  }

  lemma {:induction false} ExclusiveIffClashFree(p: Pool, events: seq<Event>)
    requires Owned(p) && Possible(p, events)
    ensures ExclusiveThroughout(p, events) <==> ClashFree(p, events)
    ensures ClashFree(p, events) ==> Owned(Exec(p, events))
    decreases |events|
  {
    if events != [] {
      ExclusiveUnlessClash(p, events[0]);
      if !Clash(p, events[0]) {
        ExclusiveIffClashFree(Apply(p, events[0]), events[1..]);
      } else {
        assert !ExclusiveThroughout(Apply(p, events[0]), events[1..]);
      }
    }
  }

  /** A run, kills included, gives no worker to two callers at once if and only if none of its steps is a clash. */
  lemma SharedExactlyByClash(max: nat, events: seq<Event>)
    requires Possible(Init(max), events)
    ensures ExclusiveThroughout(Init(max), events) <==> ClashFree(Init(max), events)
  {
    ExclusiveIffClashFree(Init(max), events);
  }

  /** No step of the run is a late claim. */
  ghost predicate Timely(p: Pool, events: seq<Event>)
    requires WellFormed(p) && Possible(p, events)
    decreases |events|
  {
    events != [] ==> !LateClaim(p, events[0]) && Timely(Apply(p, events[0]), events[1..])
  }

  lemma {:induction false} TimelyIsClashFree(p: Pool, events: seq<Event>)
    requires WellFormed(p) && Possible(p, events) && Timely(p, events)
    ensures ClashFree(p, events)
    decreases |events|
  {
    if events != [] {
      TimelyIsClashFree(Apply(p, events[0]), events[1..]);
    }
  }

  /** So a pool whose callers look and mark in one action never shares a worker, whatever is killed. */
  lemma TimelyRunsAreExclusive(max: nat, events: seq<Event>)
    requires Possible(Init(max), events) && Timely(Init(max), events)
    ensures Exclusive(Exec(Init(max), events))
  {
    TimelyIsClashFree(Init(max), events);
    ExclusiveIffClashFree(Init(max), events);
  }
}
