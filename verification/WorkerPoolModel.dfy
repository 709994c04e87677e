/** The worker pool under arbitrary interleaving.

    Worker handles are cells of an ever-growing arena, the pool is a vector of cell numbers behind a
    readers-writer lock. A session is one caller: it gets a worker (scan under the read lock, scan again
    under the write lock, then spawn), uses it, and returns it without the lock. Every load and store of
    a status cell is its own step. A kill marks its target dead and purges the vector. */
module WorkerPoolModel {
  import opened Prelude

  datatype Status = Idle | Busy | Dead

  datatype Session =
    | Arriving                                  // waiting for the read lock
    | ReadScan(next: nat)                       // under the read lock, before loading status `next`
    | ReadClaim(found: nat)                     // saw `found` idle, has not marked it busy yet
    | AwaitWrite                                // waiting for the write lock
    | WriteScan(next: nat)
    | WriteClaim(found: nat)
    | Holding(worker: nat)
    | Refused                                   // got None
    | MarkIdle(worker: nat)                     // saw its worker alive, has not marked it idle yet
    | AwaitPurge                                // waiting for the write lock to drop dead workers
    | Purging(next: nat, kept: seq<nat>)
    | Killing(target: nat)                      // about to mark its target dead
    | Gone

  datatype Pool = Pool(max: nat, cells: seq<Status>, workers: seq<nat>, sessions: seq<Session>)

  datatype Event = Open | Kill(target: nat) | Advance(session: nat)

  ghost predicate Reading(c: Session) {
    c.ReadScan? || c.ReadClaim?
  }

  ghost predicate Writing(c: Session) {
    c.WriteScan? || c.WriteClaim? || c.Purging?
  }

  ghost predicate NoWriter(p: Pool) {
    forall k :: 0 <= k < |p.sessions| ==> !Writing(p.sessions[k])
  }

  ghost predicate Unlocked(p: Pool) {
    NoWriter(p) && forall k :: 0 <= k < |p.sessions| ==> !Reading(p.sessions[k])
  }

  ghost function Init(max: nat): Pool {
    Pool(max, [], [], [])
  }

  /** Vector positions a session relies on exist; the lock guarantees it. */
  ghost predicate InRange(p: Pool, c: Session) {
    match c
    case ReadScan(i) => i <= |p.workers|
    case ReadClaim(i) => i < |p.workers|
    case WriteScan(i) => i <= |p.workers|
    case WriteClaim(i) => i < |p.workers|
    case Purging(i, _) => i <= |p.workers|
    case Holding(w) => w < |p.cells|
    case MarkIdle(w) => w < |p.cells|
    case _ => true
  }

  ghost predicate Enabled(p: Pool, e: Event) {
    match e
    case Open => true
    case Kill(_) => true
    case Advance(k) =>
      && k < |p.sessions|
      && match p.sessions[k]
         case Arriving => NoWriter(p)
         case Killing(_) => NoWriter(p)
         case AwaitWrite => Unlocked(p)
         case AwaitPurge => Unlocked(p)
         case Gone => false
         case _ => true
  }

  /** The whole pool is well formed: vector entries are distinct cells, and the lock is respected. */
  ghost predicate WellFormed(p: Pool) {
    && |p.workers| <= p.max
    && (forall i :: 0 <= i < |p.workers| ==> p.workers[i] < |p.cells|)
    && (forall i, j :: 0 <= i < j < |p.workers| ==> p.workers[i] != p.workers[j])
    && (forall k :: 0 <= k < |p.sessions| ==> InRange(p, p.sessions[k]))
    && (forall j, k :: 0 <= j < |p.sessions| && 0 <= k < |p.sessions| && j != k && Writing(p.sessions[j]) ==>
                         !Writing(p.sessions[k]) && !Reading(p.sessions[k]))
    && (forall k :: 0 <= k < |p.sessions| && p.sessions[k].Purging? ==>
                      Subsequence(p.sessions[k].kept, p.workers[..p.sessions[k].next]))
  }

  ghost function Step(p: Pool, k: nat): Pool
    requires Enabled(p, Advance(k)) && InRange(p, p.sessions[k])
    requires forall i :: 0 <= i < |p.workers| ==> p.workers[i] < |p.cells|
  {
    match p.sessions[k]
    case Arriving => Moved(p, k, ReadScan(0))
    case ReadScan(i) =>
      if i == |p.workers| then Moved(p, k, AwaitWrite)
      else Moved(p, k, if p.cells[p.workers[i]] == Idle then ReadClaim(i) else ReadScan(i + 1))
    case ReadClaim(i) => Stored(p, k, p.workers[i], Busy, Holding(p.workers[i]))
    case AwaitWrite => Moved(p, k, WriteScan(0))
    case WriteScan(i) =>
      if i < |p.workers| then
        Moved(p, k, if p.cells[p.workers[i]] == Idle then WriteClaim(i) else WriteScan(i + 1))
      else if |p.workers| < p.max then
        Pool(p.max, p.cells + [Busy], p.workers + [|p.cells|], p.sessions[k := Holding(|p.cells|)])
      else Moved(p, k, Refused)
    case WriteClaim(i) => Stored(p, k, p.workers[i], Busy, Holding(p.workers[i]))
    case Holding(w) => Moved(p, k, if p.cells[w] == Dead then AwaitPurge else MarkIdle(w))
    case Refused => Moved(p, k, Gone)
    case MarkIdle(w) => Stored(p, k, w, Idle, Gone)
    case AwaitPurge => Moved(p, k, Purging(0, []))
    case Purging(i, kept) =>
      if i < |p.workers| then
        Moved(p, k, Purging(i + 1, if p.cells[p.workers[i]] == Dead then kept else kept + [p.workers[i]]))
      else Pool(p.max, p.cells, kept, p.sessions[k := Gone])
    case Killing(target) =>
      if target in p.workers then Stored(p, k, target, Dead, AwaitPurge) else Moved(p, k, AwaitPurge)
  }

  ghost function Moved(p: Pool, k: nat, c: Session): Pool
    requires k < |p.sessions|
  {
    Pool(p.max, p.cells, p.workers, p.sessions[k := c])
  }

  ghost function Stored(p: Pool, k: nat, w: nat, status: Status, c: Session): Pool
    requires k < |p.sessions| && w < |p.cells|
  {
    Pool(p.max, p.cells[w := status], p.workers, p.sessions[k := c])
  }

  // ---- The lock and the capacity hold in every interleaving ----

  lemma MovedWellFormed(p: Pool, k: nat, c: Session)
    requires WellFormed(p) && k < |p.sessions| && InRange(p, c)
    requires Writing(c) ==> Writing(p.sessions[k]) || Unlocked(p)
    requires Reading(c) ==> Reading(p.sessions[k]) || NoWriter(p)
    requires c.Purging? ==> Subsequence(c.kept, p.workers[..c.next])
    ensures WellFormed(Moved(p, k, c))
  {
  }

  lemma StoredWellFormed(p: Pool, k: nat, w: nat, status: Status, c: Session)
    requires WellFormed(p) && k < |p.sessions| && w < |p.cells| && InRange(p, c)
    requires !Writing(c) && !Reading(c)
    ensures WellFormed(Stored(p, k, w, status, c))
  {
  }

  lemma SpawnWellFormed(p: Pool, k: nat)
    requires WellFormed(p) && k < |p.sessions| && p.sessions[k].WriteScan? && |p.workers| < p.max
    ensures WellFormed(Pool(p.max, p.cells + [Busy], p.workers + [|p.cells|], p.sessions[k := Holding(|p.cells|)]))
  {
  }

  lemma PurgeWellFormed(p: Pool, k: nat)
    requires WellFormed(p) && k < |p.sessions| && p.sessions[k].Purging? && p.sessions[k].next == |p.workers|
    ensures WellFormed(Pool(p.max, p.cells, p.sessions[k].kept, p.sessions[k := Gone]))
  {
    var kept := p.sessions[k].kept;
    assert p.workers[..|p.workers|] == p.workers;
    var at: seq<nat> :| Places(at, kept, p.workers);
    PlacesNoLonger(at, |p.workers|);
  }

  lemma {:induction false} PlacesNoLonger(at: seq<nat>, n: nat)
    requires forall i, j :: 0 <= i < j < |at| ==> at[i] < at[j]
    requires forall i :: 0 <= i < |at| ==> at[i] < n
    ensures |at| <= n
  {
    if |at| > 0 {
      var last := at[|at| - 1];
      PlacesNoLonger(at[..|at| - 1], last);
    }
  }

  lemma PurgeScanWellFormed(p: Pool, k: nat)
    requires WellFormed(p) && k < |p.sessions| && p.sessions[k].Purging? && p.sessions[k].next < |p.workers|
    ensures var i, kept := p.sessions[k].next, p.sessions[k].kept;
            && WellFormed(Moved(p, k, Purging(i + 1, kept)))
            && WellFormed(Moved(p, k, Purging(i + 1, kept + [p.workers[i]])))
  {
    var i, kept := p.sessions[k].next, p.sessions[k].kept;
    SubsequenceGrow(kept, p.workers[..i], p.workers[i]);
    assert p.workers[..i + 1] == p.workers[..i] + [p.workers[i]];
    MovedWellFormed(p, k, Purging(i + 1, kept));
    MovedWellFormed(p, k, Purging(i + 1, kept + [p.workers[i]]));
  }

  lemma StepWellFormed(p: Pool, k: nat)
    requires WellFormed(p) && Enabled(p, Advance(k))
    ensures WellFormed(Step(p, k))
  {
    match p.sessions[k]
    case ReadClaim(i) => StoredWellFormed(p, k, p.workers[i], Busy, Holding(p.workers[i]));
    case WriteClaim(i) => StoredWellFormed(p, k, p.workers[i], Busy, Holding(p.workers[i]));
    case MarkIdle(w) => StoredWellFormed(p, k, w, Idle, Gone);
    case Killing(target) =>
      if target in p.workers {
        StoredWellFormed(p, k, target, Dead, AwaitPurge);
      } else {
        MovedWellFormed(p, k, AwaitPurge);
      }
    case WriteScan(i) =>
      if i == |p.workers| && |p.workers| < p.max {
        SpawnWellFormed(p, k);
      } else {
        MovedWellFormed(p, k, Step(p, k).sessions[k]);
      }
    case AwaitPurge =>
      assert Places([], [], p.workers[..0]);
      MovedWellFormed(p, k, Purging(0, []));
    case Purging(i, _) =>
      if i == |p.workers| {
        PurgeWellFormed(p, k);
      } else {
        PurgeScanWellFormed(p, k);
      }
    case Arriving => MovedWellFormed(p, k, ReadScan(0));
    case ReadScan(_) => MovedWellFormed(p, k, Step(p, k).sessions[k]);
    case AwaitWrite => MovedWellFormed(p, k, WriteScan(0));
    case Holding(_) => MovedWellFormed(p, k, Step(p, k).sessions[k]);
    case Refused => MovedWellFormed(p, k, Gone);
    case Gone =>
  }

  /** Every action keeps the pool within capacity, its vector free of duplicates and the lock exclusive. */
  ghost function Apply(p: Pool, e: Event): (next: Pool)
    requires WellFormed(p) && Enabled(p, e)
    ensures WellFormed(next) && next.max == p.max
  {
    match e
    case Open => Pool(p.max, p.cells, p.workers, p.sessions + [Arriving])
    case Kill(target) => Pool(p.max, p.cells, p.workers, p.sessions + [Killing(target)])
    case Advance(k) =>
      StepWellFormed(p, k);
      Step(p, k)
  }

  // ---- Runs ----

  ghost predicate Possible(p: Pool, events: seq<Event>)
    requires WellFormed(p)
    decreases |events|
  {
    events == [] || (Enabled(p, events[0]) && Possible(Apply(p, events[0]), events[1..]))
  }

  ghost function Exec(p: Pool, events: seq<Event>): (next: Pool)
    requires WellFormed(p) && Possible(p, events)
    ensures WellFormed(next) && next.max == p.max
    decreases |events|
  {
    if events == [] then p else Exec(Apply(p, events[0]), events[1..])
  }

  lemma {:induction false} RunAppend(p: Pool, events: seq<Event>, e: Event)
    requires WellFormed(p) && Possible(p, events) && Enabled(Exec(p, events), e)
    ensures Possible(p, events + [e])
    ensures Exec(p, events + [e]) == Apply(Exec(p, events), e)
    decreases |events|
  {
    if events == [] {
      assert [e][1..] == [];
    } else {
      RunAppend(Apply(p, events[0]), events[1..], e);
      assert (events + [e])[1..] == events[1..] + [e];
    }
  }

  /** In every interleaving of gets, returns and kills the pool never exceeds its capacity, holds no worker
      twice, and the write lock excludes every other holder. */
  lemma PoolWithinCapacity(max: nat, events: seq<Event>)
    requires Possible(Init(max), events)
    ensures var p := Exec(Init(max), events);
            && |p.workers| <= max
            && (forall i, j :: 0 <= i < j < |p.workers| ==> p.workers[i] != p.workers[j])
            && (forall j, k :: 0 <= j < |p.sessions| && 0 <= k < |p.sessions| && j != k && Writing(p.sessions[j]) ==>
                                 !Writing(p.sessions[k]) && !Reading(p.sessions[k]))
  {
  }
}
