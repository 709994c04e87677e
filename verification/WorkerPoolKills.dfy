/** Exactly when a killed worker can be handed out again. */
module WorkerPoolKills {
  import opened Prelude
  import opened WorkerPoolModel
  import opened WorkerPoolSafety

  // ---- What can still bring a worker back ----

  /** The session saw `w` idle and is about to mark it busy. */
  ghost predicate Claims(p: Pool, c: Session, w: nat) {
    (c.ReadClaim? || c.WriteClaim?) && c.found < |p.workers| && p.workers[c.found] == w
  }

  ghost predicate Claimed(p: Pool, w: nat) {
    exists k :: 0 <= k < |p.sessions| && Claims(p, p.sessions[k], w)
  }

  /** Some caller saw `w` alive and is about to mark it idle. */
  ghost predicate Returning(p: Pool, w: nat) {
    exists k :: 0 <= k < |p.sessions| && p.sessions[k] == MarkIdle(w)
  }

  /** The purge in progress has passed `w` and not kept it. */
  ghost predicate Dropped(p: Pool, c: Session, w: nat) {
    c.Purging? && c.next <= |p.workers| && w in p.workers[..c.next] && w !in c.kept
  }

  /** `w` has left the vector, or is about to. */
  ghost predicate Removed(p: Pool, w: nat) {
    w !in p.workers || exists k :: 0 <= k < |p.sessions| && Dropped(p, p.sessions[k], w)
  }

  /** Nothing under way can hand `w` out: nobody claims it, and it is gone from the vector or dead for good. */
  ghost predicate Barred(p: Pool, w: nat) {
    && w < |p.cells|
    && !Claimed(p, w)
    && (Removed(p, w) || (p.cells[w] == Dead && !Returning(p, w)))
  }

  /** The step gives `w` to a session that did not have it. */
  ghost predicate HandsOut(p: Pool, e: Event, w: nat)
    requires WellFormed(p) && Enabled(p, e)
  {
    exists k :: 0 <= k < |Apply(p, e).sessions| && Holds(Apply(p, e).sessions[k], w)
                && !(k < |p.sessions| && Holds(p.sessions[k], w))
  }

  /** Some continuation, kills included, hands `w` out. */
  ghost predicate ComesBack(p: Pool, w: nat)
    requires WellFormed(p)
  {
    exists events, e ::
      Possible(p, events) && Enabled(Exec(p, events), e) && HandsOut(Exec(p, events), e, w)
  }

  // ---- Barred workers stay out ----

  lemma BarredIsNotHandedOut(p: Pool, e: Event, w: nat)
    requires WellFormed(p) && Enabled(p, e) && Barred(p, w)
    ensures !HandsOut(p, e, w)
  {
    if e.Advance? {
      var k := e.session;
      assert !Claims(p, p.sessions[k], w);
      assert forall h :: 0 <= h < |p.sessions| && h != k ==> Apply(p, e).sessions[h] == p.sessions[h];
    }
  }

  lemma StaysUnclaimed(p: Pool, e: Event, w: nat)
    requires WellFormed(p) && Enabled(p, e) && Barred(p, w)
    ensures !Claimed(Apply(p, e), w)
  {
  }

  lemma StaysRemoved(p: Pool, e: Event, w: nat)
    requires WellFormed(p) && Enabled(p, e) && w < |p.cells| && Removed(p, w)
    ensures Removed(Apply(p, e), w)
  {
    var q := Apply(p, e);
    if w !in p.workers {
      if e.Advance? && p.sessions[e.session].Purging? {
        KeptIsPooled(p, e.session, w);
      }
    } else {
      var h :| 0 <= h < |p.sessions| && Dropped(p, p.sessions[h], w);
      if e == Advance(h) {
        DroppedMovesOn(p, h, w);
      } else {
        assert Writing(p.sessions[h]);
        assert q.sessions[h] == p.sessions[h] && q.workers == p.workers;
        assert Dropped(q, q.sessions[h], w);
      }
    }
  }

  lemma KeptIsPooled(p: Pool, k: nat, w: nat)
    requires WellFormed(p) && k < |p.sessions| && p.sessions[k].Purging? && w !in p.workers
    ensures w !in p.sessions[k].kept
  {
    var kept, seen := p.sessions[k].kept, p.workers[..p.sessions[k].next];
    var at: seq<nat> :| Places(at, kept, seen);
    forall i | 0 <= i < |kept| ensures kept[i] in p.workers {
      assert kept[i] == seen[at[i]];
    }
  }

  lemma DroppedMovesOn(p: Pool, h: nat, w: nat)
    requires WellFormed(p) && h < |p.sessions| && Dropped(p, p.sessions[h], w)
    ensures Removed(Step(p, h), w)
  {
    var i, q := p.sessions[h].next, Step(p, h);
    if i < |p.workers| {
      var at :| 0 <= at < i && p.workers[..i][at] == w;
      assert p.workers[..i + 1][at] == w && p.workers[i] != w;
      assert Dropped(q, q.sessions[h], w);
    }
  }

  lemma StaysDead(p: Pool, e: Event, w: nat)
    requires WellFormed(p) && Enabled(p, e) && w < |p.cells|
    requires p.cells[w] == Dead && !Returning(p, w) && !Claimed(p, w)
    ensures Apply(p, e).cells[w] == Dead && !Returning(Apply(p, e), w)
  {
    if e.Advance? {
      var k := e.session;
      assert p.sessions[k] != MarkIdle(w) && !Claims(p, p.sessions[k], w);
      assert forall h :: 0 <= h < |p.sessions| && h != k ==> Apply(p, e).sessions[h] == p.sessions[h];
    }
  }

  lemma BarredStep(p: Pool, e: Event, w: nat)
    requires WellFormed(p) && Enabled(p, e) && Barred(p, w)
    ensures Barred(Apply(p, e), w) && !HandsOut(p, e, w)
  {
    BarredIsNotHandedOut(p, e, w);
    StaysUnclaimed(p, e, w);
    if Removed(p, w) {
      StaysRemoved(p, e, w);
    } else {
      StaysDead(p, e, w);
    }
    assert |Apply(p, e).cells| >= |p.cells|;
  }

  lemma {:induction false} BarredRun(p: Pool, events: seq<Event>, w: nat)
    requires WellFormed(p) && Possible(p, events) && Barred(p, w)
    ensures Barred(Exec(p, events), w)
    decreases |events|
  {
    if events != [] {
      BarredStep(p, events[0], w);
      BarredRun(Apply(p, events[0]), events[1..], w);
    }
  }

  /** A dead worker that nobody is about to mark busy or idle stays dead in every continuation, kills included. */
  lemma {:induction false} DeadForGood(p: Pool, events: seq<Event>, w: nat)
    requires WellFormed(p) && Possible(p, events) && w < |p.cells|
    requires p.cells[w] == Dead && !Claimed(p, w) && !Returning(p, w)
    ensures w < |Exec(p, events).cells| && Exec(p, events).cells[w] == Dead
    decreases |events|
  {
    if events != [] {
      BarredStep(p, events[0], w);
      StaysDead(p, events[0], w);
      DeadForGood(Apply(p, events[0]), events[1..], w);
    }
  }

  // ---- And everything else can come back ----

  lemma ComesBackEarlier(p: Pool, first: Event, w: nat)
    requires WellFormed(p) && Enabled(p, first) && ComesBack(Apply(p, first), w)
    ensures ComesBack(p, w)
  {
    var q := Apply(p, first);
    var events, e :| Possible(q, events) && Enabled(Exec(q, events), e) && HandsOut(Exec(q, events), e, w);
    var all := [first] + events;
    assert all[1..] == events;
    assert Possible(p, all) && Exec(p, all) == Exec(q, events);
  }

  lemma ClaimComesBack(p: Pool, w: nat)
    requires WellFormed(p) && Claimed(p, w)
    ensures ComesBack(p, w)
  {
    var k :| 0 <= k < |p.sessions| && Claims(p, p.sessions[k], w);
    assert Possible(p, []) && Exec(p, []) == p;
    assert Enabled(p, Advance(k)) && Holds(Apply(p, Advance(k)).sessions[k], w);
    assert HandsOut(p, Advance(k), w);
  }

  /** Positions before `x` whose worker is idle. */
  ghost function IdleBefore(p: Pool, x: nat): set<nat>
    requires WellFormed(p) && x <= |p.workers|
  {
    set i: nat | i < x && p.cells[p.workers[i]] == Idle
  }

  lemma ProperSubsetSmaller(a: set<nat>, b: set<nat>)
    requires a < b
    ensures |a| < |b|
  {
    SubsetSize(a, b);
    var x :| x in b && x !in a;
    SubsetSize(a + {x}, b);
  }

  lemma ClaimLeavesFewerIdle(p: Pool, k: nat, x: nat)
    requires WellFormed(p) && k < |p.sessions| && p.sessions[k].ReadClaim? && p.sessions[k].found < x <= |p.workers|
    requires p.cells[p.workers[p.sessions[k].found]] == Idle
    ensures |IdleBefore(Apply(p, Advance(k)), x)| < |IdleBefore(p, x)|
  {
    var i := p.sessions[k].found;
    assert i in IdleBefore(p, x) && i !in IdleBefore(Apply(p, Advance(k)), x);
    ProperSubsetSmaller(IdleBefore(Apply(p, Advance(k)), x), IdleBefore(p, x));
  }

  /** A new caller starts its scan. */
  lemma {:induction false} NewCallerFinds(p: Pool, x: nat)
    requires WellFormed(p) && NoWriter(p) && x < |p.workers| && p.cells[p.workers[x]] == Idle
    ensures ComesBack(p, p.workers[x])
    decreases |IdleBefore(p, x)|, 1, 0
  {
    var n, joined := |p.sessions|, Apply(p, Open);
    var scanning := Apply(joined, Advance(n));
    assert IdleBefore(scanning, x) == IdleBefore(p, x);
    ScanFinds(scanning, n, x);
    ComesBackEarlier(joined, Advance(n), p.workers[x]);
    ComesBackEarlier(p, Open, p.workers[x]);
  }

  /** A scan that meets another idle worker first takes that one out of the next caller's way. */
  lemma {:induction false} ScanFinds(p: Pool, k: nat, x: nat)
    requires WellFormed(p) && NoWriter(p) && k < |p.sessions| && p.sessions[k].ReadScan?
    requires p.sessions[k].next <= x < |p.workers| && p.cells[p.workers[x]] == Idle
    ensures ComesBack(p, p.workers[x])
    decreases |IdleBefore(p, x)|, 0, x - p.sessions[k].next
  {
    var i, next := p.sessions[k].next, Apply(p, Advance(k));
    if p.cells[p.workers[i]] != Idle {
      assert IdleBefore(next, x) == IdleBefore(p, x);
      ScanFinds(next, k, x);
    } else if i == x {
      assert Claims(next, next.sessions[k], p.workers[x]);
      ClaimComesBack(next, p.workers[x]);
    } else {
      assert IdleBefore(next, x) == IdleBefore(p, x);
      ClaimLeavesFewerIdle(next, k, x);
      NewCallerFinds(Apply(next, Advance(k)), x);
      ComesBackEarlier(next, Advance(k), p.workers[x]);
    }
    ComesBackEarlier(p, Advance(k), p.workers[x]);
  }

  /** Steps a session still needs under the write lock. */
  ghost function LockWork(p: Pool, c: Session): int {
    match c
    case WriteScan(i) => p.max - i + 2
    case WriteClaim(_) => 1
    case Purging(i, _) => p.max - i + 1
    case _ => 0
  }

  /** `w` is idle, pooled and not dropped by the purge in progress. */
  ghost predicate Available(p: Pool, w: nat) {
    w < |p.cells| && p.cells[w] == Idle && !Removed(p, w)
  }

  lemma PurgeKeepsAvailable(p: Pool, k: nat, w: nat)
    requires WellFormed(p) && Available(p, w) && k < |p.sessions| && p.sessions[k].Purging?
    ensures Available(Apply(p, Advance(k)), w)
  {
    var i, q := p.sessions[k].next, Apply(p, Advance(k));
    assert !Dropped(p, p.sessions[k], w);
    assert forall h :: 0 <= h < |p.sessions| && h != k ==> q.sessions[h] == p.sessions[h] && !q.sessions[h].Purging?;
    if i == |p.workers| {
      assert p.workers[..i] == p.workers;
    } else {
      assert p.workers[..i + 1] == p.workers[..i] + [p.workers[i]];
      assert !Dropped(q, q.sessions[k], w);
    }
  }

  lemma WriterKeepsAvailable(p: Pool, k: nat, w: nat)
    requires WellFormed(p) && Available(p, w) && k < |p.sessions| && Writing(p.sessions[k]) && !Claimed(p, w)
    ensures Available(Apply(p, Advance(k)), w)
  {
    if p.sessions[k].Purging? {
      PurgeKeepsAvailable(p, k, w);
    } else {
      var q := Apply(p, Advance(k));
      assert !Claims(p, p.sessions[k], w);
      assert forall h :: 0 <= h < |q.sessions| ==> !q.sessions[h].Purging?;
    }
  }

  /** Whoever has the write lock finishes, unless it claims `w` itself; then a new caller finds it. */
  lemma {:induction false} AvailableComesBack(p: Pool, w: nat, work: nat)
    requires WellFormed(p) && Available(p, w)
    requires forall k :: 0 <= k < |p.sessions| && Writing(p.sessions[k]) ==> LockWork(p, p.sessions[k]) <= work
    ensures ComesBack(p, w)
    decreases work
  {
    if Claimed(p, w) {
      ClaimComesBack(p, w);
    } else if NoWriter(p) {
      var x :| 0 <= x < |p.workers| && p.workers[x] == w;
      NewCallerFinds(p, x);
    } else {
      var k :| 0 <= k < |p.sessions| && Writing(p.sessions[k]);
      WriterKeepsAvailable(p, k, w);
      WriterMovesOn(p, k, work);
      AvailableComesBack(Apply(p, Advance(k)), w, work - 1);
      ComesBackEarlier(p, Advance(k), w);
    }
  }

  lemma WriterMovesOn(p: Pool, k: nat, work: nat)
    requires WellFormed(p) && k < |p.sessions| && Writing(p.sessions[k]) && LockWork(p, p.sessions[k]) <= work
    ensures Enabled(p, Advance(k)) && work > 0
    ensures var q := Apply(p, Advance(k));
            forall h :: 0 <= h < |q.sessions| && Writing(q.sessions[h]) ==> LockWork(q, q.sessions[h]) <= work - 1
  {
    var q := Apply(p, Advance(k));
    assert forall h :: 0 <= h < |p.sessions| && h != k ==> q.sessions[h] == p.sessions[h] && !Writing(q.sessions[h]);
  }

  lemma ReturnComesBack(p: Pool, w: nat)
    requires WellFormed(p) && w < |p.cells| && Returning(p, w) && !Removed(p, w)
    ensures ComesBack(p, w)
  {
    var k :| 0 <= k < |p.sessions| && p.sessions[k] == MarkIdle(w);
    var q := Apply(p, Advance(k));
    assert forall h :: 0 <= h < |q.sessions| && Dropped(q, q.sessions[h], w) ==> Dropped(p, p.sessions[h], w);
    AvailableComesBack(q, w, q.max + 2);
    ComesBackEarlier(p, Advance(k), w);
  }

  /** From every state of the pool in which worker `w` is dead: some continuation, kills included, hands it out
      again if and only if a caller that looked before the kill is about to mark it busy, or is about to mark it
      idle while it is still in the vector and not dropped by a purge in progress. */
  lemma KilledComesBackExactly(p: Pool, w: nat)
    requires WellFormed(p) && w < |p.cells| && p.cells[w] == Dead
    ensures ComesBack(p, w) <==> Claimed(p, w) || (Returning(p, w) && !Removed(p, w))
  {
    if Claimed(p, w) {
      ClaimComesBack(p, w);
    } else if Returning(p, w) && !Removed(p, w) {
      ReturnComesBack(p, w);
    } else {
      forall events, e | Possible(p, events) && Enabled(Exec(p, events), e) ensures !HandsOut(Exec(p, events), e, w) {
        BarredRun(p, events, w);
        BarredStep(Exec(p, events), e, w);
      }
    }
  }
}
