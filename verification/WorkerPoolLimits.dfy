/** Runs that show where the pool's promises stop, and that its bound on callers is exact. */
module WorkerPoolLimits {
  import opened Prelude
  import opened WorkerPoolModel
  import opened WorkerPoolSafety
  import C = WorkerPoolCalls

  // ---- Runs in which the promise fails ----

  /** Some run leads to `q`; without kills unless `kills`. */
  ghost predicate Reaches(max: nat, kills: bool, q: Pool) {
    && WellFormed(q)
    && exists events: seq<Event> :: && Possible(Init(max), events) && Exec(Init(max), events) == q
                                    && forall e | e in events :: e.Kill? ==> kills
  }

  /** `reached` holds the initial pool and everything actions other than kills lead to. */
  ghost predicate Closed(max: nat, reached: iset<Pool>) {
    && Init(max) in reached
    && (forall q | q in reached :: WellFormed(q))
    && (forall q, e | q in reached && Enabled(q, e) && !e.Kill? :: Apply(q, e) in reached)
  }

  ghost function Reachable(max: nat, kills: bool): iset<Pool> {
    iset q | Reaches(max, kills, q)
  }

  lemma ReachableStep(max: nat, kills: bool, q: Pool, e: Event)
    requires Reaches(max, kills, q) && Enabled(q, e) && (e.Kill? ==> kills)
    ensures Reaches(max, kills, Apply(q, e))
  {
    var events: seq<Event> :| && Possible(Init(max), events) && Exec(Init(max), events) == q
                              && forall x | x in events :: x.Kill? ==> kills;
    RunAppend(Init(max), events, e);
    assert Possible(Init(max), events + [e]) && forall x | x in events + [e] :: x.Kill? ==> kills;
  }

  lemma ReachableClosed(max: nat, kills: bool)
    ensures Closed(max, Reachable(max, kills))
  {
    assert Possible(Init(max), []) && Exec(Init(max), []) == Init(max);
    forall q, e | q in Reachable(max, kills) && Enabled(q, e) && !e.Kill? ensures Apply(q, e) in Reachable(max, kills) {
      ReachableStep(max, kills, q, e);
    }
  }

  lemma Reach(max: nat, reached: iset<Pool>, q: Pool, e: Event, next: Pool)
    requires Closed(max, reached) && q in reached && Enabled(q, e) && !e.Kill? && Apply(q, e) == next
    ensures next in reached
  {
  }

  lemma FirstArrival(max: nat, reached: iset<Pool>)
    requires max >= 1 && Closed(max, reached)
    ensures Pool(max, [], [], [AwaitWrite]) in reached
  {
    var p0 := Init(max);
    var p1 := Pool(max, [], [], [Arriving]);
    var p2 := Pool(max, [], [], [ReadScan(0)]);
    var p3 := Pool(max, [], [], [AwaitWrite]);
    calc ==> {
      p0 in reached;
      { Reach(max, reached, p0, Open, p1); }
      p1 in reached;
      { Reach(max, reached, p1, Advance(0), p2); }
      p2 in reached;
      { Reach(max, reached, p2, Advance(0), p3); }
      p3 in reached;
    }
  }

  lemma FirstSpawn(max: nat, reached: iset<Pool>)
    requires max >= 1 && Closed(max, reached) && Pool(max, [], [], [AwaitWrite]) in reached
    ensures Pool(max, [Busy], [0], [MarkIdle(0)]) in reached
  {
    var p0 := Pool(max, [], [], [AwaitWrite]);
    var p1 := Pool(max, [], [], [WriteScan(0)]);
    var p2 := Pool(max, [Busy], [0], [Holding(0)]);
    var p3 := Pool(max, [Busy], [0], [MarkIdle(0)]);
    calc ==> {
      p0 in reached;
      { Reach(max, reached, p0, Advance(0), p1); }
      p1 in reached;
      { Reach(max, reached, p1, Advance(0), p2); }
      p2 in reached;
      { Reach(max, reached, p2, Advance(0), p3); }
      p3 in reached;
    }
  }

  lemma FirstWorker(max: nat, reached: iset<Pool>)
    requires max >= 1 && Closed(max, reached)
    ensures Pool(max, [Busy], [0], [MarkIdle(0)]) in reached
  {
    FirstArrival(max, reached);
    FirstSpawn(max, reached);
  }

  lemma TwoArrive(max: nat, reached: iset<Pool>)
    requires max >= 1 && Closed(max, reached) && Pool(max, [Busy], [0], [MarkIdle(0)]) in reached
    ensures Pool(max, [Idle], [0], [Gone, Arriving, Arriving]) in reached
  {
    var p0 := Pool(max, [Busy], [0], [MarkIdle(0)]);
    var p1 := Pool(max, [Idle], [0], [Gone]);
    var p2 := Pool(max, [Idle], [0], [Gone, Arriving]);
    var p3 := Pool(max, [Idle], [0], [Gone, Arriving, Arriving]);
    calc ==> {
      p0 in reached;
      { Reach(max, reached, p0, Advance(0), p1); }
      p1 in reached;
      { Reach(max, reached, p1, Open, p2); }
      p2 in reached;
      { Reach(max, reached, p2, Open, p3); }
      p3 in reached;
    }
  }

  lemma OneLooks(max: nat, reached: iset<Pool>)
    requires max >= 1 && Closed(max, reached) && Pool(max, [Idle], [0], [Gone, Arriving, Arriving]) in reached
    ensures Pool(max, [Idle], [0], [Gone, ReadClaim(0), Arriving]) in reached
  {
    var p0 := Pool(max, [Idle], [0], [Gone, Arriving, Arriving]);
    var p1 := Pool(max, [Idle], [0], [Gone, ReadScan(0), Arriving]);
    var p2 := Pool(max, [Idle], [0], [Gone, ReadClaim(0), Arriving]);
    calc ==> {
      p0 in reached;
      { Reach(max, reached, p0, Advance(1), p1); }
      p1 in reached;
      { Reach(max, reached, p1, Advance(1), p2); }
      p2 in reached;
    }
  }

  lemma OtherLooks(max: nat, reached: iset<Pool>)
    requires max >= 1 && Closed(max, reached) && Pool(max, [Idle], [0], [Gone, ReadClaim(0), Arriving]) in reached
    ensures Pool(max, [Idle], [0], [Gone, ReadClaim(0), ReadClaim(0)]) in reached
  {
    var p0 := Pool(max, [Idle], [0], [Gone, ReadClaim(0), Arriving]);
    var p1 := Pool(max, [Idle], [0], [Gone, ReadClaim(0), ReadScan(0)]);
    var p2 := Pool(max, [Idle], [0], [Gone, ReadClaim(0), ReadClaim(0)]);
    calc ==> {
      p0 in reached;
      { Reach(max, reached, p0, Advance(2), p1); }
      p1 in reached;
      { Reach(max, reached, p1, Advance(2), p2); }
      p2 in reached;
    }
  }

  lemma BothClaim(max: nat, reached: iset<Pool>)
    requires max >= 1 && Closed(max, reached) && Pool(max, [Idle], [0], [Gone, ReadClaim(0), ReadClaim(0)]) in reached
    ensures Pool(max, [Busy], [0], [Gone, Holding(0), Holding(0)]) in reached
  {
    var p0 := Pool(max, [Idle], [0], [Gone, ReadClaim(0), ReadClaim(0)]);
    var p1 := Pool(max, [Busy], [0], [Gone, Holding(0), ReadClaim(0)]);
    var p2 := Pool(max, [Busy], [0], [Gone, Holding(0), Holding(0)]);
    calc ==> {
      p0 in reached;
      { Reach(max, reached, p0, Advance(1), p1); }
      p1 in reached;
      { Reach(max, reached, p1, Advance(2), p2); }
      p2 in reached;
    }
  }

  /** For every non-zero capacity some run gives one worker to two callers at once. */
  lemma WorkerCanBeShared(max: nat)
    requires max >= 1
    ensures exists p :: Reaches(max, false, p) && !Exclusive(p)
  {
    var reached := Reachable(max, false);
    ReachableClosed(max, false);
    FirstWorker(max, reached);
    TwoArrive(max, reached);
    OneLooks(max, reached);
    OtherLooks(max, reached);
    BothClaim(max, reached);
    var p := Pool(max, [Busy], [0], [Gone, Holding(0), Holding(0)]);
    assert Holds(p.sessions[1], 0) && Holds(p.sessions[2], 0);
  }

  lemma KillStarts(max: nat)
    requires Pool(max, [Busy], [0], [MarkIdle(0)]) in Reachable(max, true)
    ensures Pool(max, [Busy], [0], [MarkIdle(0), Killing(0)]) in Reachable(max, true)
  {
    ReachableStep(max, true, Pool(max, [Busy], [0], [MarkIdle(0)]), Kill(0));
  }

  lemma KillLands(max: nat, reached: iset<Pool>)
    requires max >= 1 && Closed(max, reached) && Pool(max, [Busy], [0], [MarkIdle(0), Killing(0)]) in reached
    ensures Pool(max, [Dead], [0], [MarkIdle(0), AwaitPurge]) in reached
  {
    var p0 := Pool(max, [Busy], [0], [MarkIdle(0), Killing(0)]);
    var p1 := Pool(max, [Dead], [0], [MarkIdle(0), AwaitPurge]);
    Reach(max, reached, p0, Advance(1), p1);
  }

  lemma ReturnStores(max: nat, reached: iset<Pool>)
    requires max >= 1 && Closed(max, reached) && Pool(max, [Dead], [0], [MarkIdle(0), AwaitPurge]) in reached
    ensures Pool(max, [Idle], [0], [Gone, AwaitPurge]) in reached
  {
    var p0 := Pool(max, [Dead], [0], [MarkIdle(0), AwaitPurge]);
    var p1 := Pool(max, [Idle], [0], [Gone, AwaitPurge]);
    Reach(max, reached, p0, Advance(0), p1);
  }

  lemma PurgeSparesIt(max: nat, reached: iset<Pool>)
    requires max >= 1 && Closed(max, reached) && Pool(max, [Idle], [0], [Gone, AwaitPurge]) in reached
    ensures Pool(max, [Idle], [0], [Gone, Gone]) in reached
  {
    var start := Pool(max, [Idle], [0], [Gone, AwaitPurge]);
    var scan := Apply(start, Advance(1));
    Reach(max, reached, start, Advance(1), scan);
    PurgeSpares(max, reached, scan);
  }

  lemma PurgeSpares(max: nat, reached: iset<Pool>, scan: Pool)
    requires Closed(max, reached) && scan in reached && scan.max == max && scan.cells == [Idle] && scan.workers == [0]
    requires |scan.sessions| == 2 && scan.sessions[0] == Gone && scan.sessions[1] == Purging(0, [])
    ensures Pool(max, [Idle], [0], [Gone, Gone]) in reached
  {
    var seen := Apply(scan, Advance(1));
    Reach(max, reached, scan, Advance(1), seen);
    assert seen.sessions[1] == Purging(1, [0]);
    Reach(max, reached, seen, Advance(1), Pool(max, [Idle], [0], [Gone, Gone]));
  }

  lemma ThirdArrives(max: nat, reached: iset<Pool>)
    requires max >= 1 && Closed(max, reached) && Pool(max, [Idle], [0], [Gone, Gone]) in reached
    ensures Pool(max, [Idle], [0], [Gone, Gone, ReadScan(0)]) in reached
  {
    var p0 := Pool(max, [Idle], [0], [Gone, Gone]);
    var p1 := Pool(max, [Idle], [0], [Gone, Gone, Arriving]);
    var p2 := Pool(max, [Idle], [0], [Gone, Gone, ReadScan(0)]);
    calc ==> {
      p0 in reached;
      { Reach(max, reached, p0, Open, p1); }
      p1 in reached;
      { Reach(max, reached, p1, Advance(2), p2); }
      p2 in reached;
    }
  }

  lemma HandedOutAgain(max: nat, reached: iset<Pool>)
    requires max >= 1 && Closed(max, reached) && Pool(max, [Idle], [0], [Gone, Gone, ReadScan(0)]) in reached
    ensures Pool(max, [Busy], [0], [Gone, Gone, Holding(0)]) in reached
  {
    var p0 := Pool(max, [Idle], [0], [Gone, Gone, ReadScan(0)]);
    var p1 := Pool(max, [Idle], [0], [Gone, Gone, ReadClaim(0)]);
    var p2 := Pool(max, [Busy], [0], [Gone, Gone, Holding(0)]);
    calc ==> {
      p0 in reached;
      { Reach(max, reached, p0, Advance(2), p1); }
      p1 in reached;
      { Reach(max, reached, p1, Advance(2), p2); }
      p2 in reached;
    }
  }

  /** Some run hands out worker 0 again after the kill of worker 0 has run to completion: the kill falls between
      a returning caller's check that the worker is alive and its store of Idle. */
  lemma KilledWorkerCanComeBack(max: nat)
    requires max >= 1
    ensures Reaches(max, true, Pool(max, [Busy], [0], [Gone, Gone, Holding(0)]))
  {
    var reached := Reachable(max, true);
    ReachableClosed(max, true);
    FirstWorker(max, reached);
    KillStarts(max);
    KillLands(max, reached);
    ReturnStores(max, reached);
    PurgeSparesIt(max, reached);
    ThirdArrives(max, reached);
    HandedOutAgain(max, reached);
  }

  lemma OneLooksAlone(max: nat, reached: iset<Pool>)
    requires max >= 1 && Closed(max, reached) && Pool(max, [Busy], [0], [MarkIdle(0)]) in reached
    ensures Pool(max, [Idle], [0], [Gone, ReadScan(0)]) in reached
  {
    var p0 := Pool(max, [Busy], [0], [MarkIdle(0)]);
    var p1 := Pool(max, [Idle], [0], [Gone]);
    var p2 := Pool(max, [Idle], [0], [Gone, Arriving]);
    var p3 := Pool(max, [Idle], [0], [Gone, ReadScan(0)]);
    calc ==> {
      p0 in reached;
      { Reach(max, reached, p0, Advance(0), p1); }
      p1 in reached;
      { Reach(max, reached, p1, Open, p2); }
      p2 in reached;
      { Reach(max, reached, p2, Advance(1), p3); }
      p3 in reached;
    }
  }

  lemma OneIsAboutToClaim(max: nat, reached: iset<Pool>)
    requires max >= 1 && Closed(max, reached) && Pool(max, [Idle], [0], [Gone, ReadScan(0)]) in reached
    ensures Pool(max, [Idle], [0], [Gone, ReadClaim(0)]) in reached
  {
    Reach(max, reached, Pool(max, [Idle], [0], [Gone, ReadScan(0)]), Advance(1), Pool(max, [Idle], [0], [Gone, ReadClaim(0)]));
  }

  lemma KillMeetsReader(max: nat)
    requires Pool(max, [Idle], [0], [Gone, ReadClaim(0)]) in Reachable(max, true)
    ensures Pool(max, [Idle], [0], [Gone, ReadClaim(0), Killing(0)]) in Reachable(max, true)
  {
    ReachableStep(max, true, Pool(max, [Idle], [0], [Gone, ReadClaim(0)]), Kill(0));
  }

  lemma DeadIsClaimed(max: nat, reached: iset<Pool>)
    requires max >= 1 && Closed(max, reached) && Pool(max, [Idle], [0], [Gone, ReadClaim(0), Killing(0)]) in reached
    ensures Pool(max, [Busy], [0], [Gone, Holding(0), AwaitPurge]) in reached
  {
    var p0 := Pool(max, [Idle], [0], [Gone, ReadClaim(0), Killing(0)]);
    var p1 := Pool(max, [Dead], [0], [Gone, ReadClaim(0), AwaitPurge]);
    var p2 := Pool(max, [Busy], [0], [Gone, Holding(0), AwaitPurge]);
    calc ==> {
      p0 in reached;
      { Reach(max, reached, p0, Advance(2), p1); }
      p1 in reached;
      { Reach(max, reached, p1, Advance(1), p2); }
      p2 in reached;
    }
  }

  /** The other way back: some run kills an idle worker while a caller that saw it idle has the read lock, and that
      caller then gets it. */
  lemma KilledWorkerCanBeClaimed(max: nat)
    requires max >= 1
    ensures Reaches(max, true, Pool(max, [Busy], [0], [Gone, Holding(0), AwaitPurge]))
  {
    var reached := Reachable(max, true);
    ReachableClosed(max, true);
    FirstWorker(max, reached);
    OneLooksAlone(max, reached);
    OneIsAboutToClaim(max, reached);
    KillMeetsReader(max);
    DeadIsClaimed(max, reached);
  }

  // ---- One caller more than the capacity can be refused ----

  /** `m` workers, all busy and each held by its own session, and one more session. */
  ghost function FullBut(max: nat, m: nat, last: seq<Session>): Pool {
    Pool(max, seq(m, (i: nat) => Busy), seq(m, (i: nat) => i), seq(m, (i: nat) => Holding(i)) + last)
  }

  lemma {:induction false} Climb(at: iset<nat>, m: nat)
    requires 0 in at && forall i: nat :: i < m && i in at ==> i + 1 in at
    ensures m in at
  {
    if m > 0 {
      Climb(at, m - 1);
    }
  }

  lemma ReadPastOne(max: nat, reached: iset<Pool>, m: nat, i: nat)
    requires Closed(max, reached) && i < m && FullBut(max, m, [ReadScan(i)]) in reached
    ensures FullBut(max, m, [ReadScan(i + 1)]) in reached
  {
    var p, q := FullBut(max, m, [ReadScan(i)]), FullBut(max, m, [ReadScan(i + 1)]);
    assert p.cells[p.workers[i]] == Busy;
    assert p.sessions[m := ReadScan(i + 1)] == q.sessions;
    Reach(max, reached, p, Advance(m), q);
  }

  lemma ReadPast(max: nat, reached: iset<Pool>, m: nat)
    requires Closed(max, reached) && FullBut(max, m, [ReadScan(0)]) in reached
    ensures FullBut(max, m, [ReadScan(m)]) in reached
  {
    var at := iset i: nat | FullBut(max, m, [ReadScan(i)]) in reached;
    forall i | 0 <= i < m && i in at ensures i + 1 in at {
      ReadPastOne(max, reached, m, i);
    }
    Climb(at, m);
  }

  lemma WritePastOne(max: nat, reached: iset<Pool>, m: nat, i: nat)
    requires Closed(max, reached) && i < m && FullBut(max, m, [WriteScan(i)]) in reached
    ensures FullBut(max, m, [WriteScan(i + 1)]) in reached
  {
    var p, q := FullBut(max, m, [WriteScan(i)]), FullBut(max, m, [WriteScan(i + 1)]);
    assert p.cells[p.workers[i]] == Busy;
    assert p.sessions[m := WriteScan(i + 1)] == q.sessions;
    Reach(max, reached, p, Advance(m), q);
  }

  lemma WritePast(max: nat, reached: iset<Pool>, m: nat)
    requires Closed(max, reached) && FullBut(max, m, [WriteScan(0)]) in reached
    ensures FullBut(max, m, [WriteScan(m)]) in reached
  {
    var at := iset i: nat | FullBut(max, m, [WriteScan(i)]) in reached;
    forall i | 0 <= i < m && i in at ensures i + 1 in at {
      WritePastOne(max, reached, m, i);
    }
    Climb(at, m);
  }

  lemma ReadsAll(max: nat, reached: iset<Pool>, m: nat)
    requires Closed(max, reached) && FullBut(max, m, []) in reached
    ensures FullBut(max, m, [ReadScan(m)]) in reached
  {
    calc ==> {
      FullBut(max, m, []) in reached;
      { Reach(max, reached, FullBut(max, m, []), Open, FullBut(max, m, [Arriving])); }
      FullBut(max, m, [Arriving]) in reached;
      { Reach(max, reached, FullBut(max, m, [Arriving]), Advance(m), FullBut(max, m, [ReadScan(0)])); }
      FullBut(max, m, [ReadScan(0)]) in reached;
      { ReadPast(max, reached, m); }
      FullBut(max, m, [ReadScan(m)]) in reached;
    }
  }

  lemma ScansAll(max: nat, reached: iset<Pool>, m: nat)
    requires Closed(max, reached) && FullBut(max, m, []) in reached
    ensures FullBut(max, m, [WriteScan(m)]) in reached
  {
    calc ==> {
      FullBut(max, m, []) in reached;
      { ReadsAll(max, reached, m); }
      FullBut(max, m, [ReadScan(m)]) in reached;
      { Reach(max, reached, FullBut(max, m, [ReadScan(m)]), Advance(m), FullBut(max, m, [AwaitWrite])); }
      FullBut(max, m, [AwaitWrite]) in reached;
      { Reach(max, reached, FullBut(max, m, [AwaitWrite]), Advance(m), FullBut(max, m, [WriteScan(0)])); }
      FullBut(max, m, [WriteScan(0)]) in reached;
      { WritePast(max, reached, m); }
      FullBut(max, m, [WriteScan(m)]) in reached;
    }
  }

  lemma SpawnsOne(max: nat, reached: iset<Pool>, m: nat)
    requires Closed(max, reached) && m < max && FullBut(max, m, [WriteScan(m)]) in reached
    ensures FullBut(max, m + 1, []) in reached
  {
    var p, q := FullBut(max, m, [WriteScan(m)]), FullBut(max, m + 1, []);
    assert p.cells + [Busy] == q.cells && p.workers + [m] == q.workers && p.sessions[m := Holding(m)] == q.sessions;
    Reach(max, reached, p, Advance(m), q);
  }

  lemma {:induction false} FillsUp(max: nat, reached: iset<Pool>, m: nat)
    requires Closed(max, reached) && m <= max
    ensures FullBut(max, m, []) in reached
  {
    if m == 0 {
      assert FullBut(max, 0, []) == Init(max);
    } else {
      FillsUp(max, reached, m - 1);
      calc ==> {
        FullBut(max, m - 1, []) in reached;
        { ScansAll(max, reached, m - 1); }
        FullBut(max, m - 1, [WriteScan(m - 1)]) in reached;
        { SpawnsOne(max, reached, m - 1); }
        FullBut(max, m, []) in reached;
      }
    }
  }

  lemma {:induction false} LiveAreSessions(p: Pool)
    ensures |Live(p)| <= |p.sessions|
    decreases |p.sessions|
  {
    var n := |p.sessions|;
    if n == 0 {
      assert Live(p) == {};
    } else {
      var front := p.(sessions := p.sessions[..n - 1]);
      LiveAreSessions(front);
      assert Live(p) <= Live(front) + {n - 1};
      SubsetSize(Live(p), Live(front) + {n - 1});
    }
  }

  lemma SessionsGrow(p: Pool, e: Event)
    requires WellFormed(p) && Enabled(p, e)
    ensures |p.sessions| <= |Apply(p, e).sessions|
  {
  }

  lemma {:induction false} FewSessionsFewLive(p: Pool, events: seq<Event>, n: nat)
    requires WellFormed(p) && Possible(p, events) && |Exec(p, events).sessions| <= n
    requires forall e | e in events :: !e.Kill?
    ensures Crowded(p, events, n) && |p.sessions| <= n
    decreases |events|
  {
    if events != [] {
      assert events[0] in events;
      assert forall e | e in events[1..] :: e in events;
      SessionsGrow(p, events[0]);
      FewSessionsFewLive(Apply(p, events[0]), events[1..], n);
    }
    LiveAreSessions(p);
  }

  lemma RunTo(max: nat, q: Pool) returns (events: seq<Event>)
    requires Reaches(max, false, q)
    ensures Possible(Init(max), events) && Exec(Init(max), events) == q && forall e | e in events :: !e.Kill?
  {
    events :| && Possible(Init(max), events) && Exec(Init(max), events) == q
              && forall e | e in events :: e.Kill? ==> false;
  }

  /** For every capacity some run without kills, with never more than one live session above the capacity, refuses
      the last caller: the bound under which nobody is refused cannot be raised. */
  lemma OneCallerTooMany(max: nat) returns (events: seq<Event>)
    ensures Possible(Init(max), events) && Crowded(Init(max), events, max + 1)
    ensures var p := Exec(Init(max), events); |p.sessions| == max + 1 && p.sessions[max].Refused?
  {
    var reached, end := Reachable(max, false), FullBut(max, max, [Refused]);
    ReachableClosed(max, false);
    FillsUp(max, reached, max);
    ScansAll(max, reached, max);
    Reach(max, reached, FullBut(max, max, [WriteScan(max)]), Advance(max), end);
    events := RunTo(max, end);
    FewSessionsFewLive(Init(max), events, max + 1);
  }

  // ---- A killed worker's slot goes to a new caller ----

  lemma {:induction false} StepsReach(max: nat, q: Pool, k: nat, n: nat)
    requires Reaches(max, true, q) && Possible(q, C.Steps(k, n))
    ensures Reaches(max, true, Exec(q, C.Steps(k, n)))
    decreases n
  {
    if n > 0 {
      ReachableStep(max, true, q, Advance(k));
      assert C.Steps(k, n)[1..] == C.Steps(k, n - 1);
      StepsReach(max, Apply(q, Advance(k)), k, n - 1);
    }
  }

  lemma LeadsReach(max: nat, q: Pool, k: nat, end: Pool)
    requires Reaches(max, true, q) && C.Leads(q, k, end)
    ensures Reaches(max, true, end)
  {
    var n: nat :| Possible(q, C.Steps(k, n)) && Exec(q, C.Steps(k, n)) == end;
    StepsReach(max, q, k, n);
  }

  lemma FullIsReached(max: nat)
    ensures Reaches(max, true, FullBut(max, max, []))
  {
    ReachableClosed(max, true);
    FillsUp(max, Reachable(max, true), max);
  }

  lemma KilledIsReached(max: nat)
    requires max >= 1
    ensures var full := FullBut(max, max, []);
            WellFormed(full) && Reaches(max, true, C.Killed(full, 0))
  {
    var full := FullBut(max, max, []);
    FullIsReached(max);
    assert full.workers[0] == 0;
    ReachableStep(max, true, full, Kill(0));
    C.KillLeadsToKilled(full, 0);
    LeadsReach(max, Apply(full, Kill(0)), |full.sessions|, C.Killed(full, 0));
  }

  lemma GotIsReached(max: nat, p: Pool)
    requires Reaches(max, true, p) && Unlocked(p)
    ensures Reaches(max, true, C.Got(Apply(p, Open), |p.sessions|))
  {
    ReachableStep(max, true, p, Open);
    C.GetAlone(p);
    LeadsReach(max, Apply(p, Open), |p.sessions|, C.Got(Apply(p, Open), |p.sessions|));
  }

  lemma FullIsFull(max: nat)
    requires max >= 1
    ensures var full := FullBut(max, max, []);
            && WellFormed(full) && Unlocked(full) && full.max == max && C.NoIdle(full, max)
            && |full.workers| == max && |full.sessions| == max && |full.cells| == max && 0 in full.workers
  {
    assert FullBut(max, max, []).workers[0] == 0;
  }

  lemma FullLosesZero(max: nat)
    requires max >= 1
    ensures var full := FullBut(max, max, []);
            && WellFormed(full) && WellFormed(C.Killed(full, 0)) && Unlocked(C.Killed(full, 0))
            && var q := C.Got(Apply(C.Killed(full, 0), Open), max + 1);
            |q.sessions| == max + 2 && q.sessions[max + 1] == Holding(max) && max in q.workers && 0 !in q.workers
  {
    var full := FullBut(max, max, []);
    FullIsFull(max);
    C.KillLeadsToKilled(full, 0);
    C.KillFreesSlot(full, 0);
  }

  /** For every non-zero capacity some run fills the pool, kills worker 0 and gives its slot to a new caller, who holds
      a new worker while worker 0 is dead and out of the vector. */
  lemma KilledSlotIsReused(max: nat) returns (q: Pool)
    requires max >= 1
    ensures Reaches(max, true, q)
    ensures |q.sessions| == max + 2 && q.sessions[max + 1] == Holding(max) && max in q.workers && 0 !in q.workers
  {
    var killed := C.Killed(FullBut(max, max, []), 0);
    KilledIsReached(max);
    FullLosesZero(max);
    GotIsReached(max, killed);
    q := C.Got(Apply(killed, Open), |killed.sessions|);
  }
}
