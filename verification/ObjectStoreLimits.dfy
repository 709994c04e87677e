/** Runs that show the store's bounds and assumptions are the right ones. */
module ObjectStoreLimits {
  import opened Prelude
  import opened Tasks
  import opened ObjectStoreModel
  import opened ObjectStoreSafety

  // ---- The k-fold budget is attained ----

  ghost predicate Distinct(ids: seq<ObjectId>) {
    forall i, j :: 0 <= i < j < |ids| ==> ids[i] != ids[j]
  }

  /** A block that fills the budget on its own. */
  ghost function Block(budget: nat): Bytes {
    seq(budget, i => 0 as byte)
  }

  ghost function StageCall(budget: nat, id: ObjectId, i: nat, checked: nat, inserted: nat): Call {
    if i < inserted then Done(true)
    else if i < checked then PutInsert(id, Block(budget))
    else PutCheck(id, Block(budget))
  }

  /** The first `checked` of the begun puts have passed their check, the first `inserted` are stored. */
  ghost predicate Stage(s: Store, budget: nat, ids: seq<ObjectId>, begun: nat, checked: nat, inserted: nat) {
    && inserted <= checked <= begun <= |ids|
    && s.budget == budget
    && |s.calls| == begun == |s.begun|
    && (forall i :: 0 <= i < begun ==> s.calls[i] == StageCall(budget, ids[i], i, checked, inserted))
    && (forall i :: 0 <= i < begun ==> s.begun[i] == (ids[i], Block(budget)))
    && (forall id | id in s.objects :: id in ids[..inserted])
    && Total(s.objects) == inserted * budget
  }

  lemma BeginOne(s: Store, budget: nat, ids: seq<ObjectId>, n: nat)
    requires Stage(s, budget, ids, n, 0, 0) && n < |ids|
    ensures Stage(Apply(s, BeginPut(ids[n], Block(budget))), budget, ids, n + 1, 0, 0)
  {
  }

  lemma CheckOne(s: Store, budget: nat, ids: seq<ObjectId>, n: nat)
    requires Stage(s, budget, ids, |ids|, n, 0) && n < |ids|
    ensures Enabled(s, Advance(n)) && Stage(Apply(s, Advance(n)), budget, ids, |ids|, n + 1, 0)
  {
  }

  lemma InsertOne(s: Store, budget: nat, ids: seq<ObjectId>, n: nat)
    requires Stage(s, budget, ids, |ids|, |ids|, n) && n < |ids| && Distinct(ids)
    ensures Enabled(s, Advance(n)) && Stage(Apply(s, Advance(n)), budget, ids, |ids|, |ids|, n + 1)
  {
    assert s.calls[n] == PutInsert(ids[n], Block(budget));
    assert ids[n] !in ids[..n];
    TotalAfterInsert(s.objects, ids[n], Inserted(Block(budget)));
    assert (n + 1) * budget == n * budget + budget;
    assert ids[..n + 1] == ids[..n] + [ids[n]];
  }

  /** The run so far is possible and reaches the given stage. */
  ghost predicate At(budget: nat, ids: seq<ObjectId>, events: seq<Event>, begun: nat, checked: nat, inserted: nat) {
    Possible(Init(budget), events) && Stage(Exec(Init(budget), events), budget, ids, begun, checked, inserted)
  }

  lemma {:induction false} BeginAll(budget: nat, ids: seq<ObjectId>, n: nat) returns (events: seq<Event>)
    requires n <= |ids|
    ensures At(budget, ids, events, n, 0, 0)
  {
    if n == 0 {
      events := [];
    } else {
      events := BeginAll(budget, ids, n - 1);
      var e := BeginPut(ids[n - 1], Block(budget));
      BeginOne(Exec(Init(budget), events), budget, ids, n - 1);
      RunAppend(Init(budget), events, e);
      events := events + [e];
    }
  }

  lemma {:induction false} CheckAll(budget: nat, ids: seq<ObjectId>, n: nat) returns (events: seq<Event>)
    requires n <= |ids|
    ensures At(budget, ids, events, |ids|, n, 0)
  {
    if n == 0 {
      events := BeginAll(budget, ids, |ids|);
    } else {
      events := CheckAll(budget, ids, n - 1);
      CheckOne(Exec(Init(budget), events), budget, ids, n - 1);
      RunAppend(Init(budget), events, Advance(n - 1));
      events := events + [Advance(n - 1)];
    }
  }

  lemma {:induction false} InsertAll(budget: nat, ids: seq<ObjectId>, n: nat) returns (events: seq<Event>)
    requires n <= |ids| && Distinct(ids)
    ensures At(budget, ids, events, |ids|, |ids|, n)
  {
    if n == 0 {
      events := CheckAll(budget, ids, |ids|);
    } else {
      events := InsertAll(budget, ids, n - 1);
      InsertOne(Exec(Init(budget), events), budget, ids, n - 1);
      RunAppend(Init(budget), events, Advance(n - 1));
      events := events + [Advance(n - 1)];
    }
  }

  lemma {:induction false} PendingAtMostCalls(calls: seq<Call>)
    ensures PendingPuts(calls) <= |calls|
  {
    if |calls| > 0 {
      PendingAtMostCalls(calls[..|calls| - 1]);
    }
  }

  lemma CallsGrow(s: Store, e: Event)
    requires Enabled(s, e)
    ensures |s.calls| <= |Apply(s, e).calls|
  {
  }

  lemma {:induction false} FewCallsFewOverlaps(s: Store, events: seq<Event>, k: nat)
    requires Possible(s, events) && |Exec(s, events).calls| <= k
    ensures Overlapping(s, events, k) && |s.calls| <= k
    decreases |events|
  {
    if events != [] {
      CallsGrow(s, events[0]);
      FewCallsFewOverlaps(Apply(s, events[0]), events[1..], k);
    }
    PendingAtMostCalls(s.calls);
  }

  /** For every budget and every `k` distinct ids there is a run with at most `k` overlapping puts that stores
      exactly `k` budgets of bytes, so no smaller bound holds. */
  lemma BudgetBoundIsAttained(budget: nat, ids: seq<ObjectId>) returns (events: seq<Event>)
    requires Distinct(ids)
    ensures Possible(Init(budget), events) && Overlapping(Init(budget), events, |ids|)
    ensures WriteOnce(Exec(Init(budget), events).begun)
    ensures Total(Exec(Init(budget), events).objects) == |ids| * budget
  {
    events := InsertAll(budget, ids, |ids|);
    FewCallsFewOverlaps(Init(budget), events, |ids|);
  }

  // ---- Without write-once ids a restore can undo a later put ----

  ghost predicate Reaches(s: Store) {
    exists events :: Possible(Init(0), events) && Exec(Init(0), events) == s
  }

  lemma Reach(s: Store, e: Event, next: Store)
    requires Reaches(s) && Enabled(s, e) && Apply(s, e) == next
    ensures Reaches(next)
  {
    var events :| Possible(Init(0), events) && Exec(Init(0), events) == s;
    RunAppend(Init(0), events, e);
  }

  lemma StoreOne(id: ObjectId, data: Bytes)
    ensures Reaches(Store(0, map[id := Inserted(data)], map[], [Done(true)], [(id, data)], map[id := data], map[id := 0], map[id := 0]))
  {
    var one := [(id, data)];
    assert Possible(Init(0), []) && Exec(Init(0), []) == Init(0);
    calc ==> {
      Reaches(Init(0));
      { Reach(Init(0), BeginPut(id, data), Store(0, map[], map[], [PutCheck(id, data)], one, map[], map[], map[])); }
      Reaches(Store(0, map[], map[], [PutCheck(id, data)], one, map[], map[], map[]));
      { Reach(Store(0, map[], map[], [PutCheck(id, data)], one, map[], map[], map[]), Advance(0),
              Store(0, map[], map[], [PutInsert(id, data)], one, map[], map[], map[])); }
      Reaches(Store(0, map[], map[], [PutInsert(id, data)], one, map[], map[], map[]));
      { Reach(Store(0, map[], map[], [PutInsert(id, data)], one, map[], map[], map[]), Advance(0),
              Store(0, map[id := Inserted(data)], map[], [Done(true)], one, map[id := data], map[id := 0], map[id := 0])); }
      Reaches(Store(0, map[id := Inserted(data)], map[], [Done(true)], one, map[id := data], map[id := 0], map[id := 0]));
    }
  }

  /** A store whose only object is `id`, with one reference. */
  ghost function Live(id: ObjectId, data: Bytes, spilledTo: Option<string>, disk: map<Path, Bytes>, calls: seq<Call>,
                      begun: seq<(ObjectId, Bytes)>, last: Bytes): Store
  {
    Store(0, map[id := Entry(data, 1, spilledTo)], disk, calls, begun, map[id := last], map[id := 0], map[id := 0])
  }

  lemma SpillOne(id: ObjectId, dir: string, a: Bytes)
    requires Reaches(Live(id, a, None, map[], [Done(true)], [(id, a)], a))
    ensures Reaches(Live(id, a, Some(dir), map[(dir, id) := a], [Done(true), Done(true)], [(id, a)], a))
  {
    var s0 := Live(id, a, None, map[], [Done(true)], [(id, a)], a);
    var s1 := Live(id, a, None, map[], [Done(true), SpillRead(id, dir)], [(id, a)], a);
    var s2 := Live(id, a, None, map[], [Done(true), SpillWrite(id, dir, a)], [(id, a)], a);
    var s3 := Live(id, a, None, map[(dir, id) := a], [Done(true), SpillMark(id, dir)], [(id, a)], a);
    var s4 := Live(id, a, Some(dir), map[(dir, id) := a], [Done(true), Done(true)], [(id, a)], a);
    calc ==> {
      Reaches(s0);
      { Reach(s0, BeginSpill(id, dir), s1); }
      Reaches(s1);
      { Reach(s1, Advance(1), s2); }
      Reaches(s2);
      { Reach(s2, Advance(1), s3); }
      Reaches(s3);
      { Reach(s3, Advance(1), s4); }
      Reaches(s4);
    }
  }

  lemma LoadOne(id: ObjectId, dir: string, a: Bytes)
    requires Reaches(Live(id, a, Some(dir), map[(dir, id) := a], [Done(true), Done(true)], [(id, a)], a))
    ensures Reaches(Live(id, a, Some(dir), map[(dir, id) := a], [Done(true), Done(true), RestoreWrite(id, dir, a)], [(id, a)], a))
  {
    var s0 := Live(id, a, Some(dir), map[(dir, id) := a], [Done(true), Done(true)], [(id, a)], a);
    var s1 := Live(id, a, Some(dir), map[(dir, id) := a], [Done(true), Done(true), RestoreLook(id)], [(id, a)], a);
    var s2 := Live(id, a, Some(dir), map[(dir, id) := a], [Done(true), Done(true), RestoreRead(id, dir)], [(id, a)], a);
    var s3 := Live(id, a, Some(dir), map[(dir, id) := a], [Done(true), Done(true), RestoreWrite(id, dir, a)], [(id, a)], a);
    calc ==> {
      Reaches(s0);
      { Reach(s0, BeginRestore(id), s1); }
      Reaches(s1);
      { Reach(s1, Advance(2), s2); }
      Reaches(s2);
      { Reach(s2, Advance(2), s3); }
      Reaches(s3);
    }
  }

  lemma PutMeanwhile(id: ObjectId, dir: string, a: Bytes, b: Bytes)
    requires Reaches(Live(id, a, Some(dir), map[(dir, id) := a], [Done(true), Done(true), RestoreWrite(id, dir, a)], [(id, a)], a))
    ensures Reaches(Live(id, a, Some(dir), map[(dir, id) := a], [Done(true), Done(true), RestoreWrite(id, dir, a), PutInsert(id, b)], [(id, a), (id, b)], a))
  {
    var s0 := Live(id, a, Some(dir), map[(dir, id) := a], [Done(true), Done(true), RestoreWrite(id, dir, a)], [(id, a)], a);
    var s1 := Live(id, a, Some(dir), map[(dir, id) := a], [Done(true), Done(true), RestoreWrite(id, dir, a), PutCheck(id, b)], [(id, a), (id, b)], a);
    var s2 := Live(id, a, Some(dir), map[(dir, id) := a], [Done(true), Done(true), RestoreWrite(id, dir, a), PutInsert(id, b)], [(id, a), (id, b)], a);
    calc ==> {
      Reaches(s0);
      { Reach(s0, BeginPut(id, b), s1); }
      Reaches(s1);
      { Reach(s1, Advance(3), s2); }
      Reaches(s2);
    }
  }

  lemma RestoreLast(id: ObjectId, dir: string, a: Bytes, b: Bytes)
    requires Reaches(Live(id, a, Some(dir), map[(dir, id) := a], [Done(true), Done(true), RestoreWrite(id, dir, a), PutInsert(id, b)], [(id, a), (id, b)], a))
    ensures Reaches(Live(id, a, None, map[(dir, id) := a], [Done(true), Done(true), RestoreClean(id, dir), Done(true)], [(id, a), (id, b)], b))
  {
    var s0 := Live(id, a, Some(dir), map[(dir, id) := a], [Done(true), Done(true), RestoreWrite(id, dir, a), PutInsert(id, b)], [(id, a), (id, b)], a);
    var s1 := Live(id, b, None, map[(dir, id) := a], [Done(true), Done(true), RestoreWrite(id, dir, a), Done(true)], [(id, a), (id, b)], b);
    var s2 := Live(id, a, None, map[(dir, id) := a], [Done(true), Done(true), RestoreClean(id, dir), Done(true)], [(id, a), (id, b)], b);
    calc ==> {
      Reaches(s0);
      { Reach(s0, Advance(3), s1); }
      Reaches(s1);
      { Reach(s1, Advance(2), s2); }
      Reaches(s2);
    }
  }

  /** For any two values of one id some run completes the put of the second and afterwards holds the first
      again: a restore that read its file earlier writes it back. */
  lemma LateRestoreUndoesPut(id: ObjectId, dir: string, a: Bytes, b: Bytes)
    ensures exists s :: Reaches(s) && id in s.stored && s.stored[id] == b && id in s.objects && s.objects[id].data == a
  {
    StoreOne(id, a);
    SpillOne(id, dir, a);
    LoadOne(id, dir, a);
    PutMeanwhile(id, dir, a, b);
    RestoreLast(id, dir, a, b);
    var s := Live(id, a, None, map[(dir, id) := a], [Done(true), Done(true), RestoreClean(id, dir), Done(true)], [(id, a), (id, b)], b);
    assert Reaches(s);
  }

  // ---- Exactly when the latest put wins ----

  /** Every live entry holds the bytes its latest put inserted. */
  ghost predicate Current(s: Store) {
    forall id | id in s.objects :: id in s.stored && s.objects[id].data == s.stored[id]
  }

  /** The spill or restore `c` of `id` will not bring bytes other than `data` back. */
  ghost predicate Carries(disk: map<Path, Bytes>, c: Call, id: ObjectId, data: Bytes) {
    match c
    case SpillWrite(x, _, buffer) => x == id ==> buffer == data
    case RestoreWrite(x, _, buffer) => x == id ==> buffer == data
    case SpillMark(x, dir) => x == id && (dir, id) in disk ==> disk[(dir, id)] == data
    case RestoreRead(x, dir) => x == id && (dir, id) in disk ==> disk[(dir, id)] == data
    case _ => true
  }

  /** If the step inserts an id, every spill or restore of it in flight carries the same bytes: in its buffer,
      or in the file it has written or is about to read. */
  ghost predicate Clean(s: Store, e: Event)
    requires Enabled(s, e)
  {
    e.Advance? && s.calls[e.call].PutInsert? ==>
      forall k :: 0 <= k < |s.calls| ==> Carries(s.disk, s.calls[k], s.calls[e.call].id, s.calls[e.call].data)
  }

  ghost predicate FileSettled(disk: map<Path, Bytes>, stored: map<ObjectId, Bytes>, dir: string, id: ObjectId) {
    id in stored && ((dir, id) in disk ==> disk[(dir, id)] == stored[id])
  }

  ghost predicate CallSettled(disk: map<Path, Bytes>, stored: map<ObjectId, Bytes>, c: Call) {
    match c
    case SpillWrite(id, _, data) => id in stored && stored[id] == data
    case RestoreWrite(id, _, data) => id in stored && stored[id] == data
    case SpillMark(id, dir) => FileSettled(disk, stored, dir, id)
    case RestoreRead(id, dir) => FileSettled(disk, stored, dir, id)
    case _ => true
  }

  ghost predicate EntrySettled(disk: map<Path, Bytes>, stored: map<ObjectId, Bytes>, id: ObjectId, entry: Entry) {
    && id in stored && entry.data == stored[id]
    && (entry.spilledTo.Some? ==> FileSettled(disk, stored, entry.spilledTo.value, id))
  }

  /** Live entries, the files they refer to and the buffers in flight all hold the latest inserted bytes. */
  ghost predicate Settled(s: Store) {
    && (forall id | id in s.objects :: EntrySettled(s.disk, s.stored, id, s.objects[id]))
    && (forall k :: 0 <= k < |s.calls| ==> CallSettled(s.disk, s.stored, s.calls[k]))
  }

  lemma InsertSettles(s: Store, i: nat)
    requires Settled(s) && Enabled(s, Advance(i)) && s.calls[i].PutInsert? && Clean(s, Advance(i))
    ensures Settled(Apply(s, Advance(i)))
  {
  }

  lemma AdvanceSettles(s: Store, i: nat)
    requires Settled(s) && Enabled(s, Advance(i)) && !s.calls[i].PutInsert?
    ensures Settled(Apply(s, Advance(i)))
  {
  }

  lemma SettledStep(s: Store, e: Event)
    requires Settled(s) && Enabled(s, e) && Clean(s, e)
    ensures Settled(Apply(s, e))
  {
    var next := Apply(s, e);
    if e.Advance? {
      if s.calls[e.call].PutInsert? {
        InsertSettles(s, e.call);
      } else {
        AdvanceSettles(s, e.call);
      }
    } else {
      forall id | id in next.objects ensures EntrySettled(next.disk, next.stored, id, next.objects[id]) {
        assert EntrySettled(s.disk, s.stored, id, s.objects[id]);
      }
    }
  }

  ghost predicate CleanRun(s: Store, events: seq<Event>)
    requires Possible(s, events)
    decreases |events|
  {
    events != [] ==> Clean(s, events[0]) && CleanRun(Apply(s, events[0]), events[1..])
  }

  lemma {:induction false} SettledRun(s: Store, events: seq<Event>)
    requires Settled(s) && Possible(s, events) && CleanRun(s, events)
    ensures Settled(Exec(s, events))
    decreases |events|
  {
    if events != [] {
      SettledStep(s, events[0]);
      SettledRun(Apply(s, events[0]), events[1..]);
    }
  }

  /** If every insert is clean, ids may be put any number of times and a live entry always holds the bytes of the
      latest put, across every spill and restore. */
  lemma LatestPutWins(budget: nat, events: seq<Event>, id: ObjectId)
    requires Possible(Init(budget), events) && CleanRun(Init(budget), events)
    requires id in Exec(Init(budget), events).objects
    ensures var s := Exec(Init(budget), events);
            id in s.stored && s.objects[id].data == s.stored[id]
  {
    SettledRun(Init(budget), events);
  }

  // ---- After an insert that is not clean, older bytes can come back ----

  /** Some continuation with clean inserts only loses the latest bytes of an entry. */
  ghost predicate CanLoseLatest(s: Store) {
    exists events :: Possible(s, events) && CleanRun(s, events) && !Current(Exec(s, events))
  }

  lemma LosesEarlier(s: Store, e: Event)
    requires Enabled(s, e) && Clean(s, e) && CanLoseLatest(Apply(s, e))
    ensures CanLoseLatest(s)
  {
    var next := Apply(s, e);
    var events :| Possible(next, events) && CleanRun(next, events) && !Current(Exec(next, events));
    var all := [e] + events;
    assert all[1..] == events;
    assert Possible(s, all) && CleanRun(s, all) && Exec(s, all) == Exec(next, events);
  }

  /** The entry of `id` is live and its latest put wrote other bytes than `earlier`. */
  ghost predicate Newer(s: Store, id: ObjectId, earlier: Bytes) {
    id in s.objects && id in s.stored && s.stored[id] != earlier
  }

  lemma RestoreWriteLoses(s: Store, k: nat)
    requires k < |s.calls| && s.calls[k].RestoreWrite? && Newer(s, s.calls[k].id, s.calls[k].data)
    ensures CanLoseLatest(s)
  {
    var id, next := s.calls[k].id, Apply(s, Advance(k));
    assert next.objects[id].data != next.stored[id];
    assert Possible(next, []) && CleanRun(next, []) && Exec(next, []) == next;
    LosesEarlier(s, Advance(k));
  }

  lemma RestoreReadLoses(s: Store, k: nat)
    requires k < |s.calls| && s.calls[k].RestoreRead?
    requires var c := s.calls[k]; (c.dir, c.id) in s.disk && Newer(s, c.id, s.disk[(c.dir, c.id)])
    ensures CanLoseLatest(s)
  {
    RestoreWriteLoses(Apply(s, Advance(k)), k);
    LosesEarlier(s, Advance(k));
  }

  /** A restore started now reads the file the entry refers to. */
  lemma RecordedFileLoses(s: Store, id: ObjectId, dir: string)
    requires id in s.objects && s.objects[id].spilledTo == Some(dir)
    requires (dir, id) in s.disk && Newer(s, id, s.disk[(dir, id)])
    ensures CanLoseLatest(s)
  {
    var n, looking := |s.calls|, Apply(s, BeginRestore(id));
    RestoreReadLoses(Apply(looking, Advance(n)), n);
    LosesEarlier(looking, Advance(n));
    LosesEarlier(s, BeginRestore(id));
  }

  lemma SpillMarkLoses(s: Store, k: nat)
    requires k < |s.calls| && s.calls[k].SpillMark?
    requires var c := s.calls[k]; (c.dir, c.id) in s.disk && Newer(s, c.id, s.disk[(c.dir, c.id)])
    ensures CanLoseLatest(s)
  {
    RecordedFileLoses(Apply(s, Advance(k)), s.calls[k].id, s.calls[k].dir);
    LosesEarlier(s, Advance(k));
  }

  lemma SpillWriteLoses(s: Store, k: nat)
    requires k < |s.calls| && s.calls[k].SpillWrite? && Newer(s, s.calls[k].id, s.calls[k].data)
    ensures CanLoseLatest(s)
  {
    SpillMarkLoses(Apply(s, Advance(k)), k);
    LosesEarlier(s, Advance(k));
  }

  /** From every state, whichever of the four kinds of call is in flight with other bytes. */
  lemma UncleanInsertLoses(s: Store, e: Event)
    requires Enabled(s, e) && !Clean(s, e)
    ensures CanLoseLatest(Apply(s, e))
  {
    var put, next := s.calls[e.call], Apply(s, e);
    var k :| 0 <= k < |s.calls| && !Carries(s.disk, s.calls[k], put.id, put.data);
    assert next.calls[k] == s.calls[k] && next.stored[put.id] == put.data;
    match s.calls[k]
    case SpillWrite(_, _, _) => SpillWriteLoses(next, k);
    case SpillMark(_, _) => SpillMarkLoses(next, k);
    case RestoreRead(_, _) => RestoreReadLoses(next, k);
    case RestoreWrite(_, _, _) => RestoreWriteLoses(next, k);
  }

  /** At no point of the run can the latest bytes of an entry get lost by what is already in flight. */
  ghost predicate NeverLosesLatest(s: Store, events: seq<Event>)
    requires Possible(s, events)
    decreases |events|
  {
    !CanLoseLatest(s) && (events != [] ==> NeverLosesLatest(Apply(s, events[0]), events[1..]))
  }

  lemma {:induction false} NeverLosesIffClean(s: Store, events: seq<Event>)
    requires Settled(s) && Possible(s, events)
    ensures NeverLosesLatest(s, events) <==> CleanRun(s, events)
    decreases |events|
  {
    forall more | Possible(s, more) && CleanRun(s, more) ensures Current(Exec(s, more)) {
      SettledRun(s, more);
    }
    if events != [] {
      if Clean(s, events[0]) {
        SettledStep(s, events[0]);
        NeverLosesIffClean(Apply(s, events[0]), events[1..]);
      } else {
        UncleanInsertLoses(s, events[0]);
      }
    }
  }

  /** A run is safe, in that from each of its points every continuation with clean inserts keeps the latest bytes
      of every entry, if and only if each of its inserts is clean. */
  lemma LatestPutWinsExactly(budget: nat, events: seq<Event>)
    requires Possible(Init(budget), events)
    ensures NeverLosesLatest(Init(budget), events) <==> CleanRun(Init(budget), events)
  {
    NeverLosesIffClean(Init(budget), events);
  }
}
