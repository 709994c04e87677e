/** Value safety of spill and restore, the budget under concurrency, and reference counts, over every run. */
module ObjectStoreSafety {
  import opened Prelude
  import opened Tasks
  import opened ObjectStoreModel

  // ---- Values: whatever is stored, spilled or buffered for an id was put for that id ----

  ghost function Buffer(c: Call): Option<(ObjectId, Bytes)> {
    match c
    case PutCheck(id, data) => Some((id, data))
    case PutEvict(id, data) => Some((id, data))
    case PutRecheck(id, data) => Some((id, data))
    case PutInsert(id, data) => Some((id, data))
    case SpillWrite(id, _, data) => Some((id, data))
    case RestoreWrite(id, _, data) => Some((id, data))
    case _ => None
  }

  ghost predicate Genuine(s: Store) {
    && (forall id | id in s.objects :: (id, s.objects[id].data) in s.begun)
    && (forall path: Path | path in s.disk :: (path.1, s.disk[path]) in s.begun)
    && (forall k :: 0 <= k < |s.calls| && Buffer(s.calls[k]).Some? ==> Buffer(s.calls[k]).value in s.begun)
  }

  lemma AdvanceGenuine(s: Store, k: nat)
    requires Genuine(s) && Enabled(s, Advance(k))
    ensures Genuine(Apply(s, Advance(k)))
  {
  }

  lemma GenuineStep(s: Store, e: Event)
    requires Genuine(s) && Enabled(s, e)
    ensures Genuine(Apply(s, e))
  {
    match e
    case Advance(k) => AdvanceGenuine(s, k);
    case BeginPut(id, data) => assert (id, data) in s.begun + [(id, data)];
    case _ =>
  }

  lemma {:induction false} GenuineRun(s: Store, events: seq<Event>)
    requires Genuine(s) && Possible(s, events)
    ensures Genuine(Exec(s, events))
    decreases |events|
  {
    if events != [] {
      GenuineStep(s, events[0]);
      GenuineRun(Apply(s, events[0]), events[1..]);
    }
  }

  /** Each id is put at most once. */
  ghost predicate WriteOnce(begun: seq<(ObjectId, Bytes)>) {
    forall i, j :: 0 <= i < j < |begun| ==> begun[i].0 != begun[j].0
  }

  lemma OnlyValue(begun: seq<(ObjectId, Bytes)>, id: ObjectId, a: Bytes, b: Bytes)
    requires WriteOnce(begun) && (id, a) in begun && (id, b) in begun
    ensures a == b
  {
  }

  /** If each id is put at most once then, in every interleaving of puts, spills, restores, deletes and
      reference changes, a live entry, every spill file and every buffer in use hold exactly the bytes put. */
  lemma SpillAndRestoreAreSafe(budget: nat, events: seq<Event>, id: ObjectId, data: Bytes)
    requires Possible(Init(budget), events)
    requires WriteOnce(Exec(Init(budget), events).begun) && (id, data) in Exec(Init(budget), events).begun
    ensures var s := Exec(Init(budget), events);
            && (id in s.objects ==> s.objects[id].data == data)
            && (forall dir :: (dir, id) in s.disk ==> s.disk[(dir, id)] == data)
            && (forall k :: 0 <= k < |s.calls| && Buffer(s.calls[k]).Some? && Buffer(s.calls[k]).value.0 == id ==>
                              Buffer(s.calls[k]).value.1 == data)
  {
    GenuineRun(Init(budget), events);
    var s := Exec(Init(budget), events);
    forall other | (id, other) in s.begun ensures other == data {
      OnlyValue(s.begun, id, other, data);
    }
    forall dir | (dir, id) in s.disk ensures s.disk[(dir, id)] == data {
      var path: Path := (dir, id);
      assert (path.1, s.disk[path]) in s.begun;
    }
  }

  // ---- The budget under concurrency ----

  /** Bytes that passed the budget check and are about to be inserted, and how many puts they belong to. */
  ghost function PendingBytes(calls: seq<Call>): nat {
    if |calls| == 0 then 0
    else
      var last := calls[|calls| - 1];
      PendingBytes(calls[..|calls| - 1]) + if last.PutInsert? then |last.data| else 0
  }

  ghost function PendingPuts(calls: seq<Call>): nat {
    if |calls| == 0 then 0
    else PendingPuts(calls[..|calls| - 1]) + if calls[|calls| - 1].PutInsert? then 1 else 0
  }

  ghost function BytesOf(c: Call): nat {
    if c.PutInsert? then |c.data| else 0
  }

  lemma {:induction false} PendingUpdate(calls: seq<Call>, k: nat, c: Call)
    requires k < |calls|
    ensures PendingBytes(calls[k := c]) == PendingBytes(calls) - BytesOf(calls[k]) + BytesOf(c)
    ensures PendingPuts(calls[k := c]) ==
            PendingPuts(calls) - (if calls[k].PutInsert? then 1 else 0) + (if c.PutInsert? then 1 else 0)
  {
    var n := |calls| - 1;
    if k < n {
      PendingUpdate(calls[..n], k, c);
      assert calls[k := c][..n] == calls[..n][k := c];
    } else {
      assert calls[k := c][..n] == calls[..n];
    }
  }

  lemma {:induction false} PendingWithin(calls: seq<Call>, budget: nat)
    requires forall k :: 0 <= k < |calls| && calls[k].PutInsert? ==> |calls[k].data| <= budget
    ensures PendingBytes(calls) <= PendingPuts(calls) * budget
  {
    if |calls| > 0 {
      var front := calls[..|calls| - 1];
      PendingWithin(front, budget);
      assert (PendingPuts(front) + 1) * budget == PendingPuts(front) * budget + budget;
    }
  }

  ghost predicate WithinBudget(s: Store, k: nat) {
    && (forall i :: 0 <= i < |s.calls| && s.calls[i].PutInsert? ==> |s.calls[i].data| <= s.budget)
    && Total(s.objects) + PendingBytes(s.calls) <= k * s.budget
  }

  lemma MultiplyMonotone(a: nat, b: nat, c: nat)
    requires a <= b
    ensures a * c <= b * c
  {
  }

  /** A put that passes its check adds its bytes to those of at most `k - 1` others. */
  lemma CheckWithinBudget(s: Store, i: nat, k: nat)
    requires s.budget > 0 && WithinBudget(s, k) && Enabled(s, Advance(i))
    requires s.calls[i].PutCheck? || s.calls[i].PutRecheck?
    requires PendingPuts(Apply(s, Advance(i)).calls) <= k
    ensures WithinBudget(Apply(s, Advance(i)), k)
  {
    var c, next := s.calls[i], Apply(s, Advance(i));
    PendingUpdate(s.calls, i, next.calls[i]);
    if next.calls[i].PutInsert? {
      PendingWithin(s.calls, s.budget);
      MultiplyMonotone(PendingPuts(s.calls) + 1, k, s.budget);
      assert (PendingPuts(s.calls) + 1) * s.budget == PendingPuts(s.calls) * s.budget + s.budget;
    }
  }

  lemma InsertWithinBudget(s: Store, i: nat, k: nat)
    requires WithinBudget(s, k) && Enabled(s, Advance(i)) && s.calls[i].PutInsert?
    ensures WithinBudget(Apply(s, Advance(i)), k)
  {
    var c := s.calls[i];
    PendingUpdate(s.calls, i, Done(true));
    TotalAfterInsert(s.objects, c.id, Inserted(c.data));
  }

  /** With write-once ids a restore puts back the bytes already counted. */
  lemma RestoreKeepsTotal(s: Store, i: nat)
    requires Genuine(s) && WriteOnce(s.begun) && i < |s.calls| && s.calls[i].RestoreWrite?
    ensures Total(Restored(s.objects, s.calls[i].id, s.calls[i].data)) == Total(s.objects)
  {
    var c := s.calls[i];
    if c.id in s.objects {
      assert Buffer(c).value in s.begun;
      OnlyValue(s.begun, c.id, c.data, s.objects[c.id].data);
      TotalAfterInsert(s.objects, c.id, s.objects[c.id].(data := c.data, spilledTo := None));
    }
  }

  lemma OtherAdvanceWithinBudget(s: Store, i: nat, k: nat)
    requires WithinBudget(s, k) && Genuine(s) && WriteOnce(s.begun) && Enabled(s, Advance(i))
    requires !s.calls[i].PutCheck? && !s.calls[i].PutRecheck? && !s.calls[i].PutInsert?
    ensures WithinBudget(Apply(s, Advance(i)), k)
  {
    var c, next := s.calls[i], Apply(s, Advance(i));
    PendingUpdate(s.calls, i, next.calls[i]);
    match c
    case PutEvict(_, _) => TotalOfPart(Evicted(s.objects), s.objects);
    case SpillMark(id, dir) =>
      if id in s.objects {
        TotalAfterInsert(s.objects, id, s.objects[id].(spilledTo := Some(dir)));
      }
    case RestoreWrite(_, _, _) => RestoreKeepsTotal(s, i);
    case _ =>
  }

  lemma BeginWithinBudget(s: Store, c: Call, k: nat)
    requires WithinBudget(s, k) && !c.PutInsert?
    ensures PendingBytes(s.calls + [c]) == PendingBytes(s.calls)
  {
  }

  lemma ReferenceTotals(objects: Objects, id: ObjectId)
    ensures Total(WithReference(objects, id)) == Total(objects)
    ensures Total(WithoutReference(objects, id)) <= Total(objects)
  {
    TotalAfterRemove(objects, id);
    if id in objects {
      TotalAfterInsert(objects, id, objects[id].(refs := objects[id].refs + 1));
      if objects[id].refs > 1 {
        TotalAfterInsert(objects, id, objects[id].(refs := objects[id].refs - 1));
      }
    }
  }

  lemma AtomicWithinBudget(s: Store, e: Event, k: nat)
    requires WithinBudget(s, k) && (e.AddReference? || e.RemoveReference? || e.Delete? || e.Evict?)
    ensures WithinBudget(Apply(s, e), k)
  {
    match e
    case AddReference(id) => ReferenceTotals(s.objects, id);
    case RemoveReference(id) => ReferenceTotals(s.objects, id);
    case Delete(id) => TotalAfterRemove(s.objects, id);
    case Evict => TotalOfPart(Evicted(s.objects), s.objects);
  }

  lemma AdvanceWithinBudget(s: Store, i: nat, k: nat)
    requires s.budget > 0 && WithinBudget(s, k) && Genuine(s) && WriteOnce(s.begun) && Enabled(s, Advance(i))
    requires PendingPuts(Apply(s, Advance(i)).calls) <= k
    ensures WithinBudget(Apply(s, Advance(i)), k)
  {
    if s.calls[i].PutCheck? || s.calls[i].PutRecheck? {
      CheckWithinBudget(s, i, k);
    } else if s.calls[i].PutInsert? {
      InsertWithinBudget(s, i, k);
    } else {
      OtherAdvanceWithinBudget(s, i, k);
    }
  }

  lemma WithinBudgetStep(s: Store, e: Event, k: nat)
    requires s.budget > 0 && WithinBudget(s, k) && Genuine(s) && WriteOnce(s.begun) && Enabled(s, e)
    requires PendingPuts(Apply(s, e).calls) <= k
    ensures WithinBudget(Apply(s, e), k)
  {
    match e
    case BeginPut(id, data) => BeginWithinBudget(s, PutCheck(id, data), k);
    case BeginSpill(id, dir) => BeginWithinBudget(s, SpillRead(id, dir), k);
    case BeginRestore(id) => BeginWithinBudget(s, RestoreLook(id), k);
    case Advance(i) => AdvanceWithinBudget(s, i, k);
    case AddReference(_) => AtomicWithinBudget(s, e, k);
    case RemoveReference(_) => AtomicWithinBudget(s, e, k);
    case Delete(_) => AtomicWithinBudget(s, e, k);
    case Evict => AtomicWithinBudget(s, e, k);
  }

  /** At every point of the run at most `k` puts are between their budget check and their insert. */
  ghost predicate Overlapping(s: Store, events: seq<Event>, k: nat)
    requires Possible(s, events)
    decreases |events|
  {
    PendingPuts(s.calls) <= k && (events != [] ==> Overlapping(Apply(s, events[0]), events[1..], k))
  }

  lemma BegunGrows(s: Store, e: Event)
    requires Enabled(s, e)
    ensures s.begun <= Apply(s, e).begun && Apply(s, e).budget == s.budget
  {
  }

  lemma {:induction false} WithinBudgetRun(s: Store, events: seq<Event>, k: nat)
    requires s.budget > 0 && WithinBudget(s, k) && Genuine(s) && Possible(s, events) && Overlapping(s, events, k)
    requires WriteOnce(Exec(s, events).begun)
    ensures WithinBudget(Exec(s, events), k) && Exec(s, events).budget == s.budget
    ensures s.begun <= Exec(s, events).begun
    decreases |events|
  {
    if events != [] {
      var next := Apply(s, events[0]);
      BegunGrows(s, events[0]);
      BegunGrowsRun(next, events[1..]);
      GenuineStep(s, events[0]);
      assert PendingPuts(next.calls) <= k;
      WithinBudgetStep(s, events[0], k);
      WithinBudgetRun(next, events[1..], k);
    }
  }

  lemma {:induction false} BegunGrowsRun(s: Store, events: seq<Event>)
    requires Possible(s, events)
    ensures s.begun <= Exec(s, events).begun
    decreases |events|
  {
    if events != [] {
      BegunGrows(s, events[0]);
      BegunGrowsRun(Apply(s, events[0]), events[1..]);
    }
  }

  lemma InitWithinBudget(budget: nat, k: nat)
    ensures WithinBudget(Init(budget), k) && Genuine(Init(budget))
  {
  }

  /** With a non-zero budget, write-once ids and at most `k` overlapping puts, stored bytes plus bytes about to
      be inserted never exceed `k` budgets; without overlap that is the budget itself. */
  lemma BudgetUnderConcurrency(budget: nat, events: seq<Event>, k: nat)
    requires budget > 0 && Possible(Init(budget), events) && Overlapping(Init(budget), events, k)
    requires WriteOnce(Exec(Init(budget), events).begun)
    ensures var s := Exec(Init(budget), events);
            && Total(s.objects) + PendingBytes(s.calls) <= k * budget
            && (k == 1 ==> Total(s.objects) <= budget)
  {
    InitWithinBudget(budget, k);
    WithinBudgetRun(Init(budget), events, k);
  }

  // ---- Reference counts ----

  ghost predicate Counted(s: Store) {
    forall id | id in s.objects ::
      s.objects[id].refs >= 1 && s.objects[id].refs == 1 + Count(s.added, id) - Count(s.removed, id)
  }

  lemma AdvanceCounted(s: Store, i: nat)
    requires Counted(s) && Enabled(s, Advance(i))
    ensures Counted(Apply(s, Advance(i)))
  {
  }

  lemma CountedStep(s: Store, e: Event)
    requires Counted(s) && Enabled(s, e)
    ensures Counted(Apply(s, e))
  {
    match e
    case Advance(i) => AdvanceCounted(s, i);
    case AddReference(_) =>
    case RemoveReference(_) =>
    case _ =>
  }

  lemma {:induction false} CountedRun(s: Store, events: seq<Event>)
    requires Counted(s) && Possible(s, events)
    ensures Counted(Exec(s, events))
    decreases |events|
  {
    if events != [] {
      CountedStep(s, events[0]);
      CountedRun(Apply(s, events[0]), events[1..]);
    }
  }

  /** In every run a live entry's count is one plus the references added minus those removed since it was
      inserted, and at least one; so eviction of zero-count entries never removes anything. */
  lemma ReferencesAreCounted(budget: nat, events: seq<Event>, id: ObjectId)
    requires Possible(Init(budget), events)
    ensures var s := Exec(Init(budget), events);
            && (id in s.objects ==> s.objects[id].refs >= 1 &&
                                    s.objects[id].refs == 1 + Count(s.added, id) - Count(s.removed, id))
            && Evicted(s.objects) == s.objects
  {
    CountedRun(Init(budget), events);
    EvictionIsIdle(Exec(Init(budget), events).objects);
  }

  lemma EvictionIsIdle(objects: Objects)
    requires forall id | id in objects :: objects[id].refs >= 1
    ensures Evicted(objects) == objects
  {
  }
}
