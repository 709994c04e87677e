/** What a single store call does, and what others can do to it: calls run alone, puts that fit, and spilled objects
    whose references change. */
module ObjectStoreCalls {
  import opened Prelude
  import opened Tasks
  import opened ObjectStoreModel
  import opened ObjectStoreSafety

  // ---- Calls run alone ----

  ghost function Steps(k: nat, n: nat): seq<Event> {
    seq(n, i => Advance(k))
  }

  /** Call `k`, advanced alone from `s`, comes to its end in `t`. */
  ghost predicate Ends(s: Store, k: nat, t: Store) {
    && k < |t.calls| && t.calls[k].Done?
    && exists n: nat :: Possible(s, Steps(k, n)) && Exec(s, Steps(k, n)) == t
  }

  lemma EndsHere(s: Store, k: nat)
    requires k < |s.calls| && s.calls[k].Done?
    ensures Ends(s, k, s)
  {
    assert Possible(s, Steps(k, 0)) && Exec(s, Steps(k, 0)) == s;
  }

  lemma EndsLater(s: Store, k: nat, next: Store, t: Store)
    requires Enabled(s, Advance(k)) && Apply(s, Advance(k)) == next && Ends(next, k, t)
    ensures Ends(s, k, t)
  {
    var n: nat :| Possible(next, Steps(k, n)) && Exec(next, Steps(k, n)) == t;
    assert Steps(k, n + 1)[1..] == Steps(k, n);
    assert Possible(s, Steps(k, n + 1)) && Exec(s, Steps(k, n + 1)) == t;
  }

  lemma SpillMarkEnds(s: Store, k: nat) returns (t: Store)
    requires k < |s.calls| && s.calls[k].SpillMark? && s.calls[k].id in s.objects
    ensures Ends(s, k, t) && t.calls[k] == Done(true) && t.disk == s.disk
    ensures var c := s.calls[k];
            t.objects == s.objects[c.id := Entry(s.objects[c.id].data, s.objects[c.id].refs, Some(c.dir))]
  {
    t := Apply(s, Advance(k));
    EndsHere(t, k);
    EndsLater(s, k, t, t);
  }

  /** A spill run alone succeeds exactly for a present object: its bytes are in the file and its place is on record,
      nothing else changes. */
  lemma SpillAlone(s: Store, id: ObjectId, dir: string) returns (t: Store)
    ensures Ends(Apply(s, BeginSpill(id, dir)), |s.calls|, t)
    ensures t.calls[|s.calls|] == Done(id in s.objects)
    ensures id in s.objects ==>
              && t.objects == s.objects[id := Entry(s.objects[id].data, s.objects[id].refs, Some(dir))]
              && t.disk == s.disk[(dir, id) := s.objects[id].data]
    ensures id !in s.objects ==> t.objects == s.objects && t.disk == s.disk
  {
    var k, s0 := |s.calls|, Apply(s, BeginSpill(id, dir));
    var s1 := Apply(s0, Advance(k));
    if id in s.objects {
      var s2 := Apply(s1, Advance(k));
      t := SpillMarkEnds(s2, k);
      EndsLater(s1, k, s2, t);
    } else {
      t := s1;
      EndsHere(t, k);
    }
    EndsLater(s0, k, s1, t);
  }

  lemma RestoreWriteEnds(s: Store, k: nat) returns (t: Store)
    requires k < |s.calls| && s.calls[k].RestoreWrite? && s.calls[k].id in s.objects
    ensures Ends(s, k, t) && t.calls[k] == Done(true)
    ensures var c := s.calls[k];
            t.objects == s.objects[c.id := Entry(c.data, s.objects[c.id].refs, None)] && t.disk == s.disk - {(c.dir, c.id)}
  {
    var s1 := Apply(s, Advance(k));
    t := Apply(s1, Advance(k));
    EndsHere(t, k);
    EndsLater(s1, k, t, t);
    EndsLater(s, k, s1, t);
  }

  /** A restore run alone succeeds exactly when the object, its record and the file are there: the bytes of the file
      are back, the record and the file are gone, nothing else changes. */
  lemma RestoreAlone(s: Store, id: ObjectId) returns (t: Store)
    ensures Ends(Apply(s, BeginRestore(id)), |s.calls|, t)
    ensures var found := id in s.objects && s.objects[id].spilledTo.Some? && (s.objects[id].spilledTo.value, id) in s.disk;
            && t.calls[|s.calls|] == Done(found)
            && (found ==> var path := (s.objects[id].spilledTo.value, id);
                          && t.objects == s.objects[id := Entry(s.disk[path], s.objects[id].refs, None)]
                          && t.disk == s.disk - {path})
            && (!found ==> t.objects == s.objects && t.disk == s.disk)
  {
    var k, s0 := |s.calls|, Apply(s, BeginRestore(id));
    var s1 := Apply(s0, Advance(k));
    if s1.calls[k].Done? {
      t := s1;
      EndsHere(t, k);
    } else {
      var s2 := Apply(s1, Advance(k));
      if s2.calls[k].Done? {
        t := s2;
        EndsHere(t, k);
      } else {
        t := RestoreWriteEnds(s2, k);
      }
      EndsLater(s1, k, s2, t);
    }
    EndsLater(s0, k, s1, t);
  }

  lemma InsertEnds(s: Store, k: nat) returns (t: Store)
    requires k < |s.calls| && s.calls[k].PutInsert?
    ensures Ends(s, k, t) && t.calls[k] == Done(true) && t.disk == s.disk
    ensures t.objects == s.objects[s.calls[k].id := Entry(s.calls[k].data, 1, None)]
  {
    t := Apply(s, Advance(k));
    EndsHere(t, k);
    EndsLater(s, k, t, t);
  }

  /** A put run alone succeeds exactly when there is no budget or stored and new bytes stay within it; then the object
      is new with one reference, otherwise nothing changes. */
  lemma PutAlone(s: Store, id: ObjectId, data: Bytes) returns (t: Store)
    requires forall x | x in s.objects :: s.objects[x].refs >= 1
    ensures Ends(Apply(s, BeginPut(id, data)), |s.calls|, t)
    ensures var fits := s.budget == 0 || Total(s.objects) + |data| <= s.budget;
            && t.calls[|s.calls|] == Done(fits) && t.disk == s.disk
            && t.objects == if fits then s.objects[id := Entry(data, 1, None)] else s.objects
  {
    var k, s0 := |s.calls|, Apply(s, BeginPut(id, data));
    var s1 := Apply(s0, Advance(k));
    if s1.calls[k].PutInsert? {
      t := InsertEnds(s1, k);
    } else {
      EvictionIsIdle(s.objects);
      var s2 := Apply(s1, Advance(k));
      t := Apply(s2, Advance(k));
      EndsHere(t, k);
      EndsLater(s2, k, t, t);
      EndsLater(s1, k, s2, t);
    }
    EndsLater(s0, k, s1, t);
  }

  // ---- A put fails only where the store is too full for it ----

  /** At every point of the run `size` more bytes fit. */
  ghost predicate RoomThroughout(s: Store, events: seq<Event>, size: nat)
    requires Possible(s, events)
    decreases |events|
  {
    && (s.budget == 0 || Total(s.objects) + size <= s.budget)
    && (events != [] ==> RoomThroughout(Apply(s, events[0]), events[1..], size))
  }

  ghost predicate Succeeding(c: Call, id: ObjectId, data: Bytes) {
    c == PutCheck(id, data) || c == PutInsert(id, data) || c == Done(true)
  }

  lemma SucceedingStep(s: Store, e: Event, k: nat, id: ObjectId, data: Bytes)
    requires Enabled(s, e) && k < |s.calls| && Succeeding(s.calls[k], id, data)
    requires s.budget == 0 || Total(s.objects) + |data| <= s.budget
    ensures k < |Apply(s, e).calls| && Succeeding(Apply(s, e).calls[k], id, data)
  {
  }

  /** Whatever else happens, a put whose bytes fit at every point of a run never fails in it: one that has failed met
      a point at which stored and new bytes exceeded a non-zero budget. */
  lemma {:induction false} PutThatFitsSucceeds(s: Store, events: seq<Event>, k: nat, id: ObjectId, data: Bytes)
    requires Possible(s, events) && k < |s.calls| && Succeeding(s.calls[k], id, data)
    requires RoomThroughout(s, events, |data|)
    ensures k < |Exec(s, events).calls| && Exec(s, events).calls[k] != Done(false)
    ensures Succeeding(Exec(s, events).calls[k], id, data)
    decreases |events|
  {
    if events != [] {
      SucceedingStep(s, events[0], k, id, data);
      PutThatFitsSucceeds(Apply(s, events[0]), events[1..], k, id, data);
    }
  }

  /** And it fails in the very step that finds it does not fit after evicting. */
  lemma PutFailsExactlyOverBudget(s: Store, k: nat)
    requires Enabled(s, Advance(k))
    requires s.calls[k].PutCheck? || s.calls[k].PutEvict? || s.calls[k].PutRecheck? || s.calls[k].PutInsert?
    ensures Apply(s, Advance(k)).calls[k] == Done(false) <==>
            s.calls[k].PutRecheck? && s.budget > 0 && Total(s.objects) + |s.calls[k].data| > s.budget
  {
  }

  // ---- A spilled object stays restorable while its references change ----

  /** The step is not one of a put, spill or restore of `id`, nor its deletion: references of `id` may change, and
      anything may happen to other ids. */
  ghost predicate Spares(s: Store, e: Event, id: ObjectId)
    requires Enabled(s, e)
  {
    && (e.Advance? ==> s.calls[e.call].id != id)
    && e != Delete(id)
  }

  ghost predicate AllSpare(s: Store, events: seq<Event>, id: ObjectId)
    requires Possible(s, events)
    decreases |events|
  {
    events != [] ==> Spares(s, events[0], id) && AllSpare(Apply(s, events[0]), events[1..], id)
  }

  /** The bytes, the record and the files of `id` are as in `s`, while the object lives. */
  ghost predicate KeepsRecord(s: Store, t: Store, id: ObjectId) {
    && (id in t.objects ==> id in s.objects && t.objects[id].data == s.objects[id].data
                            && t.objects[id].spilledTo == s.objects[id].spilledTo)
    && (forall dir :: (dir, id) in t.disk <==> (dir, id) in s.disk)
    && (forall dir :: (dir, id) in t.disk ==> t.disk[(dir, id)] == s.disk[(dir, id)])
  }

  lemma SparingStep(s: Store, e: Event, id: ObjectId)
    requires Enabled(s, e) && Spares(s, e, id)
    ensures KeepsRecord(s, Apply(s, e), id)
  {
  }

  lemma {:induction false} SparingRun(s: Store, events: seq<Event>, id: ObjectId)
    requires Possible(s, events) && AllSpare(s, events, id)
    ensures KeepsRecord(s, Exec(s, events), id)
    decreases |events|
  {
    if events != [] {
      SparingStep(s, events[0], id);
      SparingRun(Apply(s, events[0]), events[1..], id);
    }
  }

  /** Spill an object, let references come and go and anything happen to other ids, and restore it: as long as the
      object survives, the restore succeeds with the bytes spilled and leaves neither record nor file. */
  lemma SpilledIsRestored(s: Store, id: ObjectId, dir: string, spilled: Store, events: seq<Event>) returns (t: Store)
    requires id in s.objects && Ends(Apply(s, BeginSpill(id, dir)), |s.calls|, spilled)
    requires spilled.objects == s.objects[id := Entry(s.objects[id].data, s.objects[id].refs, Some(dir))]
    requires spilled.disk == s.disk[(dir, id) := s.objects[id].data]
    requires Possible(spilled, events) && AllSpare(spilled, events, id) && id in Exec(spilled, events).objects
    ensures var held := Exec(spilled, events);
            && Ends(Apply(held, BeginRestore(id)), |held.calls|, t) && t.calls[|held.calls|] == Done(true)
            && t.objects == held.objects[id := Entry(s.objects[id].data, held.objects[id].refs, None)]
            && (dir, id) !in t.disk
  {
    SparingRun(spilled, events, id);
    t := RestoreAlone(Exec(spilled, events), id);
  }
}
