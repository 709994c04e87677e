/** The object store under arbitrary interleaving.

    A call in progress is a program counter with its buffers; one step is one locked region or one file
    operation. The disk maps (directory, object id) to file contents, read and written as whole files. */
module ObjectStoreModel {
  import opened Prelude
  import opened Tasks

  type Path = (string, ObjectId)

  /** `spilledTo` is the directory of the spill file, when one is recorded. */
  datatype Entry = Entry(data: Bytes, refs: nat, spilledTo: Option<string>)

  type Objects = map<ObjectId, Entry>

  datatype Call =
    | PutCheck(id: ObjectId, data: Bytes)                     // before measuring the total size
    | PutEvict(id: ObjectId, data: Bytes)                     // over budget, before evicting
    | PutRecheck(id: ObjectId, data: Bytes)                   // before measuring again
    | PutInsert(id: ObjectId, data: Bytes)                    // within budget, before inserting
    | SpillRead(id: ObjectId, dir: string)
    | SpillWrite(id: ObjectId, dir: string, data: Bytes)
    | SpillMark(id: ObjectId, dir: string)
    | RestoreLook(id: ObjectId)
    | RestoreRead(id: ObjectId, dir: string)
    | RestoreWrite(id: ObjectId, dir: string, data: Bytes)
    | RestoreClean(id: ObjectId, dir: string)
    | Done(ok: bool)

  datatype Store = Store(
    budget: nat,                        // 0 means unlimited
    objects: Objects,
    disk: map<Path, Bytes>,
    calls: seq<Call>,
    begun: seq<(ObjectId, Bytes)>,      // every put ever begun
    stored: map<ObjectId, Bytes>,       // what the latest completed insert of each id wrote
    added: map<ObjectId, nat>,          // references added since the last insert of the id
    removed: map<ObjectId, nat>)        // references removed since the last insert of the id

  datatype Event =
    | BeginPut(id: ObjectId, data: Bytes)
    | BeginSpill(id: ObjectId, dir: string)
    | BeginRestore(id: ObjectId)
    | Advance(call: nat)
    | AddReference(id: ObjectId)
    | RemoveReference(id: ObjectId)
    | Delete(id: ObjectId)
    | Evict

  // ---- Effects of the locked regions on the object map ----

  /** Total number of bytes stored, whatever order the entries are visited in. */
  ghost function Total(objects: Objects): nat {
    if objects == map[] then 0
    else
      var id :| id in objects;
      |objects[id].data| + Total(objects - {id})
  }

  function Inserted(data: Bytes): Entry {
    Entry(data, 1, None)
  }

  ghost function Evicted(objects: Objects): Objects {
    map id | id in objects && objects[id].refs > 0 :: objects[id]
  }

  function WithReference(objects: Objects, id: ObjectId): Objects {
    if id in objects then objects[id := objects[id].(refs := objects[id].refs + 1)] else objects
  }

  function WithoutReference(objects: Objects, id: ObjectId): Objects {
    if id !in objects then objects
    else if objects[id].refs <= 1 then objects - {id}
    else objects[id := objects[id].(refs := objects[id].refs - 1)]
  }

  function Spilled(objects: Objects, id: ObjectId, dir: string): Objects {
    if id in objects then objects[id := objects[id].(spilledTo := Some(dir))] else objects
  }

  function Restored(objects: Objects, id: ObjectId, data: Bytes): Objects {
    if id in objects then objects[id := objects[id].(data := data, spilledTo := None)] else objects
  }

  ghost predicate OverBudget(budget: nat, objects: Objects, data: Bytes) {
    budget > 0 && Total(objects) + |data| > budget
  }

  // ---- Events ----

  ghost function Init(budget: nat): Store {
    Store(budget, map[], map[], [], [], map[], map[], map[])
  }

  ghost predicate Enabled(s: Store, e: Event) {
    e.Advance? ==> e.call < |s.calls| && !s.calls[e.call].Done?
  }

  /** The call's next program counter. */
  ghost function NextCall(s: Store, c: Call): Call
    requires !c.Done?
  {
    match c
    case PutCheck(id, data) => if OverBudget(s.budget, s.objects, data) then PutEvict(id, data) else PutInsert(id, data)
    case PutEvict(id, data) => PutRecheck(id, data)
    case PutRecheck(id, data) => if OverBudget(s.budget, s.objects, data) then Done(false) else PutInsert(id, data)
    case PutInsert(_, _) => Done(true)
    case SpillRead(id, dir) => if id in s.objects then SpillWrite(id, dir, s.objects[id].data) else Done(false)
    case SpillWrite(id, dir, _) => SpillMark(id, dir)
    case SpillMark(_, _) => Done(true)
    case RestoreLook(id) =>
      if id in s.objects && s.objects[id].spilledTo.Some? then RestoreRead(id, s.objects[id].spilledTo.value) else Done(false)
    case RestoreRead(id, dir) => if (dir, id) in s.disk then RestoreWrite(id, dir, s.disk[(dir, id)]) else Done(false)
    case RestoreWrite(id, dir, _) => RestoreClean(id, dir)
    case RestoreClean(_, _) => Done(true)
  }

  ghost function NextObjects(objects: Objects, c: Call): Objects {
    match c
    case PutEvict(_, _) => Evicted(objects)
    case PutInsert(id, data) => objects[id := Inserted(data)]
    case SpillMark(id, dir) => Spilled(objects, id, dir)
    case RestoreWrite(id, _, data) => Restored(objects, id, data)
    case _ => objects
  }

  ghost function NextDisk(disk: map<Path, Bytes>, c: Call): map<Path, Bytes> {
    match c
    case SpillWrite(id, dir, data) => disk[(dir, id) := data]
    case RestoreClean(id, dir) => disk - {(dir, id)}
    case _ => disk
  }

  ghost function Count(counts: map<ObjectId, nat>, id: ObjectId): nat {
    if id in counts then counts[id] else 0
  }

  ghost function Apply(s: Store, e: Event): Store
    requires Enabled(s, e)
  {
    match e
    case BeginPut(id, data) =>
      Store(s.budget, s.objects, s.disk, s.calls + [PutCheck(id, data)], s.begun + [(id, data)], s.stored, s.added, s.removed)
    case BeginSpill(id, dir) =>
      Store(s.budget, s.objects, s.disk, s.calls + [SpillRead(id, dir)], s.begun, s.stored, s.added, s.removed)
    case BeginRestore(id) =>
      Store(s.budget, s.objects, s.disk, s.calls + [RestoreLook(id)], s.begun, s.stored, s.added, s.removed)
    case Advance(k) =>
      var c := s.calls[k];
      Store(s.budget, NextObjects(s.objects, c), NextDisk(s.disk, c), s.calls[k := NextCall(s, c)], s.begun,
            if c.PutInsert? then s.stored[c.id := c.data] else s.stored,
            if c.PutInsert? then s.added[c.id := 0] else s.added,
            if c.PutInsert? then s.removed[c.id := 0] else s.removed)
    case AddReference(id) =>
      Store(s.budget, WithReference(s.objects, id), s.disk, s.calls, s.begun, s.stored,
            if id in s.objects then s.added[id := Count(s.added, id) + 1] else s.added, s.removed)
    case RemoveReference(id) =>
      Store(s.budget, WithoutReference(s.objects, id), s.disk, s.calls, s.begun, s.stored, s.added,
            if id in s.objects then s.removed[id := Count(s.removed, id) + 1] else s.removed)
    case Delete(id) => Store(s.budget, s.objects - {id}, s.disk, s.calls, s.begun, s.stored, s.added, s.removed)
    case Evict => Store(s.budget, Evicted(s.objects), s.disk, s.calls, s.begun, s.stored, s.added, s.removed)
  }

  // ---- Runs ----

  ghost predicate Possible(s: Store, events: seq<Event>)
    decreases |events|
  {
    events == [] || (Enabled(s, events[0]) && Possible(Apply(s, events[0]), events[1..]))
  }

  ghost function Exec(s: Store, events: seq<Event>): Store
    requires Possible(s, events)
    decreases |events|
  {
    if events == [] then s else Exec(Apply(s, events[0]), events[1..])
  }

  lemma {:induction false} RunAppend(s: Store, events: seq<Event>, e: Event)
    requires Possible(s, events) && Enabled(Exec(s, events), e)
    ensures Possible(s, events + [e])
    ensures Exec(s, events + [e]) == Apply(Exec(s, events), e)
    decreases |events|
  {
    if events == [] {
      assert [e][1..] == [];
    } else {
      RunAppend(Apply(s, events[0]), events[1..], e);
      assert (events + [e])[1..] == events[1..] + [e];
    }
  }

  // ---- Sizes ----

  lemma {:induction false} TotalWithout(objects: Objects, id: ObjectId)
    requires id in objects
    ensures Total(objects) == |objects[id].data| + Total(objects - {id})
    decreases |objects|
  {
    var first :| first in objects && Total(objects) == |objects[first].data| + Total(objects - {first});
    if first != id {
      TotalWithout(objects - {first}, id);
      TotalWithout(objects - {id}, first);
      assert objects - {first} - {id} == objects - {id} - {first};
    }
  }

  lemma TotalAfterInsert(objects: Objects, id: ObjectId, entry: Entry)
    ensures Total(objects[id := entry]) ==
            Total(objects) + |entry.data| - if id in objects then |objects[id].data| else 0
  {
    TotalWithout(objects[id := entry], id);
    assert objects[id := entry] - {id} == objects - {id};
    if id in objects {
      TotalWithout(objects, id);
    } else {
      assert objects - {id} == objects;
    }
  }

  lemma TotalAfterRemove(objects: Objects, id: ObjectId)
    ensures Total(objects - {id}) <= Total(objects)
  {
    if id in objects {
      TotalWithout(objects, id);
    } else {
      assert objects - {id} == objects;
    }
  }

  lemma {:induction false} TotalOfPart(part: Objects, objects: Objects)
    requires forall id | id in part :: id in objects && part[id] == objects[id]
    ensures Total(part) <= Total(objects)
    decreases |part|
  {
    if part != map[] {
      var id :| id in part;
      TotalWithout(part, id);
      TotalWithout(objects, id);
      TotalOfPart(part - {id}, objects - {id});
    }
  }
}
