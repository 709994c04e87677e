/** The object store with each call run alone: the object map updated in place. */
module ObjectStoring {
  import opened Prelude
  import opened Tasks
  import opened ObjectStoreModel
  import opened ObjectStoreSafety

  class InMemoryObjectStore {
    const maxMemoryBytes: nat
    var objects: Objects
    var disk: map<Path, Bytes>

    /** No entry has lost its last reference. */
    ghost predicate Valid()
      reads this
    {
      forall id | id in objects :: objects[id].refs >= 1
    }

    constructor (maxMemoryBytes: nat)
      ensures Valid() && this.maxMemoryBytes == maxMemoryBytes && objects == map[] && disk == map[]
    {
      this.maxMemoryBytes := maxMemoryBytes;
      objects, disk := map[], map[];
    }

    method TotalSize() returns (size: nat)
      ensures size == Total(objects)
    {
      size := 0;
      var todo := objects.Keys;
      ghost var rest := objects;
      while todo != {}
        invariant rest.Keys == todo && forall id | id in rest :: id in objects && rest[id] == objects[id]
        invariant size + Total(rest) == Total(objects)
        decreases todo
      {
        var id :| id in todo;
        TotalWithout(rest, id);
        size := size + |objects[id].data|;
        todo, rest := todo - {id}, rest - {id};
      }
      assert rest == map[];
    }

    method EvictZeroRefObjects() returns (evicted: int)
      modifies this`objects
      ensures objects == Evicted(old(objects))
      ensures forall id :: id in objects <==> id in old(objects) && old(objects)[id].refs > 0
      ensures forall id | id in objects :: objects[id] == old(objects)[id]
      ensures evicted == |old(objects)| - |objects|
    {
      var before := |objects|;
      var todo := objects.Keys;
      while todo != {}
        invariant todo <= objects.Keys <= old(objects.Keys)
        invariant forall id | id in objects :: objects[id] == old(objects)[id] && (id in todo || objects[id].refs > 0)
        invariant forall id | id in old(objects) && old(objects)[id].refs > 0 :: id in objects
        decreases todo
      {
        var id :| id in todo;
        if objects[id].refs == 0 {
          objects := objects - {id};
        }
        todo := todo - {id};
      }
      evicted := before - |objects|;
    }

    method AddReference(id: ObjectId)
      requires Valid()
      modifies this`objects
      ensures Valid() && objects == WithReference(old(objects), id)
      ensures objects.Keys == old(objects.Keys)
      ensures forall x | x in objects ::
                objects[x] == Entry(old(objects)[x].data, old(objects)[x].refs + (if x == id then 1 else 0), old(objects)[x].spilledTo)
    {
      if id in objects {
        objects := objects[id := objects[id].(refs := objects[id].refs + 1)];
      }
    }

    /** Answers whether the last reference went and the object with it. */
    method RemoveReference(id: ObjectId) returns (evicted: bool)
      requires Valid()
      modifies this`objects
      ensures Valid() && objects == WithoutReference(old(objects), id)
      ensures evicted <==> id in old(objects) && old(objects)[id].refs == 1
      ensures objects.Keys == if evicted then old(objects.Keys) - {id} else old(objects.Keys)
      ensures forall x | x in objects ::
                objects[x] == Entry(old(objects)[x].data, old(objects)[x].refs - (if x == id then 1 else 0), old(objects)[x].spilledTo)
    {
      evicted := false;
      if id in objects {
        var left := if objects[id].refs > 0 then objects[id].refs - 1 else 0;
        objects := objects[id := objects[id].(refs := left)];
        evicted := left == 0;
      }
      if evicted {
        objects := objects - {id};
        assert objects == old(objects) - {id};
      }
    }

    /** A put run alone fails exactly when the stored bytes and its own exceed a non-zero budget; eviction never
        makes room. */
    method Put(id: ObjectId, data: Bytes) returns (ok: bool)
      requires Valid()
      modifies this`objects
      ensures Valid()
      ensures ok <==> maxMemoryBytes == 0 || Total(old(objects)) + |data| <= maxMemoryBytes
      ensures objects == if ok then old(objects)[id := Entry(data, 1, None)] else old(objects)
    {
      if maxMemoryBytes > 0 {
        var current := TotalSize();
        if current + |data| > maxMemoryBytes {
          EvictionIsIdle(objects);
          var evicted := EvictZeroRefObjects();
          current := TotalSize();
          if current + |data| > maxMemoryBytes {
            return false;
          }
        }
      }
      objects := objects[id := Inserted(data)];
      return true;
    }

    method Delete(id: ObjectId)
      requires Valid()
      modifies this`objects
      ensures Valid() && objects == old(objects) - {id}
    {
      objects := objects - {id};
    }

    /** Writes the object's bytes to its file and records where; the object stays in memory. */
    method SpillToDisk(id: ObjectId, dir: string) returns (ok: bool)
      requires Valid()
      modifies this
      ensures Valid() && (ok <==> id in old(objects))
      ensures ok ==> var entry := old(objects)[id];
                     && objects == old(objects)[id := Entry(entry.data, entry.refs, Some(dir))]
                     && disk == old(disk)[(dir, id) := entry.data]
      ensures !ok ==> objects == old(objects) && disk == old(disk)
    {
      if id !in objects {
        return false;
      }
      var data := objects[id].data;
      disk := disk[(dir, id) := data];
      objects := objects[id := objects[id].(spilledTo := Some(dir))];
      return true;
    }

    /** Reads the recorded file back, forgets it and removes it; fails without a record or without the file. */
    method RestoreFromDisk(id: ObjectId) returns (ok: bool)
      requires Valid()
      modifies this
      ensures Valid()
      ensures ok <==> id in old(objects) && old(objects)[id].spilledTo.Some? && (old(objects)[id].spilledTo.value, id) in old(disk)
      ensures ok ==> var path := (old(objects)[id].spilledTo.value, id);
                     && objects == old(objects)[id := Entry(old(disk)[path], old(objects)[id].refs, None)]
                     && disk == old(disk) - {path}
      ensures !ok ==> objects == old(objects) && disk == old(disk)
    {
      if id !in objects || objects[id].spilledTo.None? {
        return false;
      }
      var path := (objects[id].spilledTo.value, id);
      if path !in disk {
        return false;
      }
      var data := disk[path];
      objects := objects[id := objects[id].(data := data, spilledTo := None)];
      disk := disk - {path};
      return true;
    }

    /** Spilling an object and restoring it gives the same bytes back and leaves no file behind. */
    method SpillAndRestore(id: ObjectId, dir: string) returns (ok: bool)
      requires Valid()
      modifies this
      ensures Valid() && (ok <==> id in old(objects))
      ensures ok ==> objects == old(objects)[id := old(objects)[id].(spilledTo := None)] && disk == old(disk) - {(dir, id)}
    {
      ok := SpillToDisk(id, dir);
      if ok {
        ok := RestoreFromDisk(id);
      }
    }

    /** Between a spill and its restore any references may come and go, `true` adding and `false` removing one: the
        restore succeeds exactly when the object survived, with the bytes spilled, and leaves no file behind. */
    method SpillChangeRestore(id: ObjectId, dir: string, changes: seq<(ObjectId, bool)>) returns (ok: bool)
      requires Valid() && id in objects
      modifies this
      ensures Valid() && (ok <==> id in objects)
      ensures ok ==> objects[id].data == old(objects)[id].data && objects[id].spilledTo == None
      ensures disk == if ok then old(disk) - {(dir, id)} else old(disk)[(dir, id) := old(objects)[id].data]
    {
      ghost var data := objects[id].data;
      ok := SpillToDisk(id, dir);
      for i := 0 to |changes|
        invariant Valid() && disk == old(disk)[(dir, id) := data]
        invariant id in objects ==> objects[id].data == data && objects[id].spilledTo == Some(dir)
      {
        if changes[i].1 {
          AddReference(changes[i].0);
        } else {
          var gone := RemoveReference(changes[i].0);
        }
      }
      ok := RestoreFromDisk(id);
    }
  }
}
