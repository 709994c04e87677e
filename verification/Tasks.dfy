/** Identifiers and task records shared by the scheduler, the store and the runtime. */
module Tasks {
  import opened Prelude
  import opened ResourceSets

  datatype TaskId = TaskId(bytes: Bytes)
  datatype ObjectId = ObjectId(bytes: Bytes)

  datatype TaskStatus = Pending | Scheduled | Running | Finished | Failed | Cancelled

  /** The fields the scheduler, executor and store read. */
  datatype TaskSpec = TaskSpec(
    taskId: TaskId,
    functionName: string,
    payload: Bytes,
    returnIds: seq<ObjectId>,
    required: Quantities)
}
