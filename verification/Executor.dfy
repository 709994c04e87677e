/** The function registry: named functions applied to task payloads. */
module Executing {
  import opened Prelude
  import opened Tasks
  import opened RuntimeModel

  datatype ExecutionError = NotRegistered | FunctionFailed

  datatype Execution = Succeeded(bytes: Bytes) | Rejected(error: ExecutionError)

  function Ran(outcome: Option<Bytes>): Execution {
    match outcome
    case Some(bytes) => Succeeded(bytes)
    case None => Rejected(FunctionFailed)
  }

  class FunctionRegistryExecutor {
    var fns: map<string, TaskFn>

    /** What executing a task yields at present. */
    ghost function Answer(spec: TaskSpec): Execution
      reads this
    {
      if spec.functionName in fns then Ran(fns[spec.functionName](spec.payload)) else Rejected(NotRegistered)
    }

    constructor ()
      ensures fns == map[]
    {
      fns := map[];
    }

    /** From now on tasks with that function name get the result of `f`, all others what they got before. */
    method RegisterFn(name: string, f: TaskFn)
      modifies this
      ensures forall spec: TaskSpec ::
                Answer(spec) == if spec.functionName == name then Ran(f(spec.payload)) else old(Answer(spec))
    {
      fns := fns[name := f];
    }

    /** From now on tasks with that function name are rejected, all others get what they got before. */
    method UnregisterFn(name: string)
      modifies this
      ensures forall spec: TaskSpec ::
                Answer(spec) == if spec.functionName == name then Rejected(NotRegistered) else old(Answer(spec))
    {
      fns := fns - {name};
    }

    /** Agrees with the outcome the runtime's transition system records for the task. */
    method Execute(spec: TaskSpec) returns (result: Execution)
      ensures Outcome(Registered(fns, spec.functionName), spec) == if result.Succeeded? then Some(result.bytes) else None
      ensures result == Answer(spec)
      ensures result == Rejected(NotRegistered) <==> spec.functionName !in fns
    {
      if spec.functionName !in fns {
        return Rejected(NotRegistered);
      }
      var f := fns[spec.functionName];
      match f(spec.payload)
      case Some(bytes) => return Succeeded(bytes);
      case None => return Rejected(FunctionFailed);
    }
  }
}
