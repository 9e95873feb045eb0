/**
 * The task store adapter: gets, creates and deletes task records by id in a
 * key-value store reached through the sidecar. The store is the `entries` map;
 * the sidecar's behaviour on the coming calls is the `pending` script.
 */
module TaskRepository {
  import opened Models
  import opened AppErrors
  import opened StateStore

  class ReconTaskDetailsRepositoryManager {
    const connectionUrl: string
    const storeName: string
    var entries: map<string, Entry<ReconTaskDetails>>
    var pending: seq<CallOutcome>
    ghost var calls: seq<RepoCall>

    /** The adapter's state as a value, for the specifications in StateStore. */
    ghost function State(): StoreState<ReconTaskDetails>
      reads this
    {
      StoreState(entries, pending, calls)
    }

    constructor (connectionUrl: string, storeName: string, entries: map<string, Entry<ReconTaskDetails>>, pending: seq<CallOutcome>)
      ensures this.connectionUrl == connectionUrl && this.storeName == storeName
      ensures State() == StoreState(entries, pending, [])
    {
      this.connectionUrl := connectionUrl;
      this.storeName := storeName;
      this.entries := entries;
      this.pending := pending;
      this.calls := [];
    }

    /** Take the sidecar's outcome for the call now being made. */
    method Connect(call: RepoCall) returns (outcome: CallOutcome)
      modifies this
      ensures outcome == NextOutcome(old(pending))
      ensures State() == Consume(old(State()), call)
    {
      outcome := NextOutcome(pending);
      if pending != [] {
        pending := pending[1..];
      }
      calls := calls + [call];
    }

    method GetTaskDetails(taskId: string) returns (r: Result<ReconTaskDetails>)
      modifies this
      ensures Step(r, State()) == Get(old(State()), taskId)
      ensures entries == old(entries)
    {
      var outcome := Connect(GetCall(taskId));
      match outcome {
        case ConnectFails(reason) =>
          r := Err(AppError(ConnectionError, reason));
        case OperationFails(reason) =>
          r := Err(AppError(NotFound, reason));
        case Succeeds =>
          if taskId !in entries {
            r := Err(AppError(NotFound, EmptyValueError));
          } else {
            match entries[taskId] {
              case Encoded(task) => r := Ok(task);
              case Malformed(reason) => r := Err(AppError(NotFound, reason));
            }
          }
      }
    }

    method CreateTaskDetails(taskDetails: ReconTaskDetails) returns (r: Result<string>)
      modifies this
      ensures Step(r, State()) == Create(old(State()), taskDetails.id, taskDetails)
      ensures r.Ok? ==> r.value == taskDetails.id && entries == old(entries)[taskDetails.id := Encoded(taskDetails)]
      ensures r.Err? ==> entries == old(entries)
    {
      var key := taskDetails.id;
      var outcome := Connect(CreateCall(key));
      match outcome {
        case ConnectFails(reason) =>
          r := Err(AppError(ConnectionError, reason));
        case OperationFails(reason) =>
          r := Err(AppError(InternalError, reason));
        case Succeeds =>
          entries := entries[key := Encoded(taskDetails)];
          r := Ok(key);
      }
    }

    method DeleteTaskDetails(taskDetailsId: string) returns (r: Result<bool>)
      modifies this
      ensures Step(r, State()) == Delete(old(State()), taskDetailsId)
      ensures r.Ok? ==> r.value && entries == old(entries) - {taskDetailsId}
      ensures r.Err? ==> entries == old(entries)
    {
      var outcome := Connect(DeleteCall(taskDetailsId));
      match outcome {
        case ConnectFails(reason) =>
          r := Err(AppError(ConnectionError, reason));
        case OperationFails(reason) =>
          r := Err(AppError(InternalError, reason));
        case Succeeds =>
          entries := entries - {taskDetailsId};
          r := Ok(true);
      }
    }
  }
}
