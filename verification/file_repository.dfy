/**
 * The file metadata store adapter: gets, creates and deletes file records by id in a
 * key-value store reached through the sidecar. The store is the `entries` map;
 * the sidecar's behaviour on the coming calls is the `pending` script.
 */
module FileRepository {
  import opened Models
  import opened AppErrors
  import opened StateStore

  class ReconFileDetailsRepositoryManager {
    const connectionUrl: string
    const storeName: string
    var entries: map<string, Entry<ReconFileMetaData>>
    var pending: seq<CallOutcome>
    ghost var calls: seq<RepoCall>

    /** The configured sidecar address, unchanged. */
    function GetConnectionString(): (s: string)
      ensures s == connectionUrl
    {
      connectionUrl
    }

    /** The configured logical store name, unchanged. */
    function GetStoreName(): (s: string)
      ensures s == storeName
    {
      storeName
    }

    /** The adapter's state as a value, for the specifications in StateStore. */
    ghost function State(): StoreState<ReconFileMetaData>
      reads this
    {
      StoreState(entries, pending, calls)
    }

    constructor (connectionUrl: string, storeName: string, entries: map<string, Entry<ReconFileMetaData>>, pending: seq<CallOutcome>)
      ensures this.connectionUrl == connectionUrl && this.storeName == storeName
      ensures State() == StoreState(entries, pending, [])
    {
      this.connectionUrl := connectionUrl;
      this.storeName := storeName;
      this.entries := entries;
      this.pending := pending;
      this.calls := [];
    }

    /** Take the sidecar's outcome for the call now being made. */
    method Connect(call: RepoCall) returns (outcome: CallOutcome)
      modifies this
      ensures outcome == NextOutcome(old(pending))
      ensures State() == Consume(old(State()), call)
    {
      outcome := NextOutcome(pending);
      if pending != [] {
        pending := pending[1..];
      }
      calls := calls + [call];
    }

    method GetReconFileDetails(fileId: string) returns (r: Result<ReconFileMetaData>)
      modifies this
      ensures Step(r, State()) == Get(old(State()), fileId)
      ensures entries == old(entries)
    {
      var outcome := Connect(GetCall(fileId));
      match outcome {
        case ConnectFails(reason) =>
          r := Err(AppError(ConnectionError, reason));
        case OperationFails(reason) =>
          r := Err(AppError(NotFound, reason));
        case Succeeds =>
          if fileId !in entries {
            r := Err(AppError(NotFound, EmptyValueError));
          } else {
            match entries[fileId] {
              case Encoded(file) => r := Ok(file);
              case Malformed(reason) => r := Err(AppError(NotFound, reason));
            }
          }
      }
    }

    method CreateReconFileDetails(fileDetails: ReconFileMetaData) returns (r: Result<string>)
      modifies this
      ensures Step(r, State()) == Create(old(State()), fileDetails.id, fileDetails)
      ensures r.Ok? ==> r.value == fileDetails.id && entries == old(entries)[fileDetails.id := Encoded(fileDetails)]
      ensures r.Err? ==> entries == old(entries)
    {
      var key := fileDetails.id;
      var outcome := Connect(CreateCall(key));
      match outcome {
        case ConnectFails(reason) =>
          r := Err(AppError(ConnectionError, reason));
        case OperationFails(reason) =>
          r := Err(AppError(InternalError, reason));
        case Succeeds =>
          entries := entries[key := Encoded(fileDetails)];
          r := Ok(key);
      }
    }

    method DeleteReconFileDetails(fileId: string) returns (r: Result<bool>)
      modifies this
      ensures Step(r, State()) == Delete(old(State()), fileId)
      ensures r.Ok? ==> r.value && entries == old(entries) - {fileId}
      ensures r.Err? ==> entries == old(entries)
    {
      var outcome := Connect(DeleteCall(fileId));
      match outcome {
        case ConnectFails(reason) =>
          r := Err(AppError(ConnectionError, reason));
        case OperationFails(reason) =>
          r := Err(AppError(InternalError, reason));
        case Succeeds =>
          entries := entries - {fileId};
          r := Ok(true);
      }
    }
  }
}
