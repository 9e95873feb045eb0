# Reconciliation task details repository manager — a Dafny model

The service keeps "reconciliation tasks" in a key-value state store reached through a
sidecar. A task describes a comparison job between a primary (source) file and a
comparison file. It records the ids of the two file records, whether the job has begun
and whether it is done, the column pairs to compare and four reconciliation switches.
Clients create a task over HTTP and fetch it by id.

The model covers the layers under the HTTP transport:

- **Data model** (`models.dfy`): the task record, the file record, comparison pairs, the
  reconciliation switches and the two file roles. Row counts use the subset type `U64`,
  so a row count can never be negative or above 2^64-1. Column indices are `nat`. The
  file role has exactly the two variants. All records are datatypes, so equality is
  structural and a copy is the value itself.
- **Request validation** (`requests.dfy`): the eleven field rules of a create request
  in declaration order, each with its message. `Violations` lists the message of every
  failing rule. The text of the resulting error joins those messages with `" , "`.
- **Errors** (`app_errors.dfy`): the error kinds, their display names and the display
  format `kind - [message]`.
- **Transformer** (`transformer.dfy`): the id scheme `{prefix}-{uuid}`, the builders for
  the two file records and the task record, and the composite response. The UUID is a
  parameter.
- **Flat response** (`responses.dfy`): the older generation's projection of a task to
  its id and progress flags.
- **Store adapters** (`state_store.dfy`, `task_repository.dfy`, `file_repository.dfy`):
  - Each repository is a class holding the store contents as a map, plus a script of
    outcomes for its coming calls: success, a connection failure, or a failed
    read/save/delete.
  - A record that does not decode is a `Malformed` entry.
  - Every method is proved against a value-level specification in `StateStore`.
- **Aggregation service, both generations** (`service_state.dfy`,
  `aggregation_service.dfy`, `legacy_aggregation.dfy`):
  - The create and read workflows are pure functions over both stores.
  - Each generation also has a class whose methods run the workflow on the repository
    objects and are proved equal to those functions.
- **HTTP status mapping** (`handlers.dfy`): each endpoint's reply to a set-up failure,
  a success or a service error.

Facts about the code that shape the model:

- The task record holds its two file ids as plain strings that are always present.
- Create writes both file records before it writes the task.
- The task record in `recon_tasks_models.rs` holds no queue references.
- The newer generation's records are declared outside these files. The model uses the
  record shape of `recon_tasks_models.rs`, and reads the newer `primary_*` field names
  as the `source_*` fields of that shape.
- The current service calls the transformer method `get_primary_file_details`. The
  model names it `GetSrcFileDetails`.

## Model

| member | source | states |
|---|---|---|
| AppErrors.AsStr | src/internal/models/entities/app_errors.rs:24-33 | never empty; `NotFound` displays as "TaskNotFound", which differs from its variant name; every other kind displays as its own variant name |
| AppErrors.AsStrInjective | src/internal/models/entities/app_errors.rs:28-32 | distinct kinds have distinct display names |
| AppErrors.Display | src/internal/models/entities/app_errors.rs:50-53 | the text starts with the kind's name, continues with " - [" and the message, and ends with ']' |
| AppErrors.DisplayInjective | src/internal/models/entities/app_errors.rs:51-53 | equal display texts come from equal errors, so kind and message can be read back |
| Requests.Violations | src/internal/models/view_models/requests.rs:15-46 | at most one message per rule and no message twice; the list is empty exactly when the request is valid |
| Requests.ViolationsOfNoDuplicates | src/internal/models/view_models/requests.rs:15-46 | checking pairwise distinct rules never reports the same message twice |
| Requests.ViolationReportedIffRuleFails | src/internal/models/view_models/requests.rs:15-46 | a rule's message is reported exactly when that rule fails |
| Requests.MessageInjective | src/internal/models/view_models/requests.rs:15-46 | each rule has its own message, so each failure contributes exactly its own text |
| Requests.PairsAndConfigCarryNoRule | src/internal/models/view_models/requests.rs:48-50 | changing the comparison pairs or the configuration (an empty pair list included) never changes the violations |
| Requests.EmptyUserIdInvalidates | src/internal/services/recon_tasks_aggregator_service_tests.rs:60-67 | for every valid request, emptying only the user id makes it invalid, with exactly the user id message |
| Requests.ReplaceNewlinesOfJoin | src/internal/services/recon_tasks_aggregator_service.rs:36 | replacing newlines in single-line messages joined by newlines gives the messages joined by " , " |
| Requests.MessageIsSingleLine | src/internal/models/view_models/requests.rs:15-46 | no rule message contains a newline |
| Requests.ValidationErrorText | src/internal/services/recon_tasks_aggregator_service.rs:36 | the bad-request text, the newline-separated report with its newlines replaced, is the violated rules' messages joined by " , " |
| Responses.FromTaskDetails | src/internal/models/view_models/responses.rs:12-19 | total; the view's id and progress flags are the record's |
| Responses.ProjectionForgetsFilesPairsAndConfig | src/internal/models/view_models/responses.rs:13-19 | two records have the same view exactly when they agree on id and both flags, whatever their file ids, pairs and configuration |
| Transformer.GenerateUuid | src/internal/services/core_logic/transfomer.rs:89-94 | the id is the prefix, '-', then the suffix; both parts can be read back |
| Transformer.GeneratedIdsArePrefixed | src/internal/services/core_logic/transfomer.rs:15-16 | generated file ids start with "RECON-FILE-"; generated task ids start with "RECON-TASK-" |
| Transformer.FileAndTaskIdsDisjoint | src/internal/services/core_logic/transfomer.rs:15-16 | no id is both a file id and a task id |
| Transformer.FileIdNeverTaskId | src/internal/services/core_logic/transfomer.rs:90-93 | a generated file id never equals a generated task id, whatever the suffixes |
| Transformer.DistinctSuffixesDistinctIds | src/internal/services/core_logic/transfomer.rs:90-93 | under one prefix, distinct suffixes give distinct ids |
| Transformer.GetSrcFileDetails | src/internal/services/core_logic/transfomer.rs:39-53 | the file id is built from the given suffix and carries the file prefix; the role is source; name, row count, hash, delimiters and headers are copied from the request |
| Transformer.GetComparisonFileDetails | src/internal/services/core_logic/transfomer.rs:55-69 | the same for the comparison fields, with the comparison role |
| Transformer.GetReconTaskDetails | src/internal/services/core_logic/transfomer.rs:71-86 | the task id carries the task prefix; the task is not done and has begun; the file ids are the arguments; pairs and configuration are copied |
| Transformer.ValidRequestIffWellFormedFiles | src/internal/models/view_models/requests.rs:15-46 | a request is valid exactly when it has a user id and both file records built from it are well formed |
| Transformer.BuildReconTaskDetailsResponse | src/internal/services/core_logic/transfomer.rs:21-37 | the response id is the task's id; it carries the task and both file records unchanged; the results queue is "test-topic" with no acknowledged id |
| StateStore.Get | src/external/repositories/recon_task_details_repo.rs:18-45 | succeeds exactly when the sidecar is reachable and the key holds a decodable record, and returns that record; otherwise `ConnectionError` for a failed connection and `NotFound` for an absent key, a failed read or undecodable bytes; contents unchanged |
| StateStore.Create | src/external/repositories/recon_task_details_repo.rs:47-75 | succeeds exactly when the sidecar accepts the call; the record is then stored under the given key, which is returned; otherwise `ConnectionError` (connection) or `InternalError` (save) with contents unchanged |
| StateStore.Delete | src/external/repositories/recon_task_details_repo.rs:97-119 | succeeds exactly when the sidecar accepts the call; the key is then absent and true is returned, whether or not it was present; otherwise `ConnectionError` or `InternalError` with contents unchanged |
| StateStore.GetAfterCreate | src/external/repositories/recon_task_details_repo.rs:37-39 | after a successful create of a value, a reachable get of its key returns that value |
| StateStore.GetAfterDelete | src/external/repositories/recon_task_details_repo.rs:111-118 | after a successful delete, a get of the key fails; it fails with `NotFound` when the sidecar is reachable |
| StateStore.CreateAndDeleteAreLocal | src/external/repositories/recon_task_details_repo.rs:63-72 | create and delete leave every other key as it was |
| TaskRepository.ReconTaskDetailsRepositoryManager.GetTaskDetails | src/external/repositories/recon_task_details_repo.rs:18-45 | result and new state are `StateStore.Get` of the old state under the task id; the contents never change |
| TaskRepository.ReconTaskDetailsRepositoryManager.CreateTaskDetails | src/external/repositories/recon_task_details_repo.rs:47-75 | result and new state are `StateStore.Create` under the record's own id: on success the record is stored under its id and the id returned; on failure the contents are unchanged |
| TaskRepository.ReconTaskDetailsRepositoryManager.DeleteTaskDetails | src/external/repositories/recon_task_details_repo.rs:97-119 | result and new state are `StateStore.Delete`: on success the key is removed and true returned; on failure the contents are unchanged |
| TaskRepository.ReconTaskDetailsRepositoryManager.Connect | src/external/repositories/recon_task_details_repo.rs:20-29 | each call takes the sidecar's next outcome and is logged |
| FileRepository.ReconFileDetailsRepositoryManager.GetConnectionString | src/external/repositories/recon_file_details_repo.rs:18-20 | returns the configured connection url unchanged |
| FileRepository.ReconFileDetailsRepositoryManager.GetStoreName | src/external/repositories/recon_file_details_repo.rs:22-24 | returns the configured store name unchanged |
| FileRepository.ReconFileDetailsRepositoryManager.GetReconFileDetails | src/external/repositories/recon_file_details_repo.rs:26-59 | as `GetTaskDetails`, for file records |
| FileRepository.ReconFileDetailsRepositoryManager.CreateReconFileDetails | src/external/repositories/recon_file_details_repo.rs:61-91 | as `CreateTaskDetails`, for file records |
| FileRepository.ReconFileDetailsRepositoryManager.DeleteReconFileDetails | src/external/repositories/recon_file_details_repo.rs:100-123 | as `DeleteTaskDetails`, for file records |
| FileRepository.ReconFileDetailsRepositoryManager.Connect | src/external/repositories/recon_file_details_repo.rs:30-42 | each call takes the sidecar's next outcome and is logged |
| AggregationService.CreateRun | src/internal/services/recon_tasks_aggregator_service.rs:26-68 | an invalid request gives `BadClientRequest` with the violated messages joined by " , " and no store call; success needs a valid request; the task contents end unchanged or with the task record added; the file contents end unchanged, with the primary record added, or with both records added; if the task store was called, both file records are stored |
| AggregationService.GetRun | src/internal/services/recon_tasks_aggregator_service.rs:70-104 | never changes either store's contents; an empty id gives `BadClientRequest` "please supply a taskID" with no store call |
| AggregationService.GetRejectsEmptyIdWithoutStoreCall | src/internal/services/recon_tasks_aggregator_service.rs:72-77 | an empty id gives `BadClientRequest` "please supply a taskID" and both stores are untouched |
| AggregationService.GetHydratesBothFiles | src/internal/services/recon_tasks_aggregator_service.rs:80-103 | a read succeeds only when the task and both files it names decode, and then answers with the built response of those three records; with a reachable sidecar and all three present, it succeeds |
| AggregationService.GetReadsInOrder | src/internal/services/recon_tasks_aggregator_service.rs:80-95 | reads the task, then the primary file, then the comparison file, each only after the previous read succeeded; whichever of the three reads fails first, its error is returned unchanged |
| AggregationService.GetUnknownIdIsNotFound | src/internal/services/recon_tasks_aggregator_service.rs:80-83 | an id the task store lacks fails, with `NotFound` when the sidecar is reachable |
| AggregationService.InvalidRequestMakesNoStoreCall | src/internal/services/recon_tasks_aggregator_service.rs:31-39 | an invalid request gives `BadClientRequest` with the violated messages joined by " , ", and both stores are untouched |
| AggregationService.PrimaryWriteFailureAborts | src/internal/services/recon_tasks_aggregator_service.rs:43-46 | a failed primary write's error (`ConnectionError` or `InternalError`) is returned unchanged; no other file is written and the task store is untouched |
| AggregationService.ComparisonWriteFailureAborts | src/internal/services/recon_tasks_aggregator_service.rs:51-54 | after a successful primary write, a failed comparison write's error is returned unchanged; only the primary record is stored and the task store is untouched |
| AggregationService.TaskWriteFailureAborts | src/internal/services/recon_tasks_aggregator_service.rs:61-64 | after both file writes succeed, a failed task write's error is returned unchanged; the task is not read back and the task contents are unchanged |
| AggregationService.TaskWrittenOnlyAfterBothFiles | src/internal/services/recon_tasks_aggregator_service.rs:41-64 | the task store is called only for a valid request, after both file creates succeeded; the task written references the two file ids, and both are stored |
| AggregationService.SuccessfulCreateAnswersWithWrittenRecords | src/internal/services/recon_tasks_aggregator_service.rs:41-67 | a success performs exactly two file writes, one task write and the re-read; it answers with the written task and file records |
| AggregationService.FaultFreeCreateSucceeds | src/internal/services/recon_tasks_aggregator_service.rs:26-68 | a valid request with a fault-free sidecar and distinct file suffixes creates a begun, not-done task; its id carries the task prefix and differs from both file ids |
| AggregationService.ReconTaskAggregationService.CreateReconTask | src/internal/services/recon_tasks_aggregator_service.rs:26-68 | result and new repository states are those of `CreateRun` on the old states |
| AggregationService.ReconTaskAggregationService.GetReconTask | src/internal/services/recon_tasks_aggregator_service.rs:70-104 | result and new repository states are those of `GetRun`; neither store's contents change |
| LegacyAggregation.CreateRun | src/internal/services/recon_tasks_aggregator.rs:30-74 | as `AggregationService.CreateRun`: an invalid request gives `BadClientRequest` with no store call; success needs a valid request; each store ends unchanged or with only the records the workflow writes, in order; if the task store was called, both file records are stored |
| LegacyAggregation.GetRun | src/internal/services/recon_tasks_aggregator.rs:76-96 | the file store is never called; an empty id gives `BadClientRequest` "please supply a taskID" with no store call |
| LegacyAggregation.GetReadsOnlyTheTask | src/internal/services/recon_tasks_aggregator.rs:85-95 | one task read; succeeds exactly when the task is reachable and decodes, and then answers with its flat view; otherwise returns the read's error |
| LegacyAggregation.InvalidRequestMakesNoStoreCall | src/internal/services/recon_tasks_aggregator.rs:35-43 | an invalid request gives `BadClientRequest` with the violated messages joined by " , ", and both stores are untouched |
| LegacyAggregation.ListlessRequestIsRejected | src/internal/services/recon_tasks_aggregator.rs:294-319 | empty header and delimiter lists reject the request, with all four list messages reported, before any store call |
| LegacyAggregation.CreateAnswersWithRereadTask | src/internal/services/recon_tasks_aggregator.rs:73 | the answer is the view of the record read back from the task store under the returned id |
| LegacyAggregation.SuccessfulCreateAnswersWithWrittenTask | src/internal/services/recon_tasks_aggregator.rs:44-73 | a success writes the source file, the comparison file, then the task, and re-reads the task; it answers with the task's id, not done and begun |
| LegacyAggregation.PrimaryWriteFailureAborts | src/internal/services/recon_tasks_aggregator.rs:47-50 | a failed source file write's error is returned unchanged; nothing else is written and the task store is untouched |
| LegacyAggregation.ComparisonWriteFailureAborts | src/internal/services/recon_tasks_aggregator.rs:55-58 | after a successful source write, a failed comparison write's error is returned unchanged; only the source record is stored and the task store is untouched |
| LegacyAggregation.TaskWriteFailureAborts | src/internal/services/recon_tasks_aggregator.rs:67-70 | after both file writes succeed, a failed task write's error is returned unchanged; the task is not read back and the task contents are unchanged |
| LegacyAggregation.GenerationsWriteTheSame | src/internal/services/recon_tasks_aggregator.rs:30-74 | both generations leave the same store contents and task-store calls; when the current one succeeds, the older one answers with the flat view of the same task |
| LegacyAggregation.ReconTaskAggregationService.CreateReconTask | src/internal/services/recon_tasks_aggregator.rs:30-74 | result and new repository states are those of `CreateRun` on the old states |
| LegacyAggregation.ReconTaskAggregationService.GetReconTask | src/internal/services/recon_tasks_aggregator.rs:76-96 | result and new states are those of `GetRun`; the file repository is unchanged |
| Handlers.ErrorStatus | src/internal/web_api/handlers.rs:29-36 | only 400, 404 or 500; 404 exactly for a missing task on the get endpoint; 400 exactly for a bad request |
| Handlers.Respond | src/internal/web_api/handlers.rs:17-57 | 200 exactly for a completed, successful call; a set-up failure gives 500 |
| Handlers.StatusesAreFromTheFixedSet | src/internal/web_api/handlers.rs:17-100 | every endpoint answers only 200, 400, 404 or 500 |
| Handlers.GetEndpointStatusTable | src/internal/web_api/handlers.rs:29-36 | get: a value gives 200 with it as the body; `NotFound` gives 404; `BadClientRequest` gives 400; any other kind gives 500 |
| Handlers.WriteEndpointsNeverAnswerNotFound | src/internal/web_api/handlers.rs:50-56 | create and attach never answer 404; a `NotFound` error gives 500 there |
| Handlers.ErrorRepliesDetermineTheError | src/internal/web_api/handlers.rs:32-34 | an error reply's body is the error's display text; two failures with the same reply are the same error |
| Handlers.SetupFailureIsServerError | src/internal/web_api/handlers.rs:21-24 | a set-up failure answers 500 with the set-up error's text |

## Left out

- **Dapr client.** The sidecar connection and its gRPC calls are foreign I/O. The scripted `CallOutcome` of each call stands in for them. A failed read carries no wire-level detail beyond the reason text.
- **JSON encoding and decoding.** Serde is a foreign library. Records are stored as values. A value that does not decode is a `Malformed` entry. `EmptyValueError` stands in for the decoder's complaint about an absent key.
- **Validator text.** The validator crate's own text, and the order in which it lists failures, are not modelled. That text is taken to be the rule messages in declaration order, one per line.
- **Randomness.** `Uuid::new_v4` randomness is left out. Callers pass the suffixes (`Suffixes`), so freshness is an assumption stated where it is needed: distinct file suffixes.
- **Update stubs.** `update_task_details` returns a hard-coded record and `update_recon_file_details` is unimplemented. Neither has real behaviour to model.
- **Attach workflows.** The attach-primary and attach-comparison workflows have no service implementation, and the service interface declares only create and get. Only their handlers' status mapping is modelled.
- **HTTP plumbing.** Actix routing, JSON extraction, the server bootstrap and the environment settings are left out. The service set-up is a parameter (`ServiceCall.SetupFailed`).
- **Shared key space.** `setup_service` gives both adapters the same store name, so task and file records share one key space. The model gives each adapter its own map. Ids the service generates never collide (`FileAndTaskIdsDisjoint`), but a client-supplied id can name a record of the other kind, and there the model differs:
  - Reading a file id as a task finds the file's JSON, which does not decode as a task. The source answers `NotFound` with the decoder's missing-field text. The model answers `NotFound` with `EmptyValueError`, the text for an absent key.
  - Deleting a task by a file id removes the file record in the source. In the model the file store is not touched.
  - The same holds the other way round for file reads and deletes given a task id.
- **Async and interfaces.** Async execution and the interface traits are left out. Calls are sequential, and the concrete classes stand in for the traits.
- **Queue references on file records.** The newer transformer also gives each file record a queue reference with topic "test-topic". The file record used here, from `recon_tasks_models.rs`, has no such field. Only the composite response's results queue is modelled.
- **Legacy builders.** The older service's inline builders and `generate_uuid` are not modelled separately. Their bodies are identical to the transformer's up to the `primary_*` renaming and the file records' queue reference listed above, so both generations use `GetSrcFileDetails`, `GetComparisonFileDetails` and `GetReconTaskDetails`.
- **Diverging re-read.** The model's store always reads back what was written. A store that returns a different record than it saved, as the mocked repository in the older service's test does, cannot be expressed. `CreateAnswersWithRereadTask` states that the answer comes from the re-read.
- **Reply encoding.** A reply body is modelled as the value or the error's display text. Its encoding as a JSON string is left out.
- `Requests.ValidationErrorText` is weaker than the real behaviour: it fixes the separator and the messages, not the validator crate's own wording around them.
- `AggregationService.GetHydratesBothFiles` relates success to the stored records as they were before the read. The failure side is stated by `GetReadsInOrder`.
