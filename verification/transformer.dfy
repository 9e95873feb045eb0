/**
 * The record transformer: pure builders that turn a create request into the two
 * file records and the task record, the identifier scheme `{prefix}-{uuid}`, and
 * the composite response. The random UUID is a parameter (`uuid`): whoever calls
 * a builder supplies the fresh suffix.
 */
module Transformer {
  import opened Models
  import opened Requests

  const ReconFileStorePrefix: string := "RECON-FILE"
  const ReconTasksStorePrefix: string := "RECON-TASK"

  /** The topic every queue reference is created with. */
  const DefaultTopic: string := "test-topic"

  /** `{prefix}-{uuid}`: the prefix and the suffix can both be read back. */
  function GenerateUuid(prefix: string, uuid: string): (id: string)
    ensures |id| == |prefix| + 1 + |uuid|
    ensures id[..|prefix|] == prefix && id[|prefix|] == '-' && id[|prefix| + 1..] == uuid
  {
    prefix + "-" + uuid
  }

  predicate IsFileId(id: string)
  {
    ReconFileStorePrefix + "-" <= id
  }

  predicate IsTaskId(id: string)
  {
    ReconTasksStorePrefix + "-" <= id
  }

  /** Every generated file id carries the file prefix, every generated task id the task prefix. */
  lemma GeneratedIdsArePrefixed(uuid: string)
    ensures IsFileId(GenerateUuid(ReconFileStorePrefix, uuid))
    ensures IsTaskId(GenerateUuid(ReconTasksStorePrefix, uuid))
  {
  }

  /** No id is both a file id and a task id: the prefixes differ at their sixth character. */
  lemma FileAndTaskIdsDisjoint(id: string)
    ensures !(IsFileId(id) && IsTaskId(id))
  {
    if IsFileId(id) {
      assert id[6] == (ReconFileStorePrefix + "-")[6] == 'F';
    }
    if IsTaskId(id) {
      assert id[6] == (ReconTasksStorePrefix + "-")[6] == 'T';
    }
  }

  /** A generated file id never equals a generated task id, whatever the two suffixes. */
  lemma FileIdNeverTaskId(fileUuid: string, taskUuid: string)
    ensures GenerateUuid(ReconFileStorePrefix, fileUuid) != GenerateUuid(ReconTasksStorePrefix, taskUuid)
  {
    FileAndTaskIdsDisjoint(GenerateUuid(ReconFileStorePrefix, fileUuid));
  }

  /** Under one prefix, distinct suffixes give distinct ids. */
  lemma DistinctSuffixesDistinctIds(prefix: string, u1: string, u2: string)
    requires u1 != u2
    ensures GenerateUuid(prefix, u1) != GenerateUuid(prefix, u2)
  {
    var a, b := GenerateUuid(prefix, u1), GenerateUuid(prefix, u2);
    assert a[|prefix| + 1..] == u1 && b[|prefix| + 1..] == u2;
  }

  /** The file record of the request's source (primary) file. */
  function GetSrcFileDetails(request: CreateReconTaskRequest, uuid: string): (f: ReconFileMetaData)
    ensures IsFileId(f.id) && f.id == GenerateUuid(ReconFileStorePrefix, uuid)
    ensures f.reconFileType == SourceReconFile
    ensures f.fileName == request.sourceFileName && f.rowCount == request.sourceFileRowCount
    ensures f.fileHash == request.sourceFileHash
    ensures f.columnDelimiters == request.sourceFileDelimiters && f.columnHeaders == request.sourceFileHeaders
  {
    ReconFileMetaData(
      id := GenerateUuid(ReconFileStorePrefix, uuid),
      fileName := request.sourceFileName,
      rowCount := request.sourceFileRowCount,
      columnDelimiters := request.sourceFileDelimiters,
      reconFileType := SourceReconFile,
      columnHeaders := request.sourceFileHeaders,
      fileHash := request.sourceFileHash)
  }

  /** The file record of the request's comparison file. */
  function GetComparisonFileDetails(request: CreateReconTaskRequest, uuid: string): (f: ReconFileMetaData)
    ensures IsFileId(f.id) && f.id == GenerateUuid(ReconFileStorePrefix, uuid)
    ensures f.reconFileType == ComparisonReconFile
    ensures f.fileName == request.comparisonFileName && f.rowCount == request.comparisonFileRowCount
    ensures f.fileHash == request.comparisonFileHash
    ensures f.columnDelimiters == request.comparisonFileDelimiters && f.columnHeaders == request.comparisonFileHeaders
  {
    ReconFileMetaData(
      id := GenerateUuid(ReconFileStorePrefix, uuid),
      fileName := request.comparisonFileName,
      rowCount := request.comparisonFileRowCount,
      columnDelimiters := request.comparisonFileDelimiters,
      reconFileType := ComparisonReconFile,
      columnHeaders := request.comparisonFileHeaders,
      fileHash := request.comparisonFileHash)
  }

  /** A new task: begun, not done, referencing the two given file ids. */
  function GetReconTaskDetails(srcFileId: string, cmpFileId: string, request: CreateReconTaskRequest, uuid: string): (t: ReconTaskDetails)
    ensures IsTaskId(t.id) && t.id == GenerateUuid(ReconTasksStorePrefix, uuid)
    ensures !t.isDone && t.hasBegun
    ensures t.sourceFileId == srcFileId && t.comparisonFileId == cmpFileId
    ensures t.comparisonPairs == request.comparisonPairs && t.reconConfig == request.reconConfigurations
  {
    ReconTaskDetails(
      id := GenerateUuid(ReconTasksStorePrefix, uuid),
      sourceFileId := srcFileId,
      comparisonFileId := cmpFileId,
      isDone := false,
      hasBegun := true,
      comparisonPairs := request.comparisonPairs,
      reconConfig := request.reconConfigurations)
  }

  /** A file record as the data model requires it: named, hashed, at least one row, header and delimiter. */
  predicate WellFormedFile(f: ReconFileMetaData)
  {
    f.fileName != [] && f.fileHash != [] && f.rowCount >= 1 && f.columnHeaders != [] && f.columnDelimiters != []
  }

  /**
   * Validation is exactly what makes the two built file records well formed (plus a user id):
   * a request passes precisely when both records it produces satisfy the record invariants.
   */
  lemma ValidRequestIffWellFormedFiles(request: CreateReconTaskRequest, srcUuid: string, cmpUuid: string)
    ensures IsValid(request) <==>
      request.userId != []
      && WellFormedFile(GetSrcFileDetails(request, srcUuid))
      && WellFormedFile(GetComparisonFileDetails(request, cmpUuid))
  {
  }

  /**
   * The composite response of the current service generation: the task, both of its
   * file records and the queue results are published on.
   */
  datatype ReconTaskResponseDetails = ReconTaskResponseDetails(
    taskId: string,
    taskDetails: ReconTaskDetails,
    primaryFileMetadata: ReconFileMetaData,
    comparisonFileMetadata: ReconFileMetaData,
    resultsQueueInfo: FileChunkQueue)

  function BuildReconTaskDetailsResponse(
    taskDetails: ReconTaskDetails,
    primaryFileMetadata: ReconFileMetaData,
    comparisonFileMetadata: ReconFileMetaData): (r: ReconTaskResponseDetails)
    ensures r.taskId == taskDetails.id && r.taskDetails == taskDetails
    ensures r.primaryFileMetadata == primaryFileMetadata && r.comparisonFileMetadata == comparisonFileMetadata
    ensures r.resultsQueueInfo.topicId == DefaultTopic && r.resultsQueueInfo.lastAcknowledgedId.None?
  {
    ReconTaskResponseDetails(
      taskId := taskDetails.id,
      taskDetails := taskDetails,
      primaryFileMetadata := primaryFileMetadata,
      comparisonFileMetadata := comparisonFileMetadata,
      resultsQueueInfo := FileChunkQueue(DefaultTopic, None))
  }
}
