/**
 * What both generations of the task aggregation service share: the UUID suffixes a
 * create draws, the two stores as one value, the result of a workflow together with
 * the stores after it, and the three records a create writes.
 */
module ServiceState {
  import opened Models
  import opened AppErrors
  import opened Requests
  import opened Transformer
  import opened StateStore

  /** The fresh UUIDs a create draws, in the order it draws them. */
  datatype Suffixes = Suffixes(primaryFile: string, comparisonFile: string, task: string)

  /** Both stores as values. */
  datatype Stores = Stores(tasks: StoreState<ReconTaskDetails>, files: StoreState<ReconFileMetaData>)

  /** The result of a workflow and the stores after it. */
  datatype Run<R> = Run(result: Result<R>, stores: Stores)

  const TaskIdRequired: string := "please supply a taskID"

  function PrimaryRecord(request: CreateReconTaskRequest, ids: Suffixes): ReconFileMetaData
  {
    GetSrcFileDetails(request, ids.primaryFile)
  }

  function ComparisonRecord(request: CreateReconTaskRequest, ids: Suffixes): ReconFileMetaData
  {
    GetComparisonFileDetails(request, ids.comparisonFile)
  }

  /** The task record a create writes once both file writes have returned their ids. */
  function TaskRecord(request: CreateReconTaskRequest, ids: Suffixes): ReconTaskDetails
  {
    GetReconTaskDetails(PrimaryRecord(request, ids).id, ComparisonRecord(request, ids).id, request, ids.task)
  }
}
