/**
 * The records the service persists: a reconciliation task and the metadata of the
 * two files it compares, with their column-matching rules and option flags.
 * Every record is a value: equality is structural and a copy equals its original.
 */
module Models {

  datatype Option<T> = None | Some(value: T)

  /** Rust's `u64`: never negative, at most 2^64 - 1. */
  type U64 = n: int | 0 <= n <= 0xFFFF_FFFF_FFFF_FFFF

  /** One rule matching a column of the source (primary) file with a column of the comparison file. */
  datatype ComparisonPair = ComparisonPair(
    sourceColumnIndex: nat,
    comparisonColumnIndex: nat,
    isRowIdentifier: bool)

  /** Four independent option flags: every one of the 16 combinations is a value. */
  datatype ReconciliationConfigs = ReconciliationConfigs(
    shouldCheckForDuplicateRecordsInComparisonFile: bool,
    shouldReconciliationBeCaseSensitive: bool,
    shouldIgnoreWhiteSpace: bool,
    shouldDoReverseReconciliation: bool)

  /** The role of a file in a task: exactly two roles exist. */
  datatype ReconFileType = SourceReconFile | ComparisonReconFile

  datatype ReconFileMetaData = ReconFileMetaData(
    id: string,
    fileName: string,
    rowCount: U64,
    columnDelimiters: seq<string>,
    reconFileType: ReconFileType,
    columnHeaders: seq<string>,
    fileHash: string)

  /** A task record; `sourceFileId` is the field the newer code calls `primary_file_id`. */
  datatype ReconTaskDetails = ReconTaskDetails(
    id: string,
    sourceFileId: string,
    comparisonFileId: string,
    isDone: bool,
    hasBegun: bool,
    comparisonPairs: seq<ComparisonPair>,
    reconConfig: ReconciliationConfigs)

  /** A queue reference: its topic and the last offset a consumer acknowledged, if any. */
  datatype FileChunkQueue = FileChunkQueue(topicId: string, lastAcknowledgedId: Option<string>)
}
