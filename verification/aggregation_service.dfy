/**
 * The current task aggregation service. Creating a task validates the request,
 * writes the primary file record, then the comparison file record, then the task
 * record referencing the two ids those writes returned, and finally answers with
 * a fresh read of the task; the first failing step ends the workflow with its
 * error. Reading a task rejects an empty id, then reads the task, its primary file
 * and its comparison file, in that order.
 *
 * `CreateRun` and `GetRun` state each workflow over the two stores as values; the
 * methods of `ReconTaskAggregationService` perform it on the repository objects and
 * are proved to match.
 */
module AggregationService {
  import opened Models
  import opened AppErrors
  import opened Requests
  import opened Transformer
  import opened StateStore
  import opened TaskRepository
  import opened FileRepository
  import opened ServiceState

  /** `get_recon_task`: a read-only workflow of at most three reads. */
  function GetRun(taskId: string, st: Stores): (r: Run<ReconTaskResponseDetails>)
    ensures r.stores.tasks.entries == st.tasks.entries && r.stores.files.entries == st.files.entries
    ensures taskId == [] ==> r == Run(Err(AppError(BadClientRequest, TaskIdRequired)), st)
  {
    if taskId == [] then Run(Err(AppError(BadClientRequest, TaskIdRequired)), st)
    else
      var task := Get(st.tasks, taskId);
      if task.result.Err? then Run(Err(task.result.error), Stores(task.after, st.files))
      else
        var details := task.result.value;
        var src := Get(st.files, details.sourceFileId);
        if src.result.Err? then Run(Err(src.result.error), Stores(task.after, src.after))
        else
          var cmp := Get(src.after, details.comparisonFileId);
          if cmp.result.Err? then Run(Err(cmp.result.error), Stores(task.after, cmp.after))
          else Run(Ok(BuildReconTaskDetailsResponse(details, src.result.value, cmp.result.value)), Stores(task.after, cmp.after))
  }

  /** `create_recon_task`: validate, three writes, then a read, stopping at the first failure. */
  function CreateRun(request: CreateReconTaskRequest, ids: Suffixes, st: Stores): (r: Run<ReconTaskResponseDetails>)
    ensures !IsValid(request) ==>
      r == Run(Err(AppError(BadClientRequest, Join(Violations(request), " , "))), st)
    ensures r.result.Ok? ==> IsValid(request)
    ensures var t := TaskRecord(request, ids);
      || r.stores.tasks.entries == st.tasks.entries
      || r.stores.tasks.entries == st.tasks.entries[t.id := Encoded(t)]
    ensures var p, c := PrimaryRecord(request, ids), ComparisonRecord(request, ids);
      || r.stores.files.entries == st.files.entries
      || r.stores.files.entries == st.files.entries[p.id := Encoded(p)]
      || r.stores.files.entries == st.files.entries[p.id := Encoded(p)][c.id := Encoded(c)]
    ensures var p, c := PrimaryRecord(request, ids), ComparisonRecord(request, ids);
      r.stores.tasks.calls != st.tasks.calls ==>
        r.stores.files.entries == st.files.entries[p.id := Encoded(p)][c.id := Encoded(c)]
  {
    if Violations(request) != [] then Run(Err(AppError(BadClientRequest, ValidationErrorText(request))), st)
    else
      var srcFileDetails := PrimaryRecord(request, ids);
      var src := Create(st.files, srcFileDetails.id, srcFileDetails);
      if src.result.Err? then Run(Err(src.result.error), Stores(st.tasks, src.after))
      else
        var cmpFileDetails := ComparisonRecord(request, ids);
        var cmp := Create(src.after, cmpFileDetails.id, cmpFileDetails);
        if cmp.result.Err? then Run(Err(cmp.result.error), Stores(st.tasks, cmp.after))
        else
          var taskDetails := GetReconTaskDetails(src.result.value, cmp.result.value, request, ids.task);
          var task := Create(st.tasks, taskDetails.id, taskDetails);
          if task.result.Err? then Run(Err(task.result.error), Stores(task.after, cmp.after))
          else GetRun(task.result.value, Stores(task.after, cmp.after))
  }

  /** An empty id is rejected before any store is called. */
  lemma GetRejectsEmptyIdWithoutStoreCall(st: Stores)
    ensures GetRun("", st).result == Err(AppError(BadClientRequest, "please supply a taskID"))
    ensures GetRun("", st).stores == st
  {
  }

  /**
   * A read succeeds exactly when the task and both files it names decode, and the
   * answer is then assembled from those three records.
   */
  lemma GetHydratesBothFiles(taskId: string, st: Stores)
    ensures var r := GetRun(taskId, st);
      r.result.Ok? ==>
        && taskId in st.tasks.entries && st.tasks.entries[taskId].Encoded?
        && var task := st.tasks.entries[taskId].value;
        && task.sourceFileId in st.files.entries && st.files.entries[task.sourceFileId].Encoded?
        && task.comparisonFileId in st.files.entries && st.files.entries[task.comparisonFileId].Encoded?
        && r.result.value == BuildReconTaskDetailsResponse(
             task, st.files.entries[task.sourceFileId].value, st.files.entries[task.comparisonFileId].value)
    ensures var r := GetRun(taskId, st);
      (&& taskId != [] && st.tasks.pending == [] && st.files.pending == []
       && taskId in st.tasks.entries && st.tasks.entries[taskId].Encoded?
       && st.tasks.entries[taskId].value.sourceFileId in st.files.entries
       && st.files.entries[st.tasks.entries[taskId].value.sourceFileId].Encoded?
       && st.tasks.entries[taskId].value.comparisonFileId in st.files.entries
       && st.files.entries[st.tasks.entries[taskId].value.comparisonFileId].Encoded?)
      ==> r.result.Ok?
  {
    if taskId != [] {
      var task := Get(st.tasks, taskId);
      if task.result.Ok? {
        var src := Get(st.files, task.result.value.sourceFileId);
        assert src.after.entries == st.files.entries;
        if st.files.pending == [] {
          assert src.after.pending == [];
        }
      }
    }
  }

  /**
   * The reads happen in the order task, primary file, comparison file, each only if the
   * one before it succeeded, and the first failing read's error is the answer.
   */
  lemma GetReadsInOrder(taskId: string, st: Stores)
    requires taskId != []
    ensures var r := GetRun(taskId, st);
      var task := Get(st.tasks, taskId);
      && r.stores.tasks.calls == st.tasks.calls + [GetCall(taskId)]
      && (task.result.Err? ==> r.result == Err(task.result.error) && r.stores.files == st.files)
      && (task.result.Ok? ==>
            var src := Get(st.files, task.result.value.sourceFileId);
            && |r.stores.files.calls| > |st.files.calls|
            && r.stores.files.calls[..|st.files.calls| + 1] == st.files.calls + [GetCall(task.result.value.sourceFileId)]
            && (src.result.Err? ==> r.result == Err(src.result.error) && r.stores.files == src.after)
            && (src.result.Ok? ==>
                  var cmp := Get(src.after, task.result.value.comparisonFileId);
                  && r.stores.files.calls == st.files.calls + [GetCall(task.result.value.sourceFileId), GetCall(task.result.value.comparisonFileId)]
                  && (cmp.result.Err? ==> r.result == Err(cmp.result.error))))
  {
    var task := Get(st.tasks, taskId);
    if task.result.Ok? {
      var src := Get(st.files, task.result.value.sourceFileId);
      if src.result.Ok? {
        var cmp := Get(src.after, task.result.value.comparisonFileId);
        assert cmp.after.calls == st.files.calls + [GetCall(task.result.value.sourceFileId)] + [GetCall(task.result.value.comparisonFileId)];
      }
    }
  }

  /** A read of an id the task store does not hold reports `NotFound` once the sidecar is reachable. */
  lemma GetUnknownIdIsNotFound(taskId: string, st: Stores)
    requires taskId != [] && taskId !in st.tasks.entries
    ensures GetRun(taskId, st).result.Err?
    ensures NextOutcome(st.tasks.pending) == Succeeds ==> GetRun(taskId, st).result.error.kind == NotFound
  {
  }

  /** An invalid request is answered with `BadClientRequest` listing every violated rule, and no store is called. */
  lemma InvalidRequestMakesNoStoreCall(request: CreateReconTaskRequest, ids: Suffixes, st: Stores)
    requires !IsValid(request)
    ensures CreateRun(request, ids, st) == Run(Err(AppError(BadClientRequest, Join(Violations(request), " , "))), st)
  {
  }

  /**
   * If the primary file write fails, its error (`ConnectionError` or `InternalError`) is the
   * answer, and neither the comparison file nor the task is written.
   */
  lemma PrimaryWriteFailureAborts(request: CreateReconTaskRequest, ids: Suffixes, st: Stores)
    requires IsValid(request)
    requires NextOutcome(st.files.pending) != Succeeds
    ensures var r, p := CreateRun(request, ids, st), PrimaryRecord(request, ids);
      && r.result == Err(Create(st.files, p.id, p).result.error)
      && r.result.error.kind == (if NextOutcome(st.files.pending).ConnectFails? then ConnectionError else InternalError)
      && r.stores.tasks == st.tasks
      && r.stores.files.entries == st.files.entries
      && r.stores.files.calls == st.files.calls + [CreateCall(p.id)]
  {
  }

  /**
   * If the primary file write succeeds but the comparison file write fails, the latter's error
   * is the answer: only the primary record was stored and the task store is untouched.
   */
  lemma ComparisonWriteFailureAborts(request: CreateReconTaskRequest, ids: Suffixes, st: Stores)
    requires IsValid(request)
    requires NextOutcome(st.files.pending) == Succeeds
    requires NextOutcome(Consume(st.files, CreateCall(PrimaryRecord(request, ids).id)).pending) != Succeeds
    ensures var r, p, c := CreateRun(request, ids, st), PrimaryRecord(request, ids), ComparisonRecord(request, ids);
      var src := Create(st.files, p.id, p);
      && r.result == Err(Create(src.after, c.id, c).result.error)
      && r.result.error.kind == (if NextOutcome(src.after.pending).ConnectFails? then ConnectionError else InternalError)
      && r.stores.tasks == st.tasks
      && r.stores.files.entries == st.files.entries[p.id := Encoded(p)]
      && r.stores.files.calls == st.files.calls + [CreateCall(p.id), CreateCall(c.id)]
  {
  }

  /**
   * If both file writes succeed but the task write fails, its error is the answer and the task
   * is not read back: the task store saw only the failed create and its contents are unchanged.
   */
  lemma TaskWriteFailureAborts(request: CreateReconTaskRequest, ids: Suffixes, st: Stores)
    requires IsValid(request)
    requires NextOutcome(st.files.pending) == Succeeds
    requires NextOutcome(Consume(st.files, CreateCall(PrimaryRecord(request, ids).id)).pending) == Succeeds
    requires NextOutcome(st.tasks.pending) != Succeeds
    ensures var r, p, c, t := CreateRun(request, ids, st), PrimaryRecord(request, ids), ComparisonRecord(request, ids), TaskRecord(request, ids);
      && r.result == Err(Create(st.tasks, t.id, t).result.error)
      && r.result.error.kind == (if NextOutcome(st.tasks.pending).ConnectFails? then ConnectionError else InternalError)
      && r.stores.tasks.calls == st.tasks.calls + [CreateCall(t.id)]
      && r.stores.tasks.entries == st.tasks.entries
      && r.stores.files.entries == st.files.entries[p.id := Encoded(p)][c.id := Encoded(c)]
      && r.stores.files.calls == st.files.calls + [CreateCall(p.id), CreateCall(c.id)]
  {
  }

  /**
   * The task store is touched only after both file records were written: then the request
   * was valid, the file store received the two creates first and both succeeded, and the
   * task written references two keys the file store holds.
   */
  lemma TaskWrittenOnlyAfterBothFiles(request: CreateReconTaskRequest, ids: Suffixes, st: Stores)
    ensures var r := CreateRun(request, ids, st);
      var p, c, t := PrimaryRecord(request, ids), ComparisonRecord(request, ids), TaskRecord(request, ids);
      r.stores.tasks.calls != st.tasks.calls ==>
        && IsValid(request)
        && Create(st.files, p.id, p).result.Ok?
        && Create(Create(st.files, p.id, p).after, c.id, c).result.Ok?
        && |r.stores.files.calls| >= |st.files.calls| + 2
        && r.stores.files.calls[..|st.files.calls| + 2] == st.files.calls + [CreateCall(p.id), CreateCall(c.id)]
        && r.stores.tasks.calls[|st.tasks.calls|] == CreateCall(t.id)
        && t.sourceFileId == p.id && t.comparisonFileId == c.id
        && p.id in r.stores.files.entries && c.id in r.stores.files.entries
        && r.stores.files.entries[c.id] == Encoded(c)
        && (p.id != c.id ==> r.stores.files.entries[p.id] == Encoded(p))
  {
    var r := CreateRun(request, ids, st);
    if r.stores.tasks.calls != st.tasks.calls {
      var p, c := PrimaryRecord(request, ids), ComparisonRecord(request, ids);
      var src := Create(st.files, p.id, p);
      var cmp := Create(src.after, c.id, c);
      assert src.result.Ok? && cmp.result.Ok?;
      var task := Create(st.tasks, TaskRecord(request, ids).id, TaskRecord(request, ids));
      if task.result.Ok? {
        GetReadsInOrder(task.result.value, Stores(task.after, cmp.after));
      }
      assert cmp.after.calls == st.files.calls + [CreateCall(p.id), CreateCall(c.id)];
      assert r.stores.files.calls[..|st.files.calls| + 2] == cmp.after.calls;
    }
  }

  /** A successful create validated, wrote all three records, and answers with the re-read of the task. */
  lemma SuccessfulCreateRereadsTheTask(request: CreateReconTaskRequest, ids: Suffixes, st: Stores)
    requires CreateRun(request, ids, st).result.Ok?
    ensures var p, c, t := PrimaryRecord(request, ids), ComparisonRecord(request, ids), TaskRecord(request, ids);
      var src := Create(st.files, p.id, p);
      var cmp := Create(src.after, c.id, c);
      var task := Create(st.tasks, t.id, t);
      && IsValid(request) && src.result.Ok? && cmp.result.Ok? && task.result.Ok?
      && CreateRun(request, ids, st) == GetRun(t.id, Stores(task.after, cmp.after))
  {
  }

  /**
   * A successful create performed exactly two file writes and one task write, each followed by
   * the re-read, and answers with the task it built and the file records it wrote.
   */
  lemma SuccessfulCreateAnswersWithWrittenRecords(request: CreateReconTaskRequest, ids: Suffixes, st: Stores)
    requires CreateRun(request, ids, st).result.Ok?
    ensures var r := CreateRun(request, ids, st);
      var p, c, t := PrimaryRecord(request, ids), ComparisonRecord(request, ids), TaskRecord(request, ids);
      && IsValid(request)
      && r.stores.files.calls == st.files.calls + [CreateCall(p.id), CreateCall(c.id), GetCall(p.id), GetCall(c.id)]
      && r.stores.tasks.calls == st.tasks.calls + [CreateCall(t.id), GetCall(t.id)]
      && r.stores.tasks.entries == st.tasks.entries[t.id := Encoded(t)]
      && r.stores.files.entries == st.files.entries[p.id := Encoded(p)][c.id := Encoded(c)]
      && r.result.value.taskId == t.id && IsTaskId(t.id)
      && r.result.value.taskDetails == t && !t.isDone && t.hasBegun
      && r.result.value.comparisonFileMetadata == c
      && (ids.primaryFile != ids.comparisonFile ==> r.result.value.primaryFileMetadata == p)
  {
    var p, c, t := PrimaryRecord(request, ids), ComparisonRecord(request, ids), TaskRecord(request, ids);
    var src := Create(st.files, p.id, p);
    var cmp := Create(src.after, c.id, c);
    var task := Create(st.tasks, t.id, t);
    var written := Stores(task.after, cmp.after);
    SuccessfulCreateRereadsTheTask(request, ids, st);
    var r := GetRun(t.id, written);
    assert written.tasks.entries == st.tasks.entries[t.id := Encoded(t)];
    assert written.files.entries == st.files.entries[p.id := Encoded(p)][c.id := Encoded(c)];
    assert written.files.calls == st.files.calls + [CreateCall(p.id), CreateCall(c.id)];
    assert t.sourceFileId == p.id && t.comparisonFileId == c.id;
    GetReadsInOrder(t.id, written);
    assert r.stores.files.calls == written.files.calls + [GetCall(p.id), GetCall(c.id)];
    GetHydratesBothFiles(t.id, written);
    assert r.result.value == BuildReconTaskDetailsResponse(t, written.files.entries[p.id].value, c);
    if ids.primaryFile != ids.comparisonFile {
      DistinctSuffixesDistinctIds(ReconFileStorePrefix, ids.primaryFile, ids.comparisonFile);
    }
  }

  /**
   * With a sidecar that fails nothing and two distinct file suffixes, a valid request is
   * created: the task is begun, not done, and its id differs from both file ids.
   */
  lemma FaultFreeCreateSucceeds(request: CreateReconTaskRequest, ids: Suffixes, st: Stores)
    requires IsValid(request)
    requires st.tasks.pending == [] && st.files.pending == []
    requires ids.primaryFile != ids.comparisonFile
    ensures var r := CreateRun(request, ids, st);
      && r.result.Ok?
      && r.result.value.taskDetails.hasBegun && !r.result.value.taskDetails.isDone
      && IsTaskId(r.result.value.taskId)
      && r.result.value.primaryFileMetadata.id != r.result.value.taskId
      && r.result.value.comparisonFileMetadata.id != r.result.value.taskId
      && r.result.value.primaryFileMetadata.id != r.result.value.comparisonFileMetadata.id
  {
    var p, c, t := PrimaryRecord(request, ids), ComparisonRecord(request, ids), TaskRecord(request, ids);
    DistinctSuffixesDistinctIds(ReconFileStorePrefix, ids.primaryFile, ids.comparisonFile);
    var src := Create(st.files, p.id, p);
    var cmp := Create(src.after, c.id, c);
    var task := Create(st.tasks, t.id, t);
    var written := Stores(task.after, cmp.after);
    assert written.tasks.pending == [] && written.files.pending == [];
    assert written.files.entries[p.id] == Encoded(p);
    GetHydratesBothFiles(t.id, written);
    SuccessfulCreateAnswersWithWrittenRecords(request, ids, st);
    FileIdNeverTaskId(ids.primaryFile, ids.task);
    FileIdNeverTaskId(ids.comparisonFile, ids.task);
  }

  class ReconTaskAggregationService {
    const reconTaskDetailsRepo: ReconTaskDetailsRepositoryManager
    const reconFileDetailsRepo: ReconFileDetailsRepositoryManager

    constructor (reconTaskDetailsRepo: ReconTaskDetailsRepositoryManager, reconFileDetailsRepo: ReconFileDetailsRepositoryManager)
      ensures this.reconTaskDetailsRepo == reconTaskDetailsRepo && this.reconFileDetailsRepo == reconFileDetailsRepo
    {
      this.reconTaskDetailsRepo := reconTaskDetailsRepo;
      this.reconFileDetailsRepo := reconFileDetailsRepo;
    }

    ghost function CurrentStores(): Stores
      reads reconTaskDetailsRepo, reconFileDetailsRepo
    {
      Stores(reconTaskDetailsRepo.State(), reconFileDetailsRepo.State())
    }

    method CreateReconTask(request: CreateReconTaskRequest, ids: Suffixes) returns (r: Result<ReconTaskResponseDetails>)
      modifies reconTaskDetailsRepo, reconFileDetailsRepo
      ensures Run(r, CurrentStores()) == CreateRun(request, ids, old(CurrentStores()))
    {
      if Violations(request) != [] {
        return Err(AppError(BadClientRequest, ValidationErrorText(request)));
      }
      ghost var st := CurrentStores();

      var srcFileDetails := GetSrcFileDetails(request, ids.primaryFile);
      var srcFileId := reconFileDetailsRepo.CreateReconFileDetails(srcFileDetails);
      if srcFileId.Err? {
        return Err(srcFileId.error);
      }
      ghost var afterSrc := reconFileDetailsRepo.State();

      var cmpFileDetails := GetComparisonFileDetails(request, ids.comparisonFile);
      var cmpFileId := reconFileDetailsRepo.CreateReconFileDetails(cmpFileDetails);
      if cmpFileId.Err? {
        return Err(cmpFileId.error);
      }
      assert Create(afterSrc, cmpFileDetails.id, cmpFileDetails) == Step(cmpFileId, reconFileDetailsRepo.State());

      var reconTaskDetails := GetReconTaskDetails(srcFileId.value, cmpFileId.value, request, ids.task);
      var taskId := reconTaskDetailsRepo.CreateTaskDetails(reconTaskDetails);
      if taskId.Err? {
        return Err(taskId.error);
      }
      assert CreateRun(request, ids, st) == GetRun(taskId.value, CurrentStores());
      r := GetReconTask(taskId.value);
    }

    method GetReconTask(taskId: string) returns (r: Result<ReconTaskResponseDetails>)
      modifies reconTaskDetailsRepo, reconFileDetailsRepo
      ensures Run(r, CurrentStores()) == GetRun(taskId, old(CurrentStores()))
      ensures reconTaskDetailsRepo.entries == old(reconTaskDetailsRepo.entries)
      ensures reconFileDetailsRepo.entries == old(reconFileDetailsRepo.entries)
    {
      if taskId == [] {
        return Err(AppError(BadClientRequest, TaskIdRequired));
      }
      ghost var st := CurrentStores();

      var taskDetails := reconTaskDetailsRepo.GetTaskDetails(taskId);
      if taskDetails.Err? {
        return Err(taskDetails.error);
      }
      ghost var afterTask := reconTaskDetailsRepo.State();

      var srcFileMetadata := reconFileDetailsRepo.GetReconFileDetails(taskDetails.value.sourceFileId);
      if srcFileMetadata.Err? {
        return Err(srcFileMetadata.error);
      }
      ghost var afterSrc := reconFileDetailsRepo.State();

      var cmpFileMetadata := reconFileDetailsRepo.GetReconFileDetails(taskDetails.value.comparisonFileId);
      if cmpFileMetadata.Err? {
        return Err(cmpFileMetadata.error);
      }
      assert Get(afterSrc, taskDetails.value.comparisonFileId) == Step(cmpFileMetadata, reconFileDetailsRepo.State());

      r := Ok(BuildReconTaskDetailsResponse(taskDetails.value, srcFileMetadata.value, cmpFileMetadata.value));
    }
  }
}
