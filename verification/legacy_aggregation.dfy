/**
 * The older task aggregation service. Its create performs the same validation and the
 * same three writes as the current generation (its own record builders produce the same
 * records as the transformer's), but its read only fetches the task and answers with the
 * flat view: task id and the two progress flags.
 */
module LegacyAggregation {
  import opened Models
  import opened AppErrors
  import opened Requests
  import opened Transformer
  import opened StateStore
  import opened TaskRepository
  import opened FileRepository
  import opened ServiceState
  import Responses
  import AggregationService

  type TaskView = Responses.ReconTaskResponseDetails

  /** `get_recon_task`: one read of the task store; the file store is never called. */
  function GetRun(taskId: string, st: Stores): (r: Run<TaskView>)
    ensures r.stores.files == st.files && r.stores.tasks.entries == st.tasks.entries
    ensures taskId == [] ==> r == Run(Err(AppError(BadClientRequest, TaskIdRequired)), st)
  {
    if taskId == [] then Run(Err(AppError(BadClientRequest, TaskIdRequired)), st)
    else
      var task := Get(st.tasks, taskId);
      if task.result.Err? then Run(Err(task.result.error), Stores(task.after, st.files))
      else Run(Ok(Responses.FromTaskDetails(task.result.value)), Stores(task.after, st.files))
  }

  /** `create_recon_task`: validate, three writes, then a read, stopping at the first failure. */
  function CreateRun(request: CreateReconTaskRequest, ids: Suffixes, st: Stores): (r: Run<TaskView>)
    ensures !IsValid(request) ==>
      r == Run(Err(AppError(BadClientRequest, Join(Violations(request), " , "))), st)
    ensures r.result.Ok? ==> IsValid(request)
    ensures var t := TaskRecord(request, ids);
      || r.stores.tasks.entries == st.tasks.entries
      || r.stores.tasks.entries == st.tasks.entries[t.id := Encoded(t)]
    ensures var p, c := PrimaryRecord(request, ids), ComparisonRecord(request, ids);
      || r.stores.files.entries == st.files.entries
      || r.stores.files.entries == st.files.entries[p.id := Encoded(p)]
      || r.stores.files.entries == st.files.entries[p.id := Encoded(p)][c.id := Encoded(c)]
    ensures var p, c := PrimaryRecord(request, ids), ComparisonRecord(request, ids);
      r.stores.tasks.calls != st.tasks.calls ==>
        r.stores.files.entries == st.files.entries[p.id := Encoded(p)][c.id := Encoded(c)]
  {
    if Violations(request) != [] then Run(Err(AppError(BadClientRequest, ValidationErrorText(request))), st)
    else
      var srcFileDetails := PrimaryRecord(request, ids);
      var src := Create(st.files, srcFileDetails.id, srcFileDetails);
      if src.result.Err? then Run(Err(src.result.error), Stores(st.tasks, src.after))
      else
        var cmpFileDetails := ComparisonRecord(request, ids);
        var cmp := Create(src.after, cmpFileDetails.id, cmpFileDetails);
        if cmp.result.Err? then Run(Err(cmp.result.error), Stores(st.tasks, cmp.after))
        else
          var taskDetails := GetReconTaskDetails(src.result.value, cmp.result.value, request, ids.task);
          var task := Create(st.tasks, taskDetails.id, taskDetails);
          if task.result.Err? then Run(Err(task.result.error), Stores(task.after, cmp.after))
          else GetRun(task.result.value, Stores(task.after, cmp.after))
  }

  /** A read of a non-empty id calls the task store once and succeeds exactly when the stored task decodes. */
  lemma GetReadsOnlyTheTask(taskId: string, st: Stores)
    requires taskId != []
    ensures var r := GetRun(taskId, st);
      && r.stores.tasks.calls == st.tasks.calls + [GetCall(taskId)]
      && (r.result.Ok? <==> NextOutcome(st.tasks.pending) == Succeeds && taskId in st.tasks.entries && st.tasks.entries[taskId].Encoded?)
      && (r.result.Ok? ==> r.result.value == Responses.FromTaskDetails(st.tasks.entries[taskId].value))
      && (r.result.Err? ==> r.result.error == Get(st.tasks, taskId).result.error)
  {
  }

  /** An invalid request is answered with `BadClientRequest` listing every violated rule, and no store is called. */
  lemma InvalidRequestMakesNoStoreCall(request: CreateReconTaskRequest, ids: Suffixes, st: Stores)
    requires !IsValid(request)
    ensures CreateRun(request, ids, st) == Run(Err(AppError(BadClientRequest, Join(Violations(request), " , "))), st)
  {
  }

  /**
   * A request whose four header and delimiter lists are empty is rejected before any store
   * call, with all four list messages among the violations, whatever the stores would do.
   */
  lemma ListlessRequestIsRejected(request: CreateReconTaskRequest, ids: Suffixes, st: Stores)
    requires request.sourceFileHeaders == [] && request.sourceFileDelimiters == []
    requires request.comparisonFileHeaders == [] && request.comparisonFileDelimiters == []
    ensures var r := CreateRun(request, ids, st);
      r.result.Err? && r.result.error.kind == BadClientRequest && r.stores == st
    ensures "please supply the source_file_headers" in Violations(request)
    ensures "please supply the source_file_delimiters" in Violations(request)
    ensures "please supply the comparison_file_headers" in Violations(request)
    ensures "please supply the comparison_file_delimiters" in Violations(request)
  {
    ViolationReportedIffRuleFails(request, SourceFileHeaders);
    ViolationReportedIffRuleFails(request, SourceFileDelimiters);
    ViolationReportedIffRuleFails(request, ComparisonFileHeaders);
    ViolationReportedIffRuleFails(request, ComparisonFileDelimiters);
  }

  /**
   * The answer of a successful create is the view of the record read back from the task
   * store under the id the task write returned, after all three writes.
   */
  lemma CreateAnswersWithRereadTask(request: CreateReconTaskRequest, ids: Suffixes, st: Stores)
    requires CreateRun(request, ids, st).result.Ok?
    ensures var r := CreateRun(request, ids, st);
      var t := TaskRecord(request, ids).id;
      && t in r.stores.tasks.entries && r.stores.tasks.entries[t].Encoded?
      && r.result.value == Responses.FromTaskDetails(r.stores.tasks.entries[t].value)
      && r.stores.tasks.calls[|r.stores.tasks.calls| - 1] == GetCall(t)
  {
    SuccessfulCreateAnswersWithWrittenTask(request, ids, st);
  }

  /**
   * A successful create wrote both files and then the task, and answers with the flat view
   * of the task it wrote: begun and not done.
   */
  lemma SuccessfulCreateAnswersWithWrittenTask(request: CreateReconTaskRequest, ids: Suffixes, st: Stores)
    requires CreateRun(request, ids, st).result.Ok?
    ensures var r := CreateRun(request, ids, st);
      var p, c, t := PrimaryRecord(request, ids), ComparisonRecord(request, ids), TaskRecord(request, ids);
      && IsValid(request)
      && r.stores.files.calls == st.files.calls + [CreateCall(p.id), CreateCall(c.id)]
      && r.stores.tasks.calls == st.tasks.calls + [CreateCall(t.id), GetCall(t.id)]
      && r.stores.files.entries == st.files.entries[p.id := Encoded(p)][c.id := Encoded(c)]
      && r.stores.tasks.entries == st.tasks.entries[t.id := Encoded(t)]
      && r.result.value == Responses.ReconTaskResponseDetails(t.id, false, true)
  {
    var p, c, t := PrimaryRecord(request, ids), ComparisonRecord(request, ids), TaskRecord(request, ids);
    var src := Create(st.files, p.id, p);
    var cmp := Create(src.after, c.id, c);
    var task := Create(st.tasks, t.id, t);
    assert CreateRun(request, ids, st) == GetRun(t.id, Stores(task.after, cmp.after));
    GetReadsOnlyTheTask(t.id, Stores(task.after, cmp.after));
  }

  /**
   * If the source file write fails, its error is returned unchanged and nothing else is
   * written: the task store is untouched.
   */
  lemma PrimaryWriteFailureAborts(request: CreateReconTaskRequest, ids: Suffixes, st: Stores)
    requires IsValid(request)
    requires NextOutcome(st.files.pending) != Succeeds
    ensures var r, p := CreateRun(request, ids, st), PrimaryRecord(request, ids);
      && r.result == Err(Create(st.files, p.id, p).result.error)
      && r.result.error.kind == (if NextOutcome(st.files.pending).ConnectFails? then ConnectionError else InternalError)
      && r.stores.tasks == st.tasks
      && r.stores.files.entries == st.files.entries
      && r.stores.files.calls == st.files.calls + [CreateCall(p.id)]
  {
  }

  /**
   * If the source file write succeeds but the comparison file write fails, the latter's error
   * is returned unchanged: only the source record was stored and the task store is untouched.
   */
  lemma ComparisonWriteFailureAborts(request: CreateReconTaskRequest, ids: Suffixes, st: Stores)
    requires IsValid(request)
    requires NextOutcome(st.files.pending) == Succeeds
    requires NextOutcome(Consume(st.files, CreateCall(PrimaryRecord(request, ids).id)).pending) != Succeeds
    ensures var r, p, c := CreateRun(request, ids, st), PrimaryRecord(request, ids), ComparisonRecord(request, ids);
      var src := Create(st.files, p.id, p);
      && r.result == Err(Create(src.after, c.id, c).result.error)
      && r.result.error.kind == (if NextOutcome(src.after.pending).ConnectFails? then ConnectionError else InternalError)
      && r.stores.tasks == st.tasks
      && r.stores.files.entries == st.files.entries[p.id := Encoded(p)]
      && r.stores.files.calls == st.files.calls + [CreateCall(p.id), CreateCall(c.id)]
  {
  }

  /**
   * If both file writes succeed but the task write fails, its error is returned unchanged and
   * the task is not read back: the task store saw only the failed create.
   */
  lemma TaskWriteFailureAborts(request: CreateReconTaskRequest, ids: Suffixes, st: Stores)
    requires IsValid(request)
    requires NextOutcome(st.files.pending) == Succeeds
    requires NextOutcome(Consume(st.files, CreateCall(PrimaryRecord(request, ids).id)).pending) == Succeeds
    requires NextOutcome(st.tasks.pending) != Succeeds
    ensures var r, p, c, t := CreateRun(request, ids, st), PrimaryRecord(request, ids), ComparisonRecord(request, ids), TaskRecord(request, ids);
      && r.result == Err(Create(st.tasks, t.id, t).result.error)
      && r.result.error.kind == (if NextOutcome(st.tasks.pending).ConnectFails? then ConnectionError else InternalError)
      && r.stores.tasks.calls == st.tasks.calls + [CreateCall(t.id)]
      && r.stores.tasks.entries == st.tasks.entries
      && r.stores.files.entries == st.files.entries[p.id := Encoded(p)][c.id := Encoded(c)]
      && r.stores.files.calls == st.files.calls + [CreateCall(p.id), CreateCall(c.id)]
  {
  }

  /**
   * The two generations write the same records: whatever the request, the suffixes and the
   * sidecar's behaviour, they leave both stores with the same contents and make the same
   * task-store calls. Where the current generation succeeds, the older one succeeds too and
   * answers with the flat view of the same task.
   */
  lemma GenerationsWriteTheSame(request: CreateReconTaskRequest, ids: Suffixes, st: Stores)
    ensures var older, newer := CreateRun(request, ids, st), AggregationService.CreateRun(request, ids, st);
      && older.stores.tasks == newer.stores.tasks
      && older.stores.files.entries == newer.stores.files.entries
      && (newer.result.Ok? ==> older.result == Ok(Responses.FromTaskDetails(newer.result.value.taskDetails)))
  {
    if Violations(request) == [] {
      var p, c, t := PrimaryRecord(request, ids), ComparisonRecord(request, ids), TaskRecord(request, ids);
      var src := Create(st.files, p.id, p);
      if src.result.Ok? {
        var cmp := Create(src.after, c.id, c);
        if cmp.result.Ok? {
          var task := Create(st.tasks, t.id, t);
          if task.result.Ok? {
            var written := Stores(task.after, cmp.after);
            assert CreateRun(request, ids, st) == GetRun(t.id, written);
            assert AggregationService.CreateRun(request, ids, st) == AggregationService.GetRun(t.id, written);
            AggregationService.GetReadsInOrder(t.id, written);
            AggregationService.GetHydratesBothFiles(t.id, written);
          }
        }
      }
    }
  }

  class ReconTaskAggregationService {
    const reconTaskDetailsRepo: ReconTaskDetailsRepositoryManager
    const reconFileDetailsRepo: ReconFileDetailsRepositoryManager

    constructor (reconTaskDetailsRepo: ReconTaskDetailsRepositoryManager, reconFileDetailsRepo: ReconFileDetailsRepositoryManager)
      ensures this.reconTaskDetailsRepo == reconTaskDetailsRepo && this.reconFileDetailsRepo == reconFileDetailsRepo
    {
      this.reconTaskDetailsRepo := reconTaskDetailsRepo;
      this.reconFileDetailsRepo := reconFileDetailsRepo;
    }

    ghost function CurrentStores(): Stores
      reads reconTaskDetailsRepo, reconFileDetailsRepo
    {
      Stores(reconTaskDetailsRepo.State(), reconFileDetailsRepo.State())
    }

    method CreateReconTask(request: CreateReconTaskRequest, ids: Suffixes) returns (r: Result<TaskView>)
      modifies reconTaskDetailsRepo, reconFileDetailsRepo
      ensures Run(r, CurrentStores()) == CreateRun(request, ids, old(CurrentStores()))
    {
      if Violations(request) != [] {
        return Err(AppError(BadClientRequest, ValidationErrorText(request)));
      }
      ghost var st := CurrentStores();

      var srcFileDetails := GetSrcFileDetails(request, ids.primaryFile);
      var srcFileId := reconFileDetailsRepo.CreateReconFileDetails(srcFileDetails);
      if srcFileId.Err? {
        return Err(srcFileId.error);
      }
      ghost var afterSrc := reconFileDetailsRepo.State();

      var cmpFileDetails := GetComparisonFileDetails(request, ids.comparisonFile);
      var cmpFileId := reconFileDetailsRepo.CreateReconFileDetails(cmpFileDetails);
      if cmpFileId.Err? {
        return Err(cmpFileId.error);
      }
      assert Create(afterSrc, cmpFileDetails.id, cmpFileDetails) == Step(cmpFileId, reconFileDetailsRepo.State());

      var reconTaskDetails := GetReconTaskDetails(srcFileId.value, cmpFileId.value, request, ids.task);
      var taskId := reconTaskDetailsRepo.CreateTaskDetails(reconTaskDetails);
      if taskId.Err? {
        return Err(taskId.error);
      }
      assert CreateRun(request, ids, st) == GetRun(taskId.value, CurrentStores());
      r := GetReconTask(taskId.value);
    }

    method GetReconTask(taskId: string) returns (r: Result<TaskView>)
      modifies reconTaskDetailsRepo, reconFileDetailsRepo
      ensures Run(r, CurrentStores()) == GetRun(taskId, old(CurrentStores()))
      ensures reconTaskDetailsRepo.entries == old(reconTaskDetailsRepo.entries)
      ensures unchanged(reconFileDetailsRepo)
    {
      if taskId == [] {
        return Err(AppError(BadClientRequest, TaskIdRequired));
      }
      var taskDetails := reconTaskDetailsRepo.GetTaskDetails(taskId);
      if taskDetails.Err? {
        return Err(taskDetails.error);
      }
      r := Ok(Responses.FromTaskDetails(taskDetails.value));
    }
  }
}
