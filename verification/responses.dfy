/** The flat task view of the older service generation. */
module Responses {
  import opened Models

  datatype ReconTaskResponseDetails = ReconTaskResponseDetails(taskId: string, isDone: bool, hasBegun: bool)

  /** The projection `From<ReconTaskDetails>`: keeps the id and the two progress flags, total. */
  function FromTaskDetails(details: ReconTaskDetails): (r: ReconTaskResponseDetails)
    ensures r.taskId == details.id
    ensures r.isDone == details.isDone && r.hasBegun == details.hasBegun
  {
    ReconTaskResponseDetails(taskId := details.id, isDone := details.isDone, hasBegun := details.hasBegun)
  }

  /** Two task records project to the same view exactly when they agree on id and progress flags. */
  lemma ProjectionForgetsFilesPairsAndConfig(a: ReconTaskDetails, b: ReconTaskDetails)
    ensures FromTaskDetails(a) == FromTaskDetails(b) <==>
      a.id == b.id && a.isDone == b.isDone && a.hasBegun == b.hasBegun
  {
  }
}
