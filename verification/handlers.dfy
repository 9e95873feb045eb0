/**
 * The HTTP boundary: how each endpoint turns the outcome of setting up the service and
 * calling it into a status code and a body. A successful call answers 200 with the value;
 * a failure answers with the error's display text under a status chosen from its kind.
 * Routing, JSON extraction and the service set-up itself are outside the model: the
 * set-up's outcome is a parameter.
 */
module Handlers {
  import opened AppErrors

  datatype Endpoint =
    | GetTaskDetails          // GET  /recon-tasks/{task_id}
    | CreateTaskDetails       // POST /recon-tasks
    | AttachPrimaryFile       // POST /recon-tasks/attach-primary-file
    | AttachComparisonFile    // POST /recon-tasks/attach-comparison-file

  /** Either the service could not be set up, or it was set up and called. */
  datatype ServiceCall<T> = SetupFailed(error: AppError) | Completed(result: Result<T>)

  datatype Body<T> = Json(value: T) | Text(text: string)

  datatype HttpResponse<T> = HttpResponse(status: nat, body: Body<T>)

  const Ok200: nat := 200
  const BadRequest400: nat := 400
  const NotFound404: nat := 404
  const InternalServerError500: nat := 500

  /**
   * The status of a failed call. Only the get endpoint tells a missing task apart; every
   * endpoint answers a bad request with 400 and everything else with 500.
   */
  function ErrorStatus(endpoint: Endpoint, kind: AppErrorKind): (status: nat)
    ensures status == BadRequest400 || status == NotFound404 || status == InternalServerError500
    ensures status == NotFound404 <==> endpoint == GetTaskDetails && kind == NotFound
    ensures status == BadRequest400 <==> kind == BadClientRequest
  {
    match endpoint
    case GetTaskDetails =>
      (match kind
       case NotFound => NotFound404
       case BadClientRequest => BadRequest400
       case _ => InternalServerError500)
    case _ =>
      (match kind
       case BadClientRequest => BadRequest400
       case _ => InternalServerError500)
  }

  /** The reply of one endpoint to the outcome of setting up and calling the service. */
  function Respond<T>(endpoint: Endpoint, call: ServiceCall<T>): (resp: HttpResponse<T>)
    ensures resp.status == Ok200 <==> call.Completed? && call.result.Ok?
    ensures call.SetupFailed? ==> resp.status == InternalServerError500
  {
    match call
    case SetupFailed(err) => HttpResponse(InternalServerError500, Text(Display(err)))
    case Completed(Ok(details)) => HttpResponse(Ok200, Json(details))
    case Completed(Err(err)) => HttpResponse(ErrorStatus(endpoint, err.kind), Text(Display(err)))
  }

  /** Every endpoint answers only 200, 400, 404 or 500, whatever happened. */
  lemma StatusesAreFromTheFixedSet<T>(endpoint: Endpoint, call: ServiceCall<T>)
    ensures Respond(endpoint, call).status in {200, 400, 404, 500}
  {
    if call.Completed? && call.result.Err? {
      var s := ErrorStatus(endpoint, call.result.error.kind);
      assert s == 400 || s == 404 || s == 500;
    }
  }

  /** The get endpoint's table: 200 for a value, 404 for a missing task, 400 for a bad request, 500 otherwise. */
  lemma GetEndpointStatusTable<T>(result: Result<T>)
    ensures var resp := Respond(GetTaskDetails, Completed(result));
      && (result.Ok? ==> resp == HttpResponse(200, Json(result.value)))
      && (result.Err? && result.error.kind == NotFound ==> resp.status == 404)
      && (result.Err? && result.error.kind == BadClientRequest ==> resp.status == 400)
      && (result.Err? && result.error.kind !in {NotFound, BadClientRequest} ==> resp.status == 500)
  {
  }

  /** The create and attach endpoints never answer 404: a missing record is a server error there. */
  lemma WriteEndpointsNeverAnswerNotFound<T>(endpoint: Endpoint, call: ServiceCall<T>)
    requires endpoint != GetTaskDetails
    ensures Respond(endpoint, call).status != 404
    ensures call.Completed? && call.result.Err? && call.result.error.kind == NotFound ==>
      Respond(endpoint, call).status == 500
  {
  }

  /**
   * An error reply's body is the error's display text, so a failed call's kind and message can
   * both be read back from the body: two failures that answer the same way are the same error.
   */
  lemma ErrorRepliesDetermineTheError<T>(endpoint: Endpoint, e1: AppError, e2: AppError)
    requires Respond<T>(endpoint, Completed(Err(e1))) == Respond<T>(endpoint, Completed(Err(e2)))
    ensures e1 == e2
    ensures Respond<T>(endpoint, Completed(Err(e1))).body == Text(AsStr(e1.kind) + " - [" + e1.message + "]")
  {
    assert Display(e1) == Display(e2);
    DisplayInjective(e1, e2);
  }

  /** A set-up failure answers 500 with the set-up error's text, before the service is called at all. */
  lemma SetupFailureIsServerError<T>(endpoint: Endpoint, err: AppError)
    ensures Respond<T>(endpoint, SetupFailed(err)) == HttpResponse(500, Text(Display(err)))
  {
  }
}
