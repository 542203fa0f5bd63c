/**
 * The adaptive-question proxy route (app/api/cognitive-questions/route.ts):
 * POST checks the request, forwards it to the question service through the
 * shared retry loop, and maps what came back to a reply; GET is refused.
 */
module CognitiveQuestions {
  import opened Wrappers
  import opened Http
  import opened Retry

  const MissingFieldsMessage := "Missing required fields: cognitiveState and subject are required"
  const UnavailableMessage := "Failed to connect to question service. Please try again later."
  const BackendErrorMessage := "Failed to retrieve question from the backend service."
  const NotFoundMessage := "No suitable questions found for the given parameters."
  const UnauthorizedMessage := "Not authorized to access the question service."
  const InvalidQuestionMessage := "Invalid question data returned from the backend"
  const PostOnlyMessage := "This endpoint requires a POST request with cognitive state data"

  /** `{ success: false, message }` with the given status. */
  function Failure(status: int, message: string): Reply {
    Reply(status, map["success" := JBool(false), "message" := JStr(message)])
  }

  /** Both `cognitiveState` and `subject` are present and truthy. */
  predicate ValidRequest(body: Object) {
    FieldTruthy(body, "cognitiveState") && FieldTruthy(body, "subject")
  }

  /** The message that goes with a backend error status. */
  function ErrorMessageFor(status: int): (m: string)
    ensures status == 404 ==> m == NotFoundMessage
    ensures status == 401 || status == 403 ==> m == UnauthorizedMessage
    ensures status !in {401, 403, 404} ==> m == BackendErrorMessage
  {
    if status == 404 then NotFoundMessage
    else if status == 401 || status == 403 then UnauthorizedMessage
    else BackendErrorMessage
  }

  /** The reply once the retry loop is over, from the response it kept. */
  function Answer(last: Option<Response>): (r: Reply)
    ensures last.None? ==> r.status == 503
    ensures last.Some? && !IsOk(last.value.status) ==> r.status == last.value.status
    ensures last.Some? && IsOk(last.value.status) ==> r.status in {200, 500, 502}
  {
    match last
    case None => Failure(503, UnavailableMessage)
    case Some(r) =>
      if !IsOk(r.status) then
        Reply(r.status, map["success" := JBool(false), "message" := JStr(ErrorMessageFor(r.status)),
                            "details" := JStr(r.text)])
      else
        match r.json
        case Malformed(m) => Failure(500, m)
        case Parsed(question) =>
          if !FieldTruthy(question, "question") then Failure(502, InvalidQuestionMessage)
          else Reply(200, map["success" := JBool(true)] + question)
  }

  /**
   * POST: an unreadable body answers 500 and a request without `cognitiveState`
   * or `subject` answers 400, both without contacting the backend; otherwise
   * the retry loop runs and its kept response decides the reply.
   */
  method Post(request: JsonBody, outcomes: seq<Fetched>) returns (h: Handled)
    requires |outcomes| >= MaxRetries
    ensures request.Malformed? ==> h == Handled(Failure(500, request.message), None)
    ensures request.Parsed? && !ValidRequest(request.fields) ==>
      h == Handled(Failure(400, MissingFieldsMessage), None)
    ensures request.Parsed? && ValidRequest(request.fields) ==>
      h.run == Some(Policy(outcomes)) && h.reply == Answer(Policy(outcomes).last)
  {
    match request {
      case Malformed(message) =>
        return Handled(Failure(500, message), None);
      case Parsed(body) =>
        if !ValidRequest(body) {
          return Handled(Failure(400, MissingFieldsMessage), None);
        }
        var run := RetryLoop(outcomes);
        return Handled(Answer(run.last), Some(run));
    }
  }

  /** GET is not supported: always 405. */
  function Get(): (r: Reply)
    ensures r.status == 405 && "success" in r.body && r.body["success"] == JBool(false)
  {
    Reply(405, map["success" := JBool(false), "message" := JStr(PostOnlyMessage),
                   "documentation" := JStr("/docs/cognitive-questions-api.md")])
  }

  /**
   * The reply's status: 503 with the "failed to connect" message exactly when no
   * response was received; a non-ok response's own status; 500 for an ok body
   * that is not JSON; 502 for one without a question; otherwise 200.
   */
  lemma AnswerStatus(last: Option<Response>)
    ensures last.None? <==> Answer(last) == Failure(503, UnavailableMessage)
    ensures last.Some? && !IsOk(last.value.status) ==>
      Answer(last).status == last.value.status &&
      Answer(last).body["message"] == JStr(ErrorMessageFor(last.value.status))
    ensures Answer(last).status == 502 <==>
      (last.Some? && IsOk(last.value.status) && last.value.json.Parsed? &&
       !FieldTruthy(last.value.json.fields, "question")) ||
      (last.Some? && last.value.status == 502)
    ensures Answer(last).status == 200 <==>
      last.Some? && IsOk(last.value.status) && last.value.json.Parsed? &&
      FieldTruthy(last.value.json.fields, "question")
  {
    if last.Some? && !IsOk(last.value.status) {
      assert "details" in Answer(last).body && "details" !in Failure(503, UnavailableMessage).body;
    }
  }

  /**
   * A reply of 503 comes either from three thrown attempts or from a backend
   * that itself answered 503 last: the status of a received error is passed on.
   */
  lemma UnavailableOnlyWhenAllThrewOrPassedOn(outcomes: seq<Fetched>)
    requires |outcomes| >= MaxRetries
    ensures var last := Policy(outcomes).last;
      Answer(last).status == 503 <==>
        (forall i :: 0 <= i < MaxRetries ==> outcomes[i].NetworkError?) ||
        (last.Some? && last.value.status == 503)
    ensures var last := Policy(outcomes).last;
      Answer(last) == Failure(503, UnavailableMessage) <==>
        forall i :: 0 <= i < MaxRetries ==> outcomes[i].NetworkError?
  {
    NoResponseIffAllThrew(outcomes);
    var last := Policy(outcomes).last;
    if last.Some? {
      assert Answer(last) != Failure(503, UnavailableMessage) by {
        if !IsOk(last.value.status) {
          assert "details" in Answer(last).body;
        } else if last.value.json.Parsed? && FieldTruthy(last.value.json.fields, "question") {
          assert Answer(last).status == 200;
        }
      }
    }
  }

  /**
   * On success the backend's fields are spread after `success: true`, so a
   * backend that reports `success` itself overrides it.
   */
  lemma SuccessMergesBackendBody(r: Response)
    requires IsOk(r.status) && r.json.Parsed? && FieldTruthy(r.json.fields, "question")
    ensures var reply := Answer(Some(r));
      && reply.status == 200
      && (forall k :: k in r.json.fields ==> k in reply.body && reply.body[k] == r.json.fields[k])
      && reply.body.Keys == r.json.fields.Keys + {"success"}
      && ("success" !in r.json.fields ==> reply.body["success"] == JBool(true))
  {
  }
}
