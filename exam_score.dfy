/**
 * The score lookup proxy route (app/api/exam-score/route.ts): GET checks that
 * an exam or a session is named, copies the parameters it was given onto the
 * backend query, and answers from the shared retry loop's kept response.
 */
module ExamScore {
  import opened Wrappers
  import opened Http
  import opened Retry

  const MissingParametersMessage := "Missing required parameters: either examId or sessionId is required"
  const UnavailableMessage := "Failed to connect to score service. Please try again later."
  const BackendErrorMessage := "Failed to retrieve score from the backend service."
  const NotFoundMessage := "No score found for the given parameters."
  const UnauthorizedMessage := "Not authorized to access the score service."

  /** The query parameters the route copies, in the order it appends them. */
  const QueryKeys: seq<string> := ["examId", "userId", "sessionId", "subject"]

  /** `{ success: false, message }` with the given status. */
  function Failure(status: int, message: string): Reply {
    Reply(status, map["success" := JBool(false), "message" := JStr(message)])
  }

  /** The pair for `key` when it was given. */
  function Given1(params: Query, key: string): seq<(string, string)> {
    if Given(params, key) then [(key, params[key])] else []
  }

  /** The pairs of `keys` that were given, in the order of `keys`. */
  function PresentParams(keys: seq<string>, params: Query): (r: seq<(string, string)>)
    ensures |r| <= |keys|
    ensures forall i :: 0 <= i < |r| ==> r[i].0 in params && r[i].1 == params[r[i].0]
  {
    if keys == [] then []
    else Given1(params, keys[0]) + PresentParams(keys[1..], params)
  }

  /** Lines 35-38: the four conditional appends onto the backend URL. */
  method BackendQuery(params: Query) returns (query: seq<(string, string)>)
    ensures query == PresentParams(QueryKeys, params)
  {
    query := [];
    if Given(params, "examId") {
      query := query + [("examId", params["examId"])];
    }
    assert query == Given1(params, "examId");
    if Given(params, "userId") {
      query := query + [("userId", params["userId"])];
    }
    assert query == Given1(params, "examId") + Given1(params, "userId");
    if Given(params, "sessionId") {
      query := query + [("sessionId", params["sessionId"])];
    }
    assert query == Given1(params, "examId") + Given1(params, "userId") + Given1(params, "sessionId");
    if Given(params, "subject") {
      query := query + [("subject", params["subject"])];
    }
    QueryKeysInOrder(params);
  }

  /** The known keys, one pair each, in the order examId, userId, sessionId, subject. */
  lemma QueryKeysInOrder(params: Query)
    ensures PresentParams(QueryKeys, params)
      == Given1(params, "examId") + Given1(params, "userId") + Given1(params, "sessionId") + Given1(params, "subject")
  {
    assert PresentParams(["subject"], params) == Given1(params, "subject");
    assert PresentParams(["sessionId", "subject"], params)
      == Given1(params, "sessionId") + Given1(params, "subject");
    assert PresentParams(["userId", "sessionId", "subject"], params)
      == Given1(params, "userId") + Given1(params, "sessionId") + Given1(params, "subject");
  }

  /** The message that goes with a backend error status. */
  function ErrorMessageFor(status: int): (m: string)
    ensures status == 404 ==> m == NotFoundMessage
    ensures status == 401 || status == 403 ==> m == UnauthorizedMessage
    ensures status !in {401, 403, 404} ==> m == BackendErrorMessage
  {
    if status == 404 then NotFoundMessage
    else if status == 401 || status == 403 then UnauthorizedMessage
    else BackendErrorMessage
  }

  /** The reply once the retry loop is over, from the response it kept. */
  function Answer(last: Option<Response>): (r: Reply)
    ensures last.None? ==> r.status == 503
    ensures last.Some? && !IsOk(last.value.status) ==> r.status == last.value.status
    ensures last.Some? && IsOk(last.value.status) ==> r.status in {200, 500}
  {
    match last
    case None => Failure(503, UnavailableMessage)
    case Some(r) =>
      if !IsOk(r.status) then
        Reply(r.status, map["success" := JBool(false), "message" := JStr(ErrorMessageFor(r.status)),
                            "details" := JStr(r.text)])
      else
        match r.json
        case Malformed(m) => Failure(500, m)
        case Parsed(score) => Reply(200, map["success" := JBool(true)] + score)
  }

  /**
   * GET: without an exam id and without a session id the route answers 400 and
   * contacts nobody; otherwise it queries the backend with the given parameters
   * and answers from the kept response.
   */
  method Get(params: Query, outcomes: seq<Fetched>) returns (h: Handled, query: seq<(string, string)>)
    requires |outcomes| >= MaxRetries
    ensures !Given(params, "examId") && !Given(params, "sessionId") ==>
      h == Handled(Failure(400, MissingParametersMessage), None) && query == []
    ensures Given(params, "examId") || Given(params, "sessionId") ==>
      && query == PresentParams(QueryKeys, params)
      && h.run == Some(Policy(outcomes))
      && h.reply == Answer(Policy(outcomes).last)
  {
    if !Given(params, "examId") && !Given(params, "sessionId") {
      return Handled(Failure(400, MissingParametersMessage), None), [];
    }
    query := BackendQuery(params);
    var run := RetryLoop(outcomes);
    h := Handled(Answer(run.last), Some(run));
  }

  /**
   * The backend query holds exactly the given parameters with their values, and,
   * the keys being distinct, each of them once.
   */
  lemma {:induction false} PresentParamsExact(keys: seq<string>, params: Query)
    ensures forall k, v :: (k, v) in PresentParams(keys, params) <==>
      k in keys && Given(params, k) && v == params[k]
    ensures (forall a, b :: 0 <= a < b < |keys| ==> keys[a] != keys[b]) ==>
      forall i, j :: 0 <= i < j < |PresentParams(keys, params)| ==>
        PresentParams(keys, params)[i].0 != PresentParams(keys, params)[j].0
  {
    if keys != [] {
      PresentParamsExact(keys[1..], params);
      var rest := PresentParams(keys[1..], params);
      var r := PresentParams(keys, params);
      if (forall a, b :: 0 <= a < b < |keys| ==> keys[a] != keys[b]) && Given(params, keys[0]) {
        assert r == [(keys[0], params[keys[0]])] + rest;
        assert keys[0] !in keys[1..];
        forall j | 0 < j < |r| ensures r[0].0 != r[j].0 {
          assert r[j] in rest;
        }
      }
    }
  }

  /** A score reply is 503 with the "failed to connect" message exactly when every attempt threw. */
  lemma UnavailableIffAllThrew(outcomes: seq<Fetched>)
    requires |outcomes| >= MaxRetries
    ensures Answer(Policy(outcomes).last) == Failure(503, UnavailableMessage) <==>
      forall i :: 0 <= i < MaxRetries ==> outcomes[i].NetworkError?
  {
    NoResponseIffAllThrew(outcomes);
    var last := Policy(outcomes).last;
    if last.Some? && !IsOk(last.value.status) {
      assert "details" in Answer(last).body;
    }
  }

  /** A non-ok kept response passes its status on, with the 404 and 401/403 messages. */
  lemma ErrorStatusPassedOn(r: Response)
    requires !IsOk(r.status)
    ensures Answer(Some(r)).status == r.status
    ensures "message" in Answer(Some(r)).body &&
      Answer(Some(r)).body["message"] == JStr(ErrorMessageFor(r.status))
    ensures "details" in Answer(Some(r)).body && Answer(Some(r)).body["details"] == JStr(r.text)
  {
  }
}
