/**
 * The eye-tracking proxy route (app/api/eye-tracking/route.ts): POST takes a
 * question id and a batch of images with their timestamps, re-packs the file
 * entries for the backend, sends them through the shared retry loop, and maps
 * any backend failure to 502.
 */
module EyeTrackingRoute {
  import opened Wrappers
  import opened Text
  import opened Http
  import opened Retry

  const MissingQuestionMessage := "Missing questionId"
  const NoImagesMessage := "No images provided"
  const UnavailableMessage := "Failed to connect to backend API"
  const BackendErrorMessage := "Backend API error"

  /** `{ success: false, error }` with the given status. */
  function Failure(status: int, error: string): Reply {
    Reply(status, map["success" := JBool(false), "error" := JStr(error)])
  }

  /**
   * What one image entry contributes to the backend form: nothing unless it is
   * a file; a file, followed by the timestamp at the same index when that is truthy.
   */
  function EntriesFor(images: seq<FormValue>, timestamps: seq<FormValue>, i: nat): seq<Entry>
    requires i < |images|
  {
    if !images[i].File? then []
    else [("images", images[i])] +
         (if i < |timestamps| && FormTruthy(timestamps[i])
          then [("timestamps", Text(FormText(timestamps[i])))] else [])
  }

  /** The backend entries for the first `n` images. */
  function Forwarded(images: seq<FormValue>, timestamps: seq<FormValue>, n: nat): seq<Entry>
    requires n <= |images|
  {
    if n == 0 then [] else Forwarded(images, timestamps, n - 1) + EntriesFor(images, timestamps, n - 1)
  }

  /** Lines 38-47: the `forEach` that appends the file entries to the backend form. */
  method ForwardImages(images: seq<FormValue>, timestamps: seq<FormValue>) returns (entries: seq<Entry>)
    ensures entries == Forwarded(images, timestamps, |images|)
  {
    entries := [];
    var index := 0;
    while index < |images|
      invariant index <= |images|
      invariant entries == Forwarded(images, timestamps, index)
    {
      var image := images[index];
      if image.File? {
        entries := entries + [("images", image)];
        if index < |timestamps| && FormTruthy(timestamps[index]) {
          entries := entries + [("timestamps", Text(FormText(timestamps[index])))];
        }
      }
      index := index + 1;
    }
  }

  /** The files among `images`, in order. */
  function Files(images: seq<FormValue>): (r: seq<FormValue>)
    ensures |r| <= |images|
    ensures forall v :: v in r ==> v.File? && v in images
  {
    if images == [] then []
    else (if images[0].File? then [images[0]] else []) + Files(images[1..])
  }

  /** The files of two runs of images are the files of each, in order. */
  lemma {:induction false} FilesAppend(a: seq<FormValue>, b: seq<FormValue>)
    ensures Files(a + b) == Files(a) + Files(b)
  {
    if a == [] {
      assert a + b == b;
    } else {
      var first := if a[0].File? then [a[0]] else [];
      assert (a + b)[0] == a[0];
      assert (a + b)[1..] == a[1..] + b;
      assert Files(a + b) == first + Files(a[1..] + b);
      FilesAppend(a[1..], b);
      assert Files(a) == first + Files(a[1..]);
    }
  }

  lemma FilesSnoc(images: seq<FormValue>, n: nat)
    requires n < |images|
    ensures Files(images[..n + 1]) == Files(images[..n]) + (if images[n].File? then [images[n]] else [])
  {
    assert images[..n + 1] == images[..n] + [images[n]];
    FilesAppend(images[..n], [images[n]]);
    assert [images[n]][1..] == [];
  }

  /** The text of the timestamp at index `i`, when image `i` is a file and that timestamp is truthy. */
  function SentTimestamp(images: seq<FormValue>, timestamps: seq<FormValue>, i: nat): seq<FormValue>
    requires i < |images|
  {
    if images[i].File? && i < |timestamps| && FormTruthy(timestamps[i])
    then [Text(FormText(timestamps[i]))] else []
  }

  /** The timestamps the first `n` images carry to the backend, in image order. */
  function SentTimestamps(images: seq<FormValue>, timestamps: seq<FormValue>, n: nat): seq<FormValue>
    requires n <= |images|
  {
    if n == 0 then [] else SentTimestamps(images, timestamps, n - 1) + SentTimestamp(images, timestamps, n - 1)
  }

  /**
   * Exactly the file entries are forwarded, in order; the timestamps forwarded
   * are the truthy ones at the files' own indices, in order.
   */
  lemma ForwardedFiles(images: seq<FormValue>, timestamps: seq<FormValue>, n: nat)
    requires n <= |images|
    ensures FormGetAll(Forwarded(images, timestamps, n), "images") == Files(images[..n])
    ensures FormGetAll(Forwarded(images, timestamps, n), "timestamps") == SentTimestamps(images, timestamps, n)
  {
    ForwardedImageEntries(images, timestamps, n);
    ForwardedTimestampEntries(images, timestamps, n);
  }

  lemma {:induction false} ForwardedImageEntries(images: seq<FormValue>, timestamps: seq<FormValue>, n: nat)
    requires n <= |images|
    ensures FormGetAll(Forwarded(images, timestamps, n), "images") == Files(images[..n])
  {
    if n > 0 {
      ForwardedImageEntries(images, timestamps, n - 1);
      var prev := Forwarded(images, timestamps, n - 1);
      var more := EntriesFor(images, timestamps, n - 1);
      FormGetAllAppend(prev, more, "images");
      FilesSnoc(images, n - 1);
      EntriesForImages(images, timestamps, n - 1);
    }
  }

  lemma {:induction false} ForwardedTimestampEntries(images: seq<FormValue>, timestamps: seq<FormValue>, n: nat)
    requires n <= |images|
    ensures FormGetAll(Forwarded(images, timestamps, n), "timestamps") == SentTimestamps(images, timestamps, n)
  {
    if n > 0 {
      ForwardedTimestampEntries(images, timestamps, n - 1);
      var prev := Forwarded(images, timestamps, n - 1);
      var more := EntriesFor(images, timestamps, n - 1);
      FormGetAllAppend(prev, more, "timestamps");
      EntriesForTimestamps(images, timestamps, n - 1);
    }
  }

  /** Every timestamp sent goes with a file sent: there are never more timestamps than files. */
  lemma {:induction false} SentTimestampsAtMostFiles(images: seq<FormValue>, timestamps: seq<FormValue>, n: nat)
    requires n <= |images|
    ensures |SentTimestamps(images, timestamps, n)| <= |Files(images[..n])|
  {
    if n > 0 {
      SentTimestampsAtMostFiles(images, timestamps, n - 1);
      FilesSnoc(images, n - 1);
    }
  }

  /** One image's entries hold its file, if it is one. */
  lemma EntriesForImages(images: seq<FormValue>, timestamps: seq<FormValue>, i: nat)
    requires i < |images|
    ensures FormGetAll(EntriesFor(images, timestamps, i), "images") == if images[i].File? then [images[i]] else []
  {
    if images[i].File? {
      var tail := if i < |timestamps| && FormTruthy(timestamps[i])
                  then [("timestamps", Text(FormText(timestamps[i])))] else [];
      FormGetAllAppend([("images", images[i])], tail, "images");
    }
  }

  /** One image's entries hold its own timestamp, if that is sent. */
  lemma EntriesForTimestamps(images: seq<FormValue>, timestamps: seq<FormValue>, i: nat)
    requires i < |images|
    ensures FormGetAll(EntriesFor(images, timestamps, i), "timestamps") == SentTimestamp(images, timestamps, i)
  {
    if images[i].File? {
      var tail := if i < |timestamps| && FormTruthy(timestamps[i])
                  then [("timestamps", Text(FormText(timestamps[i])))] else [];
      FormGetAllAppend([("images", images[i])], tail, "timestamps");
    }
  }

  /**
   * A file whose timestamp is empty sends none, so the backend's timestamps no
   * longer line up with its images: the second file's time comes first.
   */
  lemma MissingTimestampShiftsLaterOnes(a: FormValue, b: FormValue, t: string)
    requires a.File? && b.File? && t != ""
    ensures FormGetAll(Forwarded([a, b], [Text(""), Text(t)], 2), "images") == [a, b]
    ensures FormGetAll(Forwarded([a, b], [Text(""), Text(t)], 2), "timestamps") == [Text(t)]
  {
    ForwardedFiles([a, b], [Text(""), Text(t)], 2);
    assert SentTimestamp([a, b], [Text(""), Text(t)], 0) == [];
    assert SentTimestamp([a, b], [Text(""), Text(t)], 1) == [Text(t)];
    assert SentTimestamps([a, b], [Text(""), Text(t)], 1) == [];
    assert [a, b][..2] == [a, b];
    FilesAppend([a], [b]);
    assert [a] + [b] == [a, b];
  }

  /** The form the route sends to the backend. */
  function BackendForm(questionId: FormValue, images: seq<FormValue>, timestamps: seq<FormValue>): seq<Entry> {
    [("questionId", Text(FormText(questionId)))] + Forwarded(images, timestamps, |images|)
  }

  /** The success message: it counts every image entry received, files or not. */
  function SuccessMessage(imageCount: nat, questionId: FormValue): string {
    "Successfully processed " + IntString(imageCount) + " eye tracking images for question " + FormText(questionId)
  }

  /** The reply once the retry loop is over, from the response it kept. */
  function Answer(last: Option<Response>, imageCount: nat, questionId: FormValue): (r: Reply)
    ensures r.status in {200, 500, 502, 503}
    ensures r.status == 503 <==> last.None?
    ensures last.Some? && !IsOk(last.value.status) ==> r.status == 502 && "status" in r.body && r.body["status"] == JNum(last.value.status)
  {
    match last
    case None => Failure(503, UnavailableMessage)
    case Some(r) =>
      if !IsOk(r.status) then
        Reply(502, map["success" := JBool(false), "error" := JStr(BackendErrorMessage),
                       "status" := JNum(r.status), "details" := JStr(r.text)])
      else
        match r.json
        case Malformed(m) => Failure(500, m)
        case Parsed(data) =>
          Reply(200, map["success" := JBool(true), "message" := JStr(SuccessMessage(imageCount, questionId)),
                         "backendResponse" := JObj(data)])
  }

  /**
   * POST: an unreadable form answers 500, a missing question id or an empty
   * image list answers 400, all three without contacting the backend; otherwise
   * the file entries are forwarded and the kept response decides the reply.
   */
  method Post(form: FormBody, outcomes: seq<Fetched>) returns (h: Handled, sent: seq<Entry>)
    requires |outcomes| >= MaxRetries
    ensures form.Unreadable? ==> h == Handled(Failure(500, form.message), None) && sent == []
    ensures form.Entries? && !Present(form.entries, "questionId") ==>
      h == Handled(Failure(400, MissingQuestionMessage), None) && sent == []
    ensures form.Entries? && Present(form.entries, "questionId") &&
            FormGetAll(form.entries, "images") == [] ==>
      h == Handled(Failure(400, NoImagesMessage), None) && sent == []
    ensures form.Entries? && Present(form.entries, "questionId") &&
            FormGetAll(form.entries, "images") != [] ==>
      var images := FormGetAll(form.entries, "images");
      var questionId := FormGet(form.entries, "questionId").value;
      && sent == BackendForm(questionId, images, FormGetAll(form.entries, "timestamps"))
      && h.run == Some(Policy(outcomes))
      && h.reply == Answer(Policy(outcomes).last, |images|, questionId)
  {
    match form {
      case Unreadable(message) =>
        return Handled(Failure(500, message), None), [];
      case Entries(entries) =>
        var questionId := FormGet(entries, "questionId");
        if !(questionId.Some? && FormTruthy(questionId.value)) {
          return Handled(Failure(400, MissingQuestionMessage), None), [];
        }
        var images := FormGetAll(entries, "images");
        var timestamps := FormGetAll(entries, "timestamps");
        if |images| == 0 {
          return Handled(Failure(400, NoImagesMessage), None), [];
        }
        var forwarded := ForwardImages(images, timestamps);
        sent := [("questionId", Text(FormText(questionId.value)))] + forwarded;
        var run := RetryLoop(outcomes);
        h := Handled(Answer(run.last, |images|, questionId.value), Some(run));
    }
  }

  /**
   * Unlike the other two proxies this route never passes a backend status on:
   * 503 exactly when every attempt threw, 502 for any non-ok response kept,
   * with that response's status in the body.
   */
  lemma StatusMapping(outcomes: seq<Fetched>, imageCount: nat, questionId: FormValue)
    requires |outcomes| >= MaxRetries
    ensures var last := Policy(outcomes).last;
      && (Answer(last, imageCount, questionId).status == 503 <==>
            forall i :: 0 <= i < MaxRetries ==> outcomes[i].NetworkError?)
      && (last.Some? && !IsOk(last.value.status) ==>
            Answer(last, imageCount, questionId).status == 502 &&
            Answer(last, imageCount, questionId).body["status"] == JNum(last.value.status))
      && Answer(last, imageCount, questionId).status in {200, 500, 502, 503}
  {
    NoResponseIffAllThrew(outcomes);
  }
}
