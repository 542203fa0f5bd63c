/**
 * The eye-tracking capture hook (hooks/use-eye-tracking.ts): while its
 * interval is armed, every tick with a camera frame pushes that frame, tagged
 * with the question then current, onto a bounded buffer; the frames of one
 * question are later sent together and dropped from the buffer once the
 * server has accepted them.
 *
 * React's refs and state are the fields of one object; a `setState` takes
 * effect at once. The asynchronous `submitImagesForQuestion` is split at its
 * `await`: `BeginSubmit` runs up to the request, `FinishSubmit` from its
 * answer on, so that ticks and other calls can fall between the two.
 */
module EyeTracking {
  import opened Wrappers
  import opened Text
  import opened Http
  import opened Capture
  import EyeTrackingRoute

  /** `maxImageCount`'s default: one minute at one frame a second. */
  const DefaultMaxImageCount: nat := 60

  const SubmitFailedMessage := "Failed to submit images"
  const NothingToSubmitMessage := "No images to submit"

  /** A buffered frame: the picture, when it was taken, and for which question. */
  datatype Frame = Frame(data: Blob, timestamp: int, questionId: string)

  /** The frames of question `id`, in buffer order. */
  function WithQuestion(q: seq<Frame>, id: string): (r: seq<Frame>)
    ensures |r| <= |q|
    ensures forall i :: 0 <= i < |r| ==> r[i].questionId == id
  {
    if q == [] then []
    else (if q[0].questionId == id then [q[0]] else []) + WithQuestion(q[1..], id)
  }

  /** The frames of every other question, in buffer order. */
  function WithoutQuestion(q: seq<Frame>, id: string): (r: seq<Frame>)
    ensures |r| <= |q|
    ensures forall i :: 0 <= i < |r| ==> r[i].questionId != id
  {
    if q == [] then []
    else (if q[0].questionId != id then [q[0]] else []) + WithoutQuestion(q[1..], id)
  }

  /** Dropping one question's frames loses no other frame: the two filters split the buffer. */
  lemma {:induction false} FiltersPartition(q: seq<Frame>, id: string)
    ensures multiset(WithQuestion(q, id)) + multiset(WithoutQuestion(q, id)) == multiset(q)
    ensures |WithQuestion(q, id)| + |WithoutQuestion(q, id)| == |q|
  {
    if q != [] {
      FiltersPartition(q[1..], id);
      assert q == [q[0]] + q[1..];
    }
  }

  /** After dropping a question's frames, none of that question is left. */
  lemma {:induction false} WithoutLeavesNone(q: seq<Frame>, id: string)
    ensures WithQuestion(WithoutQuestion(q, id), id) == []
  {
    if q != [] {
      WithoutLeavesNone(q[1..], id);
      var rest := WithoutQuestion(q[1..], id);
      if q[0].questionId != id {
        var w := [q[0]] + rest;
        assert WithoutQuestion(q, id) == w;
        assert w[0] == q[0] && w[1..] == rest;
      } else {
        assert WithoutQuestion(q, id) == rest;
      }
    }
  }

  /** Dropping a question's frames reorders nothing: every other question keeps exactly its frames, in order. */
  lemma {:induction false} WithoutKeepsOthers(q: seq<Frame>, id: string, other: string)
    requires other != id
    ensures WithQuestion(WithoutQuestion(q, id), other) == WithQuestion(q, other)
  {
    if q != [] {
      WithoutKeepsOthers(q[1..], id, other);
      var rest := WithoutQuestion(q[1..], id);
      if q[0].questionId != id {
        var w := [q[0]] + rest;
        assert WithoutQuestion(q, id) == w;
        assert w[0] == q[0] && w[1..] == rest;
      } else {
        assert WithoutQuestion(q, id) == rest;
      }
    }
  }

  /** The form `submitImagesForQuestion` posts: the question, then each frame's file and timestamp. */
  function SubmissionForm(target: string, batch: seq<Frame>): (r: seq<Entry>)
    ensures |r| == 2 * |batch| + 1
    ensures FormGet(r, "questionId") == Some(Text(target))
  {
    [("questionId", Text(target))] + FrameEntries(batch)
  }

  function FrameEntries(batch: seq<Frame>): (r: seq<Entry>)
    ensures |r| == 2 * |batch|
  {
    if batch == [] then []
    else FrameEntry(batch[0]) + FrameEntries(batch[1..])
  }

  /** One frame as two entries: the file `image-<timestamp>.jpg` and the timestamp as text. */
  function FrameEntry(f: Frame): seq<Entry> {
    [("images", ImageFile(f)), ("timestamps", StampText(f))]
  }

  function ImageFile(f: Frame): FormValue {
    File("image-" + IntString(f.timestamp) + ".jpg", f.data.mimeType, f.data.bytes)
  }

  function StampText(f: Frame): FormValue {
    Text(IntString(f.timestamp))
  }

  lemma {:induction false} FrameEntriesSnoc(batch: seq<Frame>, n: nat)
    requires n < |batch|
    ensures FrameEntries(batch[..n + 1]) == FrameEntries(batch[..n]) + FrameEntry(batch[n])
    decreases n
  {
    if n == 0 {
      assert batch[..1] == [batch[0]];
      assert batch[..1][1..] == [];
    } else {
      assert batch[..n + 1][1..] == batch[1..][..n];
      assert batch[..n][1..] == batch[1..][..n - 1];
      FrameEntriesSnoc(batch[1..], n - 1);
    }
  }

  /** The form's files are the frames' files and its timestamps the frames' timestamps, in order. */
  lemma {:induction false} FrameEntriesGetAll(batch: seq<Frame>)
    ensures FormGetAll(FrameEntries(batch), "images") == seq(|batch|, i requires 0 <= i < |batch| => ImageFile(batch[i]))
    ensures FormGetAll(FrameEntries(batch), "timestamps") == seq(|batch|, i requires 0 <= i < |batch| => StampText(batch[i]))
  {
    if batch != [] {
      FrameEntriesGetAll(batch[1..]);
      var head := FrameEntry(batch[0]);
      FormGetAllAppend(head, FrameEntries(batch[1..]), "images");
      FormGetAllAppend(head, FrameEntries(batch[1..]), "timestamps");
      assert head[1..][1..] == [];
      assert FormGetAll(head, "images") == [ImageFile(batch[0])];
      assert FormGetAll(head, "timestamps") == [StampText(batch[0])];
    }
  }

  /**
   * The eye-tracking route passes a submission on unchanged: given a non-empty
   * question id and at least one frame, the form it forwards to the backend is
   * exactly the form the hook posted, and its success message counts the frames.
   */
  lemma RouteForwardsSubmission(target: string, batch: seq<Frame>)
    requires target != "" && batch != []
    ensures var form := SubmissionForm(target, batch);
      && Present(form, "questionId")
      && |FormGetAll(form, "images")| == |batch|
      && EyeTrackingRoute.BackendForm(FormGet(form, "questionId").value,
           FormGetAll(form, "images"), FormGetAll(form, "timestamps")) == form
  {
    var form := SubmissionForm(target, batch);
    assert form[1..] == FrameEntries(batch);
    FrameEntriesGetAll(batch);
    var images := FormGetAll(form, "images");
    var stamps := FormGetAll(form, "timestamps");
    ForwardedFrames(batch, images, stamps, |batch|);
    assert batch[..|batch|] == batch;
  }

  lemma {:induction false} ForwardedFrames(batch: seq<Frame>, images: seq<FormValue>, stamps: seq<FormValue>, n: nat)
    requires n <= |batch|
    requires |images| == |stamps| == |batch|
    requires forall i :: 0 <= i < |batch| ==> images[i] == ImageFile(batch[i]) && stamps[i] == StampText(batch[i])
    ensures EyeTrackingRoute.Forwarded(images, stamps, n) == FrameEntries(batch[..n])
  {
    if n > 0 {
      ForwardedFrames(batch, images, stamps, n - 1);
      FrameEntriesSnoc(batch, n - 1);
      ForwardedFrameStep(batch, images, stamps, n - 1);
    }
  }

  /** The route re-packs one of the hook's frames into the very entries the hook wrote for it. */
  lemma ForwardedFrameStep(batch: seq<Frame>, images: seq<FormValue>, stamps: seq<FormValue>, i: nat)
    requires i < |batch| == |images| == |stamps|
    requires images[i] == ImageFile(batch[i]) && stamps[i] == StampText(batch[i])
    ensures EyeTrackingRoute.EntriesFor(images, stamps, i) == FrameEntry(batch[i])
  {
  }

  /** How a submission ended: the server's JSON, or the message of the error it raised. */
  datatype SubmitResult = Accepted(result: Object) | Failed(message: string)

  /**
   * A non-ok answer raises its JSON `error` field, or "Failed to submit images"
   * when that is falsy; a body that is not JSON, or a request that throws,
   * raises its own error.
   */
  function SubmitOutcome(outcome: Fetched): (r: SubmitResult)
    ensures r.Accepted? <==> outcome.Received? && IsOk(outcome.response.status) && outcome.response.json.Parsed?
    ensures (outcome.Received? && !IsOk(outcome.response.status) && outcome.response.json.Parsed? &&
             !FieldTruthy(outcome.response.json.fields, "error")) ==> r == Failed(SubmitFailedMessage)
  {
    match outcome
    case NetworkError(m) => Failed(m)
    case Received(response) =>
      match response.json
      case Malformed(m) => Failed(m)
      case Parsed(data) =>
        if IsOk(response.status) then Accepted(data)
        else if FieldTruthy(data, "error") then Failed(JsString(data["error"]))
        else Failed(SubmitFailedMessage)
  }

  /** `{ success: false, error }`, what a failed submission returns. */
  function FailureResult(message: string): Object {
    map["success" := JBool(false), "error" := JStr(message)]
  }

  class EyeTrackingHook {
    const maxImageCount: nat
    const autoStart: bool
    /** `currentQuestionIdRef`: follows the `questionId` option. */
    var currentQuestionId: string
    /** `imageQueueRef`. */
    var queue: seq<Frame>
    /** `captureIntervalRef` is set. */
    var intervalArmed: bool
    /** `streamRef`, `canvasRef` and `videoRef` are set. */
    var streamHeld: bool
    var canvasReady: bool
    var videoAttached: bool
    /** The hook's state. */
    var isCapturing: bool
    var status: Status
    var imagesCount: nat
    var lastCaptureTime: Option<int>
    var error: Option<string>

    /**
     * The buffer never exceeds its cap and the displayed count is its length;
     * `isCapturing` is true exactly while an interval is armed, and an idle or
     * capturing status agrees with it. Nothing ever sets the status to "error".
     */
    ghost predicate Valid()
      reads this
    {
      && |queue| <= maxImageCount
      && imagesCount == |queue|
      && isCapturing == intervalArmed
      && (status == Capturing ==> isCapturing)
      && (status == Idle ==> !isCapturing)
      && status != Error
    }

    /** The state a fresh hook starts in. */
    constructor(questionId: string, maxImageCount: nat, autoStart: bool)
      ensures Valid()
      ensures this.maxImageCount == maxImageCount && this.autoStart == autoStart
      ensures currentQuestionId == questionId && queue == []
      ensures !intervalArmed && !streamHeld && !canvasReady && !videoAttached
      ensures !isCapturing && status == Idle && imagesCount == 0
      ensures lastCaptureTime == None && error == None
    {
      this.maxImageCount := maxImageCount;
      this.autoStart := autoStart;
      currentQuestionId := questionId;
      queue := [];
      intervalArmed := false;
      streamHeld := false;
      canvasReady := false;
      videoAttached := false;
      isCapturing := false;
      status := Idle;
      imagesCount := 0;
      lastCaptureTime := None;
      error := None;
    }

    /** The effect on `questionId`: later frames are tagged with the new id. */
    method SetQuestionId(questionId: string)
      requires Valid()
      modifies this
      ensures Valid()
      ensures currentQuestionId == questionId
      ensures queue == old(queue) && status == old(status) && isCapturing == old(isCapturing)
      ensures intervalArmed == old(intervalArmed) && streamHeld == old(streamHeld)
      ensures canvasReady == old(canvasReady) && videoAttached == old(videoAttached)
      ensures imagesCount == old(imagesCount) && lastCaptureTime == old(lastCaptureTime) && error == old(error)
    {
      currentQuestionId := questionId;
    }

    /** `attachToVideo`: the `<video>` element is mounted (`true`) or removed. */
    method AttachToVideo(present: bool)
      requires Valid()
      modifies this
      ensures Valid()
      ensures videoAttached == present
      ensures queue == old(queue) && status == old(status) && isCapturing == old(isCapturing)
      ensures intervalArmed == old(intervalArmed) && streamHeld == old(streamHeld)
      ensures canvasReady == old(canvasReady) && currentQuestionId == old(currentQuestionId)
      ensures imagesCount == old(imagesCount) && lastCaptureTime == old(lastCaptureTime) && error == old(error)
    {
      videoAttached := present;
    }

    /**
     * `startCapturing`: arms the interval and shows "capturing"; when an
     * interval is already armed it changes nothing at all.
     */
    method StartCapturing()
      requires Valid()
      modifies this
      ensures Valid()
      ensures old(intervalArmed) ==> unchanged(this)
      ensures !old(intervalArmed) ==> intervalArmed && isCapturing && status == Capturing
      ensures intervalArmed
      ensures queue == old(queue) && currentQuestionId == old(currentQuestionId)
      ensures streamHeld == old(streamHeld) && canvasReady == old(canvasReady) && videoAttached == old(videoAttached)
      ensures imagesCount == old(imagesCount) && lastCaptureTime == old(lastCaptureTime) && error == old(error)
    {
      if intervalArmed {
        return;
      }
      intervalArmed := true;
      isCapturing := true;
      status := Capturing;
    }

    /** `stopCapturing`: clears the interval, if any, and shows "idle". */
    method StopCapturing()
      requires Valid()
      modifies this
      ensures Valid()
      ensures !intervalArmed && !isCapturing && status == Idle
      ensures queue == old(queue) && currentQuestionId == old(currentQuestionId)
      ensures streamHeld == old(streamHeld) && canvasReady == old(canvasReady) && videoAttached == old(videoAttached)
      ensures imagesCount == old(imagesCount) && lastCaptureTime == old(lastCaptureTime) && error == old(error)
    {
      intervalArmed := false;
      isCapturing := false;
      status := Idle;
    }

    /**
     * `setupWebcam` once the camera request settles: a granted stream is held,
     * a canvas made, and with `autoStart` capturing starts; a refused one
     * records the error and leaves everything else as it was.
     */
    method SetupWebcam(access: CameraAccess) returns (ok: bool)
      requires Valid()
      modifies this
      ensures Valid()
      ensures ok <==> access.Granted?
      ensures access.Granted? ==> streamHeld && canvasReady && error == old(error)
      ensures access.Granted? && autoStart ==> intervalArmed && isCapturing
      ensures access.Granted? && !autoStart ==>
        intervalArmed == old(intervalArmed) && status == old(status) && isCapturing == old(isCapturing)
      ensures access.Denied? ==>
        && error == Some(CameraError(access))
        && streamHeld == old(streamHeld) && canvasReady == old(canvasReady)
        && intervalArmed == old(intervalArmed) && status == old(status) && isCapturing == old(isCapturing)
      ensures queue == old(queue) && currentQuestionId == old(currentQuestionId) && videoAttached == old(videoAttached)
      ensures imagesCount == old(imagesCount) && lastCaptureTime == old(lastCaptureTime)
    {
      match access {
        case Granted =>
          streamHeld := true;
          canvasReady := true;
          if autoStart {
            StartCapturing();
          }
          ok := true;
        case Denied(_, _) =>
          error := Some(CameraError(access));
          ok := false;
      }
    }

    /** A tick captures only with an armed interval, a stream, a canvas and a video element. */
    predicate CanCapture()
      reads this
    {
      intervalArmed && streamHeld && canvasReady && videoAttached
    }

    /**
     * One interval tick (`captureImage` and its `toBlob` callback): with all
     * resources present, a 2-D context and a blob, the frame is pushed, tagged
     * with the current question, and the oldest evicted past the cap; any
     * missing piece leaves the hook as it was.
     */
    method TimerTick(contextAvailable: bool, blob: Option<Blob>, now: int)
      requires Valid()
      modifies this
      ensures Valid()
      ensures !(CanCapture() && contextAvailable && blob.Some?) ==> unchanged(this)
      ensures CanCapture() && contextAvailable && blob.Some? ==>
        && queue == Enqueue(old(queue), Frame(blob.value, now, currentQuestionId), maxImageCount)
        && lastCaptureTime == Some(now)
      ensures currentQuestionId == old(currentQuestionId) && status == old(status)
      ensures isCapturing == old(isCapturing) && intervalArmed == old(intervalArmed) && error == old(error)
      ensures streamHeld == old(streamHeld) && canvasReady == old(canvasReady) && videoAttached == old(videoAttached)
    {
      if CanCapture() && contextAvailable && blob.Some? {
        var pushed := Enqueue(queue, Frame(blob.value, now, currentQuestionId), maxImageCount);
        assert |pushed| <= maxImageCount;
        queue := pushed;
        imagesCount := |pushed|;
        lastCaptureTime := Some(now);
      }
    }

    /**
     * `submitImagesForQuestion` up to its request: picks the target's frames
     * and, only when there are some, shows "uploading".
     */
    method BeginSubmit(target: string) returns (batch: seq<Frame>)
      requires Valid()
      modifies this
      ensures Valid()
      ensures batch == WithQuestion(queue, target)
      ensures batch == [] ==> unchanged(this)
      ensures batch != [] ==> status == Uploading
      ensures queue == old(queue) && currentQuestionId == old(currentQuestionId)
      ensures isCapturing == old(isCapturing) && intervalArmed == old(intervalArmed) && error == old(error)
      ensures streamHeld == old(streamHeld) && canvasReady == old(canvasReady) && videoAttached == old(videoAttached)
      ensures imagesCount == old(imagesCount) && lastCaptureTime == old(lastCaptureTime)
    {
      batch := WithQuestion(queue, target);
      if batch != [] {
        status := Uploading;
      }
    }

    /**
     * `submitImagesForQuestion` from the answer on. Accepted: every frame then
     * tagged with the target is dropped, the rest kept in order, and the
     * server's JSON returned. Otherwise the buffer is untouched, the error is
     * recorded and `{ success: false, error }` returned. Either way the status
     * goes back to "capturing" or "idle" by `isCapturing`.
     */
    method FinishSubmit(target: string, outcome: Fetched) returns (result: Object)
      requires Valid()
      modifies this
      ensures Valid()
      ensures status == (if isCapturing then Capturing else Idle)
      ensures SubmitOutcome(outcome).Accepted? ==>
        queue == WithoutQuestion(old(queue), target) && result == SubmitOutcome(outcome).result &&
        error == old(error)
      ensures SubmitOutcome(outcome).Failed? ==>
        queue == old(queue) && result == FailureResult(SubmitOutcome(outcome).message) &&
        error == Some(SubmitOutcome(outcome).message)
      ensures currentQuestionId == old(currentQuestionId) && isCapturing == old(isCapturing)
      ensures intervalArmed == old(intervalArmed) && lastCaptureTime == old(lastCaptureTime)
      ensures streamHeld == old(streamHeld) && canvasReady == old(canvasReady) && videoAttached == old(videoAttached)
    {
      match SubmitOutcome(outcome) {
        case Accepted(data) =>
          queue := WithoutQuestion(queue, target);
          status := if isCapturing then Capturing else Idle;
          imagesCount := |queue|;
          result := data;
        case Failed(message) =>
          status := if isCapturing then Capturing else Idle;
          error := Some(message);
          result := FailureResult(message);
      }
    }

    /**
     * `submitImagesForQuestion` with nothing in between: a target with no
     * frames answers success without a request; otherwise the frames are sent
     * as `SubmissionForm` and the answer handled as `FinishSubmit` says.
     */
    method SubmitImagesForQuestion(target: string, outcome: Fetched) returns (result: Object, sent: Option<seq<Entry>>)
      requires Valid()
      modifies this
      ensures Valid()
      ensures WithQuestion(old(queue), target) == [] ==>
        unchanged(this) && sent == None &&
        result == map["success" := JBool(true), "message" := JStr(NothingToSubmitMessage)]
      ensures WithQuestion(old(queue), target) != [] ==>
        && sent == Some(SubmissionForm(target, WithQuestion(old(queue), target)))
        && status == (if isCapturing then Capturing else Idle)
        && (SubmitOutcome(outcome).Accepted? ==>
              queue == WithoutQuestion(old(queue), target) && result == SubmitOutcome(outcome).result)
        && (SubmitOutcome(outcome).Failed? ==>
              queue == old(queue) && result == FailureResult(SubmitOutcome(outcome).message))
      ensures currentQuestionId == old(currentQuestionId) && isCapturing == old(isCapturing)
    {
      var batch := BeginSubmit(target);
      if batch == [] {
        return map["success" := JBool(true), "message" := JStr(NothingToSubmitMessage)], None;
      }
      sent := Some(SubmissionForm(target, batch));
      result := FinishSubmit(target, outcome);
    }

    /** `cleanup`: clears the interval, releases the stream, resets the state and empties the buffer. */
    method Cleanup()
      requires Valid()
      modifies this
      ensures Valid()
      ensures queue == [] && !intervalArmed && !streamHeld && !videoAttached
      ensures !isCapturing && status == Idle && imagesCount == 0
      ensures lastCaptureTime == None && error == None
      ensures currentQuestionId == old(currentQuestionId) && canvasReady == old(canvasReady)
    {
      intervalArmed := false;
      streamHeld := false;
      isCapturing := false;
      status := Idle;
      imagesCount := 0;
      lastCaptureTime := None;
      error := None;
      videoAttached := false;
      queue := [];
    }
  }

  /**
   * Frames are only ever added for the question current at the tick: a tick
   * adds none for any other question, and at most the one it took for the
   * current one.
   */
  lemma TickTagsCurrentQuestion(q: seq<Frame>, f: Frame, cap: nat, id: string)
    requires |q| <= cap
    ensures id != f.questionId ==> |WithQuestion(Enqueue(q, f, cap), id)| <= |WithQuestion(q, id)|
    ensures |WithQuestion(Enqueue(q, f, cap), id)| <= |WithQuestion(q, id)| + 1
  {
    WithQuestionAppend(q, [f], id);
    if |q| + 1 > cap {
      var pushed := q + [f];
      assert pushed == [pushed[0]] + pushed[1..];
      WithQuestionAppend([pushed[0]], pushed[1..], id);
    }
  }

  /**
   * A success drops every frame then tagged with the target, not only those
   * sent: a frame of the target captured while the request was in flight is
   * dropped unsent, so the buffer loses one frame more than was submitted.
   */
  lemma SuccessDropsFramesCapturedMeanwhile(q: seq<Frame>, f: Frame, cap: nat, target: string)
    requires |q| < cap && f.questionId == target
    ensures |Enqueue(q, f, cap)| - |WithoutQuestion(Enqueue(q, f, cap), target)|
      == |WithQuestion(q, target)| + 1
  {
    var later := q + [f];
    WithQuestionAppend(q, [f], target);
    FiltersPartition(later, target);
    assert WithQuestion([f], target) == [f];
  }

  /** Removing a question's frames keeps the buffer order of every frame that stays. */
  lemma {:induction false} WithoutQuestionAppend(a: seq<Frame>, b: seq<Frame>, id: string)
    ensures WithoutQuestion(a + b, id) == WithoutQuestion(a, id) + WithoutQuestion(b, id)
  {
    if a == [] {
      assert a + b == b;
    } else {
      assert (a + b)[0] == a[0];
      assert (a + b)[1..] == a[1..] + b;
      WithoutQuestionAppend(a[1..], b, id);
    }
  }

  lemma {:induction false} WithQuestionAppend(a: seq<Frame>, b: seq<Frame>, id: string)
    ensures WithQuestion(a + b, id) == WithQuestion(a, id) + WithQuestion(b, id)
  {
    if a == [] {
      assert a + b == b;
    } else {
      assert (a + b)[0] == a[0];
      assert (a + b)[1..] == a[1..] + b;
      WithQuestionAppend(a[1..], b, id);
    }
  }
}
