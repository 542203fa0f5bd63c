/**
 * The webcam monitoring hook (hooks/use-webcam-monitoring.ts): while its
 * interval is armed, every tick with a camera frame pushes it onto a bounded
 * buffer; an upload takes the whole buffer, empties it at once, and posts
 * each frame on its own.
 *
 * As in the eye-tracking hook, refs and state are one object's fields and
 * the asynchronous `uploadImages` is split at its `await` into
 * `BeginUpload` and `FinishUpload`.
 */
module WebcamMonitoring {
  import opened Wrappers
  import opened Text
  import opened Http
  import opened Capture
  import WebcamService
  import WebcamMonitoringRoute

  /** `maxImageCount`'s default. */
  const DefaultMaxImageCount: nat := 30

  /** A buffered frame: the picture and when it was taken. */
  datatype Frame = Frame(data: Blob, timestamp: int)

  /** The ids every upload carries: the hook's props when the upload is made. */
  datatype Ids = Ids(userId: string, examId: string, questionId: string, sessionId: string)

  /** The form posted for one frame: the four ids, the timestamp and the file `image-<timestamp>.jpg`. */
  function UploadForm(ids: Ids, f: Frame): (r: seq<Entry>)
    ensures |r| == 6
    ensures forall i :: 0 <= i < |r| ==> (r[i].1.File? <==> r[i].0 == "image")
  {
    [("userId", Text(ids.userId)), ("examId", Text(ids.examId)),
     ("questionId", Text(ids.questionId)), ("sessionId", Text(ids.sessionId)),
     ("timestamp", Text(IntString(f.timestamp))),
     ("image", File("image-" + IntString(f.timestamp) + ".jpg", f.data.mimeType, f.data.bytes))]
  }

  /** A request that rejects: it threw, or its answer was not ok, or not JSON. */
  predicate Rejected(outcome: Fetched) {
    !(outcome.Received? && IsOk(outcome.response.status) && outcome.response.json.Parsed?)
  }

  /** How many of the settled requests rejected (only reported in a warning). */
  function Failures(settled: seq<Fetched>): (n: nat)
    ensures n <= |settled|
    ensures n == 0 <==> forall i :: 0 <= i < |settled| ==> !Rejected(settled[i])
  {
    if settled == [] then 0
    else (if Rejected(settled[0]) then 1 else 0) + Failures(settled[1..])
  }

  class WebcamMonitoringHook {
    const maxImageCount: nat
    const autoStart: bool
    /** `imageQueueRef`. */
    var queue: seq<Frame>
    /** `captureIntervalRef` is set. */
    var intervalArmed: bool
    /** `streamRef`, `canvasRef` and `videoRef` are set. */
    var streamHeld: bool
    var canvasReady: bool
    var videoAttached: bool
    /** The hook's state. */
    var isCapturing: bool
    var status: Status
    var imagesQueued: nat
    var lastCaptureTime: Option<int>
    var error: Option<string>

    /**
     * The buffer never exceeds its cap, nor does the displayed count (which,
     * unlike the eye-tracking hook's, can lag behind the buffer); `isCapturing`
     * is true exactly while an interval is armed. Nothing sets "error".
     */
    ghost predicate Valid()
      reads this
    {
      && |queue| <= maxImageCount
      && imagesQueued <= maxImageCount
      && isCapturing == intervalArmed
      && (status == Capturing ==> isCapturing)
      && (status == Idle ==> !isCapturing)
      && status != Error
    }

    constructor(maxImageCount: nat, autoStart: bool)
      ensures Valid()
      ensures this.maxImageCount == maxImageCount && this.autoStart == autoStart
      ensures queue == [] && !intervalArmed && !streamHeld && !canvasReady && !videoAttached
      ensures !isCapturing && status == Idle && imagesQueued == 0
      ensures lastCaptureTime == None && error == None
    {
      this.maxImageCount := maxImageCount;
      this.autoStart := autoStart;
      queue := [];
      intervalArmed := false;
      streamHeld := false;
      canvasReady := false;
      videoAttached := false;
      isCapturing := false;
      status := Idle;
      imagesQueued := 0;
      lastCaptureTime := None;
      error := None;
    }

    /** `attachToVideo`: the `<video>` element is mounted (`true`) or removed. */
    method AttachToVideo(present: bool)
      requires Valid()
      modifies this
      ensures Valid()
      ensures videoAttached == present
      ensures queue == old(queue) && status == old(status) && isCapturing == old(isCapturing)
      ensures intervalArmed == old(intervalArmed) && streamHeld == old(streamHeld) && canvasReady == old(canvasReady)
      ensures imagesQueued == old(imagesQueued) && lastCaptureTime == old(lastCaptureTime) && error == old(error)
    {
      videoAttached := present;
    }

    /** `startCapturing`: arms the interval and shows "capturing"; with one armed already, nothing changes. */
    method StartCapturing()
      requires Valid()
      modifies this
      ensures Valid()
      ensures old(intervalArmed) ==> unchanged(this)
      ensures !old(intervalArmed) ==> intervalArmed && isCapturing && status == Capturing
      ensures intervalArmed
      ensures queue == old(queue)
      ensures streamHeld == old(streamHeld) && canvasReady == old(canvasReady) && videoAttached == old(videoAttached)
      ensures imagesQueued == old(imagesQueued) && lastCaptureTime == old(lastCaptureTime) && error == old(error)
    {
      if intervalArmed {
        return;
      }
      intervalArmed := true;
      isCapturing := true;
      status := Capturing;
    }

    /** `stopCapturing`: clears the interval, if any, and shows "idle". */
    method StopCapturing()
      requires Valid()
      modifies this
      ensures Valid()
      ensures !intervalArmed && !isCapturing && status == Idle
      ensures queue == old(queue)
      ensures streamHeld == old(streamHeld) && canvasReady == old(canvasReady) && videoAttached == old(videoAttached)
      ensures imagesQueued == old(imagesQueued) && lastCaptureTime == old(lastCaptureTime) && error == old(error)
    {
      intervalArmed := false;
      isCapturing := false;
      status := Idle;
    }

    /** `setupWebcam` once the camera request settles (as in the eye-tracking hook). */
    method SetupWebcam(access: CameraAccess) returns (ok: bool)
      requires Valid()
      modifies this
      ensures Valid()
      ensures ok <==> access.Granted?
      ensures access.Granted? ==> streamHeld && canvasReady && error == old(error)
      ensures access.Granted? && autoStart ==> intervalArmed && isCapturing
      ensures access.Granted? && !autoStart ==>
        intervalArmed == old(intervalArmed) && status == old(status) && isCapturing == old(isCapturing)
      ensures access.Denied? ==>
        && error == Some(CameraError(access))
        && streamHeld == old(streamHeld) && canvasReady == old(canvasReady)
        && intervalArmed == old(intervalArmed) && status == old(status) && isCapturing == old(isCapturing)
      ensures queue == old(queue) && videoAttached == old(videoAttached)
      ensures imagesQueued == old(imagesQueued) && lastCaptureTime == old(lastCaptureTime)
    {
      match access {
        case Granted =>
          streamHeld := true;
          canvasReady := true;
          if autoStart {
            StartCapturing();
          }
          ok := true;
        case Denied(_, _) =>
          error := Some(CameraError(access));
          ok := false;
      }
    }

    predicate CanCapture()
      reads this
    {
      intervalArmed && streamHeld && canvasReady && videoAttached
    }

    /**
     * One interval tick: with all resources, a 2-D context and a blob, the
     * frame is pushed and the oldest evicted past the cap; otherwise nothing.
     */
    method TimerTick(contextAvailable: bool, blob: Option<Blob>, now: int)
      requires Valid()
      modifies this
      ensures Valid()
      ensures !(CanCapture() && contextAvailable && blob.Some?) ==> unchanged(this)
      ensures CanCapture() && contextAvailable && blob.Some? ==>
        && queue == Enqueue(old(queue), Frame(blob.value, now), maxImageCount)
        && imagesQueued == |queue| && lastCaptureTime == Some(now)
      ensures status == old(status) && isCapturing == old(isCapturing) && intervalArmed == old(intervalArmed)
      ensures error == old(error)
      ensures streamHeld == old(streamHeld) && canvasReady == old(canvasReady) && videoAttached == old(videoAttached)
    {
      if CanCapture() && contextAvailable && blob.Some? {
        var pushed := Enqueue(queue, Frame(blob.value, now), maxImageCount);
        assert |pushed| <= maxImageCount;
        queue := pushed;
        imagesQueued := |pushed|;
        lastCaptureTime := Some(now);
        assert Valid();
      }
    }

    /**
     * `uploadImages` up to its requests. With an empty buffer, or an upload
     * already running, nothing happens. Otherwise the buffer is copied and
     * emptied before any request is made, and one form is built per copied
     * frame, in order, with the ids of the render that made the call.
     */
    method BeginUpload(ids: Ids) returns (forms: Option<seq<seq<Entry>>>)
      requires Valid()
      modifies this
      ensures Valid()
      ensures old(queue) == [] || old(status) == Uploading ==> forms == None && unchanged(this)
      ensures old(queue) != [] && old(status) != Uploading ==>
        && queue == []
        && status == Uploading
        && forms.Some? && |forms.value| == |old(queue)|
        && (forall i :: 0 <= i < |old(queue)| ==> forms.value[i] == UploadForm(ids, old(queue)[i]))
      ensures isCapturing == old(isCapturing) && intervalArmed == old(intervalArmed) && error == old(error)
      ensures imagesQueued == old(imagesQueued) && lastCaptureTime == old(lastCaptureTime)
      ensures streamHeld == old(streamHeld) && canvasReady == old(canvasReady) && videoAttached == old(videoAttached)
    {
      if |queue| == 0 || status == Uploading {
        return None;
      }
      status := Uploading;
      var images := queue;
      queue := [];
      forms := Some(seq(|images|, i requires 0 <= i < |images| => UploadForm(ids, images[i])));
    }

    /**
     * `uploadImages` once every request has settled: failures are only counted,
     * never put back; the status returns to "capturing" or "idle", the count
     * shows what was captured meanwhile, and the call reports success.
     */
    method FinishUpload(settled: seq<Fetched>) returns (ok: bool, failures: nat)
      requires Valid()
      modifies this
      ensures Valid()
      ensures ok
      ensures failures == Failures(settled)
      ensures status == (if isCapturing then Capturing else Idle)
      ensures queue == old(queue) && imagesQueued == |queue|
      ensures isCapturing == old(isCapturing) && intervalArmed == old(intervalArmed) && error == old(error)
      ensures lastCaptureTime == old(lastCaptureTime)
      ensures streamHeld == old(streamHeld) && canvasReady == old(canvasReady) && videoAttached == old(videoAttached)
    {
      failures := Failures(settled);
      status := if isCapturing then Capturing else Idle;
      imagesQueued := |queue|;
      ok := true;
    }

    /**
     * `uploadImages` with nothing in between: refused (no result) on an empty
     * buffer or while uploading; otherwise every frame is posted once, the
     * buffer ends empty whatever the requests did, and the result is `true`.
     */
    method UploadImages(ids: Ids, settled: seq<Fetched>) returns (result: Option<bool>, forms: seq<seq<Entry>>)
      requires Valid()
      modifies this
      ensures Valid()
      ensures old(queue) == [] || old(status) == Uploading ==> result == None && forms == [] && unchanged(this)
      ensures old(queue) != [] && old(status) != Uploading ==>
        && result == Some(true)
        && queue == [] && imagesQueued == 0
        && status == (if isCapturing then Capturing else Idle)
        && |forms| == |old(queue)|
        && (forall i :: 0 <= i < |old(queue)| ==> forms[i] == UploadForm(ids, old(queue)[i]))
      ensures isCapturing == old(isCapturing)
    {
      var started := BeginUpload(ids);
      if started.None? {
        return None, [];
      }
      forms := started.value;
      var ok, _ := FinishUpload(settled);
      result := Some(ok);
    }

    /**
     * `cleanup`: clears the interval, releases the stream and resets the
     * state, count included; the buffer itself is left as it was.
     */
    method Cleanup()
      requires Valid()
      modifies this
      ensures Valid()
      ensures !intervalArmed && !streamHeld && !videoAttached
      ensures !isCapturing && status == Idle && imagesQueued == 0
      ensures lastCaptureTime == None && error == None
      ensures queue == old(queue) && canvasReady == old(canvasReady)
    {
      intervalArmed := false;
      streamHeld := false;
      isCapturing := false;
      status := Idle;
      imagesQueued := 0;
      lastCaptureTime := None;
      error := None;
      videoAttached := false;
    }
  }

  /**
   * Every upload form is one the webcam route accepts: with non-empty ids, a
   * capture time that is not negative, an image type and a store that takes
   * the file, the route answers 200 with the stored URL, and it stores the
   * frame under its capture time whatever the server's clock says.
   */
  lemma UploadFormAccepted(ids: Ids, f: Frame, now: int, hexDigest: string -> string,
                           put: string -> WebcamService.PutResult)
    requires ids.userId != "" && ids.examId != "" && ids.questionId != "" && ids.sessionId != ""
    requires f.timestamp >= 0 && StartsWith(f.data.mimeType, "image/")
    requires put(WebcamService.GenerateUniqueImageFilename(UploadedData(ids, f), hexDigest)).Put?
    ensures var url := put(WebcamService.GenerateUniqueImageFilename(UploadedData(ids, f), hexDigest)).url;
      WebcamMonitoringRoute.Post(Entries(UploadForm(ids, f)), now, hexDigest, put)
        == Reply(200, map["success" := JBool(true), "imageUrl" := JStr(url),
                          "message" := JStr(WebcamMonitoringRoute.StoredMessage)])
  {
    var form := UploadForm(ids, f);
    UploadFormFields(ids, f);
    ParseNatString(f.timestamp);
    assert WebcamMonitoringRoute.TimestampOf(FormGet(form, "timestamp"), now) == WebcamService.Millis(f.timestamp);
    assert WebcamMonitoringRoute.ImageDataOf(form, now) == UploadedData(ids, f);
  }

  /** Each field of an upload form reads back as what was put in it. */
  lemma UploadFormFields(ids: Ids, f: Frame)
    ensures var form := UploadForm(ids, f);
      && FormGet(form, "userId") == Some(Text(ids.userId))
      && FormGet(form, "examId") == Some(Text(ids.examId))
      && FormGet(form, "questionId") == Some(Text(ids.questionId))
      && FormGet(form, "sessionId") == Some(Text(ids.sessionId))
      && FormGet(form, "timestamp") == Some(Text(IntString(f.timestamp)))
      && FormGet(form, "image") == Some(File("image-" + IntString(f.timestamp) + ".jpg", f.data.mimeType, f.data.bytes))
  {
    var form := UploadForm(ids, f);
    var t1 := form[1..];
    var t2 := t1[1..];
    var t3 := t2[1..];
    var t4 := t3[1..];
    var t5 := t4[1..];
    assert form[0].0 == "userId" && t1[0].0 == "examId" && t2[0].0 == "questionId";
    assert t3[0].0 == "sessionId" && t4[0].0 == "timestamp" && t5[0].0 == "image";
    assert "userId"[0] == 'u' && "examId"[0] == 'e' && "questionId"[0] == 'q';
    assert "sessionId"[0] == 's' && "timestamp"[0] == 't' && "image"[0] == 'i';
    assert FormGet(t5, "image") == Some(t5[0].1);
    assert FormGet(t4, "timestamp") == Some(t4[0].1);
    assert FormGet(t4, "image") == FormGet(t5, "image");
    assert FormGet(t3, "sessionId") == Some(t3[0].1);
    assert FormGet(t3, "timestamp") == FormGet(t4, "timestamp") && FormGet(t3, "image") == FormGet(t4, "image");
    assert FormGet(t2, "questionId") == Some(t2[0].1);
    assert FormGet(t2, "sessionId") == FormGet(t3, "sessionId");
    assert FormGet(t2, "timestamp") == FormGet(t3, "timestamp") && FormGet(t2, "image") == FormGet(t3, "image");
    assert FormGet(t1, "examId") == Some(t1[0].1);
    assert FormGet(t1, "questionId") == FormGet(t2, "questionId") && FormGet(t1, "sessionId") == FormGet(t2, "sessionId");
    assert FormGet(t1, "timestamp") == FormGet(t2, "timestamp") && FormGet(t1, "image") == FormGet(t2, "image");
    assert FormGet(form, "examId") == FormGet(t1, "examId") && FormGet(form, "questionId") == FormGet(t1, "questionId");
    assert FormGet(form, "sessionId") == FormGet(t1, "sessionId");
    assert FormGet(form, "timestamp") == FormGet(t1, "timestamp") && FormGet(form, "image") == FormGet(t1, "image");
  }

  /** What the route hands to the store for a frame's form. */
  function UploadedData(ids: Ids, f: Frame): WebcamService.ImageData {
    WebcamService.ImageData(ids.userId, ids.examId, ids.questionId, ids.sessionId,
      WebcamService.Millis(f.timestamp),
      File("image-" + IntString(f.timestamp) + ".jpg", f.data.mimeType, f.data.bytes))
  }
}
