/**
 * The `EyeTracker` component (components/eye-tracker.tsx): it owns an
 * eye-tracking hook that always starts on its own, remembers the question it
 * last saw, submits that question's frames whenever the question changes, and
 * pauses capture while the page is hidden.
 *
 * A submission started on a question change settles later; `QuestionIdChanged`
 * runs the effect up to the request and returns what is in flight, and
 * `SubmissionSettled` runs the `.then` callback.
 */
module EyeTracker {
  import opened Wrappers
  import opened Http
  import opened Capture
  import opened EyeTracking

  /** A submission in flight: the question now shown, the one whose frames were sent, and those frames. */
  datatype Pending = Pending(newQuestionId: string, previousQuestionId: string, batch: seq<Frame>)

  class EyeTrackerView {
    /** The hook the component renders with: cap 60, `autoStart: true`. */
    const tracker: EyeTrackingHook
    /** `prevQuestionIdRef`. */
    var prevQuestionId: string
    /** An `onQuestionChange` prop was given. */
    const hasCallback: bool
    /** The `visibilitychange` listener is registered. */
    var listening: bool
    /** Every `onQuestionChange(new, previous)` call made so far, in order. */
    var notifications: seq<(string, string)>

    /** The hook keeps its own invariant and its fixed options, and the ref names the question the hook tags frames with. */
    ghost predicate Valid()
      reads this, tracker
    {
      && tracker.Valid()
      && tracker.maxImageCount == DefaultMaxImageCount
      && tracker.autoStart
      && prevQuestionId == tracker.currentQuestionId
    }

    /** Mounting: the hook starts on the question shown, the video element is attached and the listener registered. */
    constructor(questionId: string, hasCallback: bool)
      ensures Valid()
      ensures fresh(tracker)
      ensures prevQuestionId == questionId && this.hasCallback == hasCallback
      ensures listening && notifications == []
      ensures tracker.queue == [] && tracker.videoAttached && tracker.status == Idle && !tracker.isCapturing
    {
      var hook := new EyeTrackingHook(questionId, DefaultMaxImageCount, true);
      hook.AttachToVideo(true);
      tracker := hook;
      prevQuestionId := questionId;
      this.hasCallback := hasCallback;
      listening := true;
      notifications := [];
    }

    /**
     * A render with `questionId`. The hook's own effect retags later frames
     * first. When the id differs from the ref, the previous question's frames
     * are submitted once and the ref moves to the new id at once, before the
     * submission settles; when it does not, nothing is submitted.
     */
    method QuestionIdChanged(questionId: string) returns (pending: Option<Pending>)
      requires Valid()
      modifies this, tracker
      ensures Valid()
      ensures prevQuestionId == questionId && tracker.currentQuestionId == questionId
      ensures pending.Some? <==> old(prevQuestionId) != questionId
      ensures pending.Some? ==>
        && pending.value.newQuestionId == questionId
        && pending.value.previousQuestionId == old(prevQuestionId)
        && pending.value.batch == WithQuestion(old(tracker.queue), old(prevQuestionId))
        && (pending.value.batch != [] ==> tracker.status == Uploading)
      ensures pending.None? || pending.value.batch == [] ==> tracker.status == old(tracker.status)
      ensures tracker.queue == old(tracker.queue) && tracker.isCapturing == old(tracker.isCapturing)
      ensures listening == old(listening) && notifications == old(notifications)
    {
      tracker.SetQuestionId(questionId);
      if prevQuestionId != questionId {
        var previous := prevQuestionId;
        var batch := tracker.BeginSubmit(previous);
        prevQuestionId := questionId;
        pending := Some(Pending(questionId, previous, batch));
      } else {
        pending := None;
      }
    }

    /**
     * The submission's promise resolves (it never rejects): a non-empty batch
     * is settled by the hook, then the parent is told of the change, new id
     * first, when it asked to be.
     */
    method SubmissionSettled(p: Pending, outcome: Fetched)
      requires Valid()
      modifies this, tracker
      ensures Valid()
      ensures hasCallback ==> notifications == old(notifications) + [(p.newQuestionId, p.previousQuestionId)]
      ensures !hasCallback ==> notifications == old(notifications)
      ensures p.batch == [] ==> tracker.queue == old(tracker.queue) && tracker.status == old(tracker.status)
      ensures p.batch != [] && SubmitOutcome(outcome).Accepted? ==>
        tracker.queue == WithoutQuestion(old(tracker.queue), p.previousQuestionId)
      ensures p.batch != [] && SubmitOutcome(outcome).Failed? ==> tracker.queue == old(tracker.queue)
      ensures p.batch != [] ==> tracker.status == (if tracker.isCapturing then Capturing else Idle)
      ensures prevQuestionId == old(prevQuestionId) && listening == old(listening)
      ensures tracker.isCapturing == old(tracker.isCapturing)
    {
      if p.batch != [] {
        var _ := tracker.FinishSubmit(p.previousQuestionId, outcome);
      }
      if hasCallback {
        notifications := notifications + [(p.newQuestionId, p.previousQuestionId)];
      }
    }

    /** `visibilitychange`, heard only while the listener is registered: hidden stops capture, visible starts it. */
    method OnVisibilityChange(hidden: bool)
      requires Valid()
      modifies this, tracker
      ensures Valid()
      ensures !listening ==> unchanged(tracker)
      ensures listening && hidden ==> !tracker.intervalArmed && !tracker.isCapturing && tracker.status == Idle
      ensures listening && !hidden ==> tracker.intervalArmed && tracker.isCapturing
      ensures listening && !hidden && old(tracker.intervalArmed) ==> unchanged(tracker)
      ensures tracker.queue == old(tracker.queue)
      ensures prevQuestionId == old(prevQuestionId) && listening == old(listening) && notifications == old(notifications)
    {
      if listening {
        if hidden {
          tracker.StopCapturing();
        } else {
          tracker.StartCapturing();
        }
      }
    }

    /** The camera request made on mount settles; with `autoStart` a granted camera starts capture. */
    method CameraSettled(access: CameraAccess)
      requires Valid()
      modifies this, tracker
      ensures Valid()
      ensures access.Granted? ==> tracker.intervalArmed && tracker.isCapturing && tracker.streamHeld
      ensures access.Denied? ==> tracker.error == Some(CameraError(access)) && tracker.streamHeld == old(tracker.streamHeld)
      ensures tracker.queue == old(tracker.queue)
      ensures prevQuestionId == old(prevQuestionId) && listening == old(listening) && notifications == old(notifications)
    {
      var _ := tracker.SetupWebcam(access);
    }

    /** Unmounting: the listener is removed and the hook cleans up. */
    method Unmount()
      requires Valid()
      modifies this, tracker
      ensures Valid()
      ensures !listening
      ensures tracker.queue == [] && !tracker.intervalArmed && !tracker.streamHeld && tracker.status == Idle
      ensures prevQuestionId == old(prevQuestionId) && notifications == old(notifications)
    {
      listening := false;
      tracker.Cleanup();
    }
  }
}
