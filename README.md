# Proctored exam client and API routes, modelled in Dafny

This project models the behavioural core of a Next.js proctored-exam
application. It covers:

- the two webcam capture hooks: the eye-tracking hook, which tags frames
  with the current question and submits one question's frames at a time,
  and the monitoring hook, which uploads every buffered frame separately;
- the `EyeTracker` component, which submits the previous question's frames
  whenever the question changes;
- the shared media-stream provider, which stops the camera stream outside
  the exam and disclaimer pages;
- the exam page's 90-minute countdown and its question buttons;
- the results page's parsing of stored numbers, its percentage, grade,
  performance text, colour, feedback and subject names;
- four API routes: the cognitive-question proxy, the exam-score proxy, the
  eye-tracking proxy, and the webcam-monitoring upload and listing;
- the webcam storage service: the per-image path, the store call, the
  capture log line and the mock image list.

Each source file becomes one module:

| module | file | form |
|---|---|---|
| `EyeTracking` | `eye_tracking.dfy` | class `EyeTrackingHook` plus frame filters and form builders |
| `WebcamMonitoring` | `webcam_monitoring.dfy` | class `WebcamMonitoringHook` plus the per-frame upload form |
| `Capture` | `capture_queue.dfy` | the bounded push-then-evict buffer both hooks share, and the camera error text |
| `EyeTracker` | `eye_tracker.dfy` | class `EyeTrackerView` owning an `EyeTrackingHook` |
| `MediaContext` | `media_context.dfy` | class `MediaProvider` |
| `ExamTimer` | `exam_timer.dfy` | countdown functions and class `ExamPage` |
| `Results` | `results.dfy` | pure functions over JavaScript numbers (`NaN` included) |
| `Retry` | `retry.dfy` | the retry loop the three proxy routes share, as a method proved against a function |
| `CognitiveQuestions`, `ExamScore`, `EyeTrackingRoute`, `WebcamMonitoringRoute` | one file each | the route handlers |
| `WebcamService` | `webcam_service.dfy` | storage path, store, log line, mock listing |
| `Http`, `Text`, `Wrappers` | support | JSON values, form data, HTTP replies; digits and decimal text; `Option` |

Everything outside the program is an argument:
- Network requests are a sequence of outcomes: a response, or a thrown
  error.
- The camera is a granted stream or a refusal.
- A timer tick is a call that may or may not carry a picture.
- Clocks are integers.
- SHA-256, the blob store and `Date.prototype.toISOString` are function
  parameters.

Asynchronous functions that await one request are split at the `await` into
a "begin" method and a "finish" method. This lets other calls happen while
the request is in flight. A combined method shows the case where nothing
happens in between.

## Model

| member | source | states |
|---|---|---|
| Capture.CameraError | hooks/use-eye-tracking.ts:88-93 | a refused camera records the thrown error's own message, or "Failed to access webcam" when what was thrown is not an `Error` |
| Capture.Enqueue | hooks/use-eye-tracking.ts:119-130 | pushing onto the buffer appends the frame and then drops the oldest only when the cap is exceeded: below the cap it is plain append, the result is a suffix of old + new ending in the new frame, and a buffer within the cap stays within it |
| Capture.EnqueueIsNewest | hooks/use-webcam-monitoring.ts:119-124 | one push keeps exactly the newest `cap` frames of the buffer plus the new one |
| Capture.EnqueueAllKeepsNewest | hooks/use-webcam-monitoring.ts:97-139 | any run of captures leaves exactly the newest `cap` frames ever captured, in capture order |
| Capture.NewestOfNewest | hooks/use-eye-tracking.ts:128-130 | evicting early and evicting late agree: trimming to the newest `cap`, then adding more and trimming again, equals trimming once |
| EyeTracking.WithQuestion | hooks/use-eye-tracking.ts:200 | the frames selected for a submission all belong to the target question and are no more than the buffer |
| EyeTracking.WithoutQuestion | hooks/use-eye-tracking.ts:254 | the buffer after a successful submission holds no frame of the submitted question |
| EyeTracking.WithoutQuestionAppend | hooks/use-eye-tracking.ts:254 | removing a question's frames keeps the buffer order of every frame that stays, across questions: the removal of a concatenation is the concatenation of the removals |
| EyeTracking.FiltersPartition | hooks/use-eye-tracking.ts:200-254 | the frames sent and the frames kept together are exactly the buffer, as a multiset: nothing is lost or duplicated |
| EyeTracking.WithoutLeavesNone | hooks/use-eye-tracking.ts:254 | after the removal, selecting the submitted question again finds nothing |
| EyeTracking.WithoutKeepsOthers | hooks/use-eye-tracking.ts:254 | every other question keeps exactly its frames, in their order |
| EyeTracking.FrameEntriesGetAll | hooks/use-eye-tracking.ts:217-238 | the submission form's `images` are the frames' files `image-<timestamp>.jpg` and its `timestamps` the frames' times, in buffer order |
| EyeTracking.RouteForwardsSubmission | app/api/eye-tracking/route.ts:17-47 | a submission with a question and at least one frame passes the route's checks, and the route forwards exactly the hook's form to the backend |
| EyeTracking.SubmissionForm | hooks/use-eye-tracking.ts:217-237 | the submission form has the question id first, which `get` reads back, then one image and one timestamp per frame |
| EyeTracking.SubmitOutcome | hooks/use-eye-tracking.ts:246-252 | a submission is accepted exactly when the request answered ok with JSON; a non-ok JSON answer without an `error` field fails with "Failed to submit images" |
| EyeTracking.EyeTrackingHook.constructor | hooks/use-eye-tracking.ts:26-46 | a new hook is idle, has an empty buffer, no interval, stream or video, and a count of 0 |
| EyeTracking.EyeTrackingHook.SetQuestionId | hooks/use-eye-tracking.ts:49-51 | a question change only retags later frames; nothing else changes |
| EyeTracking.EyeTrackingHook.AttachToVideo | hooks/use-eye-tracking.ts:286-293 | attaching or removing the video element changes only that |
| EyeTracking.EyeTrackingHook.StartCapturing | hooks/use-eye-tracking.ts:158-175 | starting arms the interval and shows "capturing", and is a no-op when already armed |
| EyeTracking.EyeTrackingHook.StopCapturing | hooks/use-eye-tracking.ts:178-194 | stopping clears the interval and shows "idle", and keeps the buffer |
| EyeTracking.EyeTrackingHook.SetupWebcam | hooks/use-eye-tracking.ts:54-95 | a granted camera holds the stream and canvas and, with `autoStart`, starts capture; a refusal records the error and changes nothing else |
| EyeTracking.EyeTrackingHook.TimerTick | hooks/use-eye-tracking.ts:98-155 | a tick with interval, stream, canvas, video, a 2-D context and a picture pushes the frame tagged with the current question, and the count equals the buffer length; any other tick changes nothing |
| EyeTracking.EyeTrackingHook.BeginSubmit | hooks/use-eye-tracking.ts:197-244 | the batch is exactly the target question's frames; an empty batch changes nothing, otherwise the status is "uploading" and the buffer is not yet touched |
| EyeTracking.EyeTrackingHook.FinishSubmit | hooks/use-eye-tracking.ts:246-281 | on acceptance every frame of the target (including frames captured meanwhile) leaves the buffer and the server's JSON is returned; on failure the buffer is kept, the error recorded and `{success: false, error}` returned; either way the status returns to "capturing" or "idle" |
| EyeTracking.EyeTrackingHook.SubmitImagesForQuestion | hooks/use-eye-tracking.ts:197-283 | with no frames of the target the call answers "No images to submit" with no request; otherwise it sends the target's frames as one form and the buffer afterwards is the filtered buffer on success and the same buffer on failure |
| EyeTracking.EyeTrackingHook.Cleanup | hooks/use-eye-tracking.ts:296-325 | cleanup releases interval, stream and video, empties the buffer and resets the state |
| EyeTracking.TickTagsCurrentQuestion | hooks/use-eye-tracking.ts:119-125 | a tick adds at most one frame to any question, and none to a question other than the current one |
| EyeTracking.SuccessDropsFramesCapturedMeanwhile | hooks/use-eye-tracking.ts:241-254 | a frame of the target captured while the request is in flight is removed on success although it was never sent: the removal exceeds the batch by one |
| EyeTrackingRoute.ForwardImages | app/api/eye-tracking/route.ts:34-47 | the loop builds exactly `Forwarded`, the backend entries of every image index in order, whose contents `ForwardedFiles` states |
| EyeTrackingRoute.Files | app/api/eye-tracking/route.ts:36-39 | only `File` values among the images are forwarded, and nothing that was not an image |
| EyeTrackingRoute.ForwardedFiles | app/api/eye-tracking/route.ts:34-47 | the forwarded `images` are exactly the file entries received, in order, and the forwarded `timestamps` are, in order, the truthy timestamps at those files' own indices |
| EyeTrackingRoute.Answer | app/api/eye-tracking/route.ts:92-121 | the reply is 200, 500, 502 or 503; 503 exactly when no response was kept; a non-ok response kept gives 502 with its status in the body |
| EyeTrackingRoute.SentTimestampsAtMostFiles | app/api/eye-tracking/route.ts:38-47 | every forwarded timestamp goes with a forwarded file, so there are never more timestamps than files |
| EyeTrackingRoute.MissingTimestampShiftsLaterOnes | app/api/eye-tracking/route.ts:38-47 | when the first of two files has an empty timestamp, the backend gets both files but only the second file's timestamp, first in line |
| EyeTrackingRoute.Post | app/api/eye-tracking/route.ts:11-133 | an unreadable form answers 500; a missing question id answers 400 with nothing forwarded; no images answers 400; otherwise the route retries the forward and maps its answer |
| EyeTrackingRoute.StatusMapping | app/api/eye-tracking/route.ts:92-121 | 503 exactly when every attempt threw; a non-ok response kept gives 502 with its status in the body; no other status than 200, 500, 502 or 503 |
| Retry.Waits | app/api/cognitive-questions/route.ts:66-77 | the waits between attempts are 1000·2^k ms for the k-th retry |
| Retry.FirstStopFrom | app/api/cognitive-questions/route.ts:55-61 | the attempt that ends the loop is an ok or 4xx answer, within the three attempts |
| Retry.LastReceived | app/api/cognitive-questions/route.ts:70-78 | a thrown attempt keeps the last response received so far |
| Retry.RetryLoop | app/api/cognitive-questions/route.ts:41-79 | the imperative loop computes exactly the retry policy: attempts made, waits, and the response kept |
| Retry.Policy | app/api/cognitive-questions/route.ts:41-79 | the policy the three proxy routes share makes one to three attempts with a wait between consecutive attempts, and the response it keeps is one that an attempt received |
| Retry.PolicyShape | app/api/exam-score/route.ts:41-80 | the loop stops at the first ok or 4xx answer, or after three attempts, waiting only between attempts |
| Retry.FirstStopMinimal | app/api/eye-tracking/route.ts:57-89 | no attempt before the stopping one is ok or 4xx |
| Retry.NoStopMeansNone | app/api/eye-tracking/route.ts:57-89 | when nothing stops the loop, none of the three attempts was ok or 4xx |
| Retry.LastReceivedNone | app/api/cognitive-questions/route.ts:70-78 | no response is kept exactly when every attempt threw |
| Retry.NoResponseIffAllThrew | app/api/cognitive-questions/route.ts:81-91 | the 503 "failed to connect" case happens exactly when all three attempts threw |
| Retry.LastReceivedIsLatest | app/api/cognitive-questions/route.ts:70-78 | the response kept is the latest one received, and only thrown attempts follow it |
| Retry.TwoServerErrorsThenSuccess | app/api/cognitive-questions/route.ts:45-79 | 500, 500, 200 makes three attempts with waits of 2 s and 4 s and keeps the 200 |
| Retry.NotFoundIsNotRetried | app/api/cognitive-questions/route.ts:58-61 | a 404 ends the loop after one attempt |
| Retry.ThreeNetworkErrors | app/api/cognitive-questions/route.ts:70-78 | three thrown attempts keep no response |
| CognitiveQuestions.ErrorMessageFor | app/api/cognitive-questions/route.ts:98-105 | 404, 401/403 and every other status get their own message |
| CognitiveQuestions.Post | app/api/cognitive-questions/route.ts:12-146 | a body that is not JSON answers 500 with its error; a body without a truthy `cognitiveState` and `subject` answers 400 without a request; otherwise the retry policy runs and its result is answered |
| CognitiveQuestions.Get | app/api/cognitive-questions/route.ts:151-160 | GET answers 405 with `success: false` |
| CognitiveQuestions.AnswerStatus | app/api/cognitive-questions/route.ts:82-134 | no response gives 503; a non-ok response passes its status on with the mapped message; an ok response without a truthy `question` gives 502; 200 exactly when the response is ok with a question |
| CognitiveQuestions.Answer | app/api/cognitive-questions/route.ts:82-134 | no response kept gives 503; a non-ok response passes its own status on; an ok response gives 200, 500 or 502 |
| CognitiveQuestions.UnavailableOnlyWhenAllThrewOrPassedOn | app/api/cognitive-questions/route.ts:41-114 | the route answers 503 only when every attempt threw or the backend itself answered 503 |
| CognitiveQuestions.SuccessMergesBackendBody | app/api/cognitive-questions/route.ts:131-134 | a successful answer is the backend's JSON with `success: true` |
| ExamScore.BackendQuery | app/api/exam-score/route.ts:32-38 | the forwarded query is built from the given parameters only |
| ExamScore.PresentParams | app/api/exam-score/route.ts:35-38 | every forwarded pair is a given parameter with its own value, and there are no more pairs than known keys |
| ExamScore.Answer | app/api/exam-score/route.ts:83-124 | no response kept gives 503; a non-ok response passes its own status on; an ok response gives 200 or 500 |
| ExamScore.PresentParamsExact | app/api/exam-score/route.ts:32-38 | a pair is forwarded exactly when its key is one of the known keys and that parameter is given, each key at most once |
| ExamScore.ErrorMessageFor | app/api/exam-score/route.ts:99-106 | 404, 401/403 and every other status get their own message |
| ExamScore.Get | app/api/exam-score/route.ts:11-136 | with neither `examId` nor `sessionId` the route answers 400 and makes no request; otherwise it forwards the present parameters and answers from the retry policy |
| ExamScore.UnavailableIffAllThrew | app/api/exam-score/route.ts:83-92 | the 503 "failed to connect" answer happens exactly when every attempt threw |
| ExamScore.ErrorStatusPassedOn | app/api/exam-score/route.ts:95-115 | a non-ok backend answer keeps its status, maps its message and carries the backend's text as `details` |
| WebcamMonitoringRoute.StatusFor | app/api/webcam-monitoring/route.ts:66-74 | a caught error answers 413 exactly when its message contains "exceeded", and 500 otherwise |
| WebcamMonitoringRoute.OwnErrorsAreNotTooLarge | app/api/webcam-monitoring/route.ts:36-48 | neither error the route itself can raise mentions "exceeded", so neither is reported as 413 |
| WebcamMonitoringRoute.TimestampOf | app/api/webcam-monitoring/route.ts:27-46 | a missing or empty timestamp uses the server clock, a digit string is read as its number, and any other text or a file gives `NaN` |
| WebcamMonitoringRoute.PostTooLarge | app/api/webcam-monitoring/route.ts:66-74 | POST answers only 200, 400, 413 or 500, and 413 exactly for an unreadable body whose error mentions "exceeded" |
| WebcamMonitoringRoute.Post | app/api/webcam-monitoring/route.ts:17-75 | an unreadable body answers 413 or 500; a readable form missing a field answers 400 with "Missing required fields" |
| WebcamMonitoringRoute.PostBadRequest | app/api/webcam-monitoring/route.ts:32-38 | 400 exactly when a required field is missing or the image's type is not `image/...` |
| WebcamMonitoringRoute.PostSucceeds | app/api/webcam-monitoring/route.ts:17-65 | 200 exactly when all fields are present, the image is an image, and the store succeeds |
| WebcamMonitoringRoute.PostReturnsStoredUrl | app/api/webcam-monitoring/route.ts:41-65 | on success the reply carries the URL under which the store put the file |
| WebcamMonitoringRoute.Get | app/api/webcam-monitoring/route.ts:80-112 | 400 exactly when `userId`, `examId` or `sessionId` is missing, otherwise 200 with the mock image list |
| WebcamService.TimestampText | lib/webcam-service.ts:142 | the timestamp part of a path is non-empty and has no `/` |
| WebcamService.GenerateUniqueImageFilename | lib/webcam-service.ts:134-143 | every generated path lies under `webcam/` and names a `.jpg` file |
| WebcamService.FilenameParts | lib/webcam-service.ts:134-143 | for user, exam and question ids without `/`, a path splits into `webcam`, user, exam, question and `<timestamp>-<12 hex>.jpg` |
| WebcamService.FilenameDeterminesOwner | lib/webcam-service.ts:134-143 | for user, exam and question ids without `/`, two images stored under the same path belong to the same user, exam and question |
| WebcamService.StoreWebcamImage | lib/webcam-service.ts:36-52 | storing succeeds exactly when the store accepts the generated path, and returns the store's URL; a store failure raises "Failed to store webcam image" |
| WebcamService.CaptureImageLog | lib/webcam-service.ts:59-87 | the log line carries the ids, the image URL and the ISO time when the timestamp is a valid date; an invalid date is caught and logged as "Invalid time value" |
| WebcamService.GetWebcamImages | lib/webcam-service.ts:95-126 | the listing is three numbered mock images taken 5, 4 and 3 seconds before now |
| WebcamMonitoring.Failures | hooks/use-webcam-monitoring.ts:229-232 | the failure count is at most the number of requests, and zero exactly when none rejected |
| WebcamMonitoring.WebcamMonitoringHook.constructor | hooks/use-webcam-monitoring.ts:32-43 | a new hook is idle, has an empty buffer and a count of 0 |
| WebcamMonitoring.WebcamMonitoringHook.AttachToVideo | hooks/use-webcam-monitoring.ts:253-260 | attaching or removing the video element changes only that |
| WebcamMonitoring.WebcamMonitoringHook.StartCapturing | hooks/use-webcam-monitoring.ts:142-155 | starting arms the interval and shows "capturing", and is a no-op when already armed |
| WebcamMonitoring.WebcamMonitoringHook.StopCapturing | hooks/use-webcam-monitoring.ts:158-170 | stopping clears the interval, shows "idle" and keeps the buffer |
| WebcamMonitoring.WebcamMonitoringHook.SetupWebcam | hooks/use-webcam-monitoring.ts:53-94 | a granted camera holds the stream and canvas and, with `autoStart`, starts capture; a refusal records the error only |
| WebcamMonitoring.WebcamMonitoringHook.TimerTick | hooks/use-webcam-monitoring.ts:97-139 | a tick with every resource and a picture pushes it with the tick's time, evicting past the cap; any other tick changes nothing |
| WebcamMonitoring.WebcamMonitoringHook.BeginUpload | hooks/use-webcam-monitoring.ts:173-200 | an empty buffer or a running upload changes nothing; otherwise the buffer is emptied before any request and one form per frame is built, in order |
| WebcamMonitoring.WebcamMonitoringHook.FinishUpload | hooks/use-webcam-monitoring.ts:219-240 | failures are counted and never put back; the status returns to "capturing" or "idle", the count shows the frames captured meanwhile, and the call reports success |
| WebcamMonitoring.WebcamMonitoringHook.UploadImages | hooks/use-webcam-monitoring.ts:173-250 | an upload with nothing in between posts every buffered frame once and leaves the buffer empty, whatever the requests did |
| WebcamMonitoring.WebcamMonitoringHook.Cleanup | hooks/use-webcam-monitoring.ts:263-287 | cleanup releases interval, stream and video and resets the state; the buffer itself is left as it was |
| WebcamMonitoring.UploadFormAccepted | hooks/use-webcam-monitoring.ts:192-200 | each upload form, with non-empty ids and an image type, is accepted by the webcam route with 200 and the stored URL, and stored under the frame's capture time |
| WebcamMonitoring.UploadForm | hooks/use-webcam-monitoring.ts:194-200 | one upload form has six entries, and only the `image` entry is a file |
| WebcamMonitoring.UploadFormFields | hooks/use-webcam-monitoring.ts:194-200 | each field of an upload form reads back as the ids, the timestamp's decimal text and the image file `image-<timestamp>.jpg` |
| EyeTracker.EyeTrackerView.constructor | components/eye-tracker.tsx:13-20 | mounting creates a 60-frame hook with `autoStart`, attaches the video and registers the visibility listener |
| EyeTracker.EyeTrackerView.QuestionIdChanged | components/eye-tracker.tsx:23-38 | a changed question submits exactly the previous question's frames once, and the remembered id moves on at once; an unchanged one submits nothing |
| EyeTracker.EyeTrackerView.SubmissionSettled | components/eye-tracker.tsx:28-33 | when the submission settles, the parent is told (new id, previous id) if it asked to be, and the buffer is filtered on success and kept on failure |
| EyeTracker.EyeTrackerView.OnVisibilityChange | components/eye-tracker.tsx:41-55 | hiding the page stops capture and showing it starts capture, while the listener is registered |
| EyeTracker.EyeTrackerView.CameraSettled | components/eye-tracker.tsx:16-20 | with `autoStart`, a granted camera starts capture; a refusal records the error |
| EyeTracker.EyeTrackerView.Unmount | components/eye-tracker.tsx:41-55 | unmounting removes the listener and the hook cleans up, emptying its buffer |
| MediaContext.KeepsStreamExamples | context/media-context.tsx:56-57 | `/exam`, `/disclaimer` and their query variants keep the stream; other paths, `/exams` and `/exam/1` included, do not |
| MediaContext.KeepsStream | context/media-context.tsx:56-57 | only paths that start with `/exam` or `/disclaimer` keep the stream |
| MediaContext.MediaProvider.constructor | context/media-context.tsx:23-25 | the provider starts with no stream and inactive |
| MediaContext.MediaProvider.StartMediaStream | context/media-context.tsx:28-43 | a held stream is reused without asking the browser; otherwise the granted stream is held, or nothing on refusal |
| MediaContext.MediaProvider.StopMediaStream | context/media-context.tsx:46-52 | stopping stops the held stream's tracks once and forgets it |
| MediaContext.MediaProvider.Navigate | context/media-context.tsx:55-69 | across a path change the stream survives exactly when both paths keep it; a stream that does not survive is stopped once |
| MediaContext.MediaProvider.Unmount | context/media-context.tsx:64-68 | unmounting stops the stream unless the current path keeps it: a dropped stream's tracks are stopped once, a kept stream is the same stream, and nothing else is stopped |
| ExamTimer.Breakdown | app/exam/page.tsx:76-78 | hours, minutes and seconds put back together give the time left, less under one second, with minutes and seconds below 60 |
| ExamTimer.BreakdownRoundTrip | app/exam/page.tsx:76-78 | any hours, minutes and seconds (plus under a second) split back into themselves |
| ExamTimer.InitialTimeLeftIsFullDuration | app/exam/page.tsx:15 | the text shown before the first tick is the split of the 90-minute duration |
| ExamTimer.TimeLeft | app/exam/page.tsx:71-80 | "Time's up!" is shown exactly when no time is left |
| ExamTimer.Render | app/exam/page.tsx:76-79 | the countdown text starts with the digits of the hours, so it is never "Time's up!" |
| ExamTimer.ExamPage.constructor | app/exam/page.tsx:63-66 | mounting records the start time, arms the timer and shows the full duration |
| ExamTimer.ExamPage.Tick | app/exam/page.tsx:66-82 | a tick shows the time left since the start and disarms the timer exactly when the duration has passed |
| ExamTimer.ExamPage.Unmount | app/exam/page.tsx:85-91 | unmounting clears the timer |
| ExamTimer.QuestionNumbers | app/exam/page.tsx:33 | there are twenty question buttons |
| ExamTimer.QuestionButtons | app/exam/page.tsx:117-118 | the buttons are numbered 1 to 20 in increasing order, and only the first is drawn as current |
| Results.DigitRun | app/results/page.tsx:27-29 | parsing reads the longest run of digits and stops at the first non-digit |
| Results.ParseInt | app/results/page.tsx:27-29 | text that does not start with a digit or sign parses to `NaN` |
| Results.ParseIntString | app/results/page.tsx:27-29 | parsing the decimal text of any integer gives that integer back |
| Results.ParseIntIgnoresSuffix | app/results/page.tsx:27-29 | trailing text after the digits is ignored |
| Results.Load | app/results/page.tsx:19-37 | the page redirects home exactly when one of the three stored numbers is missing or empty |
| Results.LoadReadsBackStoredNumbers | app/results/page.tsx:26-30 | stored numbers are read back as themselves, and a missing subject becomes "" |
| Results.SubjectName | app/results/page.tsx:39-48 | a known slug shows its name, and a slug shows as itself exactly when it is unknown |
| Results.RoundedRatio | app/results/page.tsx:50-52 | the rounded percentage is within one half of the exact ratio, rounding halves up |
| Results.GetPercentage | app/results/page.tsx:50-52 | a non-zero total gives the rounded percentage; a zero total with a non-zero score gives ±Infinity, with the score's sign; a zero total and zero score give `NaN` |
| Results.PercentageMonotone | app/results/page.tsx:50-52 | a higher score never gives a lower percentage |
| Results.PercentageBounds | app/results/page.tsx:50-52 | a score between 0 and the total gives a percentage between 0 and 100 |
| Results.FullMarks | app/results/page.tsx:50-79 | full marks give 100%, grade A, "Excellent", green and the strong feedback |
| Results.Grade | app/results/page.tsx:54-61 | A exactly from 90, B from 80 below 90, C from 70 below 80, D from 60 below 70, F below 60 (`NaN` is below every bound) |
| Results.GradeMonotone | app/results/page.tsx:54-61 | a percentage that is not lower never gets a worse grade |
| Results.PerformanceText | app/results/page.tsx:63-71 | "Excellent" exactly from 90, "Very Good" from 80, "Good" from 70, "Satisfactory" from 60, "Needs Improvement" from 50, each below the next bound, and "Poor" below 50 |
| Results.PerformanceColor | app/results/page.tsx:73-79 | green exactly from 80, blue from 60 below 80, amber from 50 below 60, red below 50 |
| Results.Feedback | app/results/page.tsx:160-164 | the strong paragraph exactly from 70, the basic one from 50 below 70, the review one below 50 |
| Results.DisplaysAgreeWithGrade | app/results/page.tsx:54-79 | grade, text, colour and feedback agree: each grade has its text, green is A or B, blue is C or D, amber is "Needs Improvement", red is "Poor" |
| Results.NotANumberIsLowest | app/results/page.tsx:54-79 | a `NaN` percentage shows F, "Poor", red and the review feedback |
| Results.Minus | app/results/page.tsx:144 | a difference is a number exactly when both operands are |
| Results.Incorrect | app/results/page.tsx:144 | the incorrect count is a number exactly when the answered count and the score are, and is then their difference |
| Results.Unanswered | app/results/page.tsx:151 | the unanswered count is a number exactly when the total and the answered count are, and is then their difference |
| Results.StoredCountsShown | app/results/page.tsx:144-151 | numbers stored as decimal text show as incorrect `answered - score` and unanswered `total - answered` |
| Results.UnparsedCountIsNotANumber | app/results/page.tsx:144-151 | a count shows `NaN` exactly when one of the two stored numbers it is computed from does not parse |

## Left out

- Camera, canvas and JPEG encoding (`getUserMedia`, `drawImage`, `toBlob`) are browser calls. A tick carries a picture or nothing, and a picture is opaque bytes with a MIME type.
- Timers (`setInterval`, `setTimeout`) and `Date.now()` are left out. A tick is a method call, the backoff waits are a returned sequence, and every clock reading is an argument.
- `fetch`, `FormData` transport, JSON serialisation and `NextResponse` are left out. A request's fate is an outcome (a response with status and parsed body, or a thrown message), and a reply is a status and a JSON object. JSON numbers are integers.
- JSON that parses to something other than an object (`null`, an array, a string, a number, a boolean) is not represented: a parsed body is an object or a parse failure. In the source a request body of `null` makes `requestData.cognitiveState` throw, which the cognitive-question route answers with 500, and a backend `null` makes `questionData.question` throw, also answered with 500. Arrays and other values read every named field as `undefined`, and spreading them into a reply copies their indices.
- SHA-256 and the blob store's `put` are function parameters. Only the shape of the hex digest is assumed: it has no `/` and at least 12 characters.
- `Promise.allSettled` in the monitoring upload: the requests' interleaving is not modelled, only one outcome per frame. Its catch branch cannot be reached because `allSettled` never rejects, so it is not modelled.
- React batching, effect scheduling and stale closures are left out. State updates take effect at once, and the monitoring hook's `state.status` guard reads the current status.
- The `debug` option and every `console.log` are left out, except the capture log line the service builds.
- The exam page's camera start-up, user photo and question content are left out. Only its countdown and question buttons are modelled.
- The eye tracker's `useEffect` dependency details are left out. `onQuestionChange` is modelled as present or absent, and its calls are recorded in order.
- Concurrent `startMediaStream` calls made before the first settles are not modelled. Only one acquisition is in flight at a time.
- Results.GetPercentage: the ratio is computed exactly and rounded half up. Floating-point rounding of `score / total * 100` before `Math.round` is not modelled. Negative zero is not distinguished from zero.
- Results.ParseInt: leading whitespace and `0x` prefixes are not modelled, because stored values are written by the exam page as decimal text.
- Results.ParseInt: a run of digits is read as an exact integer. `Number.parseInt` rounds values above 2^53 to the nearest double ("9007199254740993" gives 9007199254740992), so `Results.ParseIntString` holds for the model's integers, not for the page beyond that bound.
- Results.SubjectName: keys inherited from `Object.prototype` (such as `constructor`) are not modelled, so only the five listed slugs are known.
- WebcamMonitoringRoute.TimestampOf: a timestamp field that is not a plain digit string is taken as `NaN`. `Number()`'s handling of signs, decimals and whitespace is not modelled.
- WebcamMonitoringRoute.TimestampOf: a digit string is read as an exact integer. `Number()` rounds values above 2^53 to the nearest double, and `${timestamp}` writes values from 1e21 up in exponent form, so for such timestamps the stored value and the file name differ from the model's.
- WebcamService.FilenameParts, WebcamService.FilenameDeterminesOwner: both require user, exam and question ids without `/`. The route takes these ids from arbitrary form text, and an id holding `/` (user "a/b" with exam "c", or user "a" with exam "b/c") makes the path split differently, so the directory segments no longer determine the owner.
- WebcamMonitoringRoute.Post: the `captureImageLog` call after a successful store is not part of `Post`, and neither is its second `Date.now()` reading. No reply depends on it, because `captureImageLog` catches every error it raises (lib/webcam-service.ts:83-86). The log record itself is modelled by `WebcamService.CaptureImageLog`.
- WebcamService.GetWebcamImages uses one clock reading for the three mock timestamps. Its "Failed to retrieve" catch branch cannot be reached, so it is not modelled.
- The status "error" that both hooks declare is never set by the source, and the model never sets it either.
- The cognitive-question and exam-score routes pass a backend 503 on as their own 503. The lemmas say "all attempts threw, or the backend answered 503".
- `hooks/use-cognitive-analysis.ts`, `hooks/use-cognitive-questions.ts`, `hooks/use-exam-score.ts` and `lib/api-utils.ts` are not part of this model. They hold a random mock, thin fetch wrappers and one-line helpers.
- Presentational pages and components are not part of this model. They have no behaviour beyond rendering.
