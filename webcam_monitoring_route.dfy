/**
 * The webcam upload route (app/api/webcam-monitoring/route.ts): POST checks
 * one uploaded frame and its ids, stores it through the webcam service and
 * classifies any error as 413 or 500; GET lists a session's images.
 */
module WebcamMonitoringRoute {
  import opened Wrappers
  import opened Text
  import opened Http
  import opened WebcamService

  const MissingFieldsMessage := "Missing required fields"
  const InvalidTypeMessage := "Invalid file type. Only images are allowed."
  const StoredMessage := "Image captured and stored successfully"
  const MissingParametersMessage := "Missing required parameters"
  /** What reading `type` of a text entry throws: a string has no `type`, so `startsWith` is called on `undefined`. */
  const NoTypeMessage := "Cannot read " + "properties " + "of undefined " + "(reading " + "'startsWith')"

  /** The status an error is answered with: 413 when its message mentions "exceeded", 500 otherwise. */
  function StatusFor(message: string): (status: int)
    ensures status == 413 <==> Contains(message, "exceeded")
    ensures status == 500 <==> !Contains(message, "exceeded")
  {
    if Contains(message, "exceeded") then 413 else 500
  }

  /** The reply to an error thrown inside the handler. */
  function ErrorReply(message: string): Reply {
    ErrorResponse(message, StatusFor(message))
  }

  /**
   * `timestamp ? Number(timestamp) : Date.now()`: a missing or empty field
   * takes the current time; a string of digits is its value; any other text is
   * read as `NaN`, and so is a file, whose text is "[object File]".
   */
  function TimestampOf(field: Option<FormValue>, now: int): (t: Timestamp)
    ensures field.None? ==> t == Millis(now)
    ensures field.Some? && field.value.Text? && AllDigits(field.value.s) && field.value.s != "" ==>
      t == Millis(ParseNat(field.value.s))
    ensures field == Some(Text("")) ==> t == Millis(now)
    ensures field.Some? && field.value.Text? && field.value.s != "" && !AllDigits(field.value.s) ==> t == NotANumber
    ensures field.Some? && field.value.File? ==> t == NotANumber
  {
    match field
    case None => Millis(now)
    case Some(v) =>
      match v
      case Text(s) =>
        if s == "" then Millis(now)
        else if AllDigits(s) then Millis(ParseNat(s))
        else NotANumber
      case File(_, _, _) => NotANumber
  }

  /** Every required field is present and truthy. */
  predicate HasRequiredFields(entries: seq<Entry>) {
    && Present(entries, "userId") && Present(entries, "examId")
    && Present(entries, "questionId") && Present(entries, "sessionId")
    && Present(entries, "image")
  }

  /** What `storeWebcamImage` is given for a form that passed validation. */
  function ImageDataOf(entries: seq<Entry>, now: int): ImageData
    requires HasRequiredFields(entries)
  {
    ImageData(FormText(FormGet(entries, "userId").value), FormText(FormGet(entries, "examId").value),
              FormText(FormGet(entries, "questionId").value), FormText(FormGet(entries, "sessionId").value),
              TimestampOf(FormGet(entries, "timestamp"), now), FormGet(entries, "image").value)
  }

  /**
   * POST: an unreadable body is an error; a missing id or image answers 400;
   * an image entry that is text throws on its missing `type`; a file whose type
   * is not "image/..." answers 400; otherwise the stored image's URL is returned,
   * or the storage error is reported.
   */
  function Post(form: FormBody, now: int, hexDigest: string -> string, put: string -> PutResult): (r: Reply)
    ensures form.Unreadable? ==> r.status in {413, 500}
    ensures form.Entries? && !HasRequiredFields(form.entries) ==> r == ErrorResponse(MissingFieldsMessage, 400)
  {
    match form
    case Unreadable(message) => ErrorReply(message)
    case Entries(entries) =>
      if !HasRequiredFields(entries) then ErrorResponse(MissingFieldsMessage, 400)
      else
        var image := FormGet(entries, "image").value;
        if image.Text? then ErrorReply(NoTypeMessage)
        else if !StartsWith(image.mimeType, "image/") then ErrorResponse(InvalidTypeMessage, 400)
        else
          match StoreWebcamImage(ImageDataOf(entries, now), hexDigest, put)
          case Threw(message) => ErrorReply(message)
          case Stored(url) =>
            Reply(200, map["success" := JBool(true), "imageUrl" := JStr(url), "message" := JStr(StoredMessage)])
  }

  /** Neither error the handler raises itself mentions "exceeded". */
  lemma OwnErrorsAreNotTooLarge()
    ensures !Contains(StoreFailedMessage, "exceeded") && !Contains(NoTypeMessage, "exceeded")
  {
    MissingCharNotContained(StoreFailedMessage, "exceeded", 'x');
    NoTypeMessageLacksX();
    MissingCharNotContained(NoTypeMessage, "exceeded", 'x');
  }

  /** The message, piece by piece, has no 'x'. */
  lemma NoTypeMessageLacksX()
    ensures 'x' !in NoTypeMessage
  {
    assert 'x' !in "Cannot read " && 'x' !in "properties " && 'x' !in "of undefined ";
    assert 'x' !in "(reading " && 'x' !in "'startsWith')";
  }

  /**
   * The POST statuses: 413 only for a body too large to read (a storage
   * failure is always 500), and nothing but 200, 400, 413 and 500.
   */
  lemma PostTooLarge(form: FormBody, now: int, hexDigest: string -> string, put: string -> PutResult)
    ensures var r := Post(form, now, hexDigest, put);
      && r.status in {200, 400, 413, 500}
      && (r.status == 413 <==> form.Unreadable? && Contains(form.message, "exceeded"))
  {
    OwnErrorsAreNotTooLarge();
  }

  /** 400 exactly for a readable form lacking a field, or whose image is a file of another type. */
  lemma PostBadRequest(form: FormBody, now: int, hexDigest: string -> string, put: string -> PutResult)
    ensures Post(form, now, hexDigest, put).status == 400 <==>
      form.Entries? &&
      (!HasRequiredFields(form.entries) ||
       (FormGet(form.entries, "image").value.File? &&
        !StartsWith(FormGet(form.entries, "image").value.mimeType, "image/")))
  {
    OwnErrorsAreNotTooLarge();
  }

  /** 200 exactly for a complete form with an image file that the store accepts. */
  lemma PostSucceeds(form: FormBody, now: int, hexDigest: string -> string, put: string -> PutResult)
    ensures Post(form, now, hexDigest, put).status == 200 <==>
      form.Entries? && HasRequiredFields(form.entries) &&
      FormGet(form.entries, "image").value.File? &&
      StartsWith(FormGet(form.entries, "image").value.mimeType, "image/") &&
      put(GenerateUniqueImageFilename(ImageDataOf(form.entries, now), hexDigest)).Put?
  {
    OwnErrorsAreNotTooLarge();
  }

  /** A stored image is answered with its URL, and it was stored under the generated name. */
  lemma PostReturnsStoredUrl(entries: seq<Entry>, now: int, hexDigest: string -> string, put: string -> PutResult)
    requires HasRequiredFields(entries)
    requires FormGet(entries, "image").value.File?
    requires StartsWith(FormGet(entries, "image").value.mimeType, "image/")
    requires put(GenerateUniqueImageFilename(ImageDataOf(entries, now), hexDigest)).Put?
    ensures var r := Post(Entries(entries), now, hexDigest, put);
      && r.status == 200
      && "imageUrl" in r.body
      && r.body["imageUrl"] == JStr(put(GenerateUniqueImageFilename(ImageDataOf(entries, now), hexDigest)).url)
  {
  }

  /** GET: the user, the exam and the session are required (the question is not); then the listing. */
  function Get(params: Query, now: int): (r: Reply)
    ensures r.status == 400 <==> !(Given(params, "userId") && Given(params, "examId") && Given(params, "sessionId"))
    ensures r.status == 200 ==> "images" in r.body && r.body["images"] == JArr(GetWebcamImages(now))
    ensures r.status in {200, 400}
  {
    if !(Given(params, "userId") && Given(params, "examId") && Given(params, "sessionId")) then
      ErrorResponse(MissingParametersMessage, 400)
    else
      Reply(200, map["success" := JBool(true), "images" := JArr(GetWebcamImages(now))])
  }
}
